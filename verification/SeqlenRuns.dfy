/** The answers of one SeqlenBalancedSampler over any sequence of calls: what the ranks of one batch get together. */
module SeqlenRuns {
  import opened Prelude
  import opened SeqlenSampler
  import G = GroupScan

  /** One call with its answer. */
  datatype Call = Call(asked: Asked, answer: Outcome)

  type Kept = map<Key, seq<seq<int>>>

  /** kept[i] is what the sampler keeps before call i. */
  ghost predicate Run(kept: seq<Kept>, calls: seq<Call>, n: nat, dpSize: nat) {
    && |kept| == |calls| + 1 && kept[0] == map[] && n > 0
    && forall i :: 0 <= i < |calls| ==> StepOk(kept, calls, i, n, dpSize)
  }

  ghost predicate StepOk(kept: seq<Kept>, calls: seq<Call>, i: nat, n: nat, dpSize: nat)
    requires i < |calls| && |kept| == |calls| + 1
  {
    Answered(kept[i], calls[i].asked, kept[i + 1], calls[i].answer, n, dpSize)
  }

  lemma {:induction false} KeptStays(kept: seq<Kept>, calls: seq<Call>, n: nat, dpSize: nat, i: nat, j: nat, key: Key)
    requires Run(kept, calls, n, dpSize) && i <= j < |kept| && key in kept[i]
    ensures key in kept[j] && kept[j][key] == kept[i][key]
    decreases j - i
  {
    if i < j {
      assert StepOk(kept, calls, i, n, dpSize);
      hide FairFor, Told;
      KeptStays(kept, calls, n, dpSize, i + 1, j, key);
    }
  }

  /** Kept shares were fixed by one call, as fair shares of the groups that it found. */
  lemma {:induction false} FixedBy(kept: seq<Kept>, calls: seq<Call>, n: nat, dpSize: nat, i: nat, key: Key) returns (first: nat)
    requires Run(kept, calls, n, dpSize) && i < |kept| && key in kept[i]
    ensures first < i && calls[first].asked.key == key && FairFor(kept[i][key], calls[first].asked, n, dpSize)
  {
    assert i > 0;
    assert StepOk(kept, calls, i - 1, n, dpSize);
    hide FairFor, Told;
    if key in kept[i - 1] {
      first := FixedBy(kept, calls, n, dpSize, i - 1, key);
    } else {
      first := i - 1;
    }
  }

  lemma AnswerIsShare(kept: seq<Kept>, calls: seq<Call>, n: nat, dpSize: nat, i: nat)
    requires Run(kept, calls, n, dpSize) && i < |calls| && calls[i].answer.Sampled? && calls[i].answer.indexes != []
    ensures var asked := calls[i].asked; asked.key in kept[|calls|] && Told(kept[|calls|][asked.key], asked.rank, calls[i].answer)
  {
    assert StepOk(kept, calls, i, n, dpSize);
    hide FairFor, Told;
    KeptStays(kept, calls, n, dpSize, i + 1, |calls|, calls[i].asked.key);
  }

  /** Call at[p] asked for rank p of this batch and was answered with samples. */
  ghost predicate AllRanksAnswered(calls: seq<Call>, key: Key, dpSize: nat, at: seq<nat>) {
    |at| == dpSize && forall p: nat :: p < dpSize ==> RankAnswered(calls, key, p, at[p])
  }

  ghost predicate RankAnswered(calls: seq<Call>, key: Key, rank: nat, i: nat) {
    && i < |calls| && calls[i].asked.key == key && calls[i].asked.rank == rank
    && calls[i].answer.Sampled? && calls[i].answer.indexes != []
  }

  ghost function Answers(calls: seq<Call>, at: seq<nat>): seq<seq<int>>
    requires forall p :: 0 <= p < |at| ==> at[p] < |calls| && calls[at[p]].answer.Sampled?
  {
    seq(|at|, p requires 0 <= p < |at| => calls[at[p]].answer.indexes)
  }

  /**
   Whatever the order of the calls, and whether an answer was worked out or kept: the answers to the ranks of one batch are
   fair shares of the groups that one of its calls found. They have no index in common, each has batch_size samples of
   whole groups, and together they are exactly the groups' samples.
   */
  lemma AnswersAreFair(kept: seq<Kept>, calls: seq<Call>, n: nat, dpSize: nat, key: Key, at: seq<nat>) returns (first: nat)
    requires Run(kept, calls, n, dpSize) && dpSize > 0 && AllRanksAnswered(calls, key, dpSize, at)
    ensures first < |calls| && calls[first].asked.key == key
    ensures forall p :: 0 <= p < |at| ==> at[p] < |calls| && calls[at[p]].answer.Sampled?
    ensures var asked := calls[first].asked;
            Distinct(asked.ready) ==> Fair(Answers(calls, at), G.Groups(asked.ready, n, asked.batchSize * dpSize / n), dpSize, asked.batchSize)
  {
    hide Fair, Run;
    var last := |calls|;
    LengthOf(kept, calls, n, dpSize);
    forall p: nat | p < dpSize ensures RankAnswered(calls, key, p, at[p]) && key in kept[last] && Told(kept[last][key], p, calls[at[p]].answer) {
      assert RankAnswered(calls, key, p, at[p]);
      AnswerIsShare(kept, calls, n, dpSize, at[p]);
    }
    assert RankAnswered(calls, key, 0, at[0]);
    first := FixedBy(kept, calls, n, dpSize, last, key);
    assert Answers(calls, at) == kept[last][key];
  }

  lemma LengthOf(kept: seq<Kept>, calls: seq<Call>, n: nat, dpSize: nat)
    requires Run(kept, calls, n, dpSize)
    ensures |kept| == |calls| + 1 && n > 0
  {
  }

  /** A rank is always told the same, and a rank past the last one nothing. */
  lemma SameAnswer(kept: seq<Kept>, calls: seq<Call>, n: nat, dpSize: nat, i: nat, j: nat)
    requires Run(kept, calls, n, dpSize) && i <= j < |calls| && calls[i].asked.key == calls[j].asked.key && calls[i].asked.rank == calls[j].asked.rank
    requires calls[i].answer.Sampled? && calls[i].answer.indexes != []
    ensures calls[j].answer == calls[i].answer && calls[i].asked.rank < dpSize
  {
    var key := calls[i].asked.key;
    AnswerIsShare(kept, calls, n, dpSize, i);
    assert StepOk(kept, calls, i, n, dpSize);
    assert StepOk(kept, calls, j, n, dpSize);
    var _ := FixedBy(kept, calls, n, dpSize, |calls|, key);
    KeptStays(kept, calls, n, dpSize, i + 1, j + 1, key);
    KeptStays(kept, calls, n, dpSize, j + 1, |calls|, key);
    hide Fair;
    if i < j { KeptStays(kept, calls, n, dpSize, i + 1, j, key); }
  }
}
