/**
 GRPOGroupNSampler (transfer_queue/sampler/grpo_group_n_sampler.py): a greedy scan over the sorted ready indexes for
 groups of n consecutive indexes, and the cache of results.
 */
module GroupScan {
  import opened Prelude

  function InsertInt(x: int, s: seq<int>): seq<int> {
    if s == [] || x <= s[0] then [x] + s else [s[0]] + InsertInt(x, s[1..])
  }

  /** sorted(ready_indexes) */
  function Sorted(s: seq<int>): seq<int> {
    if s == [] then [] else InsertInt(s[0], Sorted(s[1..]))
  }

  ghost predicate Ascending(s: seq<int>) {
    forall i, j :: 0 <= i < j < |s| ==> s[i] < s[j]
  }

  lemma {:induction false} InsertIntAscending(x: int, s: seq<int>)
    requires Ascending(s) && x !in s
    ensures Ascending(InsertInt(x, s)) && forall y :: y in InsertInt(x, s) <==> y == x || y in s
  {
    if s == [] || x <= s[0] {
    } else {
      var r := InsertInt(x, s[1..]);
      assert forall y :: y in s <==> y == s[0] || y in s[1..];
      InsertIntAscending(x, s[1..]);
      forall j | 0 <= j < |r| ensures s[0] < r[j] {
        assert r[j] in r;
      }
    }
  }

  lemma {:induction false} SortedAscending(s: seq<int>)
    requires Distinct(s)
    ensures Ascending(Sorted(s)) && forall y :: y in Sorted(s) <==> y in s
  {
    if s != [] {
      SortedAscending(s[1..]);
      assert forall y :: y in s <==> y == s[0] || y in s[1..];
      InsertIntAscending(s[0], Sorted(s[1..]));
    }
  }

  /** n consecutive indexes start at position i. */
  predicate GroupAt(s: seq<int>, n: nat, i: nat)
    requires i + n <= |s|
  {
    Steps(s[i..i + n])
  }

  predicate Steps(group: seq<int>) {
    forall j :: 0 <= j < |group| - 1 ==> group[j + 1] - group[j] == 1
  }

  /** The groups that the scan finds from position i on, at most `need` of them. */
  function Scan(s: seq<int>, n: nat, need: int, i: nat): seq<seq<int>>
    requires n > 0
    decreases |s| - i
  {
    if i + n > |s| || need <= 0 then []
    else if GroupAt(s, n, i) then [s[i..i + n]] + Scan(s, n, need - 1, i + n)
    else Scan(s, n, need, i + 1)
  }

  // ---------------------------------------------------------------- what the groups are

  /** Disjoint blocks of n consecutive indexes, in ascending order. */
  ghost predicate Blocks(groups: seq<seq<int>>, n: nat) {
    && (forall g :: 0 <= g < |groups| ==> |groups[g]| == n && Consecutive(groups[g]))
    && (forall g, h :: 0 <= g < h < |groups| ==> forall x, y :: x in groups[g] && y in groups[h] ==> x < y)
  }

  ghost predicate Consecutive(g: seq<int>) {
    forall j :: 0 <= j < |g| ==> g[j] == g[0] + j
  }

  lemma {:induction false} StepsSpan(group: seq<int>, j: nat)
    requires Steps(group) && j < |group|
    ensures group[j] == group[0] + j
  {
    if j > 0 { StepsSpan(group, j - 1); }
  }

  lemma GroupSpan(s: seq<int>, n: nat, i: nat, j: nat)
    requires i + n <= |s| && GroupAt(s, n, i) && j < n
    ensures s[i + j] == s[i] + j
  {
    StepsSpan(s[i..i + n], j);
  }

  lemma {:induction false} ScanBlocks(s: seq<int>, n: nat, need: int, i: nat)
    requires n > 0 && Ascending(s)
    ensures Blocks(Scan(s, n, need, i), n) && |Scan(s, n, need, i)| <= (if need > 0 then need else 0)
    ensures AllInTail(Scan(s, n, need, i), s, i)
    decreases |s| - i
  {
    if i + n > |s| || need <= 0 {
    } else if GroupAt(s, n, i) {
      var rest := Scan(s, n, need - 1, i + n);
      assert Scan(s, n, need, i) == [s[i..i + n]] + rest;
      hide *;
      ScanBlocks(s, n, need - 1, i + n);
      TakenBlocks(s, n, i, rest);
    } else {
      ScanBlocks(s, n, need, i + 1);
      TailShrinks(s, i, i + 1);
    }
  }

  lemma TakenBlocks(s: seq<int>, n: nat, i: nat, rest: seq<seq<int>>)
    requires n > 0 && Ascending(s) && i + n <= |s| && GroupAt(s, n, i) && Blocks(rest, n)
    requires AllInTail(rest, s, i + n)
    ensures Blocks([s[i..i + n]] + rest, n) && AllInTail([s[i..i + n]] + rest, s, i)
  {
    var g := s[i..i + n];
    TailShrinks(s, i, i + n);
    GroupInTail(s, n, i);
    forall h, x, y | 0 <= h < |rest| && x in g && y in rest[h] ensures x < y {
      assert rest[h] in rest && InTail(s, i + n, y);
    }
    hide InTail, GroupAt;
    ConsBlocks(g, rest, n);
  }

  lemma GroupInTail(s: seq<int>, n: nat, i: nat)
    requires i + n <= |s| && GroupAt(s, n, i)
    ensures Consecutive(s[i..i + n]) && forall x :: x in s[i..i + n] ==> InTail(s, i, x)
  {
    var g := s[i..i + n];
    forall j | 0 <= j < n ensures g[j] == g[0] + j { GroupSpan(s, n, i, j); }
    forall x | x in g ensures InTail(s, i, x) {
      var j :| 0 <= j < n && g[j] == x;
      assert s[i + j] == x;
    }
  }

  lemma ConsBlocks(g: seq<int>, rest: seq<seq<int>>, n: nat)
    requires |g| == n && Consecutive(g) && Blocks(rest, n)
    requires forall h, x, y :: 0 <= h < |rest| && x in g && y in rest[h] ==> x < y
    ensures Blocks([g] + rest, n)
  {
  }

  ghost predicate AllInTail(groups: seq<seq<int>>, s: seq<int>, i: nat) {
    forall g :: g in groups ==> forall x :: x in g ==> InTail(s, i, x)
  }

  ghost predicate InTail(s: seq<int>, i: nat, x: int) {
    exists p :: i <= p < |s| && s[p] == x
  }

  lemma TailShrinks(s: seq<int>, i: nat, j: nat)
    requires i <= j
    ensures forall x :: InTail(s, j, x) ==> InTail(s, i, x)
  {
  }

  // ---------------------------------------------------------------- greedy is optimal

  /** Every index of the block of n from x on is at position i or later. */
  ghost predicate BlockWithin(s: seq<int>, n: nat, i: nat, x: int) {
    forall y :: x <= y < x + n ==> InTail(s, i, y)
  }

  /** A choice of blocks from position i on: their first indexes, ascending, no two blocks overlapping. */
  ghost predicate Choice(s: seq<int>, n: nat, i: nat, starts: seq<int>) {
    (forall k :: 0 <= k < |starts| ==> BlockWithin(s, n, i, starts[k])) && NoOverlap(starts, n)
  }

  ghost predicate NoOverlap(starts: seq<int>, n: nat) {
    forall k, l :: 0 <= k < l < |starts| ==> starts[k] + n <= starts[l]
  }

  lemma Positions(s: seq<int>, p: nat, q: nat)
    requires Ascending(s) && p < |s| && q < |s|
    ensures p < q <==> s[p] < s[q]
  {
    if q < p { assert s[q] < s[p]; }
  }

  /** In an ascending list a block occupies consecutive positions. */
  lemma {:induction false} BlockPosition(s: seq<int>, n: nat, i: nat, p: nat, x: int, d: nat)
    requires Ascending(s) && n > 0 && BlockWithin(s, n, i, x) && i <= p < |s| && s[p] == x && d < n
    ensures p + d < |s| && s[p + d] == x + d
  {
    if d > 0 {
      BlockPosition(s, n, i, p, x, d - 1);
      assert InTail(s, i, x + d);
      var q :| i <= q < |s| && s[q] == x + d;
      Positions(s, p + d - 1, q);
      Positions(s, p + d, q);
      Positions(s, p + d - 1, p + d);
    }
  }

  lemma BlockIsGroup(s: seq<int>, n: nat, i: nat, p: nat, x: int)
    requires Ascending(s) && n > 0 && BlockWithin(s, n, i, x) && i <= p < |s| && s[p] == x
    ensures p + n <= |s| && GroupAt(s, n, p)
  {
    BlockPosition(s, n, i, p, x, n - 1);
    var group := s[p..p + n];
    forall j | 0 <= j < n - 1 ensures group[j + 1] - group[j] == 1 {
      BlockPosition(s, n, i, p, x, j);
      BlockPosition(s, n, i, p, x, j + 1);
    }
  }

  /** A block that starts above s[j - 1] lies at position j or later. */
  lemma BlockMoves(s: seq<int>, n: nat, i: nat, j: nat, x: int)
    requires Ascending(s) && BlockWithin(s, n, i, x) && i <= j && 0 < j <= |s| && s[j - 1] < x
    ensures BlockWithin(s, n, j, x)
  {
    forall y | x <= y < x + n ensures InTail(s, j, y) {
      assert InTail(s, i, y);
      var p :| i <= p < |s| && s[p] == y;
      Positions(s, j - 1, p);
    }
  }

  lemma BlockHead(s: seq<int>, n: nat, i: nat, x: int) returns (p: nat)
    requires Ascending(s) && n > 0 && BlockWithin(s, n, i, x)
    ensures i <= p < |s| && s[p] == x && s[i] <= x
    ensures p + n <= |s| && GroupAt(s, n, p)
  {
    assert InTail(s, i, x);
    p :| i <= p < |s| && s[p] == x;
    Positions(s, p, i);
    BlockIsGroup(s, n, i, p, x);
  }

  /** Blocks that all start above s[j - 1] are a choice from position j on. */
  lemma ChoiceMoves(s: seq<int>, n: nat, i: nat, j: nat, starts: seq<int>)
    requires n > 0 && Ascending(s) && Choice(s, n, i, starts) && i <= j && 0 < j <= |s|
    requires starts != [] ==> s[j - 1] < starts[0]
    ensures Choice(s, n, j, starts)
  {
    forall k | 0 <= k < |starts| ensures BlockWithin(s, n, j, starts[k]) {
      assert k > 0 ==> starts[0] + n <= starts[k];
      BlockMoves(s, n, i, j, starts[k]);
    }
  }

  lemma RestIsChoice(s: seq<int>, n: nat, i: nat, starts: seq<int>)
    requires starts != [] && Choice(s, n, i, starts)
    ensures Choice(s, n, i, starts[1..]) && (|starts| > 1 ==> starts[0] + n <= starts[1])
  {
  }

  /** However the blocks are chosen, the scan finds as many, up to what is needed. */
  lemma {:induction false} ScanIsOptimal(s: seq<int>, n: nat, need: int, i: nat, starts: seq<int>)
    requires n > 0 && Ascending(s) && Choice(s, n, i, starts)
    ensures |Scan(s, n, need, i)| >= if need <= |starts| then need else |starts|
    decreases |s| - i
  {
    if need > 0 && starts != [] {
      assert BlockWithin(s, n, i, starts[0]);
      hide *;
      var p := BlockHead(s, n, i, starts[0]);
      ScanTurn(s, n, need, i);
      if GroupAt(s, n, i) {
        var later := TakenGroup(s, n, i, starts);
        ScanIsOptimal(s, n, need - 1, i + n, later);
      } else {
        Positions(s, i, p);
        ChoiceMoves(s, n, i, i + 1, starts);
        ScanIsOptimal(s, n, need, i + 1, starts);
      }
    }
  }

  /** And it finds each no later: no choice has its k-th block before the scan's k-th group. */
  lemma {:induction false} ScanIsEarliest(s: seq<int>, n: nat, need: int, i: nat, starts: seq<int>, k: nat)
    requires n > 0 && Ascending(s) && Choice(s, n, i, starts) && k < |starts| && k < need
    ensures k < |Scan(s, n, need, i)| && |Scan(s, n, need, i)[k]| == n && Scan(s, n, need, i)[k][0] <= starts[k]
    decreases |s| - i
  {
    hide *;
    ChoiceAt(s, n, i, starts, 0);
    var p := BlockHead(s, n, i, starts[0]);
    ScanHead(s, n, need, i);
    if GroupAt(s, n, i) {
      if k > 0 {
        var later := TakenGroup(s, n, i, starts);
        LaterStarts(s, n, i, starts, later, k);
        ScanIsEarliest(s, n, need - 1, i + n, later, k - 1);
      }
    } else {
      Positions(s, i, p);
      ChoiceMoves(s, n, i, i + 1, starts);
      ScanIsEarliest(s, n, need, i + 1, starts, k);
    }
  }

  lemma ChoiceAt(s: seq<int>, n: nat, i: nat, starts: seq<int>, k: nat)
    requires Choice(s, n, i, starts) && k < |starts|
    ensures BlockWithin(s, n, i, starts[k])
  {
  }

  lemma ScanHead(s: seq<int>, n: nat, need: int, i: nat)
    requires n > 0
    ensures Scan(s, n, need, i) ==
              if i + n > |s| || need <= 0 then []
              else if GroupAt(s, n, i) then [s[i..i + n]] + Scan(s, n, need - 1, i + n)
              else Scan(s, n, need, i + 1)
  {
  }

  lemma LaterStarts(s: seq<int>, n: nat, i: nat, starts: seq<int>, later: seq<int>, k: nat)
    requires n > 0 && Choice(s, n, i, starts) && 0 < k < |starts| && (later == starts[1..] || later == starts)
    ensures k - 1 < |later| && later[k - 1] <= starts[k]
  {
    assert starts[k - 1] + n <= starts[k];
  }

  /** Only the first chosen block can overlap the group that the scan takes. */
  lemma TakenGroup(s: seq<int>, n: nat, i: nat, starts: seq<int>) returns (later: seq<int>)
    requires n > 0 && Ascending(s) && Choice(s, n, i, starts) && starts != [] && i + n <= |s| && GroupAt(s, n, i) && s[i] <= starts[0]
    ensures Choice(s, n, i + n, later) && |later| >= |starts| - 1 && (later == starts[1..] || later == starts)
  {
    GroupSpan(s, n, i, n - 1);
    RestIsChoice(s, n, i, starts);
    hide *;
    later := if starts[0] <= s[i + n - 1] then starts[1..] else starts;
    ChoiceMoves(s, n, i, i + n, later);
  }

  lemma ScanTurn(s: seq<int>, n: nat, need: int, i: nat)
    requires n > 0 && i + n <= |s| && need > 0
    ensures |Scan(s, n, need, i)| == if GroupAt(s, n, i) then 1 + |Scan(s, n, need - 1, i + n)| else |Scan(s, n, need, i + 1)|
  {
  }

  // ---------------------------------------------------------------- the sampler

  /** There are that many disjoint blocks among the ready indexes. */
  ghost predicate Possible(ready: seq<int>, n: nat, groups: int) {
    exists starts: seq<int> :: |starts| == groups && ChosenFrom(ready, n, starts)
  }

  ghost predicate ChosenFrom(ready: seq<int>, n: nat, starts: seq<int>) {
    (forall k, y :: 0 <= k < |starts| && starts[k] <= y < starts[k] + n ==> y in ready) && NoOverlap(starts, n)
  }

  /** What a call that is not answered from the cache finds. */
  function Groups(ready: seq<int>, n: nat, need: int): seq<seq<int>>
    requires n > 0
  {
    Scan(Sorted(ready), n, need, 0)
  }

  lemma {:induction false} ScanLengths(s: seq<int>, n: nat, need: int, i: nat)
    requires n > 0
    ensures forall g :: 0 <= g < |Scan(s, n, need, i)| ==> |Scan(s, n, need, i)[g]| == n
    ensures |Scan(s, n, need, i)| <= (if need > 0 then need else 0)
    decreases |s| - i
  {
    if i + n > |s| || need <= 0 {
    } else if GroupAt(s, n, i) {
      ScanLengths(s, n, need - 1, i + n);
    } else {
      ScanLengths(s, n, need, i + 1);
    }
  }

  lemma GroupsLength(ready: seq<int>, n: nat, need: int)
    requires n > 0
    ensures forall g :: 0 <= g < |Groups(ready, n, need)| ==> |Groups(ready, n, need)[g]| == n
    ensures |Groups(ready, n, need)| <= (if need > 0 then need else 0)
  {
    ScanLengths(Sorted(ready), n, need, 0);
  }

  /** The scan finds enough groups exactly when there is a way to choose them. */
  lemma FindsWhatIsPossible(ready: seq<int>, n: nat, need: nat)
    requires n > 0 && Distinct(ready)
    ensures |Groups(ready, n, need)| == need <==> Possible(ready, n, need)
  {
    var s := Sorted(ready);
    SortedAscending(ready);
    ScanBlocks(s, n, need, 0);
    if starts: seq<int> :| |starts| == need && ChosenFrom(ready, n, starts) {
      forall k, y | 0 <= k < |starts| && starts[k] <= y < starts[k] + n ensures InTail(s, 0, y) {
        assert y in s;
      }
      ScanIsOptimal(s, n, need, 0, starts);
    }
    if |Groups(ready, n, need)| == need {
      FoundIsPossible(ready, n, need);
    }
  }

  lemma FoundIsPossible(ready: seq<int>, n: nat, need: nat)
    requires n > 0 && Distinct(ready) && |Groups(ready, n, need)| == need
    ensures Possible(ready, n, need)
  {
    var s, groups := Sorted(ready), Groups(ready, n, need);
    SortedAscending(ready);
    ScanBlocks(s, n, need, 0);
    var starts := seq(need, k requires 0 <= k < need => groups[k][0]);
    forall k, y | 0 <= k < |starts| && starts[k] <= y < starts[k] + n ensures y in ready {
      assert groups[k] in groups && groups[k][y - starts[k]] == y;
      assert InTail(s, 0, y);
    }
    forall k, l | 0 <= k < l < |starts| ensures starts[k] + n <= starts[l] {
      assert groups[k][n - 1] == starts[k] + n - 1;
      assert groups[k][n - 1] in groups[k] && groups[l][0] in groups[l];
    }
    assert ChosenFrom(ready, n, starts);
  }

  lemma {:induction false} FlatLength(groups: seq<seq<int>>, n: nat)
    requires forall g :: 0 <= g < |groups| ==> |groups[g]| == n
    ensures |Flat(groups)| == |groups| * n
  {
    if groups != [] {
      FlatLength(groups[1..], n);
      assert |groups| * n == |groups[1..]| * n + n;
    }
  }

  lemma {:induction false} FlatMember(groups: seq<seq<int>>, x: int) returns (g: nat)
    requires x in Flat(groups)
    ensures g < |groups| && x in groups[g]
  {
    if x in groups[0] {
      g := 0;
    } else {
      g := FlatMember(groups[1..], x);
      g := g + 1;
    }
  }

  /** A sampled batch: batch_size ready indexes in ascending, disjoint blocks of n consecutive ones. */
  lemma SampledBatch(ready: seq<int>, n: nat, need: nat)
    requires n > 0 && Distinct(ready) && |Groups(ready, n, need)| == need
    ensures Blocks(Groups(ready, n, need), n) && |Flat(Groups(ready, n, need))| == need * n
    ensures forall x :: x in Flat(Groups(ready, n, need)) ==> x in ready
  {
    var groups := Groups(ready, n, need);
    SortedAscending(ready);
    ScanBlocks(Sorted(ready), n, need, 0);
    FlatLength(groups, n);
    hide Flat;
    forall x | x in Flat(groups) ensures x in ready {
      var g := FlatMember(groups, x);
      assert groups[g] in groups && InTail(Sorted(ready), 0, x);
    }
  }

  /** batch_size ready indexes: the earliest blocks of n there are, one after the other. */
  ghost predicate EarliestBlocks(ready: seq<int>, n: nat, need: nat, groups: seq<seq<int>>) {
    && |groups| == need && Blocks(groups, n) && (forall x :: x in Flat(groups) ==> x in ready)
    && forall starts: seq<int>, k :: ChosenFrom(ready, n, starts) && 0 <= k < |starts| && k < need ==>
         groups[k] != [] && groups[k][0] <= starts[k]
  }

  /** What a call that is not answered from the cache returns. */
  ghost predicate Answers(ready: seq<int>, n: nat, need: nat, indexes: seq<int>) {
    if Possible(ready, n, need) then exists groups :: EarliestBlocks(ready, n, need, groups) && indexes == Flat(groups)
    else indexes == []
  }

  lemma SampleAnswers(ready: seq<int>, n: nat, need: nat)
    requires n > 0 && Distinct(ready)
    ensures Answers(ready, n, need, if |Groups(ready, n, need)| < need then [] else Flat(Groups(ready, n, need)))
  {
    var groups := Groups(ready, n, need);
    FindsWhatIsPossible(ready, n, need);
    GroupsLength(ready, n, need);
    if |groups| == need {
      SampledBatch(ready, n, need);
      GroupsEarliest(ready, n, need);
      hide Possible, Groups, Flat, Blocks;
      assert EarliestBlocks(ready, n, need, groups);
    }
  }

  lemma GroupsEarliest(ready: seq<int>, n: nat, need: nat)
    requires n > 0 && Distinct(ready) && |Groups(ready, n, need)| == need
    ensures forall starts: seq<int>, k :: ChosenFrom(ready, n, starts) && 0 <= k < |starts| && k < need ==>
              Groups(ready, n, need)[k] != [] && Groups(ready, n, need)[k][0] <= starts[k]
  {
    var s := Sorted(ready);
    SortedAscending(ready);
    forall starts: seq<int>, k | ChosenFrom(ready, n, starts) && 0 <= k < |starts| && k < need
      ensures Groups(ready, n, need)[k] != [] && Groups(ready, n, need)[k][0] <= starts[k]
    {
      forall l, y | 0 <= l < |starts| && starts[l] <= y < starts[l] + n ensures InTail(s, 0, y) {
        assert y in s;
      }
      ScanIsEarliest(s, n, need, 0, starts, k);
    }
  }

  // ---------------------------------------------------------------- whole prompts

  ghost predicate Multiple(x: int, n: nat)
    requires n > 0
  {
    x % n == 0
  }

  /** The groups are whole prompts: of the n samples from a multiple of n on. */
  ghost predicate Aligned(groups: seq<seq<int>>, n: nat)
    requires n > 0
  {
    forall g :: 0 <= g < |groups| ==> groups[g] != [] && Multiple(groups[g][0], n)
  }

  /** The first of any n or more ready indexes in a row is a multiple of n. */
  ghost predicate RunsAligned(ready: seq<int>, n: nat)
    requires n > 0
  {
    forall x :: RunStart(ready, n, x) ==> Multiple(x, n)
  }

  ghost predicate RunStart(ready: seq<int>, n: nat, x: int) {
    x - 1 !in ready && forall y :: x <= y < x + n ==> y in ready
  }

  /** A group at position i cannot be the rest of a run that the scan has already been offered. */
  ghost predicate Fresh(s: seq<int>, n: nat, i: nat)
    requires n > 0
  {
    0 < i < |s| && s[i] == s[i - 1] + 1 ==> Multiple(s[i], n) || (i - 1 + n <= |s| && !GroupAt(s, n, i - 1))
  }

  lemma GroupBefore(s: seq<int>, n: nat, i: nat)
    requires n > 0 && 0 < i && i + n <= |s| && GroupAt(s, n, i) && s[i] == s[i - 1] + 1
    ensures GroupAt(s, n, i - 1)
  {
    var a, b := s[i - 1..i - 1 + n], s[i..i + n];
    forall j | 0 <= j < n - 1 ensures a[j + 1] - a[j] == 1 {
      assert j > 0 ==> b[j] - b[j - 1] == 1;
    }
  }

  lemma GroupStartsRun(s: seq<int>, n: nat, i: nat)
    requires n > 0 && Ascending(s) && i + n <= |s| && GroupAt(s, n, i) && (i > 0 ==> s[i - 1] != s[i] - 1)
    ensures RunStart(s, n, s[i])
  {
    forall y | s[i] <= y < s[i] + n ensures y in s {
      GroupSpan(s, n, i, y - s[i]);
    }
    forall q | 0 <= q < |s| ensures s[q] != s[i] - 1 {
      Positions(s, q, i);
      if i > 0 {
        Positions(s, q, i - 1);
        Positions(s, i - 1, i);
        Positions(s, i - 1, q);
      }
    }
  }

  lemma NextMultiple(x: int, n: nat)
    requires n > 0 && Multiple(x, n)
    ensures Multiple(x + n, n)
  {
    assert x == x / n * n;
    assert x + n == (x / n + 1) * n;
    Times(x / n + 1, n);
  }

  lemma Times(q: int, n: nat)
    requires n > 0
    ensures (q * n) % n == 0
  {
    var d := q * n / n - q;
    assert q * n == q * n / n * n + (q * n) % n;
    assert d * n == -((q * n) % n);
  }

  lemma {:induction false} ScanAligned(s: seq<int>, n: nat, need: int, i: nat)
    requires n > 0 && Ascending(s) && RunsAligned(s, n) && Fresh(s, n, i)
    ensures Aligned(Scan(s, n, need, i), n)
    decreases |s| - i
  {
    hide *;
    ScanHead(s, n, need, i);
    if i + n > |s| || need <= 0 {
      NoneAligned(n);
    } else if GroupAt(s, n, i) {
      HeadAligned(s, n, i);
      ScanAligned(s, n, need - 1, i + n);
      ConsAligned(s[i..i + n], Scan(s, n, need - 1, i + n), n);
    } else {
      StillFresh(s, n, i);
      ScanAligned(s, n, need, i + 1);
    }
  }

  lemma NoneAligned(n: nat)
    requires n > 0
    ensures Aligned([], n)
  {
  }

  lemma StillFresh(s: seq<int>, n: nat, i: nat)
    requires n > 0 && i + n <= |s| && !GroupAt(s, n, i)
    ensures Fresh(s, n, i + 1)
  {
  }

  lemma ConsAligned(g: seq<int>, rest: seq<seq<int>>, n: nat)
    requires n > 0 && g != [] && Multiple(g[0], n) && Aligned(rest, n)
    ensures Aligned([g] + rest, n)
  {
  }

  lemma HeadAligned(s: seq<int>, n: nat, i: nat)
    requires n > 0 && Ascending(s) && RunsAligned(s, n) && Fresh(s, n, i) && i + n <= |s| && GroupAt(s, n, i)
    ensures Multiple(s[i], n) && Fresh(s, n, i + n)
  {
    if i > 0 && s[i] == s[i - 1] + 1 {
      GroupBefore(s, n, i);
    } else {
      GroupStartsRun(s, n, i);
    }
    assert Multiple(s[i], n);
    hide RunsAligned, Ascending, GroupAt, Multiple;
    NextMultiple(s[i], n);
    GroupSpan(s, n, i, n - 1);
    hide Multiple, GroupAt;
  }

  lemma Inside(s: seq<int>, n: nat, i: nat, p: nat)
    requires i < p < i + n <= |s| && GroupAt(s, n, i)
    ensures s[p - 1] == s[p] - 1
  {
    GroupSpan(s, n, i, p - i);
    GroupSpan(s, n, i, p - 1 - i);
  }

  /** With need enough, the scan takes the group at the start of every run. */
  lemma {:induction false} ScanReaches(s: seq<int>, n: nat, need: int, i: nat, p: nat) returns (g: nat)
    requires n > 0 && Ascending(s) && i <= p && p + n <= |s| && GroupAt(s, n, p) && (p > 0 ==> s[p - 1] != s[p] - 1) && need > |s| - i
    ensures g < |Scan(s, n, need, i)| && Scan(s, n, need, i)[g] == s[p..p + n]
    decreases |s| - i
  {
    hide *;
    ScanHead(s, n, need, i);
    if i == p {
      g := 0;
    } else if GroupAt(s, n, i) {
      if p < i + n {
        Inside(s, n, i, p);
      }
      var h := ScanReaches(s, n, need - 1, i + n, p);
      g := h + 1;
    } else {
      g := ScanReaches(s, n, need, i + 1, p);
    }
  }

  /** Asking for exactly as many groups as there are gives the same groups. */
  lemma {:induction false} ScanAll(s: seq<int>, n: nat, need: int, i: nat)
    requires n > 0
    ensures Scan(s, n, |Scan(s, n, need, i)|, i) == Scan(s, n, need, i)
    decreases |s| - i
  {
    hide *;
    ScanHead(s, n, need, i);
    ScanHead(s, n, |Scan(s, n, need, i)|, i);
    if i + n > |s| || need <= 0 {
    } else if GroupAt(s, n, i) {
      ScanAll(s, n, need - 1, i + n);
    } else {
      ScanAll(s, n, need, i + 1);
      ScanNone(s, n, i + 1);
    }
  }

  lemma ScanNone(s: seq<int>, n: nat, i: nat)
    requires n > 0
    ensures Scan(s, n, 0, i) == []
  {
  }

  ghost predicate SamplesWholePrompts(ready: seq<int>, n: nat)
    requires n > 0
  {
    forall need: nat :: |Groups(ready, n, need)| == need ==> Aligned(Groups(ready, n, need), n)
  }

  lemma RunsAlignedSorted(ready: seq<int>, n: nat)
    requires n > 0 && Distinct(ready)
    ensures RunsAligned(ready, n) <==> RunsAligned(Sorted(ready), n)
  {
    SortedAscending(ready);
    forall x ensures RunStart(ready, n, x) <==> RunStart(Sorted(ready), n, x) {
    }
  }

  /** The scan does not look at prompt boundaries: its groups are whole prompts, at every batch size, exactly when each
   run of n or more ready indexes starts at one. */
  lemma WholePromptsExactly(ready: seq<int>, n: nat)
    requires n > 0 && Distinct(ready)
    ensures SamplesWholePrompts(ready, n) <==> RunsAligned(ready, n)
  {
    var s := Sorted(ready);
    SortedAscending(ready);
    RunsAlignedSorted(ready, n);
    if RunsAligned(s, n) {
      forall need: nat | |Groups(ready, n, need)| == need ensures Aligned(Groups(ready, n, need), n) {
        ScanAligned(s, n, need, 0);
      }
    }
    if SamplesWholePrompts(ready, n) {
      forall x | RunStart(s, n, x) ensures Multiple(x, n) {
        SomeGroupStarts(ready, n, x);
      }
    }
  }

  lemma SomeGroupStarts(ready: seq<int>, n: nat, x: int)
    requires n > 0 && Distinct(ready) && SamplesWholePrompts(ready, n) && RunStart(Sorted(ready), n, x)
    ensures Multiple(x, n)
  {
    hide Sorted, Scan, Ascending, GroupAt, BlockWithin, InTail, Multiple;
    var s := Sorted(ready);
    SortedAscending(ready);
    RunIsBlock(s, n, x);
    var p := BlockHead(s, n, 0, x);
    assert p > 0 ==> s[p - 1] in s;
    var g := ScanReaches(s, n, |s| + 1, 0, p);
    ScanAll(s, n, |s| + 1, 0);
    var need := |Scan(s, n, |s| + 1, 0)|;
    assert Groups(ready, n, need) == Scan(s, n, |s| + 1, 0);
    assert Aligned(Groups(ready, n, need), n);
  }

  lemma RunIsBlock(s: seq<int>, n: nat, x: int)
    requires RunStart(s, n, x)
    ensures BlockWithin(s, n, 0, x)
  {
    forall y | x <= y < x + n ensures InTail(s, 0, y) { assert y in s; }
  }

  /** Samples 1 and 2 are ready: with two samples to a prompt, halves of two prompts are taken for one. */
  lemma MixesPrompts()
    ensures Groups([1, 2], 2, 1) == [[1, 2]] && !Aligned([[1, 2]], 2)
  {
    assert Sorted([1, 2]) == [1, 2] by {
      assert Sorted([1, 2][1..]) == InsertInt(2, Sorted([1, 2][1..][1..]));
    }
    assert [1, 2][0..2] == [1, 2];
    assert !Multiple([[1, 2]][0][0], 2);
  }

  datatype Slot = Slot(partition: string, task: string, rank: int, batch: Option<int>)

  datatype Outcome = Sampled(indexes: seq<int>) | NotAMultiple

  class GroupSampler {
    const n: nat
    var results: map<Slot, seq<int>>

    ghost predicate Valid() {
      n > 0
    }

    constructor (n: nat)
      requires n > 0
      ensures Valid() && this.n == n && results == map[]
    {
      this.n, results := n, map[];
    }

    /** The result is cached only for a caller that names its rank, and only when enough groups are found. */
    method Sample(ready: seq<int>, batchSize: int, task: string, partition: string, dpRank: Option<int>, batchIndex: Option<int>)
      returns (r: Outcome)
      requires Valid()
      modifies this`results
      ensures var cached := dpRank.Some? && Slot(partition, task, dpRank.value, batchIndex) in old(results);
              if cached then r == Sampled(old(results)[Slot(partition, task, dpRank.value, batchIndex)]) && results == old(results)
              else if batchSize % n != 0 then r == NotAMultiple && results == old(results)
              else if |Groups(ready, n, batchSize / n)| < batchSize / n then r == Sampled([]) && results == old(results)
              else
                && r == Sampled(Flat(Groups(ready, n, batchSize / n)))
                && results == if dpRank.Some? then old(results)[Slot(partition, task, dpRank.value, batchIndex) := r.indexes] else old(results)
      ensures Distinct(ready) && batchSize >= 0 && batchSize % n == 0 && !(dpRank.Some? && Slot(partition, task, dpRank.value, batchIndex) in old(results)) ==>
                r.Sampled? && Answers(ready, n, batchSize / n, r.indexes)
    {
      if Distinct(ready) && batchSize >= 0 { SampleAnswers(ready, n, batchSize / n); }
      hide Answers;
      if dpRank.Some? && Slot(partition, task, dpRank.value, batchIndex) in results {
        return Sampled(results[Slot(partition, task, dpRank.value, batchIndex)]);
      }
      if batchSize % n != 0 {
        return NotAMultiple;
      }
      var complete, found := ScanReady(ready, batchSize / n);
      if found < batchSize / n {
        return Sampled([]);
      }
      if dpRank.Some? {
        results := results[Slot(partition, task, dpRank.value, batchIndex) := complete];
      }
      r := Sampled(complete);
    }

    method ScanReady(ready: seq<int>, required: int) returns (complete: seq<int>, found: nat)
      requires Valid()
      ensures complete == Flat(Groups(ready, n, required)) && found == |Groups(ready, n, required)|
    {
      var s := Sorted(ready);
      complete, found := [], 0;
      ghost var all, groups: seq<seq<int>> := Scan(s, n, required, 0), [];
      var i := 0;
      ScanStarts(s, n, required);
      assert Flat(groups) == [] && Groups(ready, n, required) == all;
      hide *;
      while i + n <= |s| && found < required
        invariant complete == Flat(groups) && found == |groups|
        invariant Remains(groups, s, n, required - found, i, all)
        decreases |s| - i
      {
        var group := s[i..i + n];
        ScanOn(groups, s, n, required - found, i, all);
        if Steps(group) {
          AddGroup(groups, group);
          complete := complete + group;
          found := found + 1;
          groups := groups + [group];
          i := i + n;
        } else {
          i := i + 1;
        }
      }
      ScanEnds(groups, s, n, required - found, i, all);
    }
  }

  /** With the groups found so far and what the scan still finds from position i on, all are found. */
  ghost predicate Remains(groups: seq<seq<int>>, s: seq<int>, n: nat, need: int, i: nat, all: seq<seq<int>>)
    requires n > 0
  {
    groups + Scan(s, n, need, i) == all
  }

  lemma ScanStarts(s: seq<int>, n: nat, need: int)
    requires n > 0
    ensures Remains([], s, n, need, 0, Scan(s, n, need, 0))
  {
  }

  lemma ScanOn(groups: seq<seq<int>>, s: seq<int>, n: nat, need: int, i: nat, all: seq<seq<int>>)
    requires n > 0 && i + n <= |s| && need > 0 && Remains(groups, s, n, need, i, all)
    ensures if Steps(s[i..i + n]) then Remains(groups + [s[i..i + n]], s, n, need - 1, i + n, all) else Remains(groups, s, n, need, i + 1, all)
  {
    var g, rest := s[i..i + n], Scan(s, n, need - 1, i + n);
    assert groups + ([g] + rest) == (groups + [g]) + rest;
  }

  lemma ScanEnds(groups: seq<seq<int>>, s: seq<int>, n: nat, need: int, i: nat, all: seq<seq<int>>)
    requires n > 0 && (i + n > |s| || need <= 0) && Remains(groups, s, n, need, i, all)
    ensures groups == all
  {
  }

  lemma AddGroup(groups: seq<seq<int>>, group: seq<int>)
    ensures Flat(groups + [group]) == Flat(groups) + group
  {
    FlatConcat(groups, [group]);
    assert [group][1..] == [];
  }
}
