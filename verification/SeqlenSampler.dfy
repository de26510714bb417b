/**
 SeqlenBalancedSampler (transfer_queue/sampler/seqlen_balanced_sampler.py): the groups that the scan finds for all ranks
 together, dealt out to the ranks by balanced partitioning of the groups' total lengths.
 */
module SeqlenSampler {
  import opened Prelude
  import G = GroupScan
  import B = Balance
  import H = BalanceTheorems
  import K = Balancer

  /** The length of a sample; one without metadata counts as 1. */
  function LengthOf(meta: map<int, int>, index: int): int {
    if index in meta then meta[index] else 1
  }

  function GroupWeight(meta: map<int, int>, group: seq<int>): int {
    if group == [] then 0 else GroupWeight(meta, group[..|group| - 1]) + LengthOf(meta, group[|group| - 1])
  }

  function Weights(meta: map<int, int>, groups: seq<seq<int>>): seq<int> {
    seq(|groups|, g requires 0 <= g < |groups| => GroupWeight(meta, groups[g]))
  }

  /** The groups with these numbers, one after the other. */
  function Pick(groups: seq<seq<int>>, part: seq<nat>): seq<int>
    requires forall i :: 0 <= i < |part| ==> part[i] < |groups|
  {
    if part == [] then [] else Pick(groups, part[..|part| - 1]) + groups[part[|part| - 1]]
  }

  ghost predicate PartsFit(parts: seq<seq<nat>>, n: nat) {
    forall p :: 0 <= p < |parts| ==> PartFits(parts[p], n)
  }

  ghost predicate PartFits(part: seq<nat>, n: nat) {
    forall i :: 0 <= i < |part| ==> part[i] < n
  }

  /** What each rank gets. */
  function Deal(groups: seq<seq<int>>, parts: seq<seq<nat>>): seq<seq<int>>
    requires PartsFit(parts, |groups|)
  {
    seq(|parts|, p requires 0 <= p < |parts| => assert PartFits(parts[p], |groups|); Pick(groups, parts[p]))
  }

  // ---------------------------------------------------------------- where a group lies in the flat list

  ghost predicate AllOf(groups: seq<seq<int>>, n: nat) {
    forall g :: 0 <= g < |groups| ==> |groups[g]| == n
  }

  lemma {:induction false} FlatAt(groups: seq<seq<int>>, n: nat, g: nat)
    requires AllOf(groups, n) && g < |groups|
    ensures g * n + n <= |Flat(groups)| && Flat(groups)[g * n..g * n + n] == groups[g]
  {
    var rest := groups[1..];
    G.FlatLength(groups, n);
    G.FlatLength(rest, n);
    if g > 0 {
      FlatAt(rest, n, g - 1);
      assert g * n == (g - 1) * n + n;
      assert Flat(groups) == groups[0] + Flat(rest);
      assert Flat(groups)[g * n..g * n + n] == Flat(rest)[(g - 1) * n..(g - 1) * n + n];
    } else {
      assert 0 * n == 0;
      assert Flat(groups) == groups[0] + Flat(rest);
    }
  }

  // ---------------------------------------------------------------- every rank gets its share, of whole groups

  lemma {:induction false} PickLength(groups: seq<seq<int>>, part: seq<nat>, n: nat)
    requires AllOf(groups, n) && PartFits(part, |groups|)
    ensures |Pick(groups, part)| == |part| * n
  {
    if part != [] {
      var k := |part| - 1;
      PickLength(groups, part[..k], n);
      assert |part| * n == k * n + n;
    }
  }

  lemma {:induction false} PickMember(groups: seq<seq<int>>, part: seq<nat>, x: int)
    requires PartFits(part, |groups|)
    ensures x in Pick(groups, part) <==> exists i :: 0 <= i < |part| && x in groups[part[i]]
  {
    if part != [] {
      var k := |part| - 1;
      PickMember(groups, part[..k], x);
      if i :| 0 <= i < |part| && x in groups[part[i]] { assert i < k ==> x in groups[part[..k][i]]; }
      if i :| 0 <= i < k && x in groups[part[..k][i]] { assert x in groups[part[i]]; }
    }
  }

  /** No index is in two groups. */
  ghost predicate Apart(groups: seq<seq<int>>) {
    forall g, h, x :: 0 <= g < |groups| && 0 <= h < |groups| && x in groups[g] && x in groups[h] ==> g == h
  }

  /** Every index of every group is dealt to exactly one rank. */
  lemma DealtOnce(groups: seq<seq<int>>, parts: seq<seq<nat>>, x: int)
    requires H.ExactCover(parts, |groups|) && Apart(groups)
    ensures PartsFit(parts, |groups|)
    ensures (exists g :: 0 <= g < |groups| && x in groups[g]) <==> exists p :: 0 <= p < |parts| && x in Deal(groups, parts)[p]
    ensures forall p, q :: 0 <= p < |parts| && 0 <= q < |parts| && x in Deal(groups, parts)[p] && x in Deal(groups, parts)[q] ==> p == q
  {
    CoverFits(parts, |groups|);
    var dealt := Deal(groups, parts);
    forall p | 0 <= p < |parts| ensures x in dealt[p] <==> exists i :: 0 <= i < |parts[p]| && x in groups[parts[p][i]] {
      assert PartFits(parts[p], |groups|);
      PickMember(groups, parts[p], x);
    }
    if g: nat :| g < |groups| && x in groups[g] {
      assert H.InSomePart(parts, g);
      var p :| 0 <= p < |parts| && g in parts[p];
      var i :| 0 <= i < |parts[p]| && parts[p][i] == g;
      assert x in groups[parts[p][i]];
    }
    forall p, q | 0 <= p < q < |parts| && x in dealt[p] ensures x !in dealt[q] {
      var i :| 0 <= i < |parts[p]| && x in groups[parts[p][i]];
      DealtApart(groups, parts, p, q, i, x);
    }
  }

  lemma DealtApart(groups: seq<seq<int>>, parts: seq<seq<nat>>, p: nat, q: nat, i: nat, x: int)
    requires H.ExactCover(parts, |groups|) && Apart(groups) && PartsFit(parts, |groups|)
    requires p < q < |parts| && i < |parts[p]| && PartFits(parts[p], |groups|) && x in groups[parts[p][i]]
    ensures x !in Deal(groups, parts)[q]
  {
    assert PartFits(parts[q], |groups|);
    PickMember(groups, parts[q], x);
    assert H.Disjoint(parts[p], parts[q]);
    forall j | 0 <= j < |parts[q]| ensures x !in groups[parts[q][j]] {
      assert parts[p][i] in parts[p] && parts[q][j] in parts[q];
    }
  }

  lemma CoverFits(parts: seq<seq<nat>>, n: nat)
    requires H.ExactCover(parts, n)
    ensures PartsFit(parts, n)
  {
    forall p, i | 0 <= p < |parts| && 0 <= i < |parts[p]| ensures parts[p][i] < n {
      assert parts[p][i] in parts[p];
    }
  }

  // ---------------------------------------------------------------- the sampler

  datatype Key = Key(partition: string, task: string, batch: int)

  datatype Outcome = Sampled(indexes: seq<int>) | NotAMultiple | AssertionFails

  /** The share of one rank; a rank past the last one gets nothing. */
  function Share(parts: seq<seq<int>>, rank: nat): seq<int> {
    if rank < |parts| then parts[rank] else []
  }

  /** The first call for a batch: what each rank gets, nothing when there are not enough groups. */
  datatype Assignment = Assigned(shares: seq<seq<int>>) | NoGroups | WrongMultiple | Uneven

  ghost function Assign(ready: seq<int>, n: nat, dpSize: nat, batchSize: nat, meta: map<int, int>): Assignment
    requires n > 0 && dpSize > 0
  {
    var all := batchSize * dpSize;
    var groups := G.Groups(ready, n, all / n);
    if all % n != 0 then WrongMultiple
    else if |groups| < all / n || groups == [] then NoGroups
    else if B.Fits(Weights(meta, groups), dpSize, true) && [] !in H.Partitions(Weights(meta, groups), dpSize, true) then
      var parts := H.Partitions(Weights(meta, groups), dpSize, true);
      PartitionsFit(Weights(meta, groups), dpSize);
      Assigned(Deal(groups, parts))
    else Uneven
  }

  lemma PartitionsFit(weights: seq<int>, k: nat)
    requires B.Fits(weights, k, true)
    ensures PartsFit(H.Partitions(weights, k, true), |weights|)
  {
    H.PartitionsCover(weights, k, true);
    CoverFits(H.Partitions(weights, k, true), |weights|);
  }

  /** Sums the lengths of each group, as they lie in the flat list. */
  method GroupLengths(sampled: seq<int>, n: nat, meta: map<int, int>, ghost groups: seq<seq<int>>) returns (lengths: seq<int>)
    requires n > 0 && AllOf(groups, n) && sampled == Flat(groups)
    ensures lengths == Weights(meta, groups)
  {
    lengths := [];
    G.FlatLength(groups, n);
    CountGroups(|groups|, n);
    for g := 0 to |sampled| / n
      invariant |lengths| == g && forall h :: 0 <= h < g ==> lengths[h] == GroupWeight(meta, groups[h])
    {
      FlatAt(groups, n, g);
      var group := sampled[g * n..g * n + n];
      var total := 0;
      for j := 0 to n
        invariant total == GroupWeight(meta, group[..j])
      {
        assert group[..j + 1][..j] == group[..j];
        total := total + LengthOf(meta, group[j]);
      }
      assert group[..n] == group;
      lengths := lengths + [total];
    }
  }

  lemma CountGroups(q: nat, n: nat)
    requires n > 0
    ensures q * n / n == q && (q * n) % n == 0
  {
    G.Times(q, n);
    var d := q * n / n - q;
    assert d * n == 0;
  }

  /** Expands group numbers to the samples of the groups. */
  method Expand(sampled: seq<int>, n: nat, part: seq<nat>, ghost groups: seq<seq<int>>) returns (share: seq<int>)
    requires n > 0 && AllOf(groups, n) && sampled == Flat(groups) && PartFits(part, |groups|)
    ensures share == Pick(groups, part)
  {
    share := [];
    for i := 0 to |part|
      invariant share == Pick(groups, part[..i])
    {
      FlatAt(groups, n, part[i]);
      ghost var before := share;
      for j := 0 to n
        invariant share == before + groups[part[i]][..j]
      {
        SliceAt(sampled, part[i] * n, n, j);
        share := share + [sampled[part[i] * n + j]];
      }
      assert part[..i + 1][..i] == part[..i];
    }
    assert part[..|part|] == part;
  }

  lemma SliceAt(s: seq<int>, lo: nat, n: nat, j: nat)
    requires lo + n <= |s| && j < n
    ensures lo + j < |s| && s[lo..lo + n][j] == s[lo + j]
  {
  }

  class SeqlenBalancedSampler {
    const dpSize: nat
    const groups: G.GroupSampler
    var balanced: map<Key, seq<seq<int>>>

    ghost predicate Valid()
      reads groups
    {
      dpSize > 0 && groups.Valid()
    }

    constructor (n: nat, dpSize: nat)
      requires n > 0 && dpSize > 0
      ensures Valid() && this.dpSize == dpSize && groups.n == n && groups.results == map[] && balanced == map[]
    {
      this.dpSize, balanced := dpSize, map[];
      groups := new G.GroupSampler(n);
    }

    /**
     The first call for a batch fixes the shares of all ranks; later calls read them. Every rank is told its own share and
     the inherited cache holds it.
     */
    method Sample(ready: seq<int>, batchSize: nat, task: string, partition: string, dpRank: nat, batchIndex: int, meta: map<int, int>)
      returns (r: Outcome)
      requires Valid()
      modifies this`balanced, groups`results
      ensures Valid()
      ensures var key := Key(partition, task, batchIndex);
              if key in old(balanced) then
                r == Sampled(Share(old(balanced)[key], dpRank)) && balanced == old(balanced) && groups.results == old(groups.results)
              else match Assign(ready, groups.n, dpSize, batchSize, meta)
                case Assigned(shares) =>
                  && r == Sampled(Share(shares, dpRank)) && balanced == old(balanced)[key := shares]
                  && groups.results == WithShares(old(groups.results), partition, task, batchIndex, shares, dpSize)
                case NoGroups => r == Sampled([]) && balanced == old(balanced) && groups.results == old(groups.results)
                case WrongMultiple => r == NotAMultiple && balanced == old(balanced) && groups.results == old(groups.results)
                case Uneven => r == AssertionFails && balanced == old(balanced) && groups.results == old(groups.results)
      ensures Answered(old(balanced), Asked(ready, batchSize, Key(partition, task, batchIndex), dpRank, meta), balanced, r, groups.n, dpSize)
      ensures Key(partition, task, batchIndex) !in old(balanced) && Key(partition, task, batchIndex) in balanced ==>
                SlotsHold(old(groups.results), groups.results, Key(partition, task, batchIndex), balanced[Key(partition, task, batchIndex)])
    {
      AnswerIs(balanced, ready, groups.n, dpSize, batchSize, meta, Key(partition, task, batchIndex), dpRank);
      SlotsAre(groups.results, partition, task, batchIndex, dpSize);
      hide Answered, SlotsHold, Fair;
      var key := Key(partition, task, batchIndex);
      if key in balanced {
        return Sampled(Share(balanced[key], dpRank));
      }
      var all := batchSize * dpSize;
      var scanned := groups.Sample(ready, all, task, partition, None, None);
      if scanned.NotAMultiple? {
        return NotAMultiple;
      }
      var sampled := scanned.indexes;
      ghost var found := G.Groups(ready, groups.n, all / groups.n);
      G.GroupsLength(ready, groups.n, all / groups.n);
      G.FlatLength(found, groups.n);
      ProductPositive(|found|, groups.n);
      if |sampled| == 0 {
        return Sampled([]);
      }
      var lengths := GroupLengths(sampled, groups.n, meta, found);
      var parts := K.GetSeqlenBalancedPartitions(lengths, dpSize, true);
      if parts.None? {
        return AssertionFails;
      }
      PartitionsFit(lengths, dpSize);
      var shares := ExpandAll(sampled, groups.n, parts.value, found);
      H.PartitionsCover(lengths, dpSize, true);
      balanced := balanced[key := shares];
      FillStates(partition, task, batchIndex, shares);
      r := Sampled(Share(shares, dpRank));
    }

    method ExpandAll(sampled: seq<int>, n: nat, parts: seq<seq<nat>>, ghost found: seq<seq<int>>) returns (shares: seq<seq<int>>)
      requires n > 0 && AllOf(found, n) && sampled == Flat(found) && PartsFit(parts, |found|)
      ensures shares == Deal(found, parts)
    {
      shares := [];
      for p := 0 to |parts|
        invariant |shares| == p && forall q :: 0 <= q < p ==> PartFits(parts[q], |found|) && shares[q] == Pick(found, parts[q])
      {
        assert PartFits(parts[p], |found|);
        var share := Expand(sampled, n, parts[p], found);
        shares := shares + [share];
      }
    }

    /** The inherited cache is filled for every rank. */
    method FillStates(partition: string, task: string, batchIndex: int, shares: seq<seq<int>>)
      requires Valid()
      modifies groups`results
      ensures groups.results == WithShares(old(groups.results), partition, task, batchIndex, shares, dpSize)
    {
      for rank := 0 to dpSize
        invariant groups.results == WithShares(old(groups.results), partition, task, batchIndex, shares, rank)
      {
        groups.results := groups.results[G.Slot(partition, task, rank, Some(batchIndex)) := Share(shares, rank)];
      }
    }
  }

  // ---------------------------------------------------------------- what a caller is told

  datatype Asked = Asked(ready: seq<int>, batchSize: nat, key: Key, rank: nat, meta: map<int, int>)

  /** The caller's own share; nothing for a rank past the last. */
  ghost predicate Told(shares: seq<seq<int>>, rank: nat, r: Outcome) {
    r.Sampled? && (if rank < |shares| then r.indexes == shares[rank] else r.indexes == [])
  }

  /** The shares are fair ones of the groups that this call finds. */
  ghost predicate FairFor(shares: seq<seq<int>>, asked: Asked, n: nat, dpSize: nat)
    requires n > 0
  {
    && |shares| == dpSize
    && (Distinct(asked.ready) ==> Fair(shares, G.Groups(asked.ready, n, asked.batchSize * dpSize / n), dpSize, asked.batchSize))
    && ((forall x :: x in asked.meta ==> asked.meta[x] >= 0) ==>
          Balanced(shares, G.Groups(asked.ready, n, asked.batchSize * dpSize / n), asked.meta))
  }

  ghost predicate LoadsWithin(groups: seq<seq<int>>, meta: map<int, int>, lo: int, hi: int) {
    forall g :: 0 <= g < |groups| ==> lo <= GroupWeight(meta, groups[g]) <= hi
  }

  /** The total lengths of any two shares differ by no more than those of the groups do. */
  ghost predicate Balanced(shares: seq<seq<int>>, groups: seq<seq<int>>, meta: map<int, int>) {
    forall lo, hi, p, q :: LoadsWithin(groups, meta, lo, hi) && 0 <= p < |shares| && 0 <= q < |shares| ==>
      GroupWeight(meta, shares[p]) - GroupWeight(meta, shares[q]) <= hi - lo
  }

  lemma {:induction false} LoadSum(meta: map<int, int>, a: seq<int>, b: seq<int>)
    ensures GroupWeight(meta, a + b) == GroupWeight(meta, a) + GroupWeight(meta, b)
  {
    if b == [] {
      assert a + b == a;
    } else {
      LoadSum(meta, a, b[..|b| - 1]);
      assert (a + b)[..|a + b| - 1] == a + b[..|b| - 1];
    }
  }

  /** A share weighs what its groups weigh. */
  lemma {:induction false} PickLoad(meta: map<int, int>, groups: seq<seq<int>>, part: seq<nat>)
    requires PartFits(part, |groups|)
    ensures GroupWeight(meta, Pick(groups, part)) == H.Weight(Weights(meta, groups), part)
  {
    if part != [] {
      PickLoad(meta, groups, part[1..]);
      PickCons(groups, part);
      LoadSum(meta, groups[part[0]], Pick(groups, part[1..]));
    }
  }

  lemma {:induction false} PickCons(groups: seq<seq<int>>, part: seq<nat>)
    requires part != [] && PartFits(part, |groups|)
    ensures PartFits(part[1..], |groups|) && Pick(groups, part) == groups[part[0]] + Pick(groups, part[1..])
  {
    var n := |part| - 1;
    if n == 0 {
      assert part[..0] == [] && part[1..] == [];
    } else {
      var first, mid, last := groups[part[0]], Pick(groups, part[1..n]), groups[part[n]];
      assert part[..n][1..] == part[1..n] && part[1..][..n - 1] == part[1..n];
      PickSnoc(groups, part);
      PickSnoc(groups, part[1..]);
      hide Pick;
      PickCons(groups, part[..n]);
      assert (first + mid) + last == first + (mid + last);
    }
  }

  lemma PickSnoc(groups: seq<seq<int>>, part: seq<nat>)
    requires part != [] && PartFits(part, |groups|)
    ensures PartFits(part[..|part| - 1], |groups|)
    ensures Pick(groups, part) == Pick(groups, part[..|part| - 1]) + groups[part[|part| - 1]]
  {
  }

  lemma BalancedShares(ready: seq<int>, n: nat, dpSize: nat, batchSize: nat, meta: map<int, int>)
    requires n > 0 && dpSize > 0 && Assign(ready, n, dpSize, batchSize, meta).Assigned? && forall x :: x in meta ==> meta[x] >= 0
    ensures Balanced(Assign(ready, n, dpSize, batchSize, meta).shares, G.Groups(ready, n, batchSize * dpSize / n), meta)
  {
    var groups := G.Groups(ready, n, batchSize * dpSize / n);
    var weights := Weights(meta, groups);
    var shares := Assign(ready, n, dpSize, batchSize, meta).shares;
    var parts := H.Partitions(weights, dpSize, true);
    PartitionsFit(weights, dpSize);
    H.PartitionsCover(weights, dpSize, true);
    WeightsNonNegative(meta, groups);
    assert shares == Deal(groups, parts);
    hide Assign;
    forall lo, hi, p, q | LoadsWithin(groups, meta, lo, hi) && 0 <= p < |shares| && 0 <= q < |shares|
      ensures GroupWeight(meta, shares[p]) - GroupWeight(meta, shares[q]) <= hi - lo
    {
      assert PartFits(parts[p], |groups|) && PartFits(parts[q], |groups|);
      PickLoad(meta, groups, parts[p]);
      PickLoad(meta, groups, parts[q]);
      hide Weights, GroupWeight;
      H.WithinBounds(weights, dpSize, lo, hi);
      H.PartitionsBalanced(weights, dpSize, true, hi - lo, p, q);
    }
  }

  /** One call: kept shares are read; else fair ones are fixed and kept, or nothing is kept and nothing handed out. */
  ghost predicate Answered(before: map<Key, seq<seq<int>>>, asked: Asked, after: map<Key, seq<seq<int>>>, r: Outcome, n: nat, dpSize: nat) {
    && n > 0
    && if asked.key in before then after == before && Told(before[asked.key], asked.rank, r)
       else if asked.key in after then
         after == before[asked.key := after[asked.key]] && FairFor(after[asked.key], asked, n, dpSize) && Told(after[asked.key], asked.rank, r)
       else after == before && (r.Sampled? ==> r.indexes == [])
  }

  /** The cache that the polling check reads has every rank's share, and is otherwise as before. */
  ghost predicate SlotsHold(before: map<G.Slot, seq<int>>, after: map<G.Slot, seq<int>>, key: Key, shares: seq<seq<int>>) {
    && (forall slot :: slot in after <==> slot in before || ForBatch(slot, key, |shares|))
    && (forall slot :: slot in after ==> after[slot] == if ForBatch(slot, key, |shares|) then shares[slot.rank] else before[slot])
  }

  /** The slot of one of these ranks for this batch. */
  ghost predicate ForBatch(slot: G.Slot, key: Key, ranks: nat) {
    slot.partition == key.partition && slot.task == key.task && slot.batch == Some(key.batch) && 0 <= slot.rank < ranks
  }

  lemma AnswerIs(balanced: map<Key, seq<seq<int>>>, ready: seq<int>, n: nat, dpSize: nat, batchSize: nat, meta: map<int, int>, key: Key, rank: nat)
    requires n > 0 && dpSize > 0
    ensures var asked := Asked(ready, batchSize, key, rank, meta);
            if key in balanced then Answered(balanced, asked, balanced, Sampled(Share(balanced[key], rank)), n, dpSize)
            else match Assign(ready, n, dpSize, batchSize, meta)
              case Assigned(shares) =>
                |shares| == dpSize && Answered(balanced, asked, balanced[key := shares], Sampled(Share(shares, rank)), n, dpSize)
              case NoGroups => Answered(balanced, asked, balanced, Sampled([]), n, dpSize)
              case WrongMultiple => Answered(balanced, asked, balanced, NotAMultiple, n, dpSize)
              case Uneven => Answered(balanced, asked, balanced, AssertionFails, n, dpSize)
  {
    hide Assign, Fair;
    hide Balanced;
    if Assign(ready, n, dpSize, batchSize, meta).Assigned? {
      if forall x :: x in meta ==> meta[x] >= 0 { BalancedShares(ready, n, dpSize, batchSize, meta); }
      AssignedSize(ready, n, dpSize, batchSize, meta);
      if Distinct(ready) { FairShares(ready, n, dpSize, batchSize, meta); }
    }
  }

  lemma AssignedSize(ready: seq<int>, n: nat, dpSize: nat, batchSize: nat, meta: map<int, int>)
    requires n > 0 && dpSize > 0 && Assign(ready, n, dpSize, batchSize, meta).Assigned?
    ensures |Assign(ready, n, dpSize, batchSize, meta).shares| == dpSize
  {
    H.PartitionsCover(Weights(meta, G.Groups(ready, n, batchSize * dpSize / n)), dpSize, true);
  }

  lemma SlotsAre(results: map<G.Slot, seq<int>>, partition: string, task: string, batch: int, dpSize: nat)
    ensures forall shares :: |shares| == dpSize ==>
              SlotsHold(results, WithShares(results, partition, task, batch, shares, dpSize), Key(partition, task, batch), shares)
  {
    forall shares: seq<seq<int>> | |shares| == dpSize
      ensures SlotsHold(results, WithShares(results, partition, task, batch, shares, dpSize), Key(partition, task, batch), shares)
    {
      forall slot: G.Slot { SlotAt(results, partition, task, batch, shares, dpSize, slot); }
    }
  }

  lemma {:induction false} SlotAt(results: map<G.Slot, seq<int>>, partition: string, task: string, batch: int, shares: seq<seq<int>>, ranks: nat, slot: G.Slot)
    requires ranks <= |shares|
    ensures var after := WithShares(results, partition, task, batch, shares, ranks);
            var mine := ForBatch(slot, Key(partition, task, batch), ranks);
            && (slot in after <==> slot in results || mine)
            && (slot in after ==> after[slot] == if mine then shares[slot.rank] else results[slot])
  {
    if ranks > 0 { SlotAt(results, partition, task, batch, shares, ranks - 1, slot); }
  }

  ghost function WithShares(results: map<G.Slot, seq<int>>, partition: string, task: string, batch: int, shares: seq<seq<int>>, ranks: nat)
    : map<G.Slot, seq<int>>
  {
    if ranks == 0 then results else
      WithShares(results, partition, task, batch, shares, ranks - 1)
        [G.Slot(partition, task, ranks - 1, Some(batch)) := Share(shares, ranks - 1)]
  }

  lemma ProductPositive(a: nat, n: nat)
    requires n > 0
    ensures a * n == 0 <==> a == 0
  {
  }

  // ---------------------------------------------------------------- fair shares

  /** dp ranks, each with batch_size samples made of whole groups; every sample of every group goes to one rank only. */
  ghost predicate Fair(shares: seq<seq<int>>, groups: seq<seq<int>>, dpSize: nat, batchSize: nat) {
    && |shares| == dpSize
    && (forall p :: 0 <= p < dpSize ==> |shares[p]| == batchSize && WholeGroups(shares[p], groups))
    && (forall x :: InSome(groups, x) <==> InSome(shares, x))
    && Apart(shares)
  }

  ghost predicate InSome(lists: seq<seq<int>>, x: int) {
    exists g :: 0 <= g < |lists| && x in lists[g]
  }

  ghost predicate WholeGroups(share: seq<int>, groups: seq<seq<int>>) {
    exists part :: PartFits(part, |groups|) && share == Pick(groups, part)
  }

  lemma FairShares(ready: seq<int>, n: nat, dpSize: nat, batchSize: nat, meta: map<int, int>)
    requires n > 0 && dpSize > 0 && Distinct(ready) && Assign(ready, n, dpSize, batchSize, meta).Assigned?
    ensures Fair(Assign(ready, n, dpSize, batchSize, meta).shares, G.Groups(ready, n, batchSize * dpSize / n), dpSize, batchSize)
  {
    var groups := G.Groups(ready, n, batchSize * dpSize / n);
    var weights := Weights(meta, groups);
    var parts := H.Partitions(weights, dpSize, true);
    var shares := Assign(ready, n, dpSize, batchSize, meta).shares;
    PartitionsFit(weights, dpSize);
    assert shares == Deal(groups, parts);
    H.PartitionsCover(weights, dpSize, true);
    GroupsApart(ready, n, batchSize * dpSize / n);
    G.GroupsLength(ready, n, batchSize * dpSize / n);
    H.PartitionsEqual(weights, dpSize);
    assert |groups| == batchSize * dpSize / n && (batchSize * dpSize) % n == 0;
    hide Assign, Weights;
    forall p | 0 <= p < dpSize ensures |shares[p]| == batchSize && WholeGroups(shares[p], groups) {
      assert PartFits(parts[p], |groups|);
      PickLength(groups, parts[p], n);
      ShareSize(batchSize, dpSize, n, |groups|, |parts[p]|);
    }
    forall x ensures InSome(groups, x) <==> InSome(shares, x) {
      DealtOnce(groups, parts, x);
    }
    forall p, q, x | 0 <= p < |shares| && 0 <= q < |shares| && x in shares[p] && x in shares[q] ensures p == q {
      DealtOnce(groups, parts, x);
    }
  }

  lemma ShareSize(batchSize: nat, dpSize: nat, n: nat, groups: nat, size: nat)
    requires n > 0 && dpSize > 0 && groups == batchSize * dpSize / n && (batchSize * dpSize) % n == 0 && size * dpSize == groups
    ensures size * n == batchSize
  {
    assert batchSize * dpSize == groups * n;
    assert (size * n - batchSize) * dpSize == 0;
  }

  lemma GroupsApart(ready: seq<int>, n: nat, need: nat)
    requires n > 0 && Distinct(ready)
    ensures Apart(G.Groups(ready, n, need))
  {
    G.SortedAscending(ready);
    G.ScanBlocks(G.Sorted(ready), n, need, 0);
  }

  lemma WeightsNonNegative(meta: map<int, int>, groups: seq<seq<int>>)
    requires forall x :: x in meta ==> meta[x] >= 0
    ensures forall g :: 0 <= g < |groups| ==> Weights(meta, groups)[g] >= 0
  {
    forall g | 0 <= g < |groups| ensures Weights(meta, groups)[g] >= 0 {
      GroupWeightNonNegative(meta, groups[g]);
    }
  }

  lemma {:induction false} GroupWeightNonNegative(meta: map<int, int>, group: seq<int>)
    requires forall x :: x in meta ==> meta[x] >= 0
    ensures GroupWeight(meta, group) >= 0
  {
    if group != [] { GroupWeightNonNegative(meta, group[..|group| - 1]); }
  }

  /** With enough groups, an assertion fails exactly when the per-rank batch size is not itself a multiple of n. */
  lemma UnevenExactly(ready: seq<int>, n: nat, dpSize: nat, batchSize: nat, meta: map<int, int>)
    requires n > 0 && dpSize > 0 && batchSize > 0 && forall x :: x in meta ==> meta[x] >= 0
    requires (batchSize * dpSize) % n == 0 && |G.Groups(ready, n, batchSize * dpSize / n)| == batchSize * dpSize / n
    ensures Assign(ready, n, dpSize, batchSize, meta).Uneven? <==> batchSize % n != 0
    ensures Assign(ready, n, dpSize, batchSize, meta).Assigned? <==> batchSize % n == 0
  {
    var groups := G.Groups(ready, n, batchSize * dpSize / n);
    var weights := Weights(meta, groups);
    ProductPositive(batchSize, dpSize);
    SharesEvenly(batchSize, dpSize, n);
    B.WholeIsMultiple(|groups|, dpSize);
    WeightsNonNegative(meta, groups);
    if B.Fits(weights, dpSize, true) {
      H.PartitionsNonEmpty(weights, dpSize, true);
    }
  }

  lemma SharesEvenly(b: nat, d: nat, n: nat)
    requires b > 0 && d > 0 && n > 0 && (b * d) % n == 0
    ensures b * d / n > 0
    ensures b % n == 0 <==> b * d / n >= d && (b * d / n) % d == 0
  {
    var g := b * d / n;
    DivMod(b * d, n);
    ProductPositive(b, d);
    DivMod(b, n);
    DivMod(g, d);
    if b % n == 0 {
      Swap(b / n, n, d);
      Cancel(g, b / n * d, n);
      G.Times(b / n, d);
      AtLeastOnce(b / n, d);
    }
    if g % d == 0 {
      Swap(g / d, d, n);
      Cancel(b, g / d * n, d);
      G.Times(g / d, n);
    }
  }

  lemma DivMod(a: nat, n: nat)
    requires n > 0
    ensures a == a / n * n + a % n && (a > 0 && a % n == 0 ==> a / n > 0)
  {
  }

  lemma Swap(q: nat, n: nat, d: nat)
    ensures q * n * d == q * d * n
  {
  }

  lemma Cancel(a: nat, b: nat, n: nat)
    requires n > 0 && a * n == b * n
    ensures a == b
  {
    assert (a - b) * n == 0;
  }

  lemma AtLeastOnce(q: nat, d: nat)
    requires q > 0
    ensures q * d >= d
  {
  }
}
