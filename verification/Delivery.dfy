/**
 Handing out the samples of one partition (scan_data_status, mark_consumed, reset_consumption and get_metadata in
 transfer_queue/controller.py, with SequentialSampler or RankAwareSampler). PartitionStatus.dfy is the tensors behind the
 status, Controller.dfy the object that serves the requests.
 */
module Delivery {
  import opened Prelude

  datatype Cell = Cell(row: nat, field: string)

  /** What the status tensors say: which cells are ready, and which rows each task has consumed. */
  datatype Status = Status(rows: nat, fields: set<string>, produced: set<Cell>, used: map<string, set<nat>>)

  function UsedBy(s: Status, task: string): set<nat> {
    if task in s.used then s.used[task] else {}
  }

  /** update_production_status: room for the rows and fields, then the cells become ready or hidden. */
  function Notified(s: Status, rows: nat, indexes: set<nat>, fields: set<string>, ready: bool): Status {
    var cells := set i, f | i in indexes && f in fields :: Cell(i, f);
    s.(rows := if rows > s.rows then rows else s.rows, fields := s.fields + fields,
       produced := if ready then s.produced + cells else s.produced - cells)
  }

  /** get_consumption_status: asking for a task's record makes an empty one. */
  function Asked(s: Status, task: string): Status {
    s.(used := s.used[task := UsedBy(s, task)])
  }

  /** mark_consumed: an index without a row raises, the error is swallowed, and nothing is marked. */
  function Marked(s: Status, task: string, indexes: seq<nat>): Status {
    if forall i :: i in indexes ==> i < s.rows then s.(used := s.used[task := UsedBy(s, task) + set i | i in indexes])
    else Asked(s, task)
  }

  predicate Resets(which: Option<string>, task: string) {
    which.None? || which.value == task
  }

  /** reset_consumption: one task's record is emptied, or every one. */
  function ResetStatus(s: Status, which: Option<string>): Status {
    s.(used := map t | t in s.used :: if Resets(which, t) then {} else s.used[t])
  }

  predicate IsReady(s: Status, fields: seq<string>, task: string, i: nat) {
    i !in UsedBy(s, task) && forall f :: f in fields ==> Cell(i, f) in s.produced
  }

  /** The ready rows below n, ascending. */
  function ReadyBelow(s: Status, fields: seq<string>, task: string, n: nat): seq<nat> {
    if n == 0 then [] else
      ReadyBelow(s, fields, task, n - 1) + if IsReady(s, fields, task, n - 1) then [n - 1] else []
  }

  predicate Known(s: Status, fields: seq<string>) {
    forall f :: f in fields ==> f in s.fields
  }

  /** scan_data_status */
  function Scan(s: Status, fields: seq<string>, task: string): seq<nat> {
    if Known(s, fields) then ReadyBelow(s, fields, task, s.rows) else []
  }

  function Scanned(s: Status, fields: seq<string>, task: string): Status {
    if Known(s, fields) then Asked(s, task) else s
  }

  lemma {:induction false} ReadyBelowIs(s: Status, fields: seq<string>, task: string, n: nat)
    ensures forall i: nat :: i in ReadyBelow(s, fields, task, n) <==> i < n && IsReady(s, fields, task, i)
    ensures forall i, j :: 0 <= i < j < |ReadyBelow(s, fields, task, n)| ==> ReadyBelow(s, fields, task, n)[i] < ReadyBelow(s, fields, task, n)[j]
  {
    if n > 0 {
      ReadyBelowIs(s, fields, task, n - 1);
      var less, all := ReadyBelow(s, fields, task, n - 1), ReadyBelow(s, fields, task, n);
      forall i, j | 0 <= i < j < |all| ensures all[i] < all[j] {
        assert all[i] == less[i] && less[i] in less;
      }
    }
  }

  // ---------------------------------------------------------------- fetching

  datatype Kind = Sequential | RankAware

  datatype Slot = Slot(rank: nat, batch: int)

  datatype Key = Key(task: string, slot: Slot)

  datatype Delivered = Delivered(task: string, slot: Slot, batch: seq<nat>)

  /** `cache` is the sampler's; `log` lists what has been handed out, `since` how much of it before a task's last reset. */
  datatype State = State(kind: Kind, polling: bool, status: Status, cache: map<Key, seq<nat>>,
                         log: seq<Delivered>, since: map<string, nat>)

  function First(ready: seq<nat>, n: nat): seq<nat> {
    if n <= |ready| then ready[..n] else ready
  }

  /** The sampler: the batch, and the cache afterwards. */
  function Sample(kind: Kind, cache: map<Key, seq<nat>>, ready: seq<nat>, n: nat, key: Key): (seq<nat>, map<Key, seq<nat>>) {
    match kind
    case Sequential => (First(ready, n), cache)
    case RankAware =>
      if key in cache then (cache[key], cache)
      else if |First(ready, n)| < n then ([], cache)
      else (First(ready, n), cache[key := First(ready, n)])
  }

  /** get_metadata in fetch mode; without a batch it polls, waits or raises, and marks nothing. */
  function Fetch(s: State, task: string, fields: seq<string>, n: nat, slot: Slot): State {
    var ready := Scan(s.status, fields, task);
    var scanned := Scanned(s.status, fields, task);
    if |ready| < n && !(s.polling && s.kind == RankAware && Key(task, slot) in s.cache) then s.(status := scanned) else
      var (batch, cache) := Sample(s.kind, s.cache, ready, n, Key(task, slot));
      if batch == [] then s.(status := scanned, cache := cache)
      else s.(status := Marked(scanned, task, batch), cache := cache, log := s.log + [Delivered(task, slot, batch)])
  }

  function Reset(s: State, which: Option<string>): State {
    s.(status := ResetStatus(s.status, which), since := s.since + map t | t in s.status.used && Resets(which, t) :: |s.log|)
  }

  datatype Step =
    | Produces(rows: nat, indexes: set<nat>, fields: set<string>, ready: bool)
    | Fetches(task: string, wanted: seq<string>, n: nat, slot: Slot)
    | StartsOver(which: Option<string>)

  function Apply(s: State, step: Step): State {
    match step
    case Produces(rows, indexes, fields, ready) => s.(status := Notified(s.status, rows, indexes, fields, ready))
    case Fetches(task, fields, n, slot) => Fetch(s, task, fields, n, slot)
    case StartsOver(which) => Reset(s, which)
  }

  function Run(s: State, steps: seq<Step>): State {
    if steps == [] then s else Apply(Run(s, steps[..|steps| - 1]), steps[|steps| - 1])
  }

  function Initial(kind: Kind, polling: bool, rows: nat): State {
    State(kind, polling, Status(rows, {}, {}, map[]), map[], [], map[])
  }

  // ---------------------------------------------------------------- exactly once

  ghost predicate Shared(a: Delivered, b: Delivered) {
    exists i :: i in a.batch && i in b.batch
  }

  function Since(s: State, task: string): nat {
    if task in s.since then s.since[task] else 0
  }

  /**
   Since its last reset a task is given a sample once; under RankAware, callers with the same rank and batch index get
   the same batch.
   */
  ghost predicate HandsOutOnce(s: State) {
    forall a, b :: 0 <= a < b < |s.log| && s.log[a].task == s.log[b].task && Since(s, s.log[a].task) <= a ==>
      Fair(s.kind, s.log[a], s.log[b])
  }

  ghost predicate Fair(kind: Kind, a: Delivered, b: Delivered) {
    if kind == RankAware && a.slot == b.slot then a.batch == b.batch else !Shared(a, b)
  }

  ghost predicate AllUsed(status: Status, task: string, batch: seq<nat>) {
    forall i :: i in batch ==> i in UsedBy(status, task) && i < status.rows
  }

  /** Two slots of one task never have a sample in common. */
  ghost predicate CacheApart(cache: map<Key, seq<nat>>) {
    forall k, l, i :: k in cache && l in cache && k.task == l.task && i in cache[k] && i in cache[l] ==> k == l
  }

  /** The deliveries that count: those since its consumer's last reset. */
  ghost predicate Counts(s: State, a: int) {
    0 <= a < |s.log| && Since(s, s.log[a].task) <= a
  }

  ghost predicate Inv(s: State) {
    && (forall a :: Counts(s, a) ==> AllUsed(s.status, s.log[a].task, s.log[a].batch))
    && (forall k :: k in s.cache ==> AllUsed(s.status, k.task, s.cache[k]))
    && CacheApart(s.cache) && HandsOutOnce(s)
    && (s.kind == RankAware ==> forall a :: Counts(s, a) ==> InCache(s.cache, s.log[a]))
    && (s.kind == Sequential ==> s.cache == map[])
    && (forall t :: t in s.since ==> s.since[t] <= |s.log|)
  }

  ghost predicate InCache(cache: map<Key, seq<nat>>, d: Delivered) {
    Key(d.task, d.slot) in cache && cache[Key(d.task, d.slot)] == d.batch
  }

  lemma OnceOf(s: State)
    requires Inv(s)
    ensures HandsOutOnce(s)
  {
  }

  lemma ScanUnused(s: Status, fields: seq<string>, task: string, i: nat)
    requires i in Scan(s, fields, task)
    ensures i !in UsedBy(s, task) && i < s.rows && forall f :: f in fields ==> Cell(i, f) in s.produced
  {
    ReadyBelowIs(s, fields, task, s.rows);
  }

  /** A batch that does not come from the cache is of samples its consumer has not had, with every field ready. */
  lemma NewBatch(s: State, task: string, fields: seq<string>, n: nat, slot: Slot, i: nat)
    requires var (batch, cache) := Sample(s.kind, s.cache, Scan(s.status, fields, task), n, Key(task, slot)); i in batch
    requires s.kind == Sequential || Key(task, slot) !in s.cache
    ensures i !in UsedBy(s.status, task) && i < s.status.rows && forall f :: f in fields ==> Cell(i, f) in s.status.produced
  {
    assert i in Scan(s.status, fields, task);
    ScanUnused(s.status, fields, task, i);
  }

  /** Every sampled index has a row, so marking never fails. */
  lemma SampledHaveRows(s: State, task: string, fields: seq<string>, n: nat, slot: Slot, i: nat)
    requires Inv(s)
    requires var (batch, cache) := Sample(s.kind, s.cache, Scan(s.status, fields, task), n, Key(task, slot)); i in batch
    ensures i < s.status.rows
  {
    if s.kind == RankAware && Key(task, slot) in s.cache {
      assert AllUsed(s.status, task, s.cache[Key(task, slot)]);
    } else {
      NewBatch(s, task, fields, n, slot, i);
    }
  }

  // ---------------------------------------------------------------- which samples are handed out

  /** The rows that a task may be given: not had yet, and ready in every field. */
  ghost function ReadyRows(s: Status, fields: seq<string>, task: string): set<nat> {
    set i: nat | i < s.rows && (forall f :: f in fields ==> f in s.fields && Cell(i, f) in s.produced) && i !in UsedBy(s, task)
  }

  /** The n smallest of the rows, ascending. */
  ghost predicate Oldest(rows: set<nat>, n: nat, batch: seq<nat>) {
    && |batch| == n
    && (forall a, b :: 0 <= a < b < |batch| ==> batch[a] < batch[b])
    && (forall i :: i in batch ==> i in rows)
    && (forall i, j :: i in batch && j in rows && j !in batch ==> i < j)
  }

  /** What a fetch hands out: the batch kept for its slot, else the n oldest ready rows if there are as many, else nothing. */
  ghost predicate Hands(s: State, task: string, fields: seq<string>, n: nat, slot: Slot, batch: seq<nat>) {
    var rows, kept := ReadyRows(s.status, fields, task), s.kind == RankAware && Key(task, slot) in s.cache;
    if |rows| < n && !(s.polling && kept) then batch == []
    else if kept then batch == s.cache[Key(task, slot)]
    else Oldest(rows, n, batch)
  }

  lemma {:induction false} ReadyBelowCount(s: Status, fields: seq<string>, task: string, n: nat)
    ensures |ReadyBelow(s, fields, task, n)| == |set i: nat | i < n && IsReady(s, fields, task, i)|
  {
    hide IsReady;
    var rows := set i: nat | i < n && IsReady(s, fields, task, i);
    if n == 0 {
      assert rows == {};
    } else {
      ReadyBelowCount(s, fields, task, n - 1);
      var less := set i: nat | i < n - 1 && IsReady(s, fields, task, i);
      assert rows == if IsReady(s, fields, task, n - 1) then less + {n - 1} else less;
    }
  }

  lemma ScanIsReadyRows(s: Status, fields: seq<string>, task: string)
    ensures |Scan(s, fields, task)| == |ReadyRows(s, fields, task)| && (forall i :: i in Scan(s, fields, task) <==> i in ReadyRows(s, fields, task))
    ensures forall a, b :: 0 <= a < b < |Scan(s, fields, task)| ==> Scan(s, fields, task)[a] < Scan(s, fields, task)[b]
  {
    ReadyBelowIs(s, fields, task, s.rows);
    ReadyBelowCount(s, fields, task, s.rows);
    if Known(s, fields) {
      assert ReadyRows(s, fields, task) == set i: nat | i < s.rows && IsReady(s, fields, task, i);
    } else {
      NoneWhenUnknown(s, fields, task);
    }
  }

  lemma NoneWhenUnknown(s: Status, fields: seq<string>, task: string)
    requires !Known(s, fields)
    ensures ReadyRows(s, fields, task) == {}
  {
  }

  lemma FirstIsOldest(rows: set<nat>, ready: seq<nat>, n: nat)
    requires n <= |ready| && (forall i :: i in ready <==> i in rows) && forall a, b :: 0 <= a < b < |ready| ==> ready[a] < ready[b]
    ensures Oldest(rows, n, First(ready, n))
  {
    var batch := First(ready, n);
    forall k | 0 <= k < n ensures ready[k] in batch { assert batch[k] == ready[k]; }
    forall i, j | i in batch && j in rows && j !in batch ensures i < j {
      var a :| 0 <= a < n && batch[a] == i;
      var b :| 0 <= b < |ready| && ready[b] == j;
    }
  }

  /** What a fetch adds to the deliveries. */
  lemma FetchHands(s: State, task: string, fields: seq<string>, n: nat, slot: Slot) returns (batch: seq<nat>)
    ensures Hands(s, task, fields, n, slot, batch)
    ensures Fetch(s, task, fields, n, slot).log == s.log + if batch == [] then [] else [Delivered(task, slot, batch)]
  {
    hide Scan, Scanned, Marked, ReadyRows, First, Oldest;
    var ready, key := Scan(s.status, fields, task), Key(task, slot);
    ScanIsReadyRows(s.status, fields, task);
    if |ready| < n && !(s.polling && s.kind == RankAware && key in s.cache) {
      batch := [];
    } else {
      batch := Sample(s.kind, s.cache, ready, n, key).0;
      if n <= |ready| { FirstIsOldest(ReadyRows(s.status, fields, task), ready, n); OldestSize(ReadyRows(s.status, fields, task), n, First(ready, n)); }
    }
  }

  lemma SameDelivery(log: seq<Delivered>, task: string, slot: Slot, a: seq<nat>, b: seq<nat>)
    requires log + (if a == [] then [] else [Delivered(task, slot, a)]) == log + if b == [] then [] else [Delivered(task, slot, b)]
    ensures a == b
  {
    var x, y := if a == [] then [] else [Delivered(task, slot, a)], if b == [] then [] else [Delivered(task, slot, b)];
    assert |log + x| == |log + y|;
    if a != [] { assert (log + x)[|log|] == (log + y)[|log|]; }
  }

  lemma OldestSize(rows: set<nat>, n: nat, batch: seq<nat>)
    requires Oldest(rows, n, batch)
    ensures |batch| == n
  {
  }

  lemma MarkedKeeps(s: Status, fields: seq<string>, task: string, indexes: seq<nat>, t: string, batch: seq<nat>)
    requires AllUsed(s, t, batch)
    ensures AllUsed(Scanned(s, fields, task), t, batch) && AllUsed(Marked(Scanned(s, fields, task), task, indexes), t, batch)
  {
  }

  lemma JustMarked(s: Status, fields: seq<string>, task: string, batch: seq<nat>)
    requires forall i :: i in batch ==> i < s.rows
    ensures AllUsed(Marked(Scanned(s, fields, task), task, batch), task, batch)
  {
  }

  /** What a fetch may do to the sampler's cache and the status. */
  ghost predicate Continues(s: State, s2: State) {
    && s2.kind == s.kind && s2.since == s.since
    && CacheApart(s2.cache) && (forall k :: k in s.cache ==> k in s2.cache && s2.cache[k] == s.cache[k])
    && (forall k :: k in s2.cache ==> AllUsed(s2.status, k.task, s2.cache[k]))
    && (s.kind == Sequential ==> s2.cache == map[])
    && forall t, batch :: AllUsed(s.status, t, batch) ==> AllUsed(s2.status, t, batch)
  }

  lemma NothingDelivered(s: State, s2: State)
    requires Inv(s) && Continues(s, s2) && s2.log == s.log
    ensures Inv(s2)
  {
    hide AllUsed, Fair;
    assert forall a :: Counts(s2, a) <==> Counts(s, a);
  }

  lemma OneDelivered(s: State, s2: State, d: Delivered)
    requires Inv(s) && Continues(s, s2) && s2.log == s.log + [d]
    requires AllUsed(s2.status, d.task, d.batch) && (s.kind == RankAware ==> InCache(s2.cache, d))
    requires forall a :: Counts(s, a) && s.log[a].task == d.task ==> Fair(s.kind, s.log[a], d)
    ensures Inv(s2)
  {
    hide AllUsed, Fair, CacheApart;
    assert forall a :: Counts(s2, a) ==> s2.log[a] == if a == |s.log| then d else s.log[a];
    assert forall a :: Counts(s2, a) ==> a == |s.log| || Counts(s, a);
  }

  lemma FetchInv(s: State, task: string, fields: seq<string>, n: nat, slot: Slot)
    requires Inv(s)
    ensures Inv(Fetch(s, task, fields, n, slot))
  {
    hide Inv, AllUsed, Fair, Sample, Marked, Scanned, Scan, CacheApart, InCache;
    var s2 := Fetch(s, task, fields, n, slot);
    var (batch, cache) := Sample(s.kind, s.cache, Scan(s.status, fields, task), n, Key(task, slot));
    SampledCache(s, task, fields, n, slot);
    forall t, had | AllUsed(s.status, t, had) ensures AllUsed(s2.status, t, had) {
      MarkedKeeps(s.status, fields, task, batch, t, had);
    }
    if s2.log == s.log {
      NothingDelivered(s, s2);
    } else {
      forall a | Counts(s, a) && s.log[a].task == task ensures Fair(s.kind, s.log[a], Delivered(task, slot, batch)) {
        DeliveredFair(s, task, fields, n, slot, a);
      }
      OneDelivered(s, s2, Delivered(task, slot, batch));
    }
  }

  /** The cache after sampling: old entries stay, and a new one holds only samples that no other slot of that consumer has. */
  lemma SampledCache(s: State, task: string, fields: seq<string>, n: nat, slot: Slot)
    requires Inv(s)
    ensures var (batch, cache) := Sample(s.kind, s.cache, Scan(s.status, fields, task), n, Key(task, slot));
            var scanned := Scanned(s.status, fields, task);
            && CacheApart(cache) && (forall k :: k in s.cache ==> k in cache && cache[k] == s.cache[k])
            && (forall k :: k in cache ==> AllUsed(Marked(scanned, task, batch), k.task, cache[k]))
            && (batch == [] ==> forall k :: k in cache ==> AllUsed(scanned, k.task, cache[k]))
            && (forall k :: k in s.cache ==> AllUsed(scanned, k.task, s.cache[k]))
            && AllUsed(Marked(scanned, task, batch), task, batch)
            && (s.kind == RankAware && batch != [] ==> InCache(cache, Delivered(task, slot, batch)))
            && (s.kind == Sequential ==> s.cache == map[] && cache == map[]) && CacheApart(s.cache)
  {
    var (batch, cache) := Sample(s.kind, s.cache, Scan(s.status, fields, task), n, Key(task, slot));
    forall k | k in s.cache
      ensures AllUsed(Marked(Scanned(s.status, fields, task), task, batch), k.task, s.cache[k])
      ensures AllUsed(Scanned(s.status, fields, task), k.task, s.cache[k])
    {
      MarkedKeeps(s.status, fields, task, batch, k.task, s.cache[k]);
    }
    forall i | i in batch ensures i < s.status.rows { SampledHaveRows(s, task, fields, n, slot, i); }
    JustMarked(s.status, fields, task, batch);
    if s.kind == RankAware && Key(task, slot) !in s.cache {
      forall k, i | k in s.cache && k.task == task && i in s.cache[k] ensures i !in batch {
        assert AllUsed(s.status, task, s.cache[k]);
        if i in batch { NewBatch(s, task, fields, n, slot, i); }
      }
    }
  }

  lemma DeliveredFair(s: State, task: string, fields: seq<string>, n: nat, slot: Slot, a: nat)
    requires Inv(s) && Counts(s, a) && s.log[a].task == task
    ensures var (batch, cache) := Sample(s.kind, s.cache, Scan(s.status, fields, task), n, Key(task, slot));
            batch != [] ==> Fair(s.kind, s.log[a], Delivered(task, slot, batch))
  {
    var (batch, cache) := Sample(s.kind, s.cache, Scan(s.status, fields, task), n, Key(task, slot));
    if s.kind == Sequential || Key(task, slot) !in s.cache {
      forall i | i in batch ensures i !in s.log[a].batch {
        NewBatch(s, task, fields, n, slot, i);
        assert AllUsed(s.status, task, s.log[a].batch);
      }
    }
  }

  lemma NotifiedInv(s: State, rows: nat, indexes: set<nat>, fields: set<string>, ready: bool)
    requires Inv(s)
    ensures Inv(s.(status := Notified(s.status, rows, indexes, fields, ready)))
  {
    var s2 := s.(status := Notified(s.status, rows, indexes, fields, ready));
    assert forall t :: UsedBy(s2.status, t) == UsedBy(s.status, t);
    assert forall t, batch :: AllUsed(s.status, t, batch) ==> AllUsed(s2.status, t, batch);
  }

  // ---------------------------------------------------------------- resets

  /** The sampler keeps no batch of a task that starts over. */
  ghost predicate Clean(s: State, which: Option<string>) {
    forall k :: k in s.cache && k.task in s.status.used && Resets(which, k.task) ==> s.cache[k] == []
  }

  lemma ResetInv(s: State, which: Option<string>)
    requires Inv(s) && Clean(s, which)
    ensures Inv(Reset(s, which))
  {
    var s2 := Reset(s, which);
    forall a | Counts(s2, a) ensures Counts(s, a) && !(s.log[a].task in s.status.used && Resets(which, s.log[a].task)) {
      var t := s.log[a].task;
    }
    forall t | !(t in s.status.used && Resets(which, t)) ensures UsedBy(s2.status, t) == UsedBy(s.status, t) {
    }
    forall k | k in s.cache ensures AllUsed(s2.status, k.task, s.cache[k]) {
      assert AllUsed(s.status, k.task, s.cache[k]);
    }
    forall a | Counts(s2, a) ensures AllUsed(s2.status, s.log[a].task, s.log[a].batch) {
      assert AllUsed(s.status, s.log[a].task, s.log[a].batch);
    }
  }

  /** Whether every reset of the run comes while the sampler keeps nothing of the consumers it resets. */
  ghost predicate CleanRun(s: State, steps: seq<Step>) {
    forall n :: 0 <= n < |steps| && steps[n].StartsOver? ==> Clean(Run(s, steps[..n]), steps[n].which)
  }

  lemma StepInv(s: State, step: Step)
    requires Inv(s) && (step.StartsOver? ==> Clean(s, step.which))
    ensures Inv(Apply(s, step))
  {
    hide Inv, Clean, Notified, Fetch, Reset;
    match step
    case Produces(rows, indexes, fields, ready) => NotifiedInv(s, rows, indexes, fields, ready);
    case Fetches(task, fields, k, slot) => FetchInv(s, task, fields, k, slot);
    case StartsOver(which) => ResetInv(s, which);
  }

  lemma {:induction false} RunInv(s: State, steps: seq<Step>)
    requires Inv(s) && CleanRun(s, steps)
    ensures Inv(Run(s, steps)) && Run(s, steps).kind == s.kind
    decreases |steps|
  {
    if steps != [] {
      hide Inv, Clean, Notified, Fetch, Reset, Apply;
      var n := |steps| - 1;
      CleanPrefix(s, steps, n);
      RunInv(s, steps[..n]);
      StepInv(Run(s, steps[..n]), steps[n]);
      SameKind(Run(s, steps[..n]), steps[n]);
    }
  }

  lemma CleanPrefix(s: State, steps: seq<Step>, n: nat)
    requires CleanRun(s, steps) && n <= |steps|
    ensures CleanRun(s, steps[..n])
  {
    forall m | 0 <= m < n && steps[m].StartsOver? ensures Clean(Run(s, steps[..n][..m]), steps[m].which) {
      assert steps[..n][..m] == steps[..m];
    }
  }

  lemma SameKind(s: State, step: Step)
    ensures Apply(s, step).kind == s.kind
  {
  }

  lemma InitialInv(kind: Kind, polling: bool, rows: nat)
    ensures Inv(Initial(kind, polling, rows))
  {
  }

  /** Over every run whose resets are clean, each task is handed each sample once between its resets. */
  lemma ExactlyOnce(kind: Kind, polling: bool, rows: nat, steps: seq<Step>)
    requires CleanRun(Initial(kind, polling, rows), steps)
    ensures HandsOutOnce(Run(Initial(kind, polling, rows), steps))
  {
    InitialInv(kind, polling, rows);
    RunInv(Initial(kind, polling, rows), steps);
  }

  /** The sequential sampler keeps nothing, so there every run is. */
  lemma {:induction false} SequentialIsClean(polling: bool, rows: nat, steps: seq<Step>)
    ensures CleanRun(Initial(Sequential, polling, rows), steps) && HandsOutOnce(Run(Initial(Sequential, polling, rows), steps))
    decreases |steps|
  {
    hide Run, HandsOutOnce;
    var s := Initial(Sequential, polling, rows);
    InitialInv(Sequential, polling, rows);
    forall n | 0 <= n < |steps| && steps[n].StartsOver? ensures Clean(Run(s, steps[..n]), steps[n].which) {
      SequentialIsClean(polling, rows, steps[..n]);
      RunInv(s, steps[..n]);
    }
    ExactlyOnce(Sequential, polling, rows, steps);
  }
}
