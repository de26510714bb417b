/**
 Whole runs of one partition's hand-out of samples: what a reset does to exactly-once delivery, and that tasks do not
 disturb one another.
 */
module DeliveryRuns {
  import opened Prelude
  import opened Delivery

  // ---------------------------------------------------------------- starting over

  ghost predicate NoResets(steps: seq<Step>) {
    forall n :: 0 <= n < |steps| ==> !steps[n].StartsOver?
  }

  /**
   reset_consumption does not reach the sampler's cache. So exactly-once delivery survives a reset, whatever follows, if
   and only if the sampler keeps no batch of the consumers that are reset.
   */
  lemma ResetExactly(s: State, which: Option<string>)
    requires Inv(s)
    ensures Clean(s, which) <==> forall steps :: NoResets(steps) ==> HandsOutOnce(Run(Reset(s, which), steps))
  {
    hide Inv, Clean, HandsOutOnce, Run, Reset;
    if Clean(s, which) {
      forall steps | NoResets(steps) ensures HandsOutOnce(Run(Reset(s, which), steps)) {
        ResetInv(s, which);
        RunInv(Reset(s, which), steps);
        OnceOf(Run(Reset(s, which), steps));
      }
    } else {
      var steps := StaleBatch(s, which);
      assert NoResets(steps);
    }
  }

  /** One fetch of every row by a new batch index, one by the index that the sampler still keeps. */
  lemma StaleBatch(s: State, which: Option<string>) returns (steps: seq<Step>)
    requires Inv(s) && !Clean(s, which)
    ensures NoResets(steps) && !HandsOutOnce(Run(Reset(s, which), steps))
  {
    var k: Key :| k in s.cache && k.task in s.status.used && Resets(which, k.task) && s.cache[k] != [];
    var b := NewBatchIndex(s.cache.Keys);
    var slot := Slot(k.slot.rank, b);
    var x, y := Fetches(k.task, [], s.status.rows, slot), Fetches(k.task, [], 0, k.slot);
    steps := [x, y];
    var s1 := Reset(s, which);
    assert AllUsed(s.status, k.task, s.cache[k]) && s.cache[k][0] in s.cache[k];
    TwoFetches(s1, k, slot);
    assert steps[..1][..0] == [] && steps[..1] == [x];
    assert Run(s1, []) == s1 && Run(s1, [x]) == Apply(s1, x);
  }

  lemma TwoFetches(s: State, k: Key, slot: Slot)
    requires s.kind == RankAware && UsedBy(s.status, k.task) == {} && Key(k.task, slot) !in s.cache && slot != k.slot
    requires k in s.cache && s.cache[k] != [] && s.cache[k][0] < s.status.rows && Since(s, k.task) <= |s.log|
    ensures !HandsOutOnce(Fetch(Fetch(s, k.task, [], s.status.rows, slot), k.task, [], 0, k.slot))
  {
    hide Fetch;
    AllRowsReady(s, k.task, slot);
    var s2 := Fetch(s, k.task, [], s.status.rows, slot);
    KeptBatchAgain(s2, k);
    var s3 := Fetch(s2, k.task, [], 0, k.slot);
    var a := |s.log|;
    assert s3.log[a] == s2.log[a];
    assert s.cache[k][0] in s3.log[a].batch && s.cache[k][0] in s3.log[a + 1].batch;
    assert !Fair(s3.kind, s3.log[a], s3.log[a + 1]);
  }

  lemma {:induction false} NewBatchIndex(keys: set<Key>) returns (b: int)
    ensures forall k :: k in keys ==> k.slot.batch < b
    decreases |keys|
  {
    if keys == {} { return 0; }
    var k :| k in keys;
    b := NewBatchIndex(keys - {k});
    if b <= k.slot.batch { b := k.slot.batch + 1; }
  }

  /** A task that has had nothing is given every row, if it names no field and a slot of its own. */
  lemma AllRowsReady(s: State, task: string, slot: Slot)
    requires s.kind == RankAware && UsedBy(s.status, task) == {} && s.status.rows > 0 && Key(task, slot) !in s.cache
    ensures var s2 := Fetch(s, task, [], s.status.rows, slot);
            && s2.kind == s.kind && s2.since == s.since && |s2.log| == |s.log| + 1 && s2.log[..|s.log|] == s.log
            && s2.log[|s.log|].task == task && s2.log[|s.log|].slot == slot
            && (forall i: nat :: i < s.status.rows ==> i in s2.log[|s.log|].batch)
            && (forall k :: k in s.cache ==> k in s2.cache && s2.cache[k] == s.cache[k])
  {
    hide ReadyBelow, IsReady, Marked;
    AllReady(s.status, task, s.status.rows);
    ReadyBelowIs(s.status, [], task, s.status.rows);
    assert ReadyBelow(s.status, [], task, s.status.rows)[..s.status.rows] == ReadyBelow(s.status, [], task, s.status.rows);
    assert Scan(s.status, [], task) == ReadyBelow(s.status, [], task, s.status.rows);
  }

  lemma {:induction false} AllReady(s: Status, task: string, n: nat)
    requires UsedBy(s, task) == {}
    ensures |ReadyBelow(s, [], task, n)| == n && forall i: nat :: i < n ==> IsReady(s, [], task, i)
  {
    if n > 0 { AllReady(s, task, n - 1); }
  }

  lemma KeptBatchAgain(s: State, k: Key)
    requires s.kind == RankAware && k in s.cache && s.cache[k] != []
    ensures var s2 := Fetch(s, k.task, [], 0, k.slot);
            s2.kind == s.kind && s2.since == s.since && s2.log == s.log + [Delivered(k.task, k.slot, s.cache[k])]
  {
  }

  // ---------------------------------------------------------------- one task among others

  function LogOf(log: seq<Delivered>, task: string): seq<Delivered> {
    if log == [] then [] else
      LogOf(log[..|log| - 1], task) + if log[|log| - 1].task == task then [log[|log| - 1]] else []
  }

  ghost predicate AlikeStatus(s: Status, s2: Status, task: string) {
    s2.rows == s.rows && s2.fields == s.fields && s2.produced == s.produced && UsedBy(s2, task) == UsedBy(s, task)
  }

  ghost predicate AlikeCache(cache: map<Key, seq<nat>>, cache2: map<Key, seq<nat>>, task: string) {
    && (forall slot :: Key(task, slot) in cache2 <==> Key(task, slot) in cache)
    && (forall slot :: Key(task, slot) in cache && Key(task, slot) in cache2 ==> cache2[Key(task, slot)] == cache[Key(task, slot)])
  }

  /** Everything that one task can see. */
  ghost predicate Alike(s: State, s2: State, task: string) {
    && s2.kind == s.kind && s2.polling == s.polling
    && AlikeStatus(s.status, s2.status, task) && AlikeCache(s.cache, s2.cache, task) && LogOf(s2.log, task) == LogOf(s.log, task)
  }

  predicate Concerns(step: Step, task: string) {
    match step
    case Produces(rows, indexes, fields, ready) => true
    case Fetches(t, fields, n, slot) => t == task
    case StartsOver(which) => Resets(which, task)
  }

  function Only(steps: seq<Step>, task: string): seq<Step> {
    if steps == [] then [] else
      Only(steps[..|steps| - 1], task) + if Concerns(steps[|steps| - 1], task) then [steps[|steps| - 1]] else []
  }

  lemma LogOne(log: seq<Delivered>, d: Delivered, task: string)
    ensures LogOf(log + [d], task) == LogOf(log, task) + if d.task == task then [d] else []
  {
    assert (log + [d])[..|log|] == log;
  }

  lemma {:induction false} SameReady(s: Status, s2: Status, fields: seq<string>, task: string, n: nat)
    requires s2.produced == s.produced && UsedBy(s2, task) == UsedBy(s, task)
    ensures ReadyBelow(s2, fields, task, n) == ReadyBelow(s, fields, task, n)
  {
    if n > 0 { SameReady(s, s2, fields, task, n - 1); }
  }

  lemma OtherStatus(s: Status, fields: seq<string>, other: string, batch: seq<nat>, task: string)
    requires other != task
    ensures AlikeStatus(s, Scanned(s, fields, other), task) && AlikeStatus(s, Marked(Scanned(s, fields, other), other, batch), task)
  {
  }

  lemma OtherCache(kind: Kind, cache: map<Key, seq<nat>>, ready: seq<nat>, n: nat, key: Key, task: string)
    requires key.task != task
    ensures AlikeCache(cache, Sample(kind, cache, ready, n, key).1, task)
  {
  }

  /** What another task does changes nothing that this one can see. */
  lemma OthersUnseen(s: State, step: Step, task: string)
    requires !Concerns(step, task)
    ensures Alike(s, Apply(s, step), task)
  {
    hide AlikeStatus, AlikeCache, Sample, Scan, Scanned, Marked, ResetStatus, LogOf;
    if step.Fetches? {
      var ready, key := Scan(s.status, step.wanted, step.task), Key(step.task, step.slot);
      var batch := Sample(s.kind, s.cache, ready, step.n, key).0;
      OtherStatus(s.status, step.wanted, step.task, batch, task);
      OtherCache(s.kind, s.cache, ready, step.n, key, task);
      AlikeSelf(s, task);
      LogOne(s.log, Delivered(step.task, step.slot, batch), task);
    } else {
      OtherReset(s, step.which, task);
    }
  }

  lemma OtherReset(s: State, which: Option<string>, task: string)
    requires !Resets(which, task)
    ensures Alike(s, Reset(s, which), task)
  {
  }

  lemma SameScan(s: Status, s2: Status, fields: seq<string>, task: string)
    requires AlikeStatus(s, s2, task)
    ensures Scan(s2, fields, task) == Scan(s, fields, task) && AlikeStatus(Scanned(s, fields, task), Scanned(s2, fields, task), task)
  {
    SameReady(s, s2, fields, task, s.rows);
  }

  lemma SameMarked(s: Status, s2: Status, batch: seq<nat>, task: string)
    requires AlikeStatus(s, s2, task)
    ensures AlikeStatus(Marked(s, task, batch), Marked(s2, task, batch), task)
  {
  }

  lemma SameSample(kind: Kind, cache: map<Key, seq<nat>>, cache2: map<Key, seq<nat>>, ready: seq<nat>, n: nat, key: Key)
    requires AlikeCache(cache, cache2, key.task)
    ensures Sample(kind, cache2, ready, n, key).0 == Sample(kind, cache, ready, n, key).0 && (key in cache2 <==> key in cache)
    ensures AlikeCache(Sample(kind, cache, ready, n, key).1, Sample(kind, cache2, ready, n, key).1, key.task)
  {
    assert key == Key(key.task, key.slot);
  }

  /** Two states that look alike to a task do after the same step, and a fetch hands it the same batch. */
  lemma SameSeen(s: State, s2: State, step: Step, task: string)
    requires Alike(s, s2, task) && Concerns(step, task)
    ensures Alike(Apply(s, step), Apply(s2, step), task)
  {
    hide AlikeStatus, AlikeCache, Sample, Scan, Scanned, Marked, Notified, ResetStatus, LogOf;
    match step
    case Produces(rows, indexes, fields, ready) => SameNotified(s.status, s2.status, rows, indexes, fields, ready, task);
    case StartsOver(which) => SameReset(s.status, s2.status, which, task);
    case Fetches(t, fields, n, slot) =>
      var ready := Scan(s.status, fields, task);
      var batch := Sample(s.kind, s.cache, ready, n, Key(task, slot)).0;
      SameScan(s.status, s2.status, fields, task);
      SameSample(s.kind, s.cache, s2.cache, ready, n, Key(task, slot));
      SameMarked(Scanned(s.status, fields, task), Scanned(s2.status, fields, task), batch, task);
      LogOne(s.log, Delivered(task, slot, batch), task);
      LogOne(s2.log, Delivered(task, slot, batch), task);
  }

  lemma SameNotified(s: Status, s2: Status, rows: nat, indexes: set<nat>, fields: set<string>, ready: bool, task: string)
    requires AlikeStatus(s, s2, task)
    ensures AlikeStatus(Notified(s, rows, indexes, fields, ready), Notified(s2, rows, indexes, fields, ready), task)
  {
  }

  lemma SameReset(s: Status, s2: Status, which: Option<string>, task: string)
    requires AlikeStatus(s, s2, task) && Resets(which, task)
    ensures AlikeStatus(ResetStatus(s, which), ResetStatus(s2, which), task)
  {
  }

  /** The deliveries to a task are those of the run without the other tasks' requests. */
  lemma {:induction false} TasksIndependent(s: State, steps: seq<Step>, task: string)
    ensures Alike(Run(s, Only(steps, task)), Run(s, steps), task)
    ensures LogOf(Run(s, steps).log, task) == LogOf(Run(s, Only(steps, task)).log, task)
    decreases |steps|
  {
    hide Alike, Apply, Concerns;
    if steps == [] {
      AlikeSelf(s, task);
    } else {
      var rest, last := steps[..|steps| - 1], steps[|steps| - 1];
      TasksIndependent(s, rest, task);
      if Concerns(last, task) {
        SameSeen(Run(s, Only(rest, task)), Run(s, rest), last, task);
        assert Only(steps, task) == Only(rest, task) + [last];
        assert (Only(rest, task) + [last])[..|Only(rest, task)|] == Only(rest, task);
      } else {
        assert Only(steps, task) == Only(rest, task);
        OthersUnseen(Run(s, rest), last, task);
        AlikeTransitive(Run(s, Only(rest, task)), Run(s, rest), Run(s, steps), task);
      }
    }
    SameLogs(Run(s, Only(steps, task)), Run(s, steps), task);
  }

  lemma AlikeSelf(s: State, task: string)
    ensures Alike(s, s, task)
  {
  }

  lemma AlikeTransitive(a: State, b: State, c: State, task: string)
    requires Alike(a, b, task) && Alike(b, c, task)
    ensures Alike(a, c, task)
  {
  }

  lemma SameLogs(s: State, s2: State, task: string)
    requires Alike(s, s2, task)
    ensures LogOf(s2.log, task) == LogOf(s.log, task)
  {
  }
}
