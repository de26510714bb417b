/** The guarantees of kv_global_lock over all runs of the protocol. */
module LeaseTheorems {
  import opened Prelude
  import opened LeaseProtocol
  import opened LeaseSafety
  import T = LockTable
  import I = LockInvariants
  import R = LockRuns
  import S = LockService
  import X = LockEffects

  /** The step may be taken; StepOk proves that the last two conditions follow from the first in every reachable world. */
  ghost predicate Fires(w: World, step: Step, skew: real) {
    && Enabled(w, step, skew)
    && (step.AcquireArrives? ==> R.Allowed(w.servers[At(w, step.token)], AcquireEvent(w, step.token)))
    && (step.RoundEnds? ==> RoundRuns(w, step.process))
  }

  ghost predicate Run(w: World, steps: seq<Step>, w': World, skew: real)
    decreases |steps|
  {
    if steps == [] then w' == w
    else Fires(w, steps[0], skew) && Run(After(w, steps[0], skew), steps[1..], w', skew)
  }

  lemma {:induction false} RunOk(w: World, steps: seq<Step>, w': World, skew: real)
    requires WorldOk(w, skew) && Run(w, steps, w', skew)
    ensures WorldOk(w', skew)
    decreases |steps|
  {
    hide WorldOk;
    if steps != [] {
      StepOk(w, steps[0], skew);
      RunOk(After(w, steps[0], skew), steps[1..], w', skew);
    }
  }

  lemma StartOk(now: real, numShards: nat, maxParked: nat, hash: T.Name -> nat, skew: real)
    requires skew >= 0.0
    ensures WorldOk(Start(now, numShards, maxParked, hash), skew)
  {
    R.InitialInv(numShards, maxParked, now);
  }

  // ---------------------------------------------------------------- mutual exclusion

  ghost predicate LockedIn(w: World, t: T.Token, n: T.Name) {
    t in w.clients && Inside(w.clients[t]) && Locks(w.clients[t], n)
  }

  /** While the deadline lies more than `skew` ahead, the caller inside the block holds each of its names at its actor, in force. */
  lemma CheckedLeaseHolds(w: World, t: T.Token, n: T.Name, skew: real)
    requires WorldOk(w, skew) && LockedIn(w, t, n) && CheckPasses(w.clients[t], w.now + skew)
    ensures w.numShards > 0 && Shard(w.hash, w.numShards, n) < |w.servers|
    ensures var s := w.servers[Shard(w.hash, w.numShards, n)];
            n in s.holder && s.holder[n] == t && t in s.leases && s.leases[t].expiresAt > w.now
  {
    var c := w.clients[t];
    ClientOf(w, t, skew);
    var i :| 0 <= i < |c.plan| && n in c.plan[i].names;
    assert EntryOk(c.plan[i], c.leaseS, w.numShards, w.hash);
    assert Held(w.servers, w.now, c.plan[i].shard, t, c.deadline.value - skew);
    ServerOf(w, c.plan[i].shard, skew);
    hide WorldOk, PromiseOk, CallOk, CallServed, EntryOk;
    HolderOf(c, i, w.clients, t, w.servers[c.plan[i].shard], n, w.now);
  }

  lemma HolderOf(c: Client, i: nat, clients: map<T.Token, Client>, t: T.Token, s: T.State, n: T.Name, now: real)
    requires i < |c.plan| && n in c.plan[i].names && forall a, b :: 0 <= a < b < |c.plan| ==> c.plan[a].shard < c.plan[b].shard
    requires R.Inv(s, now) && Placed(clients, c.plan[i].shard, s) && t in clients && clients[t] == c && t in s.leases
    ensures n in s.holder && s.holder[n] == t
  {
    var k, l := c.plan[i].shard, s.leases[t];
    assert Reached(c, k, l.names, l.leaseS);
    var j: nat :| PlanEntry(c, j, k, l.names, l.leaseS);
    assert j == i;
    HolderOfLease(s, t, n, now);
  }

  lemma HolderOfLease(s: T.State, t: T.Token, n: T.Name, now: real)
    requires R.Inv(s, now) && t in s.leases && n in s.leases[t].names
    ensures n in s.holder && s.holder[n] == t
  {
  }

  lemma MutualExclusion(now: real, numShards: nat, maxParked: nat, hash: T.Name -> nat, steps: seq<Step>, w: World,
                        skew: real, t: T.Token, u: T.Token, n: T.Name)
    requires skew >= 0.0 && Run(Start(now, numShards, maxParked, hash), steps, w, skew)
    requires LockedIn(w, t, n) && CheckPasses(w.clients[t], w.now + skew)
    requires LockedIn(w, u, n) && CheckPasses(w.clients[u], w.now + skew)
    ensures t == u
  {
    StartOk(now, numShards, maxParked, hash, skew);
    RunOk(Start(now, numShards, maxParked, hash), steps, w, skew);
    CheckedLeaseHolds(w, t, n, skew);
    CheckedLeaseHolds(w, u, n, skew);
  }

  /** No run lets two leases on one name pass check() at the same time. */
  ghost predicate Excludes(skew: real) {
    forall now: real, numShards: nat, maxParked: nat, hash: T.Name -> nat, steps: seq<Step>, w: World, t: T.Token, u: T.Token, n: T.Name ::
      Run(Start(now, numShards, maxParked, hash), steps, w, skew) && BothPass(w, t, u, n) ==> t == u
  }

  ghost predicate BothPass(w: World, t: T.Token, u: T.Token, n: T.Name) {
    LockedIn(w, t, n) && CheckPasses(w.clients[t], w.now) && LockedIn(w, u, n) && CheckPasses(w.clients[u], w.now)
  }

  /** check() excludes in every run exactly when clients read `sent` no later than the reply leaves the actor. */
  lemma ExcludesExactlyWithoutSkew(skew: real)
    requires skew >= 0.0
    ensures Excludes(skew) <==> skew == 0.0
  {
    if skew == 0.0 {
      forall now: real, numShards: nat, maxParked: nat, hash: T.Name -> nat, steps: seq<Step>, w: World, t: T.Token, u: T.Token, n: T.Name
        | Run(Start(now, numShards, maxParked, hash), steps, w, skew) && BothPass(w, t, u, n)
        ensures t == u
      {
        assert w.now + skew == w.now;
        MutualExclusion(now, numShards, maxParked, hash, steps, w, skew, t, u, n);
      }
    } else {
      var hash: T.Name -> nat := _ => 0;
      var steps, w := LateStampBreaksExclusion(hash, skew);
      assert Run(Start(0.0, 1, 1, hash), steps, w, skew) && BothPass(w, 1, 2, ONE_KEY);
    }
  }

  // ---------------------------------------------------------------- what a renewal round is good for

  ghost predicate SaysNo(answers: map<nat, map<T.Token, bool>>, shard: nat, t: T.Token) {
    shard in answers && !(t in answers[shard] && answers[shard][t])
  }

  ghost predicate SaysYes(answers: map<nat, map<T.Token, bool>>, shard: nat, t: T.Token) {
    shard in answers && t in answers[shard] && answers[shard][t]
  }

  /**
   The end of a round: one refusal loses the lease; if every shard that has granted it answered yes, check() passes for
   another lease length, counted from before the requests were sent; silence leaves the deadline as it was.
   */
  lemma RoundDecides(c: Client, t: T.Token, granted: nat, r: Round)
    requires granted <= |c.plan|
    ensures var c' := Renewed(c, t, granted, r);
            && (c'.lost <==> c.lost || exists i :: 0 <= i < granted && SaysNo(r.answers, c.plan[i].shard, t))
            && ((forall i :: 0 <= i < granted ==> SaysYes(r.answers, c.plan[i].shard, t)) && c.cursor == granted ==>
                  forall at :: CheckPasses(c', at) <==> !c.lost && !c.closed && at < r.last + c.leaseS)
            && (!(forall i :: 0 <= i < granted ==> SaysYes(r.answers, c.plan[i].shard, t)) || c.cursor != granted ==> c'.deadline == c.deadline)
            && c' == c.(lost := c'.lost, deadline := c'.deadline)
  {
    assert forall i :: 0 <= i < granted && SaysNo(r.answers, c.plan[i].shard, t) ==> !SaysYes(r.answers, c.plan[i].shard, t);
  }

  /** An actor refuses a token exactly when its lease is gone or has run out. */
  lemma RefusedExactly(w: World, shard: nat, tokens: seq<T.Token>, t: T.Token, skew: real)
    requires WorldOk(w, skew) && shard < |w.servers| && t in tokens
    ensures var alive := T.RenewMany(w.servers[shard], tokens, w.now).1;
            t in alive && (alive[t] <==> t in w.servers[shard].leases && w.servers[shard].leases[t].expiresAt > w.now)
  {
    ServerOf(w, shard, skew);
    X.TimelyOf(w.servers[shard], w.now);
    S.RenewManyLeases(w.servers[shard], tokens, w.now);
  }

  // ---------------------------------------------------------------- the run that a late clock reading allows

  const ONE_KEY: T.Name := T.Name("p", "k")

  lemma {:induction false} RunAppend(w: World, a: seq<Step>, m: World, b: seq<Step>, w': World, skew: real)
    requires Run(w, a, m, skew) && Run(m, b, w', skew)
    ensures Run(w, a + b, w', skew)
    decreases |a|
  {
    if a == [] {
      assert a + b == b;
    } else {
      RunAppend(After(w, a[0], skew), a[1..], m, b, w', skew);
      assert (a + b)[1..] == a[1..] + b;
    }
  }

  lemma RunOne(w: World, step: Step, skew: real)
    requires Fires(w, step, skew)
    ensures Run(w, [step], After(w, step, skew), skew)
  {
    assert Run(After(w, step, skew), [step][1..], After(w, step, skew), skew);
  }

  ghost predicate Untouched(s: T.State) {
    s.numShards == 1 && s.holder == map[] && s.leases == map[] && s.queues == map[] && s.waiting == map[] && s.withdrawn == []
  }

  ghost function Holding(leaseS: real, deadline: real): Client {
    Client(0, [ShardNames(0, [ONE_KEY])], leaseS, 1, NoCall, {0}, Some(deadline), true, false, false, false)
  }

  ghost function Answered(leaseS: real, at: real): Client {
    Asking(leaseS).(call := Calling(None, InReply(Some(leaseS), at)))
  }

  ghost function Asking(leaseS: real): Client {
    Client(0, [ShardNames(0, [ONE_KEY])], leaseS, 0, Calling(None, InRequest), {0}, None, false, false, false, false)
  }

  lemma Asks(w: World, t: T.Token, leaseS: real, skew: real) returns (steps: seq<Step>, w': World)
    requires w.numShards == 1 && t !in w.clients && leaseS > 0.0
    ensures Run(w, steps, w', skew) && w' == SetClient(w, t, Asking(leaseS))
  {
    var first := Begin(t, 0, [ONE_KEY], leaseS);
    OneShardPlan(w.hash);
    assert T.Request([ONE_KEY], leaseS);
    hide PlanFrom;
    var c0 := Client(0, [ShardNames(0, [ONE_KEY])], leaseS, 0, NoCall, {}, None, false, false, false, false);
    var w1 := SetClient(w, t, c0);
    assert Fires(w, first, skew) && After(w, first, skew) == w1;
    RunOne(w, first, skew);
    w' := SetClient(w, t, Asking(leaseS));
    assert Fires(w1, Submit(t), skew);
    assert w1.clients[t := Asking(leaseS)] == w.clients[t := Asking(leaseS)] && c0.pending + {At(w1, t)} == {0};
    assert After(w1, Submit(t), skew) == w';
    RunOne(w1, Submit(t), skew);
    RunAppend(w, [first], w1, [Submit(t)], w', skew);
    steps := [first] + [Submit(t)];
  }

  /** With the actor idle, a client is granted at `w.now`, reads its clock at `later` and is inside until `later + leaseS`. */
  lemma Acquires(w: World, t: T.Token, leaseS: real, later: real, skew: real) returns (steps: seq<Step>, w': World)
    requires WorldOk(w, skew) && w.numShards == 1 && |w.servers| == 1 && t !in w.clients && leaseS > 0.0
    requires Untouched(w.servers[0]) && w.now <= later <= w.now + skew
    ensures Run(w, steps, w', skew)
    ensures w' == w.(now := later, clients := w.clients[t := Holding(leaseS, later + leaseS)],
                     servers := [T.Grant(w.servers[0], t, [ONE_KEY], leaseS, w.now)])
  {
    hide *;
    var w2, w3, more;
    steps, w2 := Asks(w, t, leaseS, skew);
    w3 := ArrivesFirst(w, w2, t, leaseS, skew);
    more := StampAndTake(w3, t, leaseS, later, skew);
    RunAppend(w, steps, w2, [AcquireArrives(t)], w3, skew);
    w' := w3.(now := later, clients := w3.clients[t := Holding(leaseS, later + leaseS)]);
    RunAppend(w, steps + [AcquireArrives(t)], w3, more, w', skew);
    steps := steps + [AcquireArrives(t)] + more;
    assert w3.clients[t := Holding(leaseS, later + leaseS)] == w.clients[t := Holding(leaseS, later + leaseS)];
  }

  lemma OneShardPlan(hash: T.Name -> nat)
    ensures PlanFrom(hash, 1, [ONE_KEY], 0) == [ShardNames(0, [ONE_KEY])]
  {
    var names := [ONE_KEY];
    assert NamesOf(hash, 1, names[..0], 0) == [] && Shard(hash, 1, ONE_KEY) == 0;
    assert NamesOf(hash, 1, names, 0) == [ONE_KEY];
    assert PlanFrom(hash, 1, names, 1) == [];
  }

  lemma EntersAtOnce(s: T.State, t: T.Token, leaseS: real, now: real)
    requires Untouched(s) && leaseS > 0.0 && R.Inv(s, now)
    ensures T.Enter(s, [ONE_KEY], t, leaseS, 1, now) == (T.Grant(s, t, [ONE_KEY], leaseS, now), T.Answered(Some(leaseS)))
  {
    assert !T.Busy(s, ONE_KEY);
    assert T.Admit(s, [ONE_KEY], t, leaseS, now) == T.Grant(s, t, [ONE_KEY], leaseS, now);
  }

  lemma ArrivesFirst(w: World, w2: World, t: T.Token, leaseS: real, skew: real) returns (w3: World)
    requires WorldOk(w, skew) && w.numShards == 1 && leaseS > 0.0 && Untouched(w.servers[0]) && t !in w.clients
    requires |w.servers| == 1 && w2 == SetClient(w, t, Asking(leaseS))
    ensures Run(w2, [AcquireArrives(t)], w3, skew)
    ensures w3 == w.(servers := [T.Grant(w.servers[0], t, [ONE_KEY], leaseS, w.now)], clients := w.clients[t := Answered(leaseS, w.now)])
  {
    hide T.Grant, T.Enter, T.Tables, WorldOk, Untouched, R.Inv;
    var s := w.servers[0];
    var g := T.Grant(s, t, [ONE_KEY], leaseS, w.now);
    ServerOf(w, 0, skew);
    ServerTables(w, 0);
    EntersAtOnce(s, t, leaseS, w.now);
    w3 := w.(servers := [g], clients := w.clients[t := Answered(leaseS, w.now)]);
    assert w2.servers[0 := g] == [g];
    assert w2.clients[t := w3.clients[t]] == w3.clients;
    assert Fires(w2, AcquireArrives(t), skew);
    assert After(w2, AcquireArrives(t), skew) == w3;
    hide *;
    RunOne(w2, AcquireArrives(t), skew);
  }

  lemma StampAndTake(w: World, t: T.Token, leaseS: real, later: real, skew: real) returns (steps: seq<Step>)
    requires t in w.clients && w.now <= later <= w.now + skew
    requires w.clients[t] == Answered(leaseS, w.now)
    ensures Run(w, steps, w.(now := later, clients := w.clients[t := Holding(leaseS, later + leaseS)]), skew)
  {
    var c := w.clients[t];
    var w1 := w.(now := later);
    RunOne(w, Tick(later), skew);
    var w2 := SetClient(w1, t, c.(call := c.call.(sent := Some(later))));
    assert Fires(w1, Stamp(t), skew) && After(w1, Stamp(t), skew) == w2;
    RunOne(w1, Stamp(t), skew);
    var w3 := SetClient(w1, t, Holding(leaseS, later + leaseS));
    assert Fires(w2, TakeReply(t), skew);
    assert After(w2, TakeReply(t), skew) == w3 by {
      assert Taken(w2.clients[t]) == Holding(leaseS, later + leaseS);
      assert w2.clients[t := Holding(leaseS, later + leaseS)] == w1.clients[t := Holding(leaseS, later + leaseS)];
    }
    RunOne(w2, TakeReply(t), skew);
    RunAppend(w, [Tick(later)], w1, [Stamp(t)], w2, skew);
    RunAppend(w, [Tick(later)] + [Stamp(t)], w2, [TakeReply(t)], w3, skew);
    steps := [Tick(later)] + [Stamp(t)] + [TakeReply(t)];
  }

  /** The only lease expires and leaves the actor idle. */
  lemma ExpiresIdle(s: T.State, t: T.Token, now: real)
    requires R.Inv(s, now) && s.numShards == 1 && s.leases.Keys == {t} && s.leases[t].expiresAt <= now && s.waiting == map[] && s.withdrawn == []
    ensures Untouched(T.Expire(s, now))
  {
    var s' := T.Expire(s, now);
    S.ExpireProgress(s, now);
    R.ExpireInv(s, now);
    hide T.Expire, R.CallsOk, R.TombstonesOk;
    forall u ensures u !in s'.leases {
      if u in s'.leases { LeaseFrom(s, s', S.DueLeases(s, now), now, u); }
    }
    assert s'.leases == map[] && s'.waiting == map[];
    IdleTables(s');
  }

  lemma LeaseFrom(s: T.State, s': T.State, gone: set<T.Token>, now: real, u: T.Token)
    requires S.Progress(s, s', gone, now) && u in s'.leases
    ensures u in s.waiting || (u in s.leases && u !in gone)
  {
    assert S.KeptOrGranted(s, s', u, gone, now);
  }

  lemma HolderHasLease(s: T.State, n: T.Name)
    requires T.Tables(s) && n in s.holder
    ensures s.holder[n] in s.leases
  {
  }

  lemma IdleTables(s: T.State)
    requires T.Tables(s) && s.leases == map[] && s.waiting == map[]
    ensures s.holder == map[] && s.queues == map[]
  {
    forall n ensures n !in s.queues {
      if n in s.queues { I.QueueHead(s, n); }
    }
    forall n ensures n !in s.holder {
      if n in s.holder { HolderHasLease(s, n); }
    }
    assert s.holder.Keys == {} && s.queues.Keys == {};
  }

  /** The first client is granted at 0 for `skew`, reads its clock at `skew` and is inside; the actor frees its lease. */
  lemma FirstOutlivesItsLease(hash: T.Name -> nat, skew: real) returns (steps: seq<Step>, w: World)
    requires skew > 0.0
    ensures Run(Start(0.0, 1, 1, hash), steps, w, skew) && WorldOk(w, skew)
    ensures w.now == skew && w.numShards == 1 && |w.servers| == 1 && Untouched(w.servers[0])
    ensures w.clients == map[1 := Holding(skew, skew + skew)]
  {
    var w0 := Start(0.0, 1, 1, hash);
    StartOk(0.0, 1, 1, hash, skew);
    var a, w1 := Acquires(w0, 1, skew, skew, skew);
    RunOk(w0, a, w1, skew);
    w := ExpiryStep(w0.servers[0], w1, skew);
    hide *;
    RunAppend(w0, a, w1, [TimerFires(0)], w, skew);
    steps := a + [TimerFires(0)];
  }

  /** For any skew > 0, a second client then gets the key, and both pass check(). */
  lemma LateStampBreaksExclusion(hash: T.Name -> nat, skew: real) returns (steps: seq<Step>, w: World)
    requires skew > 0.0
    ensures Run(Start(0.0, 1, 1, hash), steps, w, skew)
    ensures BothPass(w, 1, 2, ONE_KEY)
  {
    var a, w2 := FirstOutlivesItsLease(hash, skew);
    var b;
    assert w2.now <= skew <= w2.now + skew && 2 !in w2.clients;
    hide *;
    b, w := Acquires(w2, 2, skew, skew, skew);
    assert BothHold(w, skew) by { BothNow(w, w2, skew); }
    HoldingPasses(w, skew);
    RunAppend(Start(0.0, 1, 1, hash), a, w2, b, w, skew);
    steps := a + b;
  }

  ghost predicate BothHold(w: World, leaseS: real) {
    forall t :: t in {1, 2} ==> t in w.clients && w.clients[t] == Holding(leaseS, w.now + leaseS)
  }

  lemma BothNow(w: World, w2: World, skew: real)
    requires w.now == skew && w2.clients == map[1 := Holding(skew, skew + skew)]
    requires w.clients == w2.clients[2 := Holding(skew, skew + skew)]
    ensures BothHold(w, skew)
  {
  }

  lemma HoldingPasses(w: World, leaseS: real)
    requires BothHold(w, leaseS) && leaseS > 0.0
    ensures BothPass(w, 1, 2, ONE_KEY)
  {
    assert ONE_KEY in Holding(leaseS, w.now + leaseS).plan[0].names;
  }

  lemma GrantedAlone(s: T.State, leaseS: real)
    requires Untouched(s)
    ensures var g := T.Grant(s, 1, [ONE_KEY], leaseS, 0.0);
            g.numShards == 1 && g.leases.Keys == {1} && g.leases[1].expiresAt == leaseS && g.waiting == map[] && g.withdrawn == []
  {
  }

  lemma ExpiryStep(s: T.State, w: World, skew: real) returns (w': World)
    requires WorldOk(w, skew) && w.numShards == 1 && |w.servers| == 1 && w.now == skew
    requires Untouched(s) && w.servers[0] == T.Grant(s, 1, [ONE_KEY], skew, 0.0)
    ensures Run(w, [TimerFires(0)], w', skew) && WorldOk(w', skew)
    ensures w' == w.(servers := w'.servers) && |w'.servers| == 1 && Untouched(w'.servers[0])
  {
    hide *;
    ServerOf(w, 0, skew);
    GrantedAlone(s, skew);
    ExpiresIdle(w.servers[0], 1, skew);
    ServerTables(w, 0);
    FiresTimer(w, skew);
    FiresIsEnabled(w, TimerFires(0), skew);
    StepOk(w, TimerFires(0), skew);
    RunOne(w, TimerFires(0), skew);
    w' := w.(servers := [T.Expire(w.servers[0], w.now)]);
  }

  lemma FiresIsEnabled(w: World, step: Step, skew: real)
    requires Fires(w, step, skew)
    ensures Enabled(w, step, skew)
  {
  }

  lemma FiresTimer(w: World, skew: real)
    requires |w.servers| == 1 && HasTables(w, 0)
    ensures Fires(w, TimerFires(0), skew) && After(w, TimerFires(0), skew) == w.(servers := [T.Expire(w.servers[0], w.now)])
  {
    hide T.Expire;
    assert w.servers[0 := T.Expire(w.servers[0], w.now)] == [T.Expire(w.servers[0], w.now)];
  }

  lemma ServerTables(w: World, k: nat)
    requires k < |w.servers| && R.Inv(w.servers[k], w.now)
    ensures HasTables(w, k)
  {
  }
}
