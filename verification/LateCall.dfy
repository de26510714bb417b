/**
 The run in which releasing a token that holds does not end its story (see LockService.ReleaseTurnsLateCallAway): an
 acquire call that was still under way arrives after the release and is granted, and no caller is left to release it.
 */
module LateCall {
  import opened Prelude
  import opened LockTable
  import opened LockInvariants
  import opened LockRuns

  function OneKey(): seq<Name> { [Name("p", "k")] }

  function HeldBy(token: Token, at: real): map<Token, Lease> { map[token := Lease(OneKey(), 30.0, at + 30.0, at)] }

  /** One shard, one key: what the tables look like between the calls of LateCallTrace. */
  function Holding(token: Token, at: real, expiries: seq<Entry>, parkedCalls: nat): State {
    Initial(1, 8).(holder := map[Name("p", "k") := token], leases := HeldBy(token, at), expiries := expiries, timerAt := Some(30.0),
                   nextCall := parkedCalls, nextWaiter := parkedCalls)
  }

  function WaitingSince(seen: real, calls: nat): State {
    Holding(1, 0.0, [Entry(30.0, 1)], 1).(
      queues := map[Name("p", "k") := [2]], waiting := map[2 := Waiter(0, OneKey(), 30.0, calls, seen)],
      parked := calls, calls := if calls == 1 then map[0 := Call(2, 0)] else map[])
  }

  /**
   Token 1 holds the key and token 2 queues. Token 2's first call times out; its second is under way when token 1
   releases, which grants token 2, and when token 2's caller gives up and releases.
   */
  function LateCallTrace(): seq<Timed> {
    [Timed(AcquireCall(OneKey(), 1, 30.0, 1), 0.0), Timed(AcquireCall(OneKey(), 2, 30.0, 1), 1.0), Timed(Wake(0), 2.0),
     Timed(ReleaseCall(1), 3.0), Timed(ReleaseCall(2), 4.0), Timed(AcquireCall(OneKey(), 2, 30.0, 1), 5.0)]
  }

  lemma FirstHolds()
    ensures Apply(Initial(1, 8), AcquireCall(OneKey(), 1, 30.0, 1), 0.0) == Holding(1, 0.0, [Entry(30.0, 1)], 0)
  {
  }

  lemma JoinsAlone()
    ensures JoinAll(map[], OneKey(), 2) == map[Name("p", "k") := [2]]
  {
    var n := OneKey()[0];
    assert Queue(map[], n) + [2] == [2];
  }

  lemma SecondQueues()
    ensures Tables(Holding(1, 0.0, [Entry(30.0, 1)], 0))
    ensures Apply(Holding(1, 0.0, [Entry(30.0, 1)], 0), AcquireCall(OneKey(), 2, 30.0, 1), 1.0) == WaitingSince(1.0, 1)
  {
    var s := Holding(1, 0.0, [Entry(30.0, 1)], 0);
    var q := Enqueue(s, 2, OneKey(), 30.0, 1.0);
    assert Busy(s, OneKey()[0]);
    JoinsAlone();
    assert Park(q, 2) == WaitingSince(1.0, 1);
  }

  lemma WaitingTables(seen: real, calls: nat)
    ensures Tables(WaitingSince(seen, calls))
  {
  }

  lemma SecondTimesOut()
    ensures Tables(WaitingSince(1.0, 1)) && 0 in WaitingSince(1.0, 1).calls && Apply(WaitingSince(1.0, 1), Wake(0), 2.0) == WaitingSince(2.0, 0)
  {
    WaitingTables(1.0, 1);
    var s := WaitingSince(1.0, 1);
    assert s.waiting[2 := Waiter(0, OneKey(), 30.0, 0, 2.0)] == WaitingSince(2.0, 0).waiting;
    assert s.calls - {0} == map[];
  }

  lemma FirstReleases()
    ensures Tables(WaitingSince(2.0, 0))
    ensures Apply(WaitingSince(2.0, 0), ReleaseCall(1), 3.0) == Holding(2, 3.0, [Entry(30.0, 1), Entry(33.0, 2)], 1)
  {
    hide Tables, HandOff, Holding, GrantWaiter;
    WaitingTables(2.0, 0);
    var s := WaitingSince(2.0, 0);
    Unheld();
    UnholdTables(s, 1);
    HandedToSecond(Unhold(s, 1));
    GrantedSecond(Unhold(s, 1));
  }

  lemma Unheld()
    ensures 1 in WaitingSince(2.0, 0).leases && Unhold(WaitingSince(2.0, 0), 1) == WaitingSince(2.0, 0).(holder := map[], leases := map[])
    ensures WaitingSince(2.0, 0).leases[1].names == OneKey()
  {
  }

  lemma HandedToSecond(u: State)
    requires Tables(u) && u == WaitingSince(2.0, 0).(holder := map[], leases := map[])
    ensures 2 in u.waiting && HandOff(u, OneKey(), 3.0) == GrantWaiter(u, 2, 3.0)
  {
    hide GrantWaiter, Tables;
    GrantWaiterTables(u, 2, 3.0);
    assert Grantable(u, 2);
    assert OneKey()[..0] == [];
    HandOffNothing(GrantWaiter(u, 2, 3.0), 3.0);
  }

  lemma HandOffNothing(s: State, now: real)
    requires Tables(s)
    ensures HandOff(s, [], now) == s
  {
  }

  lemma GrantedSecond(u: State)
    requires u == WaitingSince(2.0, 0).(holder := map[], leases := map[])
    ensures 2 in u.waiting && GrantWaiter(u, 2, 3.0) == Holding(2, 3.0, [Entry(30.0, 1), Entry(33.0, 2)], 1)
  {
    assert Leave(u, 2).queues == map[];
    assert Leave(u, 2).waiting == map[];
    assert Push([Entry(30.0, 1)], Entry(33.0, 2)) == [Entry(30.0, 1), Entry(33.0, 2)];
  }

  lemma SecondReleases()
    ensures Tables(Holding(2, 3.0, [Entry(30.0, 1), Entry(33.0, 2)], 1))
    ensures var s := Apply(Holding(2, 3.0, [Entry(30.0, 1), Entry(33.0, 2)], 1), ReleaseCall(2), 4.0);
            && Tables(s) && s.holder == map[] && s.leases == map[] && s.waiting == map[] && s.queues == map[] && s.withdrawn == [] && s.numShards == 1
  {
    var u := Unhold(Holding(2, 3.0, [Entry(30.0, 1), Entry(33.0, 2)], 1), 2);
    UnholdTables(Holding(2, 3.0, [Entry(30.0, 1), Entry(33.0, 2)], 1), 2);
    assert OneKey()[..0] == [];
    assert HandOff(u, OneKey(), 4.0) == u;
  }

  lemma RunFrom(s: State, now: real, trace: seq<Timed>, k: nat, s': State, now': real)
    requires k < |trace| && now <= trace[k].at && Tables(s) && Allowed(s, trace[k].event)
    requires Run(Apply(s, trace[k].event, trace[k].at), trace[k].at, trace[k + 1..], s', now')
    ensures Run(s, now, trace[k..], s', now')
  {
    assert trace[k..][1..] == trace[k + 1..];
  }

  lemma EmptyTables()
    ensures Tables(Initial(1, 8))
  {
  }

  /** A free actor grants a token that it does not know at once. */
  lemma FreeGrants(s: State, now: real)
    requires Tables(s) && s.holder == map[] && s.leases == map[] && s.waiting == map[] && s.queues == map[] && s.withdrawn == [] && s.numShards == 1
    ensures var s' := Apply(s, AcquireCall(OneKey(), 2, 30.0, 1), now); s'.leases == HeldBy(2, now) && s'.holder == map[Name("p", "k") := 2]
  {
  }

  /** The call that was under way is admitted: it holds the key for a caller that has left. */
  lemma LateCallHoldsAgain() returns (s: State)
    ensures Run(Initial(1, 8), 0.0, LateCallTrace(), s, 5.0)
    ensures s.leases == HeldBy(2, 5.0) && s.holder == map[Name("p", "k") := 2]
  {
    hide Run, Apply, Tables, Holding, WaitingSince, Initial, HeldBy, Release;
    var t := LateCallTrace();
    var held := Holding(2, 3.0, [Entry(30.0, 1), Entry(33.0, 2)], 1);
    FirstHolds(); SecondQueues(); SecondTimesOut(); FirstReleases(); SecondReleases();
    EmptyTables();
    var free := Apply(held, ReleaseCall(2), 4.0);
    s := Apply(free, t[5].event, 5.0);
    FreeGrants(free, 5.0);
    RunNothing(s, 5.0);
    assert t[6..] == [] && t[0..] == t;
    RunFrom(free, 4.0, t, 5, s, 5.0);
    RunFrom(held, 3.0, t, 4, s, 5.0);
    RunFrom(WaitingSince(2.0, 0), 2.0, t, 3, s, 5.0);
    RunFrom(WaitingSince(1.0, 1), 1.0, t, 2, s, 5.0);
    RunFrom(Holding(1, 0.0, [Entry(30.0, 1)], 0), 0.0, t, 1, s, 5.0);
    RunFrom(Initial(1, 8), 0.0, t, 0, s, 5.0);
  }
}
