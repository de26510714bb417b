/**
 Whole runs of one lock actor: any sequence of calls, wake-ups, renewals, releases and timer firings at
 non-decreasing times.
 */
module LockRuns {
  import opened Prelude
  import opened LockTable
  import opened LockInvariants

  datatype Event =
    | AcquireCall(names: seq<Name>, token: Token, leaseS: real, numShards: nat)
    | Wake(call: nat)
    | RenewCall(tokens: seq<Token>)
    | ReleaseCall(token: Token)
    | TimerFires

  /** Callers ask for distinct names and a positive lease; only suspended calls wake. */
  ghost predicate Allowed(s: State, e: Event) {
    match e
    case AcquireCall(names, token, leaseS, numShards) => Request(names, leaseS)
    case Wake(call) => call in s.calls
    case _ => true
  }

  ghost function Apply(s: State, e: Event, now: real): State
    requires Tables(s) && Allowed(s, e)
  {
    match e
    case AcquireCall(names, token, leaseS, numShards) => Enter(s, names, token, leaseS, numShards, now).0
    case Wake(call) => Resume(s, call, now).0
    case RenewCall(tokens) => RenewMany(s, tokens, now).0
    case ReleaseCall(token) => Release(s, token, now)
    case TimerFires => Expire(s, now)
  }

  // ---------------------------------------------------------------- suspended calls and tombstones

  ghost function ParkedAt(calls: map<nat, Call>, id: nat): set<nat> {
    set c | c in calls && calls[c].waiter == id
  }

  /** A waiter counts exactly its own suspended calls, and the actor counts them all. */
  ghost predicate CallsOk(s: State) {
    && s.parked == |s.calls| && CallIdsOk(s.calls, s.nextCall, s.nextWaiter)
    && CallOwnersOk(s.calls, s.waiting) && CallCountsOk(s.calls, s.waiting)
  }

  ghost predicate CallIdsOk(calls: map<nat, Call>, nextCall: nat, nextWaiter: nat) {
    forall c :: c in calls ==> c < nextCall && calls[c].waiter < nextWaiter
  }

  ghost predicate CallOwnersOk(calls: map<nat, Call>, waiting: map<Token, Waiter>) {
    forall c, t :: c in calls && t in waiting && waiting[t].id == calls[c].waiter ==> calls[c].token == t
  }

  ghost predicate CallCountsOk(calls: map<nat, Call>, waiting: map<Token, Waiter>) {
    forall t :: t in waiting ==> CallCount(calls, waiting[t])
  }

  ghost predicate CallCount(calls: map<nat, Call>, w: Waiter) {
    w.calls == |ParkedAt(calls, w.id)|
  }

  ghost predicate TombstonesOk(s: State) {
    OneTombEach(s.withdrawn) && Barred(s.withdrawn, s.leases, s.waiting)
  }

  ghost predicate OneTombEach(withdrawn: seq<Tombstone>) {
    forall i, j :: 0 <= i < j < |withdrawn| ==> withdrawn[i].token != withdrawn[j].token
  }

  ghost predicate Barred(withdrawn: seq<Tombstone>, leases: map<Token, Lease>, waiting: map<Token, Waiter>) {
    forall i :: 0 <= i < |withdrawn| ==> withdrawn[i].token !in leases && withdrawn[i].token !in waiting
  }

  ghost predicate Inv(s: State, now: real) {
    && Tables(s) && NoneGrantable(s)
    && Expires(s, now) && TimerOk(s.expiries, s.timerAt)
    && CallsOk(s) && TombstonesOk(s)
  }

  lemma InitialInv(numShards: nat, maxParked: nat, now: real)
    ensures Inv(Initial(numShards, maxParked), now)
  {
  }

  lemma HandedOffKeepsCalls(s: State, s': State, now: real)
    requires HandedOff(s, s', now)
    ensures CallsOk(s) ==> CallsOk(s')
    ensures TombstonesOk(s) ==> TombstonesOk(s')
  {
    if TombstonesOk(s) {
      forall i | 0 <= i < |s'.withdrawn| ensures s'.withdrawn[i].token !in s'.leases && s'.withdrawn[i].token !in s'.waiting {
        var t := s.withdrawn[i].token;
        assert t !in s.leases && t !in s.waiting;
        if t in s'.leases { NewLease(s, s', t, now); }
      }
    }
  }

  lemma CountWithCall(calls: map<nat, Call>, c: nat, call: Call, id: nat)
    requires c !in calls
    ensures |ParkedAt(calls[c := call], id)| == |ParkedAt(calls, id)| + if call.waiter == id then 1 else 0
    ensures calls[c := call] - {c} == calls && |calls[c := call]| == |calls| + 1
  {
    if call.waiter == id {
      assert ParkedAt(calls[c := call], id) == ParkedAt(calls, id) + {c};
    } else {
      assert ParkedAt(calls[c := call], id) == ParkedAt(calls, id);
    }
    assert calls[c := call].Keys == calls.Keys + {c};
  }

  /** Adding a call and counting it at its waiter keeps the counts; so does the reverse. */
  lemma CountsWithCall(calls: map<nat, Call>, c: nat, call: Call, waiting: map<Token, Waiter>, more: map<Token, Waiter>)
    requires c !in calls && more.Keys == waiting.Keys
    requires forall t :: t in waiting ==> OneMore(waiting[t], more[t], call)
    ensures CallCountsOk(calls, waiting) <==> CallCountsOk(calls[c := call], more)
  {
    forall t | t in waiting ensures CallCount(calls, waiting[t]) <==> CallCount(calls[c := call], more[t]) {
      assert OneMore(waiting[t], more[t], call);
      CountWithCall(calls, c, call, waiting[t].id);
    }
  }

  ghost predicate OneMore(w: Waiter, more: Waiter, call: Call) {
    more.id == w.id && more.calls == w.calls + if w.id == call.waiter then 1 else 0
  }

  lemma ParkCalls(s: State, token: Token)
    requires CallsOk(s) && token in s.waiting && WaitersOk(s.waiting, s.nextWaiter)
    ensures CallsOk(Park(s, token))
  {
    hide CallCountsOk, ParkedAt;
    var call := Call(token, s.waiting[token].id);
    CountWithCall(s.calls, s.nextCall, call, 0);
    CountsWithCall(s.calls, s.nextCall, call, s.waiting, Park(s, token).waiting);
  }

  lemma CallCounted(s: State, call: nat)
    requires CallsOk(s) && call in s.calls
    ensures s.parked > 0
    ensures forall t :: t in s.waiting && s.waiting[t].id == s.calls[call].waiter ==> t == s.calls[call].token && s.waiting[t].calls > 0
  {
    var c := s.calls[call];
    assert call in s.calls.Keys;
    forall t | t in s.waiting && s.waiting[t].id == c.waiter ensures t == c.token && s.waiting[t].calls > 0 {
      assert call in ParkedAt(s.calls, s.waiting[t].id);
    }
  }

  lemma UnparkCounts(s: State, call: nat, now: real)
    requires CallsOk(s) && call in s.calls && WaitersOk(s.waiting, s.nextWaiter)
    ensures CallCountsOk(Unpark(s, call, now).calls, Unpark(s, call, now).waiting)
    ensures Unpark(s, call, now).parked == |Unpark(s, call, now).calls|
  {
    hide CallCountsOk, CallIdsOk, CallOwnersOk, WaitersOk, ParkedAt;
    var s' := Unpark(s, call, now);
    CallCounted(s, call);
    assert s.calls == s'.calls[call := s.calls[call]];
    CountWithCall(s'.calls, call, s.calls[call], 0);
    CountsWithCall(s'.calls, call, s.calls[call], s'.waiting, s.waiting);
  }

  lemma UnparkCalls(s: State, call: nat, now: real)
    requires CallsOk(s) && call in s.calls && WaitersOk(s.waiting, s.nextWaiter)
    ensures CallsOk(Unpark(s, call, now))
  {
    hide CallCountsOk;
    UnparkCounts(s, call, now);
  }

  lemma EnqueueCalls(s: State, token: Token, names: seq<Name>, leaseS: real, now: real)
    requires CallsOk(s) && token !in s.waiting
    ensures CallsOk(Enqueue(s, token, names, leaseS, now))
  {
    assert ParkedAt(s.calls, s.nextWaiter) == {};
  }

  // ---------------------------------------------------------------- acquire

  lemma AdmitCalls(s: State, names: seq<Name>, token: Token, leaseS: real, now: real)
    requires CallsOk(s) && TombstonesOk(s) && !IsWithdrawn(s, token)
    ensures CallsOk(Admit(s, names, token, leaseS, now)) && TombstonesOk(Admit(s, names, token, leaseS, now))
  {
    if token in s.leases || token in s.waiting {
    } else if exists n :: n in names && Busy(s, n) {
      EnqueueCalls(s, token, names, leaseS, now);
    }
  }

  lemma AdmitExpires(s: State, names: seq<Name>, token: Token, leaseS: real, now: real)
    requires Expires(s, now) && leaseS > 0.0
    ensures var s' := Admit(s, names, token, leaseS, now); Expires(s', now) && (TimerOk(s.expiries, s.timerAt) ==> TimerOk(s'.expiries, s'.timerAt))
  {
    if token !in s.leases && token !in s.waiting && !exists n :: n in names && Busy(s, n) {
      GrantExpires(s, names, token, leaseS, now);
    }
  }

  lemma AdmitInv(s: State, names: seq<Name>, token: Token, leaseS: real, now: real)
    requires Inv(s, now) && Request(names, leaseS) && !IsWithdrawn(s, token)
    ensures Inv(Admit(s, names, token, leaseS, now), now)
  {
    hide Admit;
    AdmitLosesNobody(s, names, token, leaseS, now);
    AdmitCalls(s, names, token, leaseS, now);
    AdmitExpires(s, names, token, leaseS, now);
  }

  /** A change to a waiter's call count and last-seen time touches no table. */
  lemma SameWaitersTables(s: State, s': State)
    requires Tables(s)
    requires s'.holder == s.holder && s'.leases == s.leases && s'.queues == s.queues && s'.nextWaiter == s.nextWaiter
    requires s'.waiting.Keys == s.waiting.Keys
    requires forall t :: t in s.waiting ==> s'.waiting[t].id == s.waiting[t].id && s'.waiting[t].names == s.waiting[t].names && s'.waiting[t].leaseS == s.waiting[t].leaseS
    ensures Tables(s')
    ensures NoneGrantable(s) ==> NoneGrantable(s')
  {
    forall n | n in s'.queues ensures QueueOk(s'.queues[n], n, s'.waiting) {
      assert QueueOk(s.queues[n], n, s.waiting);
      assert forall i :: 0 <= i < |s.queues[n]| ==> s.queues[n][i] in s.waiting;
    }
  }

  lemma ParkInv(s: State, token: Token, now: real)
    requires Inv(s, now) && token in s.waiting
    ensures Inv(Park(s, token), now)
  {
    SameWaitersTables(s, Park(s, token));
    ParkCalls(s, token);
    assert Park(s, token).waiting.Keys == s.waiting.Keys;
  }

  lemma EnterInv(s: State, names: seq<Name>, token: Token, leaseS: real, numShards: nat, now: real)
    requires Inv(s, now) && Request(names, leaseS)
    ensures Inv(Enter(s, names, token, leaseS, numShards, now).0, now)
  {
    hide Inv;
    if numShards == s.numShards && !IsWithdrawn(s, token) {
      var s1 := Admit(s, names, token, leaseS, now);
      AdmitInv(s, names, token, leaseS, now);
      if token in s1.waiting {
        ParkInv(s1, token, now);
      }
    }
  }

  lemma ResumeInv(s: State, call: nat, now: real)
    requires Inv(s, now) && call in s.calls
    ensures Inv(Resume(s, call, now).0, now)
  {
    hide CallsOk, HoldersOk, WaitersOk, QueuesOk, NoneHeads, HeapOk, LeasesTimely, TimerOk;
    assert Unpark(s, call, now).waiting.Keys == s.waiting.Keys;
    SameWaitersTables(s, Unpark(s, call, now));
    UnparkTombs(s, call, now);
    WaitersOkOf(s);
    UnparkCalls(s, call, now);
  }

  lemma UnparkTombs(s: State, call: nat, now: real)
    requires TombstonesOk(s) && call in s.calls
    ensures TombstonesOk(Unpark(s, call, now))
  {
  }

  lemma WaitersOkOf(s: State)
    requires Tables(s)
    ensures WaitersOk(s.waiting, s.nextWaiter)
  {
  }

  // ---------------------------------------------------------------- renew

  /** A renewed lease's new entry keeps the heap, and leaves its earliest entry first. */
  lemma RenewHeap(expiries: seq<Entry>, leases: map<Token, Lease>, token: Token, until: real)
    requires HeapOk(expiries, leases) && token in leases && leases[token].expiresAt <= until
    ensures HeapOk(Push(expiries, Entry(until, token)), leases[token := leases[token].(expiresAt := until)])
    ensures expiries != [] && Push(expiries, Entry(until, token))[0].at == expiries[0].at
  {
    var e0 := Entry(leases[token].expiresAt, token);
    PushSorted(expiries, Entry(until, token));
    var i :| 0 <= i < |expiries| && expiries[i] == e0;
    assert i == 0 || Before(expiries[0], e0);
  }

  lemma RenewOneExpires(s: State, token: Token, now: real)
    requires Expires(s, now) && TimerOk(s.expiries, s.timerAt)
    ensures var s' := RenewOne(s, token, now); Expires(s', now) && TimerOk(s'.expiries, s'.timerAt)
  {
    hide HeapOk, Push;
    if Alive(s, token, now) {
      RenewHeap(s.expiries, s.leases, token, now + s.leases[token].leaseS);
    }
  }

  lemma RenewOneHolders(holder: map<Name, Token>, leases: map<Token, Lease>, token: Token, until: real)
    requires HoldersOk(holder, leases) && token in leases
    ensures HoldersOk(holder, leases[token := leases[token].(expiresAt := until)])
  {
  }

  lemma RenewOneInv(s: State, token: Token, now: real)
    requires Inv(s, now)
    ensures Inv(RenewOne(s, token, now), now)
  {
    hide HoldersOk, Expires, TimerOk, Barred;
    RenewOneExpires(s, token, now);
    if Alive(s, token, now) {
      RenewOneHolders(s.holder, s.leases, token, now + s.leases[token].leaseS);
      RenewOneBarred(s, token, now);
    }
  }

  lemma RenewOneBarred(s: State, token: Token, now: real)
    requires Barred(s.withdrawn, s.leases, s.waiting)
    ensures Barred(s.withdrawn, RenewOne(s, token, now).leases, s.waiting)
  {
  }

  lemma {:induction false} RenewManyInv(s: State, tokens: seq<Token>, now: real)
    requires Inv(s, now)
    ensures Inv(RenewMany(s, tokens, now).0, now)
  {
    hide Inv;
    if tokens != [] {
      RenewManyInv(s, tokens[..|tokens| - 1], now);
      RenewOneInv(RenewMany(s, tokens[..|tokens| - 1], now).0, tokens[|tokens| - 1], now);
    }
  }

  // ---------------------------------------------------------------- release and expiry

  lemma UnholdCalls(s: State, token: Token)
    requires token in s.leases && CallsOk(s) && TombstonesOk(s)
    ensures CallsOk(Unhold(s, token)) && TombstonesOk(Unhold(s, token))
  {
  }

  lemma FreeInv(s: State, token: Token, now: real)
    requires Inv(s, now)
    ensures Inv(Free(s, token, now), now)
    ensures token !in Free(s, token, now).leases
  {
    hide Tables, NoneGrantable, HandedOff;
    FreeTables(s, token, now);
    FreeLosesNobody(s, token, now);
    FreeExpires(s, token, now);
    FreeCalls(s, token, now);
  }

  lemma FreeCalls(s: State, token: Token, now: real)
    requires Tables(s) && CallsOk(s) && TombstonesOk(s)
    ensures CallsOk(Free(s, token, now)) && TombstonesOk(Free(s, token, now))
    ensures token !in Free(s, token, now).leases
  {
    hide CallsOk, TombstonesOk;
    if token in s.leases {
      UnholdTables(s, token);
      HandOffChanges(Unhold(s, token), s.leases[token].names, now);
      UnholdCalls(s, token);
      HandedOffKeepsCalls(Unhold(s, token), Free(s, token, now), now);
      var s' := Free(s, token, now);
      if token in s'.leases {
        NewLease(Unhold(s, token), s', token, now);
      }
    }
  }

  lemma {:induction false} ExpireDueCalls(s: State, now: real)
    requires Tables(s) && CallsOk(s) && TombstonesOk(s)
    ensures CallsOk(ExpireDue(s, now)) && TombstonesOk(ExpireDue(s, now))
    decreases DueCount(s.expiries, now)
  {
    if Due(s.expiries, now) {
      var e := s.expiries[0];
      var popped := s.(expiries := s.expiries[1..]);
      if Current(popped, e) {
        FreeTables(popped, e.token, now);
        FreeDueCount(popped, e.token, now);
        FreeCalls(popped, e.token, now);
        ExpireDueCalls(Free(popped, e.token, now), now);
      } else {
        ExpireDueCalls(popped, now);
      }
    }
  }

  lemma ExpireInv(s: State, now: real)
    requires Inv(s, now)
    ensures Inv(Expire(s, now), now)
    ensures forall t :: t in Expire(s, now).leases ==> Expire(s, now).leases[t].expiresAt > now
  {
    var d := ExpireDue(s, now);
    ExpireDueTables(s, now);
    ExpireDueLosesNobody(s, now);
    ExpireDueExpires(s, now);
    ExpireDueCalls(s, now);
    NoDueLease(d, now);
    hide ExpireDue;
    RearmInv(d, now);
  }

  lemma RearmInv(d: State, now: real)
    requires Tables(d) && NoneGrantable(d) && Expires(d, now) && CallsOk(d) && TombstonesOk(d)
    ensures Inv(Rearm(d), now)
  {
  }

  /** Pruning keeps every unexpired tombstone; entombing adds exactly one token. */
  lemma {:induction false} PruneKeepsUnexpired(w: seq<Tombstone>, now: real)
    ensures |Prune(w, now)| <= |w| && Prune(w, now) == w[|w| - |Prune(w, now)|..]
    ensures forall i :: 0 <= i < |w| - |Prune(w, now)| ==> w[i].until <= now
    ensures Prune(w, now) != [] ==> Prune(w, now)[0].until > now
  {
    if w != [] && w[0].until <= now {
      PruneKeepsUnexpired(w[1..], now);
    }
  }

  lemma {:induction false} EntombAddsOne(w: seq<Tombstone>, token: Token, until: real)
    requires OneTombEach(w)
    ensures var w' := Entomb(w, token, until);
            && OneTombEach(w')
            && (forall x :: x in w' <==> x == Tombstone(token, until) || (x in w && x.token != token))
  {
    if w != [] {
      assert forall x :: x in w <==> x == w[0] || x in w[1..];
      if w[0].token == token {
        forall x | x in w[1..] ensures x.token != token {
          var i :| 0 <= i < |w[1..]| && w[1..][i] == x;
          assert w[i + 1] == x;
        }
      } else {
        EntombAddsOne(w[1..], token, until);
        var r := Entomb(w[1..], token, until);
        forall i | 0 <= i < |r| ensures r[i].token != w[0].token {
          assert r[i] in r;
          if r[i].token != token {
            var k :| 0 <= k < |w[1..]| && w[1..][k] == r[i];
            assert w[k + 1] == r[i];
          }
        }
        assert forall x :: x in Entomb(w, token, until) <==> x == w[0] || x in r;
      }
    }
  }

  lemma LeaveCalls(s: State, token: Token, now: real)
    requires token in s.waiting && CallsOk(s) && TombstonesOk(s) && Expires(s, now)
    ensures CallsOk(Leave(s, token)) && TombstonesOk(Leave(s, token)) && Expires(Leave(s, token), now)
  {
  }

  lemma WithdrawChanges(s: State, token: Token, now: real)
    requires Tables(s) && token in s.waiting
    ensures Tables(Leave(s, token)) && Tables(Withdraw(s, token, now))
    ensures HandedOff(Leave(s, token), Withdraw(s, token, now), now)
    ensures token !in Withdraw(s, token, now).leases && token !in Withdraw(s, token, now).waiting
  {
    var left, s' := Leave(s, token), Withdraw(s, token, now);
    LeaveTables(s, token);
    HandOffTables(left, s.waiting[token].names, now);
    HandOffChanges(left, s.waiting[token].names, now);
    if token in s'.leases { NewLease(left, s', token, now); }
  }

  lemma WithdrawInv(s: State, token: Token, now: real)
    requires Inv(s, now) && token !in s.leases
    ensures Inv(Withdraw(s, token, now), now)
    ensures token !in Withdraw(s, token, now).leases && token !in Withdraw(s, token, now).waiting
    ensures Withdraw(s, token, now).withdrawn == s.withdrawn
  {
    hide Tables, NoneHeads, CallsOk, TombstonesOk, Expires;
    if token in s.waiting {
      WithdrawLosesNobody(s, token, now);
      WithdrawChanges(s, token, now);
      LeaveCalls(s, token, now);
      HandOffExpires(Leave(s, token), s.waiting[token].names, now);
      HandedOffKeepsCalls(Leave(s, token), Withdraw(s, token, now), now);
    }
  }

  lemma EntombBars(s: State, token: Token, until: real, now: real)
    requires TombstonesOk(s) && token !in s.leases && token !in s.waiting
    ensures TombstonesOk(s.(withdrawn := Entomb(Prune(s.withdrawn, now), token, until)))
  {
    var p := Prune(s.withdrawn, now);
    var w := Entomb(p, token, until);
    PruneKeepsUnexpired(s.withdrawn, now);
    EntombAddsOne(p, token, until);
    forall i | 0 <= i < |w| ensures w[i].token !in s.leases && w[i].token !in s.waiting {
      assert w[i] in w;
      if w[i].token != token {
        var k :| 0 <= k < |p| && p[k] == w[i];
        assert s.withdrawn[k + (|s.withdrawn| - |p|)] == w[i];
      }
    }
  }

  lemma EntombInv(s: State, token: Token, now: real)
    requires Inv(s, now) && token !in s.leases && token !in s.waiting
    ensures Inv(s.(withdrawn := Entomb(Prune(s.withdrawn, now), token, now + WITHDRAWN_TTL_S)), now)
  {
    hide TombstonesOk;
    EntombBars(s, token, now + WITHDRAWN_TTL_S, now);
  }

  lemma ReleaseInv(s: State, token: Token, now: real)
    requires Inv(s, now)
    ensures Inv(Release(s, token, now), now)
  {
    if token in s.leases {
      FreeInv(s, token, now);
    } else {
      WithdrawInv(s, token, now);
      EntombInv(Withdraw(s, token, now), token, now);
    }
  }

  // ---------------------------------------------------------------- whole runs

  lemma StepInv(s: State, e: Event, now: real)
    requires Inv(s, now) && Allowed(s, e)
    ensures Inv(Apply(s, e, now), now)
  {
    hide Inv;
    assert Tables(s) by { TablesOf(s, now); }
    match e
    case AcquireCall(names, token, leaseS, numShards) => EnterInv(s, names, token, leaseS, numShards, now);
    case Wake(call) => ResumeInv(s, call, now);
    case RenewCall(tokens) => RenewManyInv(s, tokens, now);
    case ReleaseCall(token) => ReleaseInv(s, token, now);
    case TimerFires => ExpireInv(s, now);
  }

  lemma TablesOf(s: State, now: real)
    requires Inv(s, now)
    ensures Tables(s)
  {
  }

  datatype Timed = Timed(event: Event, at: real)

  ghost predicate Run(s: State, now: real, trace: seq<Timed>, s': State, now': real)
    decreases |trace|
  {
    if trace == [] then s' == s && now' == now
    else
      && now <= trace[0].at && Tables(s) && Allowed(s, trace[0].event)
      && Run(Apply(s, trace[0].event, trace[0].at), trace[0].at, trace[1..], s', now')
  }

  lemma RunNothing(s: State, now: real)
    ensures Run(s, now, [], s, now)
  {
  }

  lemma LaterInv(s: State, now: real, later: real)
    requires Inv(s, now) && now <= later
    ensures Inv(s, later)
  {
  }

  lemma {:induction false} RunInv(s: State, now: real, trace: seq<Timed>, s': State, now': real)
    requires Inv(s, now) && Run(s, now, trace, s', now')
    ensures Inv(s', now') && now <= now'
    decreases |trace|
  {
    hide Inv, Tables;
    if trace != [] {
      LaterInv(s, now, trace[0].at);
      StepInv(s, trace[0].event, trace[0].at);
      RunInv(Apply(s, trace[0].event, trace[0].at), trace[0].at, trace[1..], s', now');
    }
  }

  /** Whatever calls arrive in whatever order, an actor never leaves the invariant. */
  lemma ReachableInv(numShards: nat, maxParked: nat, now: real, trace: seq<Timed>, s: State, now': real)
    requires Run(Initial(numShards, maxParked), now, trace, s, now')
    ensures Inv(s, now') && now <= now'
  {
    InitialInv(numShards, maxParked, now);
    RunInv(Initial(numShards, maxParked), now, trace, s, now');
  }
}
