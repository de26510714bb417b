/**
 What every step of a lock actor keeps, over whole runs: no hand-off is lost, requests are served in one
 arrival order, no expiry is missed, suspended calls are counted exactly, and tombstones bar their tokens.
 */
module LockInvariants {
  import opened Prelude
  import opened LockTable

  // ---------------------------------------------------------------- what one hand-off may change

  ghost predicate SharesName(a: seq<Name>, b: seq<Name>) {
    exists n :: n in a && n in b
  }

  /**
   From `s` to `s'` waiters only leave: skipped if they are abandoned, else granted for `leaseS` from `now`. Nobody is
   granted past an older waiter that shares a name and still waits.
   */
  ghost predicate HandedOff(s: State, s': State, now: real) {
    && (forall t :: t in s'.waiting ==> t in s.waiting && s'.waiting[t] == s.waiting[t])
    && (forall t :: t in s.leases ==> t in s'.leases && s'.leases[t] == s.leases[t])
    && (forall t :: t in s'.leases && t !in s.leases ==> GrantedBy(s, s', t, now))
    && (forall t :: t in s.waiting && t !in s'.waiting ==> t in s'.leases || Abandoned(s.waiting[t], now))
    && (forall t, u :: t in s'.leases && t !in s.leases && u in s'.waiting ==> NotPassed(s, t, u))
    && SameElsewhere(s, s')
  }

  /** If `t` and `u` share a name then `t` arrived first. */
  ghost predicate NotPassed(s: State, t: Token, u: Token) {
    t in s.waiting && u in s.waiting && SharesName(s.waiting[t].names, s.waiting[u].names) ==> s.waiting[t].id < s.waiting[u].id
  }

  ghost predicate GrantedBy(s: State, s': State, t: Token, now: real)
    requires t in s'.leases
  {
    && t in s.waiting && t !in s'.waiting && !Abandoned(s.waiting[t], now)
    && s'.leases[t] == Lease(s.waiting[t].names, s.waiting[t].leaseS, now + s.waiting[t].leaseS, now)
  }

  ghost predicate SameElsewhere(s: State, s': State) {
    && s'.numShards == s.numShards && s'.maxParked == s.maxParked && s'.parked == s.parked && s'.withdrawn == s.withdrawn
    && s'.calls == s.calls && s'.nextCall == s.nextCall && s'.nextWaiter == s.nextWaiter
  }

  lemma {:induction false} HandOffChanges(s: State, names: seq<Name>, now: real)
    requires Tables(s)
    ensures HandedOff(s, HandOff(s, names, now), now)
    decreases |s.waiting|, |names|
  {
    hide HandedOff;
    if names == [] {
      HandedOffReflexive(s, now);
    } else {
      var name, rest := names[|names| - 1], names[..|names| - 1];
      if name in s.holder || name !in s.queues {
        HandOffChanges(s, rest, now);
      } else {
        assert QueueOk(s.queues[name], name, s.waiting);
        var token := s.queues[name][0];
        var w := s.waiting[token];
        if Abandoned(w, now) {
          LeaveTables(s, token);
          HandOffChanges(Leave(s, token), rest + w.names, now);
          LeaveIsHandOff(s, token, now);
          HandedOffTransitive(s, Leave(s, token), HandOff(s, names, now), now);
        } else if Grantable(s, token) {
          GrantWaiterTables(s, token, now);
          GrantWaiterIsHandOff(s, token, now);
          HandOffChanges(GrantWaiter(s, token, now), rest, now);
          HandedOffTransitive(s, GrantWaiter(s, token, now), HandOff(s, names, now), now);
        } else {
          HandOffChanges(s, rest, now);
        }
      }
    }
  }

  lemma HandedOffReflexive(s: State, now: real)
    ensures HandedOff(s, s, now)
  {
  }

  lemma LeaveIsHandOff(s: State, token: Token, now: real)
    requires Tables(s) && token in s.waiting && Abandoned(s.waiting[token], now)
    ensures HandedOff(s, Leave(s, token), now)
  {
  }

  lemma GrantWaiterIsHandOff(s: State, token: Token, now: real)
    requires Tables(s) && Grantable(s, token) && !Abandoned(s.waiting[token], now)
    ensures HandedOff(s, GrantWaiter(s, token, now), now)
  {
    forall u, n | u in s.waiting && u != token && n in s.waiting[token].names && n in s.waiting[u].names
      ensures s.waiting[token].id < s.waiting[u].id
    {
      HeadIsOldest(s, n, u);
    }
  }

  lemma HeadIsOldest(s: State, n: Name, u: Token)
    requires Tables(s) && u in s.waiting && n in s.waiting[u].names
    ensures n in s.queues && s.queues[n] != [] && s.queues[n][0] in s.waiting
    ensures s.queues[n][0] == u || s.waiting[s.queues[n][0]].id < s.waiting[u].id
  {
    assert n in s.queues && u in s.queues[n] && QueueOk(s.queues[n], n, s.waiting);
    var i :| 0 <= i < |s.queues[n]| && s.queues[n][i] == u;
  }

  lemma HandedOffTransitive(a: State, b: State, c: State, now: real)
    requires HandedOff(a, b, now) && HandedOff(b, c, now)
    ensures HandedOff(a, c, now)
  {
    forall t | t in c.leases && t !in a.leases ensures GrantedBy(a, c, t, now) {
      if t !in b.leases {
        assert GrantedBy(b, c, t, now);
      } else {
        assert GrantedBy(a, b, t, now);
      }
    }
    hide GrantedBy, SharesName;
    forall t, u | t in c.leases && t !in a.leases && u in c.waiting ensures NotPassed(a, t, u) {
      assert if t in b.leases then NotPassed(a, t, u) else NotPassed(b, t, u);
    }
    hide NotPassed;
  }

  lemma NewLease(s: State, s': State, t: Token, now: real)
    requires HandedOff(s, s', now) && t in s'.leases && t !in s.leases
    ensures GrantedBy(s, s', t, now)
  {
  }

  // ---------------------------------------------------------------- no lost hand-off

  ghost predicate NoneGrantable(s: State) {
    NoneHeads(s.holder, s.queues, s.waiting)
  }

  ghost predicate NoneHeads(holder: map<Name, Token>, queues: map<Name, seq<Token>>, waiting: map<Token, Waiter>) {
    forall t :: t in waiting ==> !Heads(holder, queues, waiting[t].names, t)
  }

  /** Any waiter that could be granted now has one of its names in the worklist. */
  ghost predicate Covered(s: State, names: seq<Name>) {
    forall t :: t in s.waiting && Grantable(s, t) ==> SharesName(s.waiting[t].names, names)
  }

  lemma {:induction false} HandOffLosesNobody(s: State, names: seq<Name>, now: real)
    requires Tables(s) && Covered(s, names)
    ensures NoneGrantable(HandOff(s, names, now))
    decreases |s.waiting|, |names|
  {
    hide Tables, Covered;
    if names == [] {
      CoveredByNothing(s);
    } else {
      var name, rest := names[|names| - 1], names[..|names| - 1];
      assert names == rest + [name];
      if name in s.holder || name !in s.queues {
        CoveredWithoutName(s, rest, name);
        HandOffLosesNobody(s, rest, now);
      } else {
        QueueHead(s, name);
        var token := s.queues[name][0];
        var w := s.waiting[token];
        if Abandoned(w, now) {
          LeaveTables(s, token);
          CoveredAfterSkip(s, rest, name, token);
          HandOffLosesNobody(Leave(s, token), rest + w.names, now);
        } else if Grantable(s, token) {
          GrantWaiterTables(s, token, now);
          CoveredAfterGrant(s, rest, name, token, now);
          HandOffLosesNobody(GrantWaiter(s, token, now), rest, now);
        } else {
          CoveredWithoutName(s, rest, name);
          HandOffLosesNobody(s, rest, now);
        }
      }
    }
  }

  lemma QueueHead(s: State, name: Name)
    requires Tables(s) && name in s.queues
    ensures s.queues[name] != [] && s.queues[name][0] in s.waiting
  {
    assert QueueOk(s.queues[name], name, s.waiting);
  }

  lemma CoveredByNothing(s: State)
    requires Covered(s, [])
    ensures NoneGrantable(s)
  {
  }

  lemma CoveredWithoutName(s: State, rest: seq<Name>, name: Name)
    requires Tables(s) && Covered(s, rest + [name])
    requires name in s.holder || name !in s.queues || (s.queues[name] != [] && !Grantable(s, s.queues[name][0]))
    ensures Covered(s, rest)
  {
    forall t | t in s.waiting && Grantable(s, t) ensures SharesName(s.waiting[t].names, rest) {
      var n :| n in s.waiting[t].names && n in rest + [name];
      assert n != name;
    }
  }

  lemma CoveredAfterSkip(s: State, rest: seq<Name>, name: Name, token: Token)
    requires Tables(s) && Covered(s, rest + [name])
    requires name in s.queues && s.queues[name] != [] && s.queues[name][0] == token && token in s.waiting
    ensures Covered(Leave(s, token), rest + s.waiting[token].names)
  {
    var s' := Leave(s, token);
    var names := s.waiting[token].names;
    forall t | t in s'.waiting && Grantable(s', t) ensures SharesName(s'.waiting[t].names, rest + names) {
      if n :| n in s.waiting[t].names && n in names {
        assert n in rest + names;
      } else {
        assert Grantable(s, t);
        var n :| n in s.waiting[t].names && n in rest + [name];
        assert n != name;
        assert n in rest + names;
      }
    }
  }

  lemma CoveredAfterGrant(s: State, rest: seq<Name>, name: Name, token: Token, now: real)
    requires Tables(s) && Covered(s, rest + [name])
    requires name in s.queues && s.queues[name] != [] && s.queues[name][0] == token && token in s.waiting
    requires Grantable(s, token)
    ensures Covered(GrantWaiter(s, token, now), rest)
  {
    var s' := GrantWaiter(s, token, now);
    var names := s.waiting[token].names;
    forall t | t in s'.waiting && Grantable(s', t) ensures SharesName(s'.waiting[t].names, rest) {
      assert forall n :: n in names ==> n in s'.holder;
      assert forall n :: n in s.waiting[t].names ==> n !in names;
      assert Grantable(s, t);
      var n :| n in s.waiting[t].names && n in rest + [name];
      assert n != name;
    }
  }

  lemma FreeLosesNobody(s: State, token: Token, now: real)
    requires Tables(s) && NoneGrantable(s)
    ensures NoneGrantable(Free(s, token, now))
  {
    if token in s.leases {
      var s' := Unhold(s, token);
      var names := s.leases[token].names;
      UnholdTables(s, token);
      forall t | t in s'.waiting && Grantable(s', t) ensures SharesName(s'.waiting[t].names, names) {
        assert !Grantable(s, t);
      }
      HandOffLosesNobody(s', names, now);
    }
  }

  lemma WithdrawLosesNobody(s: State, token: Token, now: real)
    requires Tables(s) && NoneGrantable(s)
    ensures NoneGrantable(Withdraw(s, token, now))
  {
    if token in s.waiting {
      var s' := Leave(s, token);
      var names := s.waiting[token].names;
      LeaveTables(s, token);
      forall t | t in s'.waiting && Grantable(s', t) ensures SharesName(s'.waiting[t].names, names) {
        if forall n :: n in s.waiting[t].names ==> n !in names {
          assert Grantable(s, t);
        }
      }
      HandOffLosesNobody(s', names, now);
    }
  }

  lemma {:induction false} ExpireDueLosesNobody(s: State, now: real)
    requires Tables(s) && NoneGrantable(s)
    ensures NoneGrantable(ExpireDue(s, now))
    decreases DueCount(s.expiries, now)
  {
    if Due(s.expiries, now) {
      var e := s.expiries[0];
      var popped := s.(expiries := s.expiries[1..]);
      assert NoneGrantable(popped) by {
        forall t | t in popped.waiting ensures !Grantable(popped, t) { assert !Grantable(s, t); }
      }
      if Current(popped, e) {
        FreeTables(popped, e.token, now);
        FreeDueCount(popped, e.token, now);
        FreeLosesNobody(popped, e.token, now);
        ExpireDueLosesNobody(Free(popped, e.token, now), now);
      } else {
        ExpireDueLosesNobody(popped, now);
      }
    }
  }

  lemma EnqueueLosesNobody(s: State, names: seq<Name>, token: Token, leaseS: real, now: real)
    requires Tables(s) && NoneGrantable(s) && token !in s.waiting
    requires exists n :: n in names && Busy(s, n)
    ensures NoneGrantable(Enqueue(s, token, names, leaseS, now))
  {
    var s' := Enqueue(s, token, names, leaseS, now);
    forall t | t in s'.waiting ensures !Grantable(s', t) {
      if t == token {
        var n :| n in names && Busy(s, n);
        if n in s.queues { QueueHead(s, n); }
      } else if Grantable(s', t) {
        GrantableBefore(s, names, token, leaseS, now, t);
      }
    }
  }

  /** Joining the queues puts nobody at the head of a queue who was not there before. */
  lemma GrantableBefore(s: State, names: seq<Name>, token: Token, leaseS: real, now: real, t: Token)
    requires Tables(s) && token !in s.waiting && t != token && Grantable(Enqueue(s, token, names, leaseS, now), t)
    ensures Grantable(s, t)
  {
    forall n | n in s.waiting[t].names ensures n !in s.holder && n in s.queues && s.queues[n] != [] && s.queues[n][0] == t {
      HeadIsOldest(s, n, t);
    }
  }

  lemma GrantLosesNobody(s: State, names: seq<Name>, token: Token, leaseS: real, now: real)
    requires NoneGrantable(s)
    ensures NoneGrantable(Grant(s, token, names, leaseS, now))
  {
    var s' := Grant(s, token, names, leaseS, now);
    forall t | t in s'.waiting ensures !Grantable(s', t) {
      assert !Grantable(s, t);
    }
  }

  lemma AdmitLosesNobody(s: State, names: seq<Name>, token: Token, leaseS: real, now: real)
    requires Tables(s) && NoneGrantable(s) && Request(names, leaseS)
    ensures Tables(Admit(s, names, token, leaseS, now))
    ensures NoneGrantable(Admit(s, names, token, leaseS, now))
  {
    if token in s.leases || token in s.waiting {
    } else if exists n :: n in names && Busy(s, n) {
      EnqueueTables(s, token, names, leaseS, now);
      EnqueueLosesNobody(s, names, token, leaseS, now);
    } else {
      assert forall n :: n in names ==> !Busy(s, n);
      GrantTables(s, token, names, leaseS, now);
      GrantLosesNobody(s, names, token, leaseS, now);
    }
  }

  // ---------------------------------------------------------------- no missed expiry

  ghost predicate Sorted(heap: seq<Entry>) {
    forall i, j :: 0 <= i < j < |heap| ==> Before(heap[i], heap[j])
  }

  /** Every live lease has an entry with its current expiry; stale entries may lie beside it. */
  ghost predicate HeapOk(expiries: seq<Entry>, leases: map<Token, Lease>) {
    Sorted(expiries) && forall t :: t in leases ==> Entry(leases[t].expiresAt, t) in expiries
  }

  /** The timer is armed no later than the earliest entry. */
  ghost predicate TimerOk(expiries: seq<Entry>, timerAt: Option<real>) {
    expiries != [] ==> timerAt.Some? && timerAt.value <= expiries[0].at
  }

  /** No lease runs longer than its own length from now. */
  ghost predicate LeasesTimely(leases: map<Token, Lease>, now: real) {
    forall t :: t in leases ==> leases[t].expiresAt <= now + leases[t].leaseS && leases[t].grantedAt <= now
  }

  ghost predicate Expires(s: State, now: real) {
    HeapOk(s.expiries, s.leases) && LeasesTimely(s.leases, now)
  }

  lemma {:induction false} PushSorted(heap: seq<Entry>, e: Entry)
    requires Sorted(heap)
    ensures Sorted(Push(heap, e))
    ensures forall f :: f in Push(heap, e) <==> f in heap || f == e
    ensures Push(heap, e)[0] == if heap == [] || Before(e, heap[0]) then e else heap[0]
  {
    if heap == [] || Before(e, heap[0]) {
    } else {
      PushSorted(heap[1..], e);
      var p := Push(heap[1..], e);
      forall i | 0 <= i < |p| ensures Before(heap[0], p[i]) {
        assert p[i] in p;
      }
      assert forall f :: f in heap <==> f == heap[0] || f in heap[1..];
    }
  }

  lemma GrantExpires(s: State, names: seq<Name>, token: Token, leaseS: real, now: real)
    requires Expires(s, now) && leaseS > 0.0
    ensures var s' := Grant(s, token, names, leaseS, now); Expires(s', now) && (TimerOk(s.expiries, s.timerAt) ==> TimerOk(s'.expiries, s'.timerAt))
  {
    PushSorted(s.expiries, Entry(now + leaseS, token));
  }

  lemma {:induction false} HandOffExpires(s: State, names: seq<Name>, now: real)
    requires Tables(s) && Expires(s, now)
    ensures var s' := HandOff(s, names, now); Expires(s', now) && (TimerOk(s.expiries, s.timerAt) ==> TimerOk(s'.expiries, s'.timerAt))
    decreases |s.waiting|, |names|
  {
    hide Tables;
    if names != [] {
      var name, rest := names[|names| - 1], names[..|names| - 1];
      if name in s.holder || name !in s.queues {
        HandOffExpires(s, rest, now);
      } else {
        QueueHead(s, name);
        var token := s.queues[name][0];
        var w := s.waiting[token];
        if Abandoned(w, now) {
          LeaveTables(s, token);
          HandOffExpires(Leave(s, token), rest + w.names, now);
        } else if Grantable(s, token) {
          GrantWaiterTables(s, token, now);
          LeaseLengthPositive(s, token);
          GrantExpires(Leave(s, token), w.names, token, w.leaseS, now);
          HandOffExpires(GrantWaiter(s, token, now), rest, now);
        } else {
          HandOffExpires(s, rest, now);
        }
      }
    }
  }

  lemma LeaseLengthPositive(s: State, token: Token)
    requires Tables(s) && token in s.waiting
    ensures s.waiting[token].leaseS > 0.0
  {
  }

  lemma FreeExpires(s: State, token: Token, now: real)
    requires Tables(s) && Expires(s, now)
    ensures var s' := Free(s, token, now); Expires(s', now) && (TimerOk(s.expiries, s.timerAt) ==> TimerOk(s'.expiries, s'.timerAt))
  {
    if token in s.leases {
      UnholdTables(s, token);
      HandOffExpires(Unhold(s, token), s.leases[token].names, now);
    }
  }

  /** The pop loop leaves no due entry, so no due lease. */
  lemma {:induction false} ExpireDueExpires(s: State, now: real)
    requires Tables(s) && Expires(s, now)
    ensures var s' := ExpireDue(s, now); Expires(s', now) && !Due(s'.expiries, now)
    decreases DueCount(s.expiries, now)
  {
    hide Tables, LeasesTimely;
    if Due(s.expiries, now) {
      var e := s.expiries[0];
      var popped := s.(expiries := s.expiries[1..]);
      PopTables(s, now);
      if Current(popped, e) {
        var freed := Free(popped, e.token, now);
        FreeTables(popped, e.token, now);
        FreeDueCount(popped, e.token, now);
        UnholdTables(popped, e.token);
        UnholdExpires(s, popped, now);
        HandOffExpires(Unhold(popped, e.token), popped.leases[e.token].names, now);
        ExpireDueExpires(freed, now);
      } else {
        ExpireDueExpires(popped, now);
      }
    }
  }

  lemma PopTables(s: State, now: real)
    requires Tables(s) && s.expiries != [] && LeasesTimely(s.leases, now)
    ensures Tables(s.(expiries := s.expiries[1..])) && LeasesTimely(s.leases, now)
  {
  }

  lemma UnholdExpires(s: State, popped: State, now: real)
    requires HeapOk(s.expiries, s.leases) && s.expiries != [] && popped == s.(expiries := s.expiries[1..]) && Current(popped, s.expiries[0])
    requires LeasesTimely(popped.leases, now)
    ensures Expires(Unhold(popped, s.expiries[0].token), now)
  {
    var s' := Unhold(popped, s.expiries[0].token);
    forall t | t in s'.leases ensures Entry(s'.leases[t].expiresAt, t) in s'.expiries {
      assert Entry(s.leases[t].expiresAt, t) in s.expiries;
      assert forall f :: f in s.expiries <==> f == s.expiries[0] || f in s.expiries[1..];
    }
  }

  lemma NoDueLease(s: State, now: real)
    requires HeapOk(s.expiries, s.leases) && !Due(s.expiries, now)
    ensures forall t :: t in s.leases ==> s.leases[t].expiresAt > now
  {
    forall t | t in s.leases ensures s.leases[t].expiresAt > now {
      var i :| 0 <= i < |s.expiries| && s.expiries[i] == Entry(s.leases[t].expiresAt, t);
      assert i == 0 || Before(s.expiries[0], s.expiries[i]);
    }
  }
}
