/** What every step of the local lock keeps. */
module LocalLockInv {
  import opened Prelude
  import opened LocalLock

  /** In the middle of a release: `extra` names are in the table and have no owner any more. */
  ghost predicate TableBut(table: map<Name, seq<Id>>, calls: map<Id, Call>, extra: set<Name>) {
    && (forall n :: n in table <==> Owned(calls, n) || n in extra)
    && (forall n :: n in extra ==> !Owned(calls, n))
  }

  ghost predicate InvBut(s: State, extra: set<Name>) {
    CallsOk(s.calls) && TableBut(s.table, s.calls, extra) && OneOwner(s.calls) && QueuesOk(s.table, s.calls) && NobodyLost(s.table, s.calls)
  }

  lemma {:induction false} FromFirst(s: State, q: seq<Id>)
    ensures var r := FromFirstAlive(s, q);
            |r| <= |q| && r == q[|q| - |r|..] && (r != [] ==> Alive(s, r[0])) && forall i :: 0 <= i < |q| - |r| ==> !Alive(s, q[i])
  {
    if q == [] || Alive(s, q[0]) {
    } else {
      FromFirst(s, q[1..]);
      var r := FromFirstAlive(s, q[1..]);
      forall i | 0 <= i < |q| - |r| ensures !Alive(s, q[i]) {
        assert i > 0 ==> q[1..][i - 1] == q[i];
      }
    }
  }

  /** The call at the head is handed the name it waits for; nobody else's record changes. */
  lemma GrantOwns(calls: map<Id, Call>, id: Id, n: Name)
    requires id in calls && Queued(calls[id], n) && CallOk(calls[id])
    ensures var after := Grant(calls, id);
            && after.Keys == calls.Keys && CallOk(after[id]) && after[id].gone == calls[id].gone
            && (forall m :: Owns(after[id], m) <==> Owns(calls[id], m) || m == n)
            && (forall m :: !Queued(after[id], m))
            && forall c :: c in calls && c != id ==> after[c] == calls[c]
  {
  }

  lemma OwnedAfterGrant(calls: map<Id, Call>, id: Id, n: Name)
    requires id in calls && Queued(calls[id], n) && CallOk(calls[id])
    ensures forall m :: Owned(Grant(calls, id), m) <==> Owned(calls, m) || m == n
  {
    GrantOwns(calls, id, n);
    var after := Grant(calls, id);
    forall m ensures Owned(after, m) <==> Owned(calls, m) || m == n {
      if c :| c in calls && Owns(calls[c], m) { assert Owns(after[c], m); }
      if c :| c in after && Owns(after[c], m) { assert c != id ==> Owns(calls[c], m); }
      assert Owns(after[id], n);
    }
  }

  /** Releasing an unowned name hands it to its first live waiter, or takes it out of the table. */
  lemma ReleaseInv(s: State, n: Name, extra: set<Name>)
    requires InvBut(s, extra) && n in extra
    ensures n in s.table && InvBut(Release(s, n), extra - {n})
  {
    var q := s.table[n];
    var r := FromFirstAlive(s, q);
    FromFirst(s, q);
    assert QueueOk(s.calls, q, n);
    if r == [] {
      ReleaseFrees(s, n, extra);
    } else {
      var k := |q| - |r|;
      assert r[0] == q[k] && r[1..] == q[k + 1..];
      ReleaseGrants(s, n, extra, k);
    }
  }

  lemma ReleaseFrees(s: State, n: Name, extra: set<Name>)
    requires InvBut(s, extra) && n in extra && n in s.table && forall i :: 0 <= i < |s.table[n]| ==> !Alive(s, s.table[n][i])
    ensures InvBut(State(s.table - {n}, s.calls), extra - {n})
  {
    hide Owned, QueueOk, OneOwner, CallsOk;
    var table := s.table - {n};
    assert TableBut(table, s.calls, extra - {n});
    hide TableBut;
    forall c, m | c in s.calls && Queued(s.calls[c], m) && !s.calls[c].gone ensures m in table && c in table[m] {
      assert c in s.table[m] && Alive(s, c);
    }
  }

  lemma ReleaseGrants(s: State, n: Name, extra: set<Name>, k: nat)
    requires InvBut(s, extra) && n in extra && n in s.table && k < |s.table[n]|
    requires Alive(s, s.table[n][k]) && forall i :: 0 <= i < k ==> !Alive(s, s.table[n][i])
    ensures InvBut(State(s.table[n := s.table[n][k + 1..]], Grant(s.calls, s.table[n][k])), extra - {n})
  {
    var q := s.table[n];
    var id, rest := q[k], q[k + 1..];
    var calls := Grant(s.calls, id);
    assert QueueOk(s.calls, q, n);
    GrantOwns(s.calls, id, n);
    OwnedAfterGrant(s.calls, id, n);
    var table := s.table[n := rest];
    GrantKeepsOneOwner(s.calls, id, n);
    GrantQueues(s, n, k);
    assert TableBut(table, calls, extra - {n});
    hide TableBut, Owned, OneOwner, CallsOk, QueuesOk, NobodyLost;
  }

  lemma GrantQueues(s: State, n: Name, k: nat)
    requires CallsOk(s.calls) && QueuesOk(s.table, s.calls) && NobodyLost(s.table, s.calls) && n in s.table && k < |s.table[n]|
    requires Alive(s, s.table[n][k]) && forall i :: 0 <= i < k ==> !Alive(s, s.table[n][i])
    ensures var q := s.table[n];
            QueuesOk(s.table[n := q[k + 1..]], Grant(s.calls, q[k])) && NobodyLost(s.table[n := q[k + 1..]], Grant(s.calls, q[k]))
  {
    var q := s.table[n];
    var id, rest := q[k], q[k + 1..];
    var calls, table := Grant(s.calls, id), s.table[n := rest];
    assert QueueOk(s.calls, q, n);
    GrantOwns(s.calls, id, n);
    hide Grant, CallOk, Owns;
    forall m | m in table ensures QueueOk(calls, table[m], m) {
      RestOfQueue(s, id, calls, m, table[m], if m == n then k + 1 else 0);
    }
    hide QueueOk;
    forall c, m | c in calls && Queued(calls[c], m) && !calls[c].gone ensures m in table && c in table[m] {
      assert c != id && c in s.table[m];
      if m == n {
        var i :| 0 <= i < |q| && q[i] == c;
        assert Alive(s, c) && i >= k;
        assert rest[i - k - 1] == c;
      }
    }
  }

  lemma RestOfQueue(s: State, id: Id, calls: map<Id, Call>, m: Name, r: seq<Id>, from: nat)
    requires m in s.table && QueueOk(s.calls, s.table[m], m) && from <= |s.table[m]| && r == s.table[m][from..] && id !in r
    requires calls.Keys == s.calls.Keys && forall c :: c in calls && c != id ==> calls[c] == s.calls[c]
    ensures QueueOk(calls, r, m)
  {
    forall i | 0 <= i < |r| ensures r[i] in calls && Queued(calls[r[i]], m) {
      assert r[i] == s.table[m][from + i] && r[i] in r;
    }
  }

  lemma GrantKeepsOneOwner(calls: map<Id, Call>, id: Id, n: Name)
    requires CallsOk(calls) && OneOwner(calls) && id in calls && Queued(calls[id], n) && !Owned(calls, n)
    ensures OneOwner(Grant(calls, id)) && CallsOk(Grant(calls, id))
  {
    var after := Grant(calls, id);
    GrantOwns(calls, id, n);
    forall c, d, m | c in after && d in after && Owns(after[c], m) && Owns(after[d], m) ensures c == d {
      if m == n { assert !Owned(calls, n); }
    }
  }

  lemma {:induction false} ReleaseAllInv(s: State, names: seq<Name>, extra: set<Name>)
    requires InvBut(s, extra) && Distinct(names) && forall n :: n in names ==> n in extra
    ensures InvBut(ReleaseAll(s, names), extra - set n | n in names)
    decreases |names|
  {
    if names == [] {
      assert extra - (set n | n in names) == extra;
    } else {
      var k := |names| - 1;
      ReleaseInv(s, names[k], extra);
      LastApart(names, extra);
      hide *;
      ReleaseAllInv(Release(s, names[k]), names[..k], extra - {names[k]});
      assert ReleaseAll(s, names) == ReleaseAll(Release(s, names[k]), names[..k]) by { ReleaseAllStep(s, names); }
    }
  }

  lemma ReleaseAllStep(s: State, names: seq<Name>)
    requires names != [] && names[|names| - 1] in s.table
    ensures ReleaseAll(s, names) == ReleaseAll(Release(s, names[|names| - 1]), names[..|names| - 1])
  {
  }

  lemma LastApart(names: seq<Name>, extra: set<Name>)
    requires names != [] && Distinct(names) && forall n :: n in names ==> n in extra
    ensures var k := |names| - 1;
            && Distinct(names[..k]) && (forall n :: n in names[..k] ==> n in extra - {names[k]})
            && extra - (set n | n in names) == extra - {names[k]} - set n | n in names[..k]
  {
    assert forall n :: n in names <==> n == names[|names| - 1] || n in names[..|names| - 1];
  }

  // ---------------------------------------------------------------- one call moves

  lemma NotInQueues(s: State, id: Id)
    requires QueuesOk(s.table, s.calls) && (id in s.calls ==> forall m :: !Queued(s.calls[id], m))
    ensures forall m :: m in s.table ==> id !in s.table[m]
  {
    forall m | m in s.table ensures id !in s.table[m] {
      assert QueueOk(s.calls, s.table[m], m);
    }
  }

  lemma InvIs(table: map<Name, seq<Id>>, calls: map<Id, Call>)
    requires CallsOk(calls) && TableOk(table, calls) && OneOwner(calls) && QueuesOk(table, calls) && NobodyLost(table, calls)
    ensures Inv(State(table, calls))
  {
  }

  lemma InvOf(s: State)
    requires Inv(s)
    ensures CallsOk(s.calls) && TableOk(s.table, s.calls) && OneOwner(s.calls) && QueuesOk(s.table, s.calls) && NobodyLost(s.table, s.calls)
  {
  }

  lemma SetCallOk(calls: map<Id, Call>, id: Id, c2: Call)
    requires CallsOk(calls) && CallOk(c2)
    ensures CallsOk(calls[id := c2])
  {
  }

  /** The queues do not see a call that is in none of them, before or after. */
  lemma QueuesUnmoved(table: map<Name, seq<Id>>, calls: map<Id, Call>, id: Id, c2: Call)
    requires QueuesOk(table, calls) && NobodyLost(table, calls)
    requires (id in calls ==> forall m :: !Queued(calls[id], m)) && forall m :: !Queued(c2, m)
    ensures QueuesOk(table, calls[id := c2]) && NobodyLost(table, calls[id := c2])
  {
    NotInQueues(State(table, calls), id);
    hide Queued;
    forall m | m in table ensures QueueOk(calls[id := c2], table[m], m) {
      assert QueueOk(calls, table[m], m);
    }
  }

  /** A call that is in no queue moves on, giving up the names in `lost`. */
  lemma MoveCall(s: State, id: Id, c2: Call, lost: set<Name>)
    requires Inv(s) && id in s.calls && CallOk(c2)
    requires forall m :: !Queued(s.calls[id], m) && !Queued(c2, m)
    requires (forall m :: Owns(c2, m) <==> Owns(s.calls[id], m) && m !in lost) && forall m :: m in lost ==> Owns(s.calls[id], m)
    ensures InvBut(s.(calls := s.calls[id := c2]), lost)
  {
    QueuesUnmoved(s.table, s.calls, id, c2);
    SetCallOk(s.calls, id, c2);
    MoveOwned(s.calls, id, c2, lost);
    hide Owns, Queued, OneOwner, QueuesOk, NobodyLost, CallsOk;
    forall m | m in lost ensures Owned(s.calls, m) { assert Owns(s.calls[id], m); }
  }

  lemma MoveInv(s: State, id: Id, c2: Call)
    requires Inv(s) && id in s.calls && CallOk(c2)
    requires forall m :: !Queued(s.calls[id], m) && !Queued(c2, m)
    requires forall m :: Owns(c2, m) <==> Owns(s.calls[id], m)
    ensures Inv(s.(calls := s.calls[id := c2]))
  {
    MoveCall(s, id, c2, {});
  }

  lemma MoveOwned(calls: map<Id, Call>, id: Id, c2: Call, lost: set<Name>)
    requires OneOwner(calls) && id in calls
    requires (forall m :: Owns(c2, m) <==> Owns(calls[id], m) && m !in lost) && forall m :: m in lost ==> Owns(calls[id], m)
    ensures OneOwner(calls[id := c2]) && forall m :: Owned(calls[id := c2], m) <==> Owned(calls, m) && m !in lost
  {
    var after := calls[id := c2];
    hide Owns;
    forall c | c in calls ensures forall m :: Owns(after[c], m) <==> Owns(calls[c], m) && (c == id ==> m !in lost) {
    }
    forall m ensures Owned(after, m) <==> Owned(calls, m) && m !in lost {
      if c :| c in calls && Owns(calls[c], m) { assert m !in lost ==> Owns(after[c], m); }
      if c :| c in after && Owns(after[c], m) { assert Owns(calls[c], m); }
    }
  }

  lemma AcquiredOwns(c: Call)
    requires CallOk(c) && c.got < |c.names| && !(c.stage == Waiting && !c.granted)
    ensures CallOk(Acquired(c)) && forall m :: Owns(Acquired(c), m) <==> Owns(c, m) || m == c.names[c.got]
  {
    forall m ensures Owns(Acquired(c), m) <==> Owns(c, m) || m == c.names[c.got] {
      assert Acquired(c).names[c.got] == c.names[c.got];
    }
  }

  lemma WakesInv(s: State, id: Id)
    requires Inv(s) && Enabled(s, Wakes(id))
    ensures Inv(Apply(s, Wakes(id)))
  {
    var c := s.calls[id];
    AcquiredOwns(c);
    MoveInv(s, id, Acquired(c));
  }

  lemma BeginsInv(s: State, id: Id, names: seq<Name>)
    requires Inv(s) && Enabled(s, Begins(id, names))
    ensures Inv(Apply(s, Begins(id, names)))
  {
    var c2 := Call(names, 0, Taking, false, false);
    var calls := s.calls[id := c2];
    QueuesUnmoved(s.table, s.calls, id, c2);
    SetCallOk(s.calls, id, c2);
    InvOf(s);
    assert forall m :: !Owns(c2, m);
    hide Inv, QueuesOk, NobodyLost, CallsOk, Owns;
    forall m ensures Owned(calls, m) <==> Owned(s.calls, m) {
      if c :| c in s.calls && Owns(s.calls[c], m) { assert Owns(calls[c], m); }
      if c :| c in calls && Owns(calls[c], m) { assert Owns(s.calls[c], m); }
    }
    InvIs(s.table, calls);
  }

  lemma LoopClosesInv(s: State, id: Id)
    requires Inv(s) && Enabled(s, LoopCloses(id))
    ensures Inv(Apply(s, LoopCloses(id)))
  {
    var c := s.calls[id];
    var c2 := c.(gone := true);
    var calls := s.calls[id := c2];
    assert forall m :: (Owns(c2, m) <==> Owns(c, m)) && (Queued(c2, m) <==> Queued(c, m));
    assert CallOk(c2);
    assert Apply(s, LoopCloses(id)) == State(s.table, calls);
    InvOf(s);
    hide *;
    MoveOwned(s.calls, id, c2, {});
    SetCallOk(s.calls, id, c2);
    TableSame(s.table, s.table, s.calls, calls);
    QueuesSame(s.table, s.calls, id, c2);
    InvIs(s.table, calls);
  }

  lemma TableSame(table: map<Name, seq<Id>>, table2: map<Name, seq<Id>>, calls: map<Id, Call>, calls2: map<Id, Call>)
    requires TableOk(table, calls) && table2.Keys == table.Keys && forall m :: Owned(calls2, m) <==> Owned(calls, m) && m !in {}
    ensures TableOk(table2, calls2)
  {
    hide Owned;
  }

  lemma QueuesSame(table: map<Name, seq<Id>>, calls: map<Id, Call>, id: Id, c2: Call)
    requires QueuesOk(table, calls) && NobodyLost(table, calls) && id in calls
    requires (forall m :: Queued(c2, m) <==> Queued(calls[id], m)) && (c2.gone <== calls[id].gone)
    ensures QueuesOk(table, calls[id := c2]) && NobodyLost(table, calls[id := c2])
  {
    hide Queued;
    forall m | m in table ensures QueueOk(calls[id := c2], table[m], m) {
      assert QueueOk(calls, table[m], m);
    }
    hide QueueOk;
  }

  lemma TakesFreeInv(s: State, id: Id)
    requires Inv(s) && Enabled(s, Takes(id)) && s.calls[id].names[s.calls[id].got] !in s.table
    ensures Inv(Apply(s, Takes(id)))
  {
    var c := s.calls[id];
    var n := c.names[c.got];
    AcquiredOwns(c);
    InvOf(s);
    var c2 := Acquired(c);
    var calls, table := s.calls[id := c2], s.table[n := []];
    QueuesUnmoved(s.table, s.calls, id, c2);
    SetCallOk(s.calls, id, c2);
    assert !Owned(s.calls, n);
    TakenOwned(s.calls, id, c2, n);
    hide Inv, CallOk, CallsOk, Owns, Owned, Queued, OneOwner;
    EmptyQueue(s.table, calls, n);
    InvIs(table, calls);
  }

  lemma EmptyQueue(table: map<Name, seq<Id>>, calls: map<Id, Call>, n: Name)
    requires QueuesOk(table, calls) && NobodyLost(table, calls) && n !in table
    ensures QueuesOk(table[n := []], calls) && NobodyLost(table[n := []], calls)
  {
    hide Queued;
    assert QueueOk(calls, [], n);
    hide QueueOk;
  }

  lemma TakenOwned(calls: map<Id, Call>, id: Id, c2: Call, n: Name)
    requires OneOwner(calls) && id in calls && !Owned(calls, n) && forall m :: Owns(c2, m) <==> Owns(calls[id], m) || m == n
    ensures OneOwner(calls[id := c2]) && forall m :: Owned(calls[id := c2], m) <==> Owned(calls, m) || m == n
  {
    var after := calls[id := c2];
    hide Owns;
    forall m ensures Owned(after, m) <==> Owned(calls, m) || m == n {
      if d :| d in calls && Owns(calls[d], m) { assert Owns(after[d], m); }
      if d :| d in after && Owns(after[d], m) { assert d != id ==> Owns(calls[d], m); }
      assert Owns(after[id], n);
    }
    forall d, e, m | d in after && e in after && Owns(after[d], m) && Owns(after[e], m) ensures d == e {
      if m == n { assert forall d :: d in calls ==> !Owns(calls[d], n); }
    }
  }

  lemma TakesQueuedInv(s: State, id: Id)
    requires Inv(s) && Enabled(s, Takes(id)) && s.calls[id].names[s.calls[id].got] in s.table
    ensures Inv(Apply(s, Takes(id)))
  {
    var c := s.calls[id];
    var n := c.names[c.got];
    var c2 := c.(stage := Waiting, granted := false);
    var calls, table := s.calls[id := c2], s.table[n := s.table[n] + [id]];
    assert CallOk(c2) && (forall m :: Owns(c2, m) <==> Owns(c, m)) && forall m :: Queued(c2, m) <==> m == n;
    assert forall m :: !Queued(c, m);
    InvOf(s);
    SetCallOk(s.calls, id, c2);
    MoveOwned(s.calls, id, c2, {});
    hide Inv, Owned, Owns, CallOk, CallsOk, OneOwner, Queued;
    QueueJoins(s.table, s.calls, id, c2, n);
    InvIs(table, calls);
  }

  lemma QueueJoins(table: map<Name, seq<Id>>, calls: map<Id, Call>, id: Id, c2: Call, n: Name)
    requires QueuesOk(table, calls) && NobodyLost(table, calls) && id in calls && n in table
    requires (forall m :: !Queued(calls[id], m)) && forall m :: Queued(c2, m) <==> m == n
    ensures QueuesOk(table[n := table[n] + [id]], calls[id := c2]) && NobodyLost(table[n := table[n] + [id]], calls[id := c2])
  {
    var table2, calls2 := table[n := table[n] + [id]], calls[id := c2];
    NotInQueues(State(table, calls), id);
    hide Queued;
    forall m | m in table2 ensures QueueOk(calls2, table2[m], m) {
      assert QueueOk(calls, table[m], m);
    }
    hide QueueOk;
    forall d, m | d in calls2 && Queued(calls2[d], m) && !calls2[d].gone ensures m in table2 && d in table2[m] {
      if d == id {
        assert table2[n][|table[n]|] == id;
      } else {
        assert d in table[m];
      }
    }
  }

  lemma {:induction false} WithoutIs(q: seq<Id>, id: Id)
    requires Distinct(q)
    ensures Distinct(Without(q, id)) && forall x :: x in Without(q, id) <==> x in q && x != id
  {
    if q != [] {
      assert forall x :: x in q <==> x == q[0] || x in q[1..];
      assert q[0] !in q[1..];
      if q[0] != id {
        WithoutIs(q[1..], id);
        var r := Without(q[1..], id);
        assert q[0] !in r;
        assert forall i :: 0 <= i < |r| ==> r[i] in r;
      }
    }
  }

  lemma EndsUngrantedInv(s: State, id: Id, timeout: bool)
    requires Inv(s) && Enabled(s, Ends(id, timeout)) && !s.calls[id].granted
    ensures Inv(Apply(s, Ends(id, timeout)))
  {
    var c := s.calls[id];
    var n := c.names[c.got];
    var c2 := c.(stage := Leaving, granted := false);
    var table := if n in s.table && id in s.table[n] then s.table[n := Without(s.table[n], id)] else s.table;
    EndedUngranted(s, id, timeout, table);
    InvOf(s);
    LeavingCall(c);
    assert table.Keys == s.table.Keys && id in s.calls && CallOk(c);
    hide *;
    SetCallOk(s.calls, id, c2);
    MoveOwned(s.calls, id, c2, {});
    TableSame(s.table, table, s.calls, s.calls[id := c2]);
    QueueLeaves(s, id, c2, n, table);
    InvIs(table, s.calls[id := c2]);
  }

  lemma EndedUngranted(s: State, id: Id, timeout: bool, table: map<Name, seq<Id>>)
    requires Enabled(s, Ends(id, timeout)) && !s.calls[id].granted
    requires var n := s.calls[id].names[s.calls[id].got];
             table == if n in s.table && id in s.table[n] then s.table[n := Without(s.table[n], id)] else s.table
    ensures Apply(s, Ends(id, timeout)) == State(table, s.calls[id := s.calls[id].(stage := Leaving, granted := false)])
  {
  }

  lemma LeavingCall(c: Call)
    requires CallOk(c) && c.stage == Waiting && !c.granted
    ensures var c2 := c.(stage := Leaving, granted := false);
            CallOk(c2) && (forall m :: Owns(c2, m) <==> Owns(c, m)) && (forall m :: !Queued(c2, m)) && forall m :: Queued(c, m) ==> m == c.names[c.got]
  {
  }

  lemma QueueLeaves(s: State, id: Id, c2: Call, n: Name, table: map<Name, seq<Id>>)
    requires QueuesOk(s.table, s.calls) && NobodyLost(s.table, s.calls) && id in s.calls
    requires (forall m :: Queued(s.calls[id], m) ==> m == n) && (forall m :: !Queued(c2, m))
    requires table == if n in s.table && id in s.table[n] then s.table[n := Without(s.table[n], id)] else s.table
    ensures QueuesOk(table, s.calls[id := c2]) && NobodyLost(table, s.calls[id := c2])
  {
    var calls := s.calls[id := c2];
    hide Queued, Without, QueueOk;
    forall m | m in table ensures QueueOk(calls, table[m], m) {
      EndedQueue(s, id, c2, n, table[m], m);
    }
    forall c, m | c in calls && Queued(calls[c], m) && !calls[c].gone ensures m in table && c in table[m] {
      assert c != id && c in s.table[m];
      EndedQueue(s, id, c2, n, table[m], m);
    }
  }

  lemma EndedQueue(s: State, id: Id, c2: Call, n: Name, q: seq<Id>, m: Name)
    requires QueuesOk(s.table, s.calls) && id in s.calls && m in s.table && forall x :: Queued(s.calls[id], x) ==> x == n
    requires q == if m == n && id in s.table[n] then Without(s.table[n], id) else s.table[m]
    ensures QueueOk(s.calls[id := c2], q, m) && forall x :: x in q <==> x in s.table[m] && x != id
  {
    assert QueueOk(s.calls, s.table[m], m);
    WithoutIs(s.table[m], id);
    forall i | 0 <= i < |q| ensures q[i] in s.calls && q[i] != id && Queued(s.calls[q[i]], m) {
      assert q[i] in q;
    }
  }

  lemma EndsTimedOutInv(s: State, id: Id)
    requires Inv(s) && Enabled(s, Ends(id, true)) && s.calls[id].granted
    ensures Inv(Apply(s, Ends(id, true))) && Apply(s, Ends(id, true)) == Apply(s, Wakes(id))
  {
    WakesInv(s, id);
  }

  lemma EndsGrantedInv(s: State, id: Id)
    requires Inv(s) && Enabled(s, Ends(id, false)) && s.calls[id].granted
    ensures Inv(Apply(s, Ends(id, false)))
    ensures var c := s.calls[id]; Apply(s, Ends(id, false)) == Release(s.(calls := s.calls[id := c.(stage := Leaving, granted := false)]), c.names[c.got])
  {
    var c := s.calls[id];
    var n := c.names[c.got];
    var c2 := c.(stage := Leaving, granted := false);
    var mid := s.(calls := s.calls[id := c2]);
    AscendingDistinct(c.names);
    assert (forall m :: Owns(c2, m) <==> Owns(c, m) && m != n) && CallOk(c2) && Owns(c, n);
    assert forall m :: !Queued(c, m) && !Queued(c2, m);
    InvOf(s);
    NotInQueues(s, id);
    assert Owned(s.calls, n);
    EndedIsRelease(s, id, n, c2);
    hide *;
    MoveCall(s, id, c2, {n});
    ReleaseInv(mid, n, {n});
    InvButNone(Release(mid, n), {n} - {n});
  }

  lemma InvButNone(s: State, extra: set<Name>)
    requires InvBut(s, extra) && extra == {}
    ensures Inv(s)
  {
  }

  lemma EndedIsRelease(s: State, id: Id, n: Name, c2: Call)
    requires Enabled(s, Ends(id, false)) && s.calls[id].granted && n == s.calls[id].names[s.calls[id].got] && n in s.table && id !in s.table[n]
    requires c2 == s.calls[id].(stage := Leaving, granted := false)
    ensures Apply(s, Ends(id, false)) == Release(s.(calls := s.calls[id := c2]), n)
  {
    SameRelease(s, id, c2, n, s.table[n]);
    FromFirst(s, s.table[n]);
    var q := FromFirstAlive(s, s.table[n]);
    if q != [] { assert q[0] in s.table[n]; }
  }

  lemma AscendingDistinct(names: seq<Name>)
    requires Ascending(names)
    ensures Distinct(names)
  {
  }

  /** A call outside the queue makes no difference to which waiter is first. */
  lemma {:induction false} SameRelease(s: State, id: Id, c2: Call, n: Name, q: seq<Id>)
    requires id !in q && id in s.calls
    ensures FromFirstAlive(s.(calls := s.calls[id := c2]), q) == FromFirstAlive(s, q)
  {
    if q != [] && !Alive(s, q[0]) { SameRelease(s, id, c2, n, q[1..]); }
  }

  lemma ExitsInv(s: State, id: Id)
    requires Inv(s) && Enabled(s, Exits(id))
    ensures Inv(Apply(s, Exits(id)))
  {
    var c := s.calls[id];
    var c2 := c.(stage := Left, got := 0);
    var names := c.names[..c.got];
    var lost := set n | n in names;
    forall m ensures Owns(c, m) <==> m in lost {
      if m in names {
        var i :| 0 <= i < |names| && names[i] == m;
        assert c.names[i] == m;
      }
      if i :| 0 <= i < c.got && c.names[i] == m { assert names[i] == m; }
    }
    AscendingDistinct(c.names);
    assert CallOk(c2) && forall m :: !Owns(c2, m) && !Queued(c, m) && !Queued(c2, m);
    assert Distinct(names);
    hide Inv, Owns, Queued, InvBut, CallOk;
    MoveCall(s, id, c2, lost);
    ReleaseAllInv(s.(calls := s.calls[id := c2]), names, lost);
    InvButNone(ReleaseAll(s.(calls := s.calls[id := c2]), names), lost - set n | n in names);
  }

  lemma StepInv(s: State, step: Step)
    requires Inv(s) && Enabled(s, step)
    ensures Inv(Apply(s, step))
  {
    match step
    case Begins(id, names) => BeginsInv(s, id, names);
    case Takes(id) => if s.calls[id].names[s.calls[id].got] in s.table { TakesQueuedInv(s, id); } else { TakesFreeInv(s, id); }
    case Wakes(id) => WakesInv(s, id);
    case Ends(id, timeout) =>
      if !s.calls[id].granted { EndsUngrantedInv(s, id, timeout); }
      else if timeout { EndsTimedOutInv(s, id); }
      else { EndsGrantedInv(s, id); }
    case LoopCloses(id) => LoopClosesInv(s, id);
    case Exits(id) => ExitsInv(s, id);
  }

  lemma {:induction false} RunInv(s: State, steps: seq<Step>, s': State)
    requires Inv(s) && Run(s, steps, s')
    ensures Inv(s')
    decreases |steps|
  {
    if steps != [] {
      StepInv(s, steps[0]);
      RunInv(Apply(s, steps[0]), steps[1..], s');
    }
  }
}
