/** What the local lock promises over every interleaving. */
module LocalLockTheorems {
  import opened Prelude
  import opened LocalLock
  import opened LocalLockInv

  lemma EmptyInv()
    ensures Inv(Empty)
  {
  }

  /** In every reachable state a name is in the table exactly while one call owns it; no two calls ever own the same name;
   and a call that has left owns nothing and is in no queue. */
  lemma Exclusion(steps: seq<Step>, s: State)
    requires Run(Empty, steps, s)
    ensures forall n :: n in s.table <==> exists c :: c in s.calls && Owns(s.calls[c], n)
    ensures forall c, d, n :: c in s.calls && d in s.calls && Owns(s.calls[c], n) && Owns(s.calls[d], n) ==> c == d
    ensures forall c, n :: c in s.calls && s.calls[c].stage == Left ==> !Owns(s.calls[c], n) && (n in s.table ==> c !in s.table[n])
  {
    EmptyInv();
    RunInv(Empty, steps, s);
    InvOf(s);
    forall n ensures n in s.table <==> exists c :: c in s.calls && Owns(s.calls[c], n) {
      assert Owned(s.calls, n) <==> exists c :: c in s.calls && Owns(s.calls[c], n);
    }
    forall c, n | c in s.calls && s.calls[c].stage == Left ensures !Owns(s.calls[c], n) && (n in s.table ==> c !in s.table[n]) {
      NotInQueues(s, c);
    }
  }

  // ---------------------------------------------------------------- first come, first served

  /** In the queue of n, c is before d. */
  ghost predicate Ahead(s: State, n: Name, c: Id, d: Id) {
    n in s.table && exists i, j :: 0 <= i < j < |s.table[n]| && s.table[n][i] == c && s.table[n][j] == d
  }

  ghost predicate WaitsFor(s: State, c: Id, n: Name) {
    c in s.calls && Queued(s.calls[c], n)
  }

  /** The call is through with the name: it has it, had it, or has given up. */
  ghost predicate Past(s: State, c: Id, n: Name) {
    c in s.calls && (s.calls[c].stage == Leaving || s.calls[c].stage == Left || Owns(s.calls[c], n))
  }

  ghost predicate GaveUp(s: State, d: Id, n: Name) {
    d in s.calls && (s.calls[d].stage == Leaving || s.calls[d].stage == Left) && !Owns(s.calls[d], n)
  }

  /** d is behind c for n, or has given up. */
  ghost predicate Behind(s: State, n: Name, c: Id, d: Id) {
    Ahead(s, n, c, d) || GaveUp(s, d, n)
  }

  /** What one step can do to the record of a call that exists. */
  ghost predicate Moved(c: Call, c': Call) {
    (c.gone ==> c'.gone) && Advanced(c, c')
  }

  ghost predicate Advanced(c: Call, c': Call) {
    || (c'.names == c.names && c'.got == c.got && c'.stage == c.stage && (c.granted ==> c'.granted))
    || (c'.names == c.names && c'.got == c.got && c.stage == Taking && c'.stage == Waiting && !c'.granted)
    || (c.got < |c.names| && (c.stage == Taking || (c.stage == Waiting && c.granted)) && c' == Acquired(c))
    || (c.stage == Waiting && c' == c.(stage := Leaving, granted := false))
    || ((c.stage == Inside || c.stage == Leaving) && c' == c.(stage := Left, got := 0))
  }

  ghost predicate OnlyGrants(calls: map<Id, Call>, calls': map<Id, Call>) {
    calls'.Keys == calls.Keys && forall c :: c in calls ==> calls'[c] == calls[c] || (Queuing(calls[c]) && calls'[c] == calls[c].(granted := true))
  }

  ghost predicate Queuing(c: Call) {
    c.stage == Waiting && !c.granted
  }

  lemma ReleaseOnlyGrants(s: State, n: Name)
    requires n in s.table && QueuesOk(s.table, s.calls)
    ensures OnlyGrants(s.calls, Release(s, n).calls)
  {
    FromFirst(s, s.table[n]);
    assert QueueOk(s.calls, s.table[n], n);
    var q := FromFirstAlive(s, s.table[n]);
    if q != [] { assert Queued(s.calls[q[0]], n); }
  }

  lemma {:induction false} ReleaseAllOnlyGrants(s: State, names: seq<Name>, extra: set<Name>)
    requires InvBut(s, extra) && Distinct(names) && forall n :: n in names ==> n in extra
    ensures OnlyGrants(s.calls, ReleaseAll(s, names).calls)
    decreases |names|
  {
    if names != [] {
      var k := |names| - 1;
      ReleaseOnlyGrants(s, names[k]);
      ReleaseInv(s, names[k], extra);
      LastApart(names, extra);
      ReleaseAllStep(s, names);
      hide *;
      ReleaseAllOnlyGrants(Release(s, names[k]), names[..k], extra - {names[k]});
      GrantsCompose(s.calls, Release(s, names[k]).calls, ReleaseAll(s, names).calls);
    }
  }

  lemma GrantsCompose(a: map<Id, Call>, b: map<Id, Call>, c: map<Id, Call>)
    requires OnlyGrants(a, b) && OnlyGrants(b, c)
    ensures OnlyGrants(a, c)
  {
  }

  lemma StepMoves(s: State, step: Step, c: Id)
    requires Inv(s) && Enabled(s, step) && c in s.calls
    ensures c in Apply(s, step).calls && Moved(s.calls[c], Apply(s, step).calls[c])
  {
    InvOf(s);
    match step
    case Begins(id, names) =>
    case Takes(id) =>
    case Wakes(id) =>
    case LoopCloses(id) =>
    case Ends(id, timeout) => EndMoves(s, id, timeout, c);
    case Exits(id) => ExitMoves(s, id, c);
  }

  lemma EndMoves(s: State, id: Id, timeout: bool, c: Id)
    requires Inv(s) && Enabled(s, Ends(id, timeout)) && c in s.calls
    ensures c in Apply(s, Ends(id, timeout)).calls && Moved(s.calls[c], Apply(s, Ends(id, timeout)).calls[c])
  {
    if s.calls[id].granted && !timeout {
      var mid := GrantedMid(s, id);
      GrantMoves(s.calls[c], mid.calls[c], mid.calls, Apply(s, Ends(id, timeout)).calls, c);
    }
  }

  lemma GrantMoves(was: Call, mid: Call, calls: map<Id, Call>, calls': map<Id, Call>, c: Id)
    requires c in calls && calls[c] == mid && OnlyGrants(calls, calls')
    requires mid == was || (was.stage == Waiting && mid == was.(stage := Leaving, granted := false))
          || ((was.stage == Inside || was.stage == Leaving) && mid == was.(stage := Left, got := 0))
    ensures c in calls' && Moved(was, calls'[c])
  {
  }

  lemma ExitMoves(s: State, id: Id, c: Id)
    requires Inv(s) && Enabled(s, Exits(id)) && c in s.calls
    ensures c in Apply(s, Exits(id)).calls && Moved(s.calls[c], Apply(s, Exits(id)).calls[c])
  {
    var names := s.calls[id].names[..s.calls[id].got];
    ExitMid(s, id);
    var mid, after := Mid(s, id), Apply(s, Exits(id));
    ReleaseAllOnlyGrants(mid, names, (set m | m in names));
    hide Inv, InvBut, ReleaseAll, Apply;
    GrantMoves(s.calls[c], mid.calls[c], mid.calls, after.calls, c);
  }

  /** The call has left; its names are not released yet. */
  ghost function Mid(s: State, id: Id): State
    requires id in s.calls
  {
    s.(calls := s.calls[id := s.calls[id].(stage := Left, got := 0)])
  }

  lemma ExitMid(s: State, id: Id)
    requires Inv(s) && Enabled(s, Exits(id))
    ensures var names := s.calls[id].names[..s.calls[id].got];
            InvBut(Mid(s, id), set n | n in names) && Distinct(names) && Apply(s, Exits(id)) == ReleaseAll(Mid(s, id), names)
  {
    var c := s.calls[id];
    var names := c.names[..c.got];
    var lost := set n | n in names;
    AscendingDistinct(c.names);
    forall m ensures Owns(c, m) <==> m in lost {
      if m in names {
        var i :| 0 <= i < |names| && names[i] == m;
        assert c.names[i] == m;
      }
      if i :| 0 <= i < c.got && c.names[i] == m { assert names[i] == m; }
    }
    MoveCall(s, id, c.(stage := Left, got := 0), lost);
  }

  lemma PastStays(s: State, step: Step, c: Id, n: Name)
    requires Inv(s) && Enabled(s, step) && Past(s, c, n)
    ensures Past(Apply(s, step), c, n)
  {
    StepMoves(s, step, c);
    InvOf(s);
    MovedPast(s.calls[c], Apply(s, step).calls[c], n);
  }

  lemma MovedPast(c: Call, c': Call, n: Name)
    requires CallOk(c) && Moved(c, c') && (c.stage == Leaving || c.stage == Left || Owns(c, n))
    ensures c'.stage == Leaving || c'.stage == Left || Owns(c', n)
  {
    if Owns(c, n) && c.got < |c.names| && !(c.stage == Waiting && !c.granted) && c' == Acquired(c) {
      AcquiredOwns(c);
    }
  }

  lemma PastIsNotWaiting(s: State, c: Id, n: Name)
    requires Inv(s) && Past(s, c, n)
    ensures !WaitsFor(s, c, n)
  {
    InvOf(s);
    AscendingDistinct(s.calls[c].names);
  }

  /** A call that waits for a name still waits for it, or is through with it. */
  lemma WaiterMoves(s: State, step: Step, c: Id, n: Name)
    requires Inv(s) && Enabled(s, step) && WaitsFor(s, c, n)
    ensures WaitsFor(Apply(s, step), c, n) || Past(Apply(s, step), c, n)
  {
    StepMoves(s, step, c);
  }

  lemma AheadWaits(s: State, n: Name, c: Id, d: Id)
    requires Inv(s) && Ahead(s, n, c, d)
    ensures WaitsFor(s, c, n) && WaitsFor(s, d, n) && c != d && !Owns(s.calls[d], n)
  {
    InvOf(s);
    assert QueueOk(s.calls, s.table[n], n);
    AscendingDistinct(s.calls[d].names);
  }

  // ---------------------------------------------------------------- how a wait ends

  /**
   The grant decides how a wait ends, not the reason: granted and timed out, the call has the name and goes on, and nothing
   else changes; in every other case it leaves with what it had before, and not with the name.
   */
  lemma GrantDecides(s: State, id: Id, timeout: bool)
    requires Inv(s) && Enabled(s, Ends(id, timeout))
    ensures var c, c' := s.calls[id], Apply(s, Ends(id, timeout)).calls[id];
            if c.granted && timeout then
              && c'.got == c.got + 1 && Owns(c', c.names[c.got]) && (c'.stage == Inside || c'.stage == Taking)
              && Apply(s, Ends(id, timeout)) == s.(calls := s.calls[id := c'])
            else
              c'.got == c.got && c'.stage == Leaving && !c'.granted && !Owns(c', c.names[c.got])
  {
    var c := s.calls[id];
    InvOf(s);
    CallNames(s, id);
    assert c.names[c.got] !in c.names[..c.got];
    hide Release, Without;
  }

  lemma CallNames(s: State, id: Id)
    requires Inv(s) && id in s.calls
    ensures Distinct(s.calls[id].names)
  {
    InvOf(s);
    AscendingDistinct(s.calls[id].names);
  }

  // ---------------------------------------------------------------- no step lets d pass c

  lemma ReleaseKeepsPlace(s: State, m: Name, n: Name, c: Id, d: Id)
    requires m in s.table && QueuesOk(s.table, s.calls) && Ahead(s, n, c, d)
    requires WaitsFor(Release(s, m), c, n) && Alive(s, c)
    ensures Ahead(Release(s, m), n, c, d) && Alive(Release(s, m), c)
  {
    hide *;
    if m == n {
      var i, j := AheadPlaces(s, n, c, d);
      var q := s.table[n];
      var k := ReleaseHands(s, n, i);
      NotHanded(s, n, c, k);
      DroppedKeepsOrder(q, q[k + 1..], k + 1, i, j);
      AheadAt(Release(s, n), n, c, d, i - k - 1, j - k - 1);
    } else {
      ReleasedElsewhere(s, m, n, c, d);
    }
  }

  lemma AheadPlaces(s: State, n: Name, c: Id, d: Id) returns (i: nat, j: nat)
    requires Ahead(s, n, c, d)
    ensures n in s.table && i < j < |s.table[n]| && s.table[n][i] == c && s.table[n][j] == d
  {
    i, j :| 0 <= i < j < |s.table[n]| && s.table[n][i] == c && s.table[n][j] == d;
  }

  lemma ReleasedElsewhere(s: State, m: Name, n: Name, c: Id, d: Id)
    requires m in s.table && m != n && Ahead(s, n, c, d) && Alive(s, c)
    ensures Ahead(Release(s, m), n, c, d) && Alive(Release(s, m), c)
  {
    var i, j := AheadPlaces(s, n, c, d);
    assert Release(s, m).table[n] == s.table[n];
  }

  /** With somebody alive at position i, the name goes to a live waiter at a position k up to i. */
  lemma ReleaseHands(s: State, n: Name, i: nat) returns (k: nat)
    requires n in s.table && i < |s.table[n]| && Alive(s, s.table[n][i])
    ensures k <= i && Release(s, n) == State(s.table[n := s.table[n][k + 1..]], Grant(s.calls, s.table[n][k]))
    ensures forall c :: Alive(Release(s, n), c) <==> Alive(s, c)
  {
    var q := s.table[n];
    var r := FromFirstAlive(s, q);
    FromFirst(s, q);
    k := |q| - |r|;
    assert i >= |q| - |r|;
    assert r[0] == q[k] && r[1..] == q[k + 1..];
  }

  /** A waiter that still waits has not been handed the name. */
  lemma NotHanded(s: State, n: Name, c: Id, k: nat)
    requires n in s.table && k < |s.table[n]| && Release(s, n).calls == Grant(s.calls, s.table[n][k]) && WaitsFor(Release(s, n), c, n)
    ensures s.table[n][k] != c
  {
  }

  lemma DroppedKeepsOrder(q: seq<Id>, rest: seq<Id>, k: nat, i: nat, j: nat)
    requires k <= i < j < |q| && rest == q[k..]
    ensures j - k < |rest| && rest[i - k] == q[i] && rest[j - k] == q[j]
  {
  }

  lemma AheadAt(s: State, n: Name, c: Id, d: Id, i: nat, j: nat)
    requires n in s.table && i < j < |s.table[n]| && s.table[n][i] == c && s.table[n][j] == d
    ensures Ahead(s, n, c, d)
  {
  }

  lemma {:induction false} ReleaseAllKeepsPlace(s: State, names: seq<Name>, extra: set<Name>, n: Name, c: Id, d: Id)
    requires InvBut(s, extra) && Distinct(names) && (forall n :: n in names ==> n in extra) && Ahead(s, n, c, d)
    requires WaitsFor(ReleaseAll(s, names), c, n) && Alive(s, c)
    ensures Ahead(ReleaseAll(s, names), n, c, d)
    decreases |names|
  {
    if names != [] {
      var k := |names| - 1;
      var mid := Release(s, names[k]);
      ReleaseInv(s, names[k], extra);
      assert QueuesOk(s.table, s.calls);
      LastApart(names, extra);
      ReleaseAllStep(s, names);
      ReleaseAllOnlyGrants(mid, names[..k], extra - {names[k]});
      assert WaitsFor(mid, c, n);
      hide InvBut, Ahead, Release, ReleaseAll, Distinct;
      ReleaseKeepsPlace(s, names[k], n, c, d);
      ReleaseAllKeepsPlace(mid, names[..k], extra - {names[k]}, n, c, d);
    }
  }

  lemma {:induction false} WithoutKeepsOrder(q: seq<Id>, id: Id, i: nat, j: nat)
    requires Distinct(q) && i < j < |q| && q[i] != id && q[j] != id
    ensures exists k, l :: 0 <= k < l < |Without(q, id)| && Without(q, id)[k] == q[i] && Without(q, id)[l] == q[j]
  {
    WithoutIs(q, id);
    if q[0] == id {
      assert Without(q, id)[i - 1] == q[i] && Without(q, id)[j - 1] == q[j];
    } else {
      var r := Without(q[1..], id);
      WithoutIs(q[1..], id);
      if i == 0 {
        assert q[1..][j - 1] == q[j] && q[j] in r;
        var l :| 0 <= l < |r| && r[l] == q[j];
        assert ([q[0]] + r)[0] == q[0] && ([q[0]] + r)[l + 1] == q[j];
      } else {
        WithoutKeepsOrder(q[1..], id, i - 1, j - 1);
        var k, l :| 0 <= k < l < |r| && r[k] == q[i] && r[l] == q[j];
        assert ([q[0]] + r)[k + 1] == q[i] && ([q[0]] + r)[l + 1] == q[j];
      }
    }
  }

  /** As long as c waits and its loop lives, whoever is behind it stays behind it or gives up. */
  lemma StepKeepsPlace(s: State, step: Step, n: Name, c: Id, d: Id)
    requires Inv(s) && Enabled(s, step) && Ahead(s, n, c, d) && WaitsFor(Apply(s, step), c, n) && Alive(Apply(s, step), c)
    ensures Behind(Apply(s, step), n, c, d)
  {
    AheadWaits(s, n, c, d);
    StepMoves(s, step, c);
    match step
    case Begins(id, names) =>
    case Wakes(id) =>
    case LoopCloses(id) =>
    case Takes(id) => TakeKeepsPlace(s, id, n, c, d);
    case Ends(id, timeout) => EndKeepsPlace(s, id, timeout, n, c, d);
    case Exits(id) =>
      ExitMid(s, id);
      var names := s.calls[id].names[..s.calls[id].got];
      assert Ahead(Mid(s, id), n, c, d);
      ReleaseAllKeepsPlace(Mid(s, id), names, (set m | m in names), n, c, d);
  }

  lemma TakeKeepsPlace(s: State, id: Id, n: Name, c: Id, d: Id)
    requires Inv(s) && Enabled(s, Takes(id)) && Ahead(s, n, c, d)
    ensures Ahead(Apply(s, Takes(id)), n, c, d)
  {
    var s' := Apply(s, Takes(id));
    var i, j :| 0 <= i < j < |s.table[n]| && s.table[n][i] == c && s.table[n][j] == d;
    assert s'.table[n][i] == c && s'.table[n][j] == d;
  }

  lemma EndKeepsPlace(s: State, id: Id, timeout: bool, n: Name, c: Id, d: Id)
    requires Inv(s) && Enabled(s, Ends(id, timeout)) && Ahead(s, n, c, d) && c in s.calls && Alive(s, c)
    requires WaitsFor(Apply(s, Ends(id, timeout)), c, n)
    ensures Behind(Apply(s, Ends(id, timeout)), n, c, d)
  {
    AheadWaits(s, n, c, d);
    if !s.calls[id].granted {
      EndUngrantedKeepsPlace(s, id, timeout, n, c, d);
    } else if timeout {
      assert Apply(s, Ends(id, timeout)).table == s.table;
    } else {
      EndGrantedKeepsPlace(s, id, n, c, d);
    }
  }

  lemma EndUngrantedKeepsPlace(s: State, id: Id, timeout: bool, n: Name, c: Id, d: Id)
    requires Inv(s) && Enabled(s, Ends(id, timeout)) && !s.calls[id].granted && Ahead(s, n, c, d)
    requires WaitsFor(Apply(s, Ends(id, timeout)), c, n)
    ensures Behind(Apply(s, Ends(id, timeout)), n, c, d)
  {
    hide CallsOk, TableOk, OneOwner, NobodyLost, Inv, Without, Ahead;
    var ended := s.calls[id].names[s.calls[id].got];
    var table := if ended in s.table && id in s.table[ended] then s.table[ended := Without(s.table[ended], id)] else s.table;
    EndedUngranted(s, id, timeout, table);
    AheadWaits(s, n, c, d);
    InvOf(s);
    CallNames(s, d);
    var i, j := AheadPlaces(s, n, c, d);
    assert id != c && QueueOk(s.calls, s.table[n], n);
    var s' := State(table, s.calls[id := s.calls[id].(stage := Leaving, granted := false)]);
    assert Apply(s, Ends(id, timeout)) == s';
    assert Queued(s.calls[d], n);
    if id == d {
      assert GaveUp(s', d, n);
    } else {
      hide *;
      LeavesKeepsOrder(s.table[n], table[n], id, i, j);
      BehindOf(s', n, c, d);
    }
  }

  lemma LeavesKeepsOrder(q: seq<Id>, r: seq<Id>, id: Id, i: nat, j: nat)
    requires Distinct(q) && i < j < |q| && q[i] != id && q[j] != id && (r == q || r == Without(q, id))
    ensures exists k, l :: 0 <= k < l < |r| && r[k] == q[i] && r[l] == q[j]
  {
    WithoutKeepsOrder(q, id, i, j);
  }

  lemma BehindOf(s: State, n: Name, c: Id, d: Id)
    requires n in s.table && exists k, l :: 0 <= k < l < |s.table[n]| && s.table[n][k] == c && s.table[n][l] == d
    ensures Behind(s, n, c, d)
  {
  }

  lemma EndGrantedKeepsPlace(s: State, id: Id, n: Name, c: Id, d: Id)
    requires Inv(s) && Enabled(s, Ends(id, false)) && s.calls[id].granted && Ahead(s, n, c, d) && Alive(s, c)
    requires WaitsFor(Apply(s, Ends(id, false)), c, n)
    ensures Behind(Apply(s, Ends(id, false)), n, c, d)
  {
    var ended := s.calls[id].names[s.calls[id].got];
    EndsGrantedInv(s, id);
    var mid := GrantedMid(s, id);
    assert Ahead(mid, n, c, d) && id != c by { AheadWaits(s, n, c, d); }
    hide *;
    ReleaseKeepsPlace(mid, ended, n, c, d);
    BehindIf(Release(mid, ended), n, c, d);
  }

  lemma BehindIf(s: State, n: Name, c: Id, d: Id)
    requires Ahead(s, n, c, d)
    ensures Behind(s, n, c, d)
  {
  }

  /** The cancelled call has given the name back; it is not handed on yet. */
  lemma GrantedMid(s: State, id: Id) returns (mid: State)
    requires Inv(s) && Enabled(s, Ends(id, false)) && s.calls[id].granted
    ensures var c := s.calls[id];
            && c.names[c.got] in s.table && mid == s.(calls := s.calls[id := c.(stage := Leaving, granted := false)])
            && QueuesOk(mid.table, mid.calls) && Apply(s, Ends(id, false)) == Release(mid, c.names[c.got])
            && OnlyGrants(mid.calls, Apply(s, Ends(id, false)).calls)
            && forall x :: x in s.calls && x != id ==> mid.calls[x] == s.calls[x] && (Alive(mid, x) <==> Alive(s, x))
  {
    var c := s.calls[id];
    var n := c.names[c.got];
    InvOf(s);
    EndsGrantedInv(s, id);
    mid := s.(calls := s.calls[id := c.(stage := Leaving, granted := false)]);
    assert Owns(c, n) && Owned(s.calls, n);
    QueuesUnmoved(s.table, s.calls, id, mid.calls[id]);
    hide Owned, Owns, NobodyLost, Inv;
    ReleaseOnlyGrants(mid, n);
  }

  lemma GaveUpStays(s: State, step: Step, d: Id, n: Name)
    requires Inv(s) && Enabled(s, step) && GaveUp(s, d, n)
    ensures GaveUp(Apply(s, step), d, n)
  {
    StepMoves(s, step, d);
  }

  /** Over any run: while a call waits for a name and its loop lives, nobody who queued for the name after it gets it. */
  lemma {:induction false} NobodyOvertakes(s: State, steps: seq<Step>, s': State, n: Name, c: Id, d: Id)
    requires Inv(s) && Run(s, steps, s') && Behind(s, n, c, d) && WaitsFor(s, c, n) && WaitsFor(s', c, n) && Alive(s', c)
    ensures Behind(s', n, c, d) && d in s'.calls && !Owns(s'.calls[d], n)
    decreases |steps|
  {
    if steps == [] {
      if Ahead(s, n, c, d) { AheadWaits(s, n, c, d); }
    } else {
      var mid := Apply(s, steps[0]);
      StepInv(s, steps[0]);
      WaiterMoves(s, steps[0], c, n);
      StillWaits(mid, steps[1..], s', c, n);
      StillAlive(mid, steps[1..], s', c);
      if Ahead(s, n, c, d) { StepKeepsPlace(s, steps[0], n, c, d); } else { GaveUpStays(s, steps[0], d, n); }
      NobodyOvertakes(mid, steps[1..], s', n, c, d);
    }
  }

  lemma {:induction false} StillWaits(s: State, steps: seq<Step>, s': State, c: Id, n: Name)
    requires Inv(s) && Run(s, steps, s') && WaitsFor(s', c, n)
    ensures !Past(s, c, n)
    decreases |steps|
  {
    if Past(s, c, n) {
      if steps == [] {
        PastIsNotWaiting(s, c, n);
      } else {
        PastStays(s, steps[0], c, n);
        StepInv(s, steps[0]);
        StillWaits(Apply(s, steps[0]), steps[1..], s', c, n);
      }
    }
  }

  lemma {:induction false} StillAlive(s: State, steps: seq<Step>, s': State, c: Id)
    requires Inv(s) && Run(s, steps, s') && c in s.calls && Alive(s', c)
    ensures Alive(s, c)
    decreases |steps|
  {
    if steps != [] {
      StepMoves(s, steps[0], c);
      StepInv(s, steps[0]);
      StillAlive(Apply(s, steps[0]), steps[1..], s', c);
    }
  }

  // ---------------------------------------------------------------- no deadlock

  /** c waits for a name that d owns. */
  ghost predicate Blocks(s: State, d: Id, c: Id, n: Name) {
    WaitsFor(s, c, n) && d in s.calls && Owns(s.calls[d], n)
  }

  /** A waiter whose loop lives waits for an owner. */
  lemma SomeoneOwns(s: State, c: Id, n: Name) returns (d: Id)
    requires Inv(s) && WaitsFor(s, c, n) && Alive(s, c)
    ensures Blocks(s, d, c, n)
  {
    InvOf(s);
    assert Owned(s.calls, n);
    d :| d in s.calls && Owns(s.calls[d], n);
  }

  /** Owners wait only for later names. */
  lemma OwnersWaitForLater(s: State, d: Id, n: Name, m: Name)
    requires Inv(s) && d in s.calls && Owns(s.calls[d], n) && WaitsFor(s, d, m)
    ensures Before(n, m)
  {
    InvOf(s);
  }

  /** The calls that wait for a name after n. */
  ghost function Later(s: State, n: Name): set<Id> {
    set c | c in s.calls && Queuing(s.calls[c]) && s.calls[c].got < |s.calls[c].names| && Before(n, s.calls[c].names[s.calls[c].got])
  }

  lemma FewerLater(s: State, d: Id, n: Name, m: Name)
    requires Before(n, m) && WaitsFor(s, d, m)
    ensures |Later(s, m)| < |Later(s, n)|
  {
    var a, b := Later(s, m), Later(s, n);
    assert a <= b && d in b && d !in a;
    assert b == a + (b - a) && d in b - a;
  }

  /** The chain: each next call owns the name that the one before waits for. */
  ghost predicate Chain(s: State, path: seq<Id>) {
    path != [] && forall i :: 0 <= i < |path| - 1 ==> Link(s, path[i], path[i + 1])
  }

  ghost predicate Link(s: State, c: Id, d: Id) {
    exists n :: Blocks(s, d, c, n)
  }

  /** From any live waiter the chain of owners ends at a call that does not wait, or whose loop is closed. */
  lemma {:induction false} EveryWaitEnds(s: State, c: Id, n: Name) returns (path: seq<Id>)
    requires Inv(s) && WaitsFor(s, c, n) && Alive(s, c)
    ensures Chain(s, path) && path[0] == c && path[|path| - 1] in s.calls
    ensures var last := s.calls[path[|path| - 1]]; last.gone || !Queuing(last)
    decreases |Later(s, n)|
  {
    var d := SomeoneOwns(s, c, n);
    assert Link(s, c, d);
    if Queuing(s.calls[d]) && !s.calls[d].gone {
      InvOf(s);
      var m := s.calls[d].names[s.calls[d].got];
      assert WaitsFor(s, d, m);
      OwnersWaitForLater(s, d, n, m);
      FewerLater(s, d, n, m);
      path := EveryWaitEnds(s, d, m);
    } else {
      path := [d];
    }
    var longer := [c] + path;
    forall i | 0 <= i < |longer| - 1 ensures Link(s, longer[i], longer[i + 1]) {
      assert i > 0 ==> Link(s, path[i - 1], path[i - 1 + 1]);
    }
    path := longer;
  }

  /** No chain of waiting calls closes into a cycle. */
  lemma {:induction false} NoDeadlock(s: State, path: seq<Id>, i: nat, j: nat, n: Name, m: Name)
    requires Inv(s) && Chain(s, path) && i < j < |path| && WaitsFor(s, path[i], n) && WaitsFor(s, path[j], m)
    ensures Before(n, m) && path[i] != path[j]
    decreases j
  {
    assert Link(s, path[j - 1], path[j - 1 + 1]);
    var k :| Blocks(s, path[j], path[j - 1], k);
    OwnersWaitForLater(s, path[j], k, m);
    if i < j - 1 {
      NoDeadlock(s, path, i, j - 1, n, k);
    }
  }
}
