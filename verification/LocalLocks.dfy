/** The functions of transfer_queue/kv_lock.py that change the process-wide table under _state_lock, as they run. */
module LocalLocks {
  import opened Prelude
  import opened LocalLock
  import I = LocalLockInv
  import Th = LocalLockTheorems

  class LocalTable {
    var table: map<Name, seq<Id>>
    /** The calls in progress, with what the waiter of each says. */
    var calls: map<Id, Call>

    function View(): State
      reads this
    {
      State(table, calls)
    }

    constructor ()
      ensures View() == Empty
    {
      table, calls := map[], map[];
    }

    method TakeOrQueue(id: Id) returns (taken: bool)
      requires id in calls && calls[id].got < |calls[id].names|
      modifies this
      ensures View() == Take(old(View()), id) && (taken <==> old(calls[id].names[calls[id].got] !in table))
    {
      var c := calls[id];
      var name := c.names[c.got];
      if name in table {
        table := table[name := table[name] + [id]];
        calls := calls[id := c.(stage := Waiting, granted := false)];
        return false;
      }
      table := table[name := []];
      calls := calls[id := Acquired(c)];
      taken := true;
    }

    /** Pops waiters until one can be woken. */
    method ReleaseName(name: Name)
      requires name in table
      modifies this
      ensures View() == Release(old(View()), name)
    {
      var waiters := table[name];
      while waiters != []
        invariant View() == old(View()) && FromFirstAlive(View(), waiters) == FromFirstAlive(View(), table[name])
        decreases |waiters|
      {
        var waiter := waiters[0];
        waiters := waiters[1..];
        if waiter in calls && !calls[waiter].gone {
          calls := calls[waiter := calls[waiter].(granted := true)];
          table := table[name := waiters];
          return;
        }
      }
      table := table - {name};
    }

    /** Whether the call whose wait has ended owns the name; the grant decides, not the reason. */
    method SettleWait(id: Id, name: Name, keepGrant: bool) returns (owns: bool)
      requires id in calls && (calls[id].granted && !keepGrant ==> name in table)
      modifies this
      ensures (View(), owns) == Settle(old(View()), id, name, keepGrant)
    {
      if !calls[id].granted {
        if name in table && id in table[name] {
          table := table[name := Without(table[name], id)];
        }
        return false;
      }
      if !keepGrant {
        ReleaseName(name);
      }
      owns := keepGrant;
    }

    /** The names of a call that leaves, in reverse. */
    method ReleaseNames(names: seq<Name>)
      requires Held(View(), names)
      modifies this
      ensures View() == ReleaseAll(old(View()), names)
    {
      var i := |names|;
      assert names[..i] == names;
      while i > 0
        invariant 0 <= i <= |names| && Held(View(), names[..i])
        invariant ReleaseAll(View(), names[..i]) == ReleaseAll(old(View()), names)
      {
        i := i - 1;
        assert names[..i + 1][..i] == names[..i];
        ReleaseName(names[i]);
      }
    }
  }

  /** Each of the names is in the table when its turn comes. */
  ghost predicate Held(s: State, names: seq<Name>)
    decreases |names|
  {
    names == [] || (names[|names| - 1] in s.table && Held(Release(s, names[|names| - 1]), names[..|names| - 1]))
  }

  lemma {:induction false} HeldNames(s: State, names: seq<Name>, extra: set<Name>)
    requires I.InvBut(s, extra) && Distinct(names) && forall n :: n in names ==> n in extra
    ensures Held(s, names)
    decreases |names|
  {
    if names != [] {
      var k := |names| - 1;
      I.ReleaseInv(s, names[k], extra);
      I.LastApart(names, extra);
      hide I.InvBut;
      HeldNames(Release(s, names[k]), names[..k], extra - {names[k]});
    }
  }

  /** A call that leaves finds every name it acquired in the table. */
  lemma ExitFindsItsNames(s: State, id: Id)
    requires Inv(s) && Enabled(s, Exits(id))
    ensures Held(Th.Mid(s, id), s.calls[id].names[..s.calls[id].got])
  {
    var names := s.calls[id].names[..s.calls[id].got];
    Th.ExitMid(s, id);
    HeldNames(Th.Mid(s, id), names, set n | n in names);
  }
}
