/**
 The lock actor as the source writes it: one object whose methods change its tables step by step. Each method
 is proved to compute the step of LockTable on the object's view, and every call of the actor keeps its invariant.
 The heap and the insertion-ordered dict are library structures, used through Push, Prune and Entomb.
 */
module LockManager {
  import opened Prelude
  import T = LockTable
  import R = LockRuns
  import A = LockAnswers

  class TransferQueueLockManager {
    const numShards: nat
    const maxParked: nat
    var parked: nat
    var holder: map<T.Name, T.Token>
    var leases: map<T.Token, T.Lease>
    var expiries: seq<T.Entry>
    var timerAt: Option<real>
    var queues: map<T.Name, seq<T.Token>>
    var waiting: map<T.Token, T.Waiter>
    var withdrawn: seq<T.Tombstone>
    var calls: map<nat, T.Call>
    var nextCall: nat
    var nextWaiter: nat

    ghost function View(): T.State
      reads this
    {
      T.State(numShards, maxParked, parked, holder, leases, expiries, timerAt, queues, waiting, withdrawn, calls, nextCall, nextWaiter)
    }

    /** What every call finds and leaves: the run invariant, at the instant of the call. */
    ghost predicate Valid(now: real)
      reads this
    {
      R.Inv(View(), now)
    }

    constructor (numShards: nat, maxWaitingAcquires: nat)
      ensures View() == T.Initial(numShards, maxWaitingAcquires)
      ensures forall now :: Valid(now)
    {
      forall now ensures R.Inv(T.Initial(numShards, maxWaitingAcquires), now) {
        R.InitialInv(numShards, maxWaitingAcquires, now);
      }
      this.numShards, maxParked, parked := numShards, maxWaitingAcquires, 0;
      holder, leases, expiries, timerAt := map[], map[], [], None;
      queues, waiting, withdrawn := map[], map[], [];
      calls, nextCall, nextWaiter := map[], 0, 0;
    }

    /** The loops of _grant, _free and acquire over the names of one request. */
    method Hold(names: seq<T.Name>, token: T.Token)
      modifies `holder
      ensures holder == old(holder) + map n | n in names :: token
    {
      for i := 0 to |names|
        invariant holder == old(holder) + map n | n in names[..i] :: token
      {
        assert names[..i + 1] == names[..i] + [names[i]];
        holder := holder[names[i] := token];
      }
      assert names[..|names|] == names;
    }

    method Unhold(names: seq<T.Name>)
      modifies `holder
      ensures holder == map n | n in old(holder) && n !in names :: old(holder)[n]
    {
      for i := 0 to |names|
        invariant holder == map n | n in old(holder) && n !in names[..i] :: old(holder)[n]
      {
        assert names[..i + 1] == names[..i] + [names[i]];
        holder := holder - {names[i]};
      }
      assert names[..|names|] == names;
    }

    method JoinQueues(names: seq<T.Name>, token: T.Token)
      requires Distinct(names)
      modifies `queues
      ensures queues == T.JoinAll(old(queues), names, token)
    {
      for i := 0 to |names|
        invariant queues == T.JoinAll(old(queues), names[..i], token)
      {
        JoinOneMore(old(queues), names, i, token);
        queues := queues[names[i] := (if names[i] in queues then queues[names[i]] else []) + [token]];
      }
      assert names[..|names|] == names;
    }

    static lemma JoinOneMore(queues: map<T.Name, seq<T.Token>>, names: seq<T.Name>, i: nat, token: T.Token)
      requires Distinct(names) && i < |names|
      ensures var q := T.JoinAll(queues, names[..i], token);
              q[names[i] := T.Queue(q, names[i]) + [token]] == T.JoinAll(queues, names[..i + 1], token)
    {
      assert names[i] !in names[..i];
      assert names[..i + 1] == names[..i] + [names[i]];
      JoinFresh(queues, names[..i], names[i], token);
    }

    static lemma JoinFresh(queues: map<T.Name, seq<T.Token>>, names: seq<T.Name>, name: T.Name, token: T.Token)
      requires name !in names
      ensures var q := T.JoinAll(queues, names, token);
              q[name := T.Queue(q, name) + [token]] == T.JoinAll(queues, names + [name], token)
    {
      hide T.JoinAll;
      var q, more := T.JoinAll(queues, names, token), T.JoinAll(queues, names + [name], token);
      var joined := q[name := T.Queue(q, name) + [token]];
      forall n
        ensures n in joined <==> n in more
        ensures n in more ==> joined[n] == more[n]
      {
        JoinedAt(queues, names, token, n);
        JoinedAt(queues, names + [name], token, n);
      }
      assert joined == more;
    }

    static lemma JoinedAt(queues: map<T.Name, seq<T.Token>>, names: seq<T.Name>, token: T.Token, n: T.Name)
      ensures var q := T.JoinAll(queues, names, token);
              && (n in q <==> n in queues || n in names)
              && T.Queue(q, n) == T.Queue(queues, n) + if n in names then [token] else []
    {
    }

    method Grant(token: T.Token, names: seq<T.Name>, leaseS: real, now: real)
      modifies this
      ensures View() == T.Grant(old(View()), token, names, leaseS, now)
    {
      Hold(names, token);
      leases := leases[token := T.Lease(names, leaseS, now + leaseS, now)];
      expiries := T.Push(expiries, T.Entry(now + leaseS, token));
      if timerAt.None? || now + leaseS < timerAt.value {
        timerAt := Some(now + leaseS);
      }
    }

    method LeaveQueues(token: T.Token) returns (waiter: T.Waiter)
      requires T.Tables(View()) && token in waiting
      modifies this
      ensures waiter == old(waiting[token]) && View() == T.Leave(old(View()), token)
    {
      hide T.Tables, T.LeaveAll, T.Remove;
      waiter := waiting[token];
      var names := waiter.names;
      NamesQueued(View(), token);
      waiting := waiting - {token};
      for i := 0 to |names|
        invariant View() == old(View()).(waiting := old(waiting) - {token}, queues := T.LeaveAll(old(queues), names[..i], token))
      {
        assert names[i] !in names[..i];
        LeaveOneMore(old(queues), names, i, token);
        var rest := T.Remove(queues[names[i]], token);
        queues := if rest == [] then queues - {names[i]} else queues[names[i] := rest];
      }
      assert names[..|names|] == names;
    }

    static lemma NamesQueued(s: T.State, token: T.Token)
      requires T.Tables(s) && token in s.waiting
      ensures Distinct(s.waiting[token].names) && forall n :: n in s.waiting[token].names ==> n in s.queues
      ensures T.LeaveAll(s.queues, [], token) == s.queues
    {
    }

    static lemma LeaveOneMore(queues: map<T.Name, seq<T.Token>>, names: seq<T.Name>, i: nat, token: T.Token)
      requires i < |names| && names[i] in queues && names[i] !in names[..i]
      ensures names[i] in T.LeaveAll(queues, names[..i], token)
      ensures T.LeaveOne(T.LeaveAll(queues, names[..i], token), names[i], token) == T.LeaveAll(queues, names[..i + 1], token)
    {
      assert names[..i + 1] == names[..i] + [names[i]];
    }

    method HandOff(names: seq<T.Name>, now: real)
      requires T.Tables(View())
      modifies this
      ensures T.Tables(View()) && View() == T.HandOff(old(View()), names, now)
    {
      var work := names;
      while work != []
        invariant T.Tables(View())
        invariant T.HandOff(View(), work, now) == T.HandOff(old(View()), names, now)
        decreases |waiting|, |work|
      {
        var name := work[|work| - 1];
        work := work[..|work| - 1];
        if name in holder || name !in queues { continue; }
        assert T.QueueOk(queues[name], name, waiting);
        var token := queues[name][0];
        var waiter := waiting[token];
        ghost var before := View();
        if waiter.calls == 0 && now - waiter.seen > T.ABANDONED_S {
          T.LeaveTables(before, token);
          waiter := LeaveQueues(token);
          work := work + waiter.names;
        } else if T.Heads(holder, queues, waiter.names, token) {
          T.GrantWaiterTables(before, token, now);
          waiter := LeaveQueues(token);
          Grant(token, waiter.names, waiter.leaseS, now);
        }
      }
    }

    method FreeToken(token: T.Token, now: real) returns (freed: bool)
      requires T.Tables(View())
      modifies this
      ensures freed == (token in old(leases))
      ensures T.Tables(View()) && View() == T.Free(old(View()), token, now)
    {
      if token !in leases { return false; }
      var names := leases[token].names;
      T.UnholdTables(View(), token);
      leases := leases - {token};
      Unhold(names);
      HandOff(names, now);
      return true;
    }

    method Expire(now: real)
      requires Valid(now)
      modifies this
      ensures Valid(now) && View() == T.Expire(old(View()), now)
      ensures forall t :: t in leases ==> leases[t].expiresAt > now
      ensures timerAt == if expiries == [] then None else Some(expiries[0].at)
    {
      hide R.Inv;
      R.TablesOf(View(), now);
      R.ExpireInv(View(), now);
      PopDue(now);
      timerAt := None;
      if expiries != [] {
        timerAt := Some(expiries[0].at);
      }
    }

    /** The pop loop of _expire. */
    method PopDue(now: real)
      requires T.Tables(View())
      modifies this
      ensures View() == T.ExpireDue(old(View()), now)
    {
      while expiries != [] && expiries[0].at <= now
        invariant T.Tables(View())
        invariant T.ExpireDue(View(), now) == T.ExpireDue(old(View()), now)
        decreases T.DueCount(expiries, now)
      {
        var e := expiries[0];
        expiries := expiries[1..];
        if e.token in leases && leases[e.token].expiresAt == e.at {
          T.FreeDueCount(View(), e.token, now);
          var _ := FreeToken(e.token, now);
        }
      }
    }

    /** acquire up to its await. */
    method Acquire(names: seq<T.Name>, token: T.Token, leaseS: real, numShards: nat, now: real) returns (entered: T.Entered)
      requires Valid(now) && T.Request(names, leaseS)
      modifies this
      ensures Valid(now) && (View(), entered) == T.Enter(old(View()), names, token, leaseS, numShards, now)
      ensures numShards != this.numShards ==> entered == T.WrongShardCount && View() == old(View())
      ensures entered.WrongShardCount? ==> numShards != this.numShards
      ensures A.Decided(old(View()), View(), names, token, leaseS, numShards, now, entered)
    {
      hide R.Inv, A.Served;
      A.EnterDecides(View(), names, token, leaseS, numShards, now);
      R.EnterInv(View(), names, token, leaseS, numShards, now);
      if numShards != this.numShards { return T.WrongShardCount; }
      if exists i :: 0 <= i < |withdrawn| && withdrawn[i].token == token { return T.Answered(None); }
      Admit(names, token, leaseS, now);
      if token in waiting {
        entered := Suspend(token);
      } else {
        entered := T.Answered(if token in leases then Some(leases[token].expiresAt - now) else None);
      }
    }

    method Admit(names: seq<T.Name>, token: T.Token, leaseS: real, now: real)
      requires T.Request(names, leaseS)
      modifies this
      ensures View() == T.Admit(old(View()), names, token, leaseS, now)
    {
      hide T.Grant, T.JoinAll, T.Tables;
      if token !in leases && token !in waiting {
        if !exists n :: n in names && (n in holder || n in queues) {
          assert forall n :: n in names ==> !T.Busy(View(), n);
          Grant(token, names, leaseS, now);
        } else {
          assert exists n :: n in names && T.Busy(View(), n);
          waiting := waiting[token := T.Waiter(nextWaiter, names, leaseS, 0, now)];
          nextWaiter := nextWaiter + 1;
          JoinQueues(names, token);
        }
      }
    }

    method Suspend(token: T.Token) returns (entered: T.Entered)
      requires token in waiting
      modifies this
      ensures View() == T.Park(old(View()), token)
      ensures entered == T.Suspended(old(nextCall), old(parked) < maxParked)
    {
      var mayWait := parked < maxParked;
      waiting := waiting[token := waiting[token].(calls := waiting[token].calls + 1)];
      parked := parked + 1;
      calls := calls[nextCall := T.Call(token, waiting[token].id)];
      nextCall := nextCall + 1;
      entered := T.Suspended(nextCall - 1, mayWait);
    }

    /** acquire from its await on. */
    method Resume(call: nat, now: real) returns (remaining: Option<real>)
      requires Valid(now) && call in calls
      modifies this
      ensures Valid(now) && (View(), remaining) == T.Resume(old(View()), call, now)
      ensures A.Ended(old(View()), View(), call, now, remaining)
    {
      hide R.Inv, A.Ended;
      A.ResumeEnds(View(), call, now);
      R.ResumeInv(View(), call, now);
      Counted(View(), call, now);
      var c := calls[call];
      calls := calls - {call};
      if c.token in waiting && waiting[c.token].id == c.waiter {
        waiting := waiting[c.token := waiting[c.token].(calls := waiting[c.token].calls - 1, seen := now)];
      }
      parked := parked - 1;
      remaining := if c.token in leases then Some(leases[c.token].expiresAt - now) else None;
    }

    static lemma Counted(s: T.State, call: nat, now: real)
      requires R.Inv(s, now) && call in s.calls
      ensures s.parked > 0
      ensures var t := s.calls[call].token; t in s.waiting && s.waiting[t].id == s.calls[call].waiter ==> s.waiting[t].calls > 0
    {
      R.CallCounted(s, call);
    }

    method RenewMany(tokens: seq<T.Token>, now: real) returns (alive: map<T.Token, bool>)
      requires Valid(now)
      modifies this
      ensures Valid(now) && (View(), alive) == T.RenewMany(old(View()), tokens, now)
    {
      hide R.Inv;
      R.RenewManyInv(View(), tokens, now);
      alive := map[];
      for i := 0 to |tokens|
        invariant (View(), alive) == T.RenewMany(old(View()), tokens[..i], now)
      {
        var token := tokens[i];
        assert tokens[..i + 1][..i] == tokens[..i];
        alive := alive[token := token in leases && leases[token].expiresAt > now];
        if token in leases && alive[token] {
          leases := leases[token := leases[token].(expiresAt := now + leases[token].leaseS)];
          expiries := T.Push(expiries, T.Entry(leases[token].expiresAt, token));
        }
      }
      assert tokens[..|tokens|] == tokens;
    }

    method Release(token: T.Token, now: real)
      requires Valid(now)
      modifies this
      ensures Valid(now) && View() == T.Release(old(View()), token, now)
    {
      hide R.Inv, T.HandOff, T.LeaveAll, T.Entomb, T.Unhold;
      R.TablesOf(View(), now);
      R.ReleaseInv(View(), token, now);
      var freed := FreeToken(token, now);
      if freed { return; }
      if token in waiting {
        T.LeaveTables(View(), token);
        var waiter := LeaveQueues(token);
        HandOff(waiter.names, now);
      }
      ghost var s1 := View();
      while withdrawn != []
        invariant View() == s1.(withdrawn := withdrawn)
        invariant T.Prune(withdrawn, now) == T.Prune(s1.withdrawn, now)
        decreases |withdrawn|
      {
        if withdrawn[0].until > now { break; }
        withdrawn := withdrawn[1..];
      }
      withdrawn := T.Entomb(withdrawn, token, now + T.WITHDRAWN_TTL_S);
    }
  }
}
