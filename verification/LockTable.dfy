/**
 The state of one lock actor (transfer_queue/lock_manager.py) as a value, and what each atomic step of
 the actor does to it. The class in LockManager.dfy is proved to compute exactly these functions, and the
 protocol in LeaseProtocol.dfy runs them against clients and delayed messages.

 One atomic step (the code between two awaits) takes place at one instant `now`.
 */
module LockTable {
  import opened Prelude

  /** A lock name: the pair of partition id and key. */
  datatype Name = Name(partition: string, key: string)

  /** Caller-made unique request ids; the source uses strings, of which only the order is used. */
  type Token = nat

  datatype Lease = Lease(names: seq<Name>, leaseS: real, expiresAt: real, grantedAt: real)

  /** A queued request. `id` is the identity of the record; records are created in arrival order. */
  datatype Waiter = Waiter(id: nat, names: seq<Name>, leaseS: real, calls: nat, seen: real)

  /** An acquire call suspended inside the actor, with the waiter record it holds on to. */
  datatype Call = Call(token: Token, waiter: nat)

  /** One heap entry; the heap orders entries by time and then token. */
  datatype Entry = Entry(at: real, token: Token)

  datatype Tombstone = Tombstone(token: Token, until: real)

  datatype State = State(
    numShards: nat,
    maxParked: nat,
    parked: nat,
    holder: map<Name, Token>,
    leases: map<Token, Lease>,
    expiries: seq<Entry>,         // the heap, listed in the order in which it pops
    timerAt: Option<real>,        // None: no timer armed (infinity in the source)
    queues: map<Name, seq<Token>>,
    waiting: map<Token, Waiter>,
    withdrawn: seq<Tombstone>,    // a dict in insertion order
    calls: map<nat, Call>,        // the event loop's suspended acquire calls
    nextCall: nat,
    nextWaiter: nat)

  /** What an acquire call does before its await: it may raise, answer, or be suspended. */
  datatype Entered = WrongShardCount | Answered(remaining: Option<real>) | Suspended(call: nat, mayWait: bool)

  const WITHDRAWN_TTL_S: real := 300.0
  const ABANDONED_S: real := 10.0

  function Initial(numShards: nat, maxParked: nat): State {
    State(numShards, maxParked, 0, map[], map[], [], None, map[], map[], [], map[], 0, 0)
  }

  // ---------------------------------------------------------------- the expiry heap

  predicate Before(e: Entry, f: Entry) {
    e.at < f.at || (e.at == f.at && e.token <= f.token)
  }

  function Push(heap: seq<Entry>, e: Entry): seq<Entry> {
    if heap == [] || Before(e, heap[0]) then [e] + heap else [heap[0]] + Push(heap[1..], e)
  }

  predicate Due(heap: seq<Entry>, now: real) {
    heap != [] && heap[0].at <= now
  }

  /** The number of leading entries that are due at `now`. */
  ghost function DueCount(heap: seq<Entry>, now: real): nat {
    if Due(heap, now) then 1 + DueCount(heap[1..], now) else 0
  }

  // ---------------------------------------------------------------- granting and queueing

  function Grant(s: State, token: Token, names: seq<Name>, leaseS: real, now: real): State {
    s.(holder := s.holder + map n | n in names :: token,
       leases := s.leases[token := Lease(names, leaseS, now + leaseS, now)],
       expiries := Push(s.expiries, Entry(now + leaseS, token)),
       timerAt := if s.timerAt.None? || now + leaseS < s.timerAt.value then Some(now + leaseS) else s.timerAt)
  }

  /** list.remove: drop the first occurrence. */
  function Remove(q: seq<Token>, token: Token): seq<Token> {
    if q == [] then [] else if q[0] == token then q[1..] else [q[0]] + Remove(q[1..], token)
  }

  function LeaveOne(queues: map<Name, seq<Token>>, name: Name, token: Token): map<Name, seq<Token>>
    requires name in queues
  {
    var rest := Remove(queues[name], token);
    if rest == [] then queues - {name} else queues[name := rest]
  }

  function LeaveAll(queues: map<Name, seq<Token>>, names: seq<Name>, token: Token): map<Name, seq<Token>> {
    map n | n in queues && (n !in names || Remove(queues[n], token) != [])
      :: if n in names then Remove(queues[n], token) else queues[n]
  }

  function Leave(s: State, token: Token): State
    requires token in s.waiting
  {
    s.(waiting := s.waiting - {token}, queues := LeaveAll(s.queues, s.waiting[token].names, token))
  }

  function Queue(queues: map<Name, seq<Token>>, name: Name): seq<Token> {
    if name in queues then queues[name] else []
  }

  function JoinAll(queues: map<Name, seq<Token>>, names: seq<Name>, token: Token): map<Name, seq<Token>> {
    queues + map n | n in names :: Queue(queues, n) + [token]
  }

  function Enqueue(s: State, token: Token, names: seq<Name>, leaseS: real, now: real): State {
    s.(waiting := s.waiting[token := Waiter(s.nextWaiter, names, leaseS, 0, now)],
       queues := JoinAll(s.queues, names, token),
       nextWaiter := s.nextWaiter + 1)
  }

  predicate Busy(s: State, name: Name) {
    name in s.holder || name in s.queues
  }

  // ---------------------------------------------------------------- consistency of the tables

  ghost predicate Request(names: seq<Name>, leaseS: real) {
    names != [] && Distinct(names) && leaseS > 0.0
  }

  /** `holder` and `leases` describe one relation. */
  ghost predicate HoldersOk(holder: map<Name, Token>, leases: map<Token, Lease>) {
    && (forall t :: t in leases ==> Request(leases[t].names, leases[t].leaseS))
    && (forall n :: n in holder ==> holder[n] in leases && n in leases[holder[n]].names)
    && (forall t, n :: t in leases && n in leases[t].names ==> n in holder && holder[n] == t)
  }

  ghost predicate WaitersOk(waiting: map<Token, Waiter>, nextWaiter: nat) {
    && (forall t :: t in waiting ==> Request(waiting[t].names, waiting[t].leaseS) && waiting[t].id < nextWaiter)
    && (forall t, u :: t in waiting && u in waiting && waiting[t].id == waiting[u].id ==> t == u)
  }

  /** One queue: not empty, of waiters that asked for the name, in arrival order. */
  ghost predicate QueueOk(q: seq<Token>, name: Name, waiting: map<Token, Waiter>) {
    && q != []
    && (forall i :: 0 <= i < |q| ==> q[i] in waiting && name in waiting[q[i]].names)
    && InOrder(q, waiting)
  }

  ghost predicate InOrder(q: seq<Token>, waiting: map<Token, Waiter>) {
    forall i, j :: 0 <= i < j < |q| ==> q[i] in waiting && q[j] in waiting && waiting[q[i]].id < waiting[q[j]].id
  }

  /** `queues` and `waiting` describe one relation, and every queue is in the one arrival order. */
  ghost predicate QueuesOk(queues: map<Name, seq<Token>>, waiting: map<Token, Waiter>) {
    && (forall n :: n in queues ==> QueueOk(queues[n], n, waiting))
    && (forall t, n :: t in waiting && n in waiting[t].names ==> n in queues && t in queues[n])
  }

  ghost predicate Tables(s: State) {
    && HoldersOk(s.holder, s.leases)
    && WaitersOk(s.waiting, s.nextWaiter)
    && QueuesOk(s.queues, s.waiting)
    && s.leases.Keys !! s.waiting.Keys
  }

  // ---------------------------------------------------------------- hand-off

  predicate Abandoned(w: Waiter, now: real) {
    w.calls == 0 && now - w.seen > ABANDONED_S
  }

  /** Every one of the names is free, and the token heads its queue. */
  predicate Heads(holder: map<Name, Token>, queues: map<Name, seq<Token>>, names: seq<Name>, token: Token) {
    forall n :: n in names ==> n !in holder && n in queues && queues[n] != [] && queues[n][0] == token
  }

  predicate Grantable(s: State, token: Token) {
    token in s.waiting && Heads(s.holder, s.queues, s.waiting[token].names, token)
  }

  function GrantWaiter(s: State, token: Token, now: real): State
    requires token in s.waiting
  {
    Grant(Leave(s, token), token, s.waiting[token].names, s.waiting[token].leaseS, now)
  }

  /** The worklist loop: the last name is popped first. */
  function HandOff(s: State, names: seq<Name>, now: real): State
    requires Tables(s)
    decreases |s.waiting|, |names|
  {
    if names == [] then s else
      var name, rest := names[|names| - 1], names[..|names| - 1];
      if name in s.holder || name !in s.queues then HandOff(s, rest, now) else
        assert QueueOk(s.queues[name], name, s.waiting);
        var token := s.queues[name][0];
        var w := s.waiting[token];
        if Abandoned(w, now) then
          LeaveTables(s, token);
          HandOff(Leave(s, token), rest + w.names, now)
        else if Grantable(s, token) then
          GrantWaiterTables(s, token, now);
          HandOff(GrantWaiter(s, token, now), rest, now)
        else
          HandOff(s, rest, now)
  }

  function Unhold(s: State, token: Token): State
    requires token in s.leases
  {
    s.(leases := s.leases - {token}, holder := map n | n in s.holder && n !in s.leases[token].names :: s.holder[n])
  }

  function Free(s: State, token: Token, now: real): State
    requires Tables(s)
  {
    if token in s.leases then
      UnholdTables(s, token);
      HandOff(Unhold(s, token), s.leases[token].names, now)
    else s
  }

  // ---------------------------------------------------------------- the actor's steps

  predicate Current(s: State, e: Entry) {
    e.token in s.leases && s.leases[e.token].expiresAt == e.at
  }

  /** The pop loop of _expire. */
  function ExpireDue(s: State, now: real): State
    requires Tables(s)
    decreases DueCount(s.expiries, now)
  {
    if !Due(s.expiries, now) then s else
      var e := s.expiries[0];
      var popped := s.(expiries := s.expiries[1..]);
      if Current(popped, e) then
        FreeTables(popped, e.token, now);
        FreeDueCount(popped, e.token, now);
        ExpireDue(Free(popped, e.token, now), now)
      else
        ExpireDue(popped, now)
  }

  function Rearm(s: State): State {
    s.(timerAt := if s.expiries == [] then None else Some(s.expiries[0].at))
  }

  function Expire(s: State, now: real): State
    requires Tables(s)
  {
    Rearm(ExpireDue(s, now))
  }

  predicate IsWithdrawn(s: State, token: Token) {
    exists i :: 0 <= i < |s.withdrawn| && s.withdrawn[i].token == token
  }

  function Remaining(s: State, token: Token, now: real): Option<real> {
    if token in s.leases then Some(s.leases[token].expiresAt - now) else None
  }

  /** A token that neither holds nor waits is granted at once or queued. */
  function Admit(s: State, names: seq<Name>, token: Token, leaseS: real, now: real): State {
    if token in s.leases || token in s.waiting then s
    else if exists n :: n in names && Busy(s, n) then Enqueue(s, token, names, leaseS, now)
    else Grant(s, token, names, leaseS, now)
  }

  /** A still waiting token's call is suspended; with all slots taken it may not wait. */
  function Park(s: State, token: Token): State
    requires token in s.waiting
  {
    var w := s.waiting[token];
    s.(waiting := s.waiting[token := w.(calls := w.calls + 1)], parked := s.parked + 1,
       calls := s.calls[s.nextCall := Call(token, w.id)], nextCall := s.nextCall + 1)
  }

  /** acquire up to its await. */
  function Enter(s: State, names: seq<Name>, token: Token, leaseS: real, numShards: nat, now: real): (State, Entered) {
    if numShards != s.numShards then (s, WrongShardCount)
    else if IsWithdrawn(s, token) then (s, Answered(None))
    else
      var s1 := Admit(s, names, token, leaseS, now);
      if token in s1.waiting then (Park(s1, token), Suspended(s1.nextCall, s1.parked < s1.maxParked))
      else (s1, Answered(Remaining(s1, token, now)))
  }

  function Unpark(s: State, call: nat, now: real): State
    requires call in s.calls
  {
    var c := s.calls[call];
    var s1 := s.(calls := s.calls - {call}, parked := if s.parked > 0 then s.parked - 1 else 0);
    if c.token in s.waiting && s.waiting[c.token].id == c.waiter then
      var w := s.waiting[c.token];
      s1.(waiting := s.waiting[c.token := w.(calls := if w.calls > 0 then w.calls - 1 else 0, seen := now)])
    else s1
  }

  /** acquire from its await on: woken by its grant or withdrawal, or timed out. */
  function Resume(s: State, call: nat, now: real): (State, Option<real>)
    requires call in s.calls
  {
    var s1 := Unpark(s, call, now);
    (s1, Remaining(s1, s.calls[call].token, now))
  }

  predicate Alive(s: State, token: Token, now: real) {
    token in s.leases && s.leases[token].expiresAt > now
  }

  function RenewOne(s: State, token: Token, now: real): State {
    if Alive(s, token, now) then
      var until := now + s.leases[token].leaseS;
      s.(leases := s.leases[token := s.leases[token].(expiresAt := until)],
         expiries := Push(s.expiries, Entry(until, token)))
    else s
  }

  function RenewMany(s: State, tokens: seq<Token>, now: real): (State, map<Token, bool>) {
    if tokens == [] then (s, map[]) else
      var last := tokens[|tokens| - 1];
      var (s1, alive) := RenewMany(s, tokens[..|tokens| - 1], now);
      (RenewOne(s1, last, now), alive[last := Alive(s1, last, now)])
  }

  /** Drop the expired tombstones that lead; stop at the first unexpired one. */
  function Prune(withdrawn: seq<Tombstone>, now: real): seq<Tombstone> {
    if withdrawn != [] && withdrawn[0].until <= now then Prune(withdrawn[1..], now) else withdrawn
  }

  /** Setting a dict entry: an existing key keeps its place. */
  function Entomb(withdrawn: seq<Tombstone>, token: Token, until: real): seq<Tombstone> {
    if withdrawn == [] then [Tombstone(token, until)]
    else if withdrawn[0].token == token then [Tombstone(token, until)] + withdrawn[1..]
    else [withdrawn[0]] + Entomb(withdrawn[1..], token, until)
  }

  /** The waiting half of release. */
  function Withdraw(s: State, token: Token, now: real): State
    requires Tables(s)
  {
    if token in s.waiting then
      LeaveTables(s, token);
      HandOff(Leave(s, token), s.waiting[token].names, now)
    else s
  }

  function Release(s: State, token: Token, now: real): State
    requires Tables(s)
  {
    if token in s.leases then Free(s, token, now)
    else
      var s1 := Withdraw(s, token, now);
      s1.(withdrawn := Entomb(Prune(s1.withdrawn, now), token, now + WITHDRAWN_TTL_S))
  }

  // ---------------------------------------------------------------- every step keeps the tables consistent

  lemma {:induction false} RemoveKeepsOrder(q: seq<Token>, token: Token, waiting: map<Token, Waiter>)
    requires InOrder(q, waiting)
    ensures forall t :: t in Remove(q, token) <==> t in q && t != token
    ensures InOrder(Remove(q, token), waiting)
  {
    if q != [] {
      assert forall t :: t in q <==> t == q[0] || t in q[1..];
      if q[0] == token {
        forall t | t in q[1..] ensures t != token {
          var i :| 0 <= i < |q[1..]| && q[1..][i] == t;
          assert waiting[q[0]].id < waiting[q[i + 1]].id;
        }
      } else {
        RemoveKeepsOrder(q[1..], token, waiting);
        var r := Remove(q[1..], token);
        forall t | t in r ensures t in waiting && waiting[q[0]].id < waiting[t].id {
          var i :| 0 <= i < |q[1..]| && q[1..][i] == t;
          assert waiting[q[0]].id < waiting[q[i + 1]].id;
        }
      }
    }
  }

  lemma LeaveQueues(queues: map<Name, seq<Token>>, waiting: map<Token, Waiter>, token: Token)
    requires QueuesOk(queues, waiting) && token in waiting
    ensures QueuesOk(LeaveAll(queues, waiting[token].names, token), waiting - {token})
    ensures forall n :: n in LeaveAll(queues, waiting[token].names, token) ==>
              n in queues && forall t :: t in LeaveAll(queues, waiting[token].names, token)[n] <==> t in queues[n] && t != token
  {
    var names, left, rest := waiting[token].names, LeaveAll(queues, waiting[token].names, token), waiting - {token};
    forall n | n in queues
      ensures n in left ==> QueueOk(left[n], n, rest) && forall t :: t in left[n] <==> t in queues[n] && t != token
      ensures forall t :: t in queues[n] && t != token ==> n in left && t in left[n]
    {
      assert QueueOk(queues[n], n, waiting);
      RemoveKeepsOrder(queues[n], token, waiting);
      if n in names {
        var r := Remove(queues[n], token);
        forall i | 0 <= i < |r| ensures r[i] in rest && n in rest[r[i]].names {
          assert r[i] in queues[n];
        }
      } else {
        assert token !in queues[n];
      }
    }
  }

  lemma LeaveTables(s: State, token: Token)
    requires Tables(s) && token in s.waiting
    ensures Tables(Leave(s, token))
    ensures |Leave(s, token).waiting| < |s.waiting|
  {
    LeaveQueues(s.queues, s.waiting, token);
    assert Leave(s, token).waiting.Keys == s.waiting.Keys - {token};
  }

  lemma GrantTables(s: State, token: Token, names: seq<Name>, leaseS: real, now: real)
    requires Tables(s) && Request(names, leaseS)
    requires token !in s.leases && token !in s.waiting
    requires forall n :: n in names ==> n !in s.holder
    ensures Tables(Grant(s, token, names, leaseS, now))
  {
    var s' := Grant(s, token, names, leaseS, now);
    assert HoldersOk(s'.holder, s'.leases);
  }

  lemma GrantWaiterTables(s: State, token: Token, now: real)
    requires Tables(s) && Grantable(s, token)
    ensures Tables(GrantWaiter(s, token, now))
    ensures |GrantWaiter(s, token, now).waiting| < |s.waiting|
  {
    LeaveTables(s, token);
    GrantTables(Leave(s, token), token, s.waiting[token].names, s.waiting[token].leaseS, now);
  }

  lemma UnholdTables(s: State, token: Token)
    requires Tables(s) && token in s.leases
    ensures Tables(Unhold(s, token))
  {
    var s' := Unhold(s, token);
    forall t, n | t in s'.leases && n in s'.leases[t].names ensures n in s'.holder && s'.holder[n] == t {
      assert n in s.holder && s.holder[n] == t;
      assert n !in s.leases[token].names;
    }
  }

  lemma EnqueueOne(q: seq<Token>, name: Name, waiting: map<Token, Waiter>, token: Token, w: Waiter)
    requires q == [] || QueueOk(q, name, waiting)
    requires token !in waiting && forall t :: t in waiting ==> waiting[t].id < w.id
    ensures name in w.names ==> QueueOk(q + [token], name, waiting[token := w])
    ensures q != [] ==> QueueOk(q, name, waiting[token := w])
  {
    var more := waiting[token := w];
    forall i | 0 <= i < |q| ensures q[i] in more && name in more[q[i]].names && more[q[i]].id < w.id {
      assert q[i] in waiting && q[i] != token;
    }
  }

  lemma EnqueueTables(s: State, token: Token, names: seq<Name>, leaseS: real, now: real)
    requires Tables(s) && Request(names, leaseS)
    requires token !in s.leases && token !in s.waiting
    ensures Tables(Enqueue(s, token, names, leaseS, now))
  {
    var s' := Enqueue(s, token, names, leaseS, now);
    var w := s'.waiting[token];
    EnqueueQueues(s, token, names, w);
    assert QueuesOk(s'.queues, s'.waiting);
    hide QueuesOk, JoinAll;
    assert HoldersOk(s'.holder, s'.leases) && WaitersOk(s'.waiting, s'.nextWaiter);
  }

  lemma EnqueueQueues(s: State, token: Token, names: seq<Name>, w: Waiter)
    requires QueuesOk(s.queues, s.waiting) && token !in s.waiting && w.names == names
    requires forall t :: t in s.waiting ==> s.waiting[t].id < w.id
    ensures QueuesOk(JoinAll(s.queues, names, token), s.waiting[token := w])
  {
    var queues, waiting := JoinAll(s.queues, names, token), s.waiting[token := w];
    forall n | n in queues ensures QueueOk(queues[n], n, waiting) {
      EnqueueOne(Queue(s.queues, n), n, s.waiting, token, w);
    }
    forall t, n | t in waiting && n in waiting[t].names ensures n in queues && t in queues[n] {
      if t != token {
        assert n in s.queues && t in s.queues[n];
      }
    }
  }

  lemma {:induction false} HandOffTables(s: State, names: seq<Name>, now: real)
    requires Tables(s)
    ensures Tables(HandOff(s, names, now))
    decreases |s.waiting|, |names|
  {
    if names != [] {
      var name, rest := names[|names| - 1], names[..|names| - 1];
      if name in s.holder || name !in s.queues {
        HandOffTables(s, rest, now);
      } else {
        assert QueueOk(s.queues[name], name, s.waiting);
        var token := s.queues[name][0];
        var w := s.waiting[token];
        if Abandoned(w, now) {
          LeaveTables(s, token);
          HandOffTables(Leave(s, token), rest + w.names, now);
        } else if Grantable(s, token) {
          GrantWaiterTables(s, token, now);
          HandOffTables(GrantWaiter(s, token, now), rest, now);
        } else {
          HandOffTables(s, rest, now);
        }
      }
    }
  }

  lemma FreeTables(s: State, token: Token, now: real)
    requires Tables(s)
    ensures Tables(Free(s, token, now))
  {
    if token in s.leases {
      UnholdTables(s, token);
      HandOffTables(Unhold(s, token), s.leases[token].names, now);
    }
  }

  // A grant's heap entry lies in the future, so the loop of _expire ends.

  lemma {:induction false} PushDueCount(heap: seq<Entry>, e: Entry, now: real)
    requires e.at > now
    ensures DueCount(Push(heap, e), now) == DueCount(heap, now)
  {
    if heap == [] {
    } else if Before(e, heap[0]) {
      assert ([e] + heap)[1..] == heap;
    } else {
      PushDueCount(heap[1..], e, now);
      assert ([heap[0]] + Push(heap[1..], e))[1..] == Push(heap[1..], e);
    }
  }

  lemma GrantWaiterDueCount(s: State, token: Token, now: real)
    requires Tables(s) && token in s.waiting
    ensures DueCount(GrantWaiter(s, token, now).expiries, now) == DueCount(s.expiries, now)
  {
    PushDueCount(s.expiries, Entry(now + s.waiting[token].leaseS, token), now);
  }

  lemma {:induction false} HandOffDueCount(s: State, names: seq<Name>, now: real)
    requires Tables(s)
    ensures DueCount(HandOff(s, names, now).expiries, now) == DueCount(s.expiries, now)
    decreases |s.waiting|, |names|
  {
    if names != [] {
      var name, rest := names[|names| - 1], names[..|names| - 1];
      if name in s.holder || name !in s.queues {
        HandOffDueCount(s, rest, now);
      } else {
        assert QueueOk(s.queues[name], name, s.waiting);
        var token := s.queues[name][0];
        var w := s.waiting[token];
        if Abandoned(w, now) {
          LeaveTables(s, token);
          HandOffDueCount(Leave(s, token), rest + w.names, now);
        } else if Grantable(s, token) {
          GrantWaiterTables(s, token, now);
          GrantWaiterDueCount(s, token, now);
          HandOffDueCount(GrantWaiter(s, token, now), rest, now);
        } else {
          HandOffDueCount(s, rest, now);
        }
      }
    }
  }

  lemma FreeDueCount(s: State, token: Token, now: real)
    requires Tables(s)
    ensures DueCount(Free(s, token, now).expiries, now) == DueCount(s.expiries, now)
  {
    if token in s.leases {
      UnholdTables(s, token);
      HandOffDueCount(Unhold(s, token), s.leases[token].names, now);
    }
  }

  lemma {:induction false} ExpireDueTables(s: State, now: real)
    requires Tables(s)
    ensures Tables(ExpireDue(s, now))
    decreases DueCount(s.expiries, now)
  {
    if Due(s.expiries, now) {
      var e := s.expiries[0];
      var popped := s.(expiries := s.expiries[1..]);
      if Current(popped, e) {
        FreeTables(popped, e.token, now);
        FreeDueCount(popped, e.token, now);
        ExpireDueTables(Free(popped, e.token, now), now);
      } else {
        ExpireDueTables(popped, now);
      }
    }
  }
}
