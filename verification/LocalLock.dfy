/**
 The process-local FIFO lock (first half of transfer_queue/kv_lock.py) as a step system. One record per call of
 kv_local_lock or its async twin; what happens under _state_lock is one step, and steps of different calls interleave.
 */
module LocalLock {
  import opened Prelude

  /** A key in a partition; keys are strings in the source, of which only the order is used. */
  datatype Name = Name(partition: string, key: nat)

  /** One call of the context manager, numbered; a call never comes back. */
  type Id = nat

  /** Taking: about to take the next name. Waiting: in its queue, or granted and not yet awake. Inside: in the block. Leaving:
   the wait has failed. Left: everything is released. */
  datatype Stage = Taking | Waiting | Inside | Leaving | Left

  /** `got` names are acquired. `granted` and `gone` describe the waiter: handed the name; its event loop is closed. */
  datatype Call = Call(names: seq<Name>, got: nat, stage: Stage, granted: bool, gone: bool)

  datatype State = State(table: map<Name, seq<Id>>, calls: map<Id, Call>)

  predicate Before(a: Name, b: Name) {
    a.partition == b.partition && a.key < b.key
  }

  /** What _lock_names returns: at least one name, sorted, none twice. */
  ghost predicate Ascending(names: seq<Name>) {
    forall i, j :: 0 <= i < j < |names| ==> Before(names[i], names[j])
  }

  predicate Alive(s: State, c: Id) {
    c in s.calls && !s.calls[c].gone
  }

  // ---------------------------------------------------------------- what happens under _state_lock

  function Acquired(c: Call): Call
    requires c.got < |c.names|
  {
    c.(got := c.got + 1, granted := false, stage := if c.got + 1 == |c.names| then Inside else Taking)
  }

  /** _take_or_queue */
  function Take(s: State, id: Id): State
    requires id in s.calls && s.calls[id].got < |s.calls[id].names|
  {
    var c := s.calls[id];
    var n := c.names[c.got];
    if n in s.table then
      s.(table := s.table[n := s.table[n] + [id]], calls := s.calls[id := c.(stage := Waiting, granted := false)])
    else
      s.(table := s.table[n := []], calls := s.calls[id := Acquired(c)])
  }

  function Grant(calls: map<Id, Call>, id: Id): map<Id, Call> {
    if id in calls then calls[id := calls[id].(granted := true)] else calls
  }

  /** The waiters of a name from the first live one on; none when nobody is alive. */
  function FromFirstAlive(s: State, q: seq<Id>): seq<Id> {
    if q == [] || Alive(s, q[0]) then q else FromFirstAlive(s, q[1..])
  }

  /** _release: the name goes to its first live waiter, or is freed. */
  function Release(s: State, n: Name): State
    requires n in s.table
  {
    var q := FromFirstAlive(s, s.table[n]);
    if q == [] then s.(table := s.table - {n})
    else s.(table := s.table[n := q[1..]], calls := Grant(s.calls, q[0]))
  }

  /** _release_all, from the last name to the first; LocalLockTheorems shows that every one of them is in the table. */
  function ReleaseAll(s: State, names: seq<Name>): State
    decreases |names|
  {
    if names == [] then s else
      var n := |names| - 1;
      if names[n] in s.table then ReleaseAll(Release(s, names[n]), names[..n]) else s
  }

  function Without(q: seq<Id>, id: Id): seq<Id> {
    if q == [] then [] else if q[0] == id then q[1..] else [q[0]] + Without(q[1..], id)
  }

  /** _settle, of a wait that a timeout (keep) or a cancellation ended; whether the call now owns the name. */
  function Settle(s: State, id: Id, n: Name, keep: bool): (State, bool)
    requires id in s.calls && (s.calls[id].granted && !keep ==> n in s.table)
  {
    if !s.calls[id].granted then
      (if n in s.table && id in s.table[n] then s.(table := s.table[n := Without(s.table[n], id)]) else s, false)
    else if keep then (s, true)
    else (Release(s, n), false)
  }

  // ---------------------------------------------------------------- the steps

  datatype Step =
    | Begins(id: Id, names: seq<Name>)
    | Takes(id: Id)
    | Wakes(id: Id)                      // the event of a granted waiter is seen
    | Ends(id: Id, timeout: bool)        // a wait ends by timeout, or by cancellation or interrupt
    | LoopCloses(id: Id)
    | Exits(id: Id)                      // leaving the block, or failing to enter it

  ghost predicate Enabled(s: State, step: Step) {
    match step
    case Begins(id, names) => id !in s.calls && names != [] && Ascending(names)
    case Takes(id) => id in s.calls && s.calls[id].stage == Taking && s.calls[id].got < |s.calls[id].names|
    case Wakes(id) => id in s.calls && s.calls[id].stage == Waiting && s.calls[id].granted && s.calls[id].got < |s.calls[id].names|
    case Ends(id, timeout) =>
      && id in s.calls && s.calls[id].stage == Waiting && s.calls[id].got < |s.calls[id].names|
      && (s.calls[id].granted && !timeout ==> s.calls[id].names[s.calls[id].got] in s.table)
    case LoopCloses(id) => id in s.calls
    case Exits(id) => id in s.calls && (s.calls[id].stage == Inside || s.calls[id].stage == Leaving) && s.calls[id].got <= |s.calls[id].names|
  }

  /** What the ended wait leads to: the name is kept and the call goes on, or the call leaves. */
  function Ended(s: State, id: Id, timeout: bool): State
    requires Enabled(s, Ends(id, timeout))
  {
    var c := s.calls[id];
    var (s', owns) := Settle(s, id, c.names[c.got], timeout);
    s'.(calls := s'.calls[id := if owns then Acquired(c) else c.(stage := Leaving, granted := false)])
  }

  function Apply(s: State, step: Step): State
    requires Enabled(s, step)
  {
    match step
    case Begins(id, names) => s.(calls := s.calls[id := Call(names, 0, Taking, false, false)])
    case Takes(id) => Take(s, id)
    case Wakes(id) => s.(calls := s.calls[id := Acquired(s.calls[id])])
    case Ends(id, timeout) => Ended(s, id, timeout)
    case LoopCloses(id) => s.(calls := s.calls[id := s.calls[id].(gone := true)])
    case Exits(id) =>
      var c := s.calls[id];
      var s' := ReleaseAll(s.(calls := s.calls[id := c.(stage := Left, got := 0)]), c.names[..c.got]);
      s'
  }

  ghost predicate Run(s: State, steps: seq<Step>, s': State)
    decreases |steps|
  {
    if steps == [] then s' == s else Enabled(s, steps[0]) && Run(Apply(s, steps[0]), steps[1..], s')
  }

  const Empty := State(map[], map[])

  // ---------------------------------------------------------------- who owns, who waits

  ghost predicate Owns(c: Call, n: Name) {
    || (exists i :: 0 <= i < c.got && i < |c.names| && c.names[i] == n)
    || (c.stage == Waiting && c.granted && c.got < |c.names| && c.names[c.got] == n)
  }

  ghost predicate Queued(c: Call, n: Name) {
    c.stage == Waiting && !c.granted && c.got < |c.names| && c.names[c.got] == n
  }

  ghost predicate CallOk(c: Call) {
    && c.got <= |c.names| && c.names != [] && Ascending(c.names)
    && (c.stage == Taking || c.stage == Waiting ==> c.got < |c.names|)
    && (c.stage == Inside ==> c.got == |c.names|)
    && (c.stage == Left ==> c.got == 0)
    && (c.granted ==> c.stage == Waiting)
  }

  ghost predicate CallsOk(calls: map<Id, Call>) {
    forall c :: c in calls ==> CallOk(calls[c])
  }

  ghost predicate Owned(calls: map<Id, Call>, n: Name) {
    exists c :: c in calls && Owns(calls[c], n)
  }

  /** Nobody shares a name. */
  ghost predicate OneOwner(calls: map<Id, Call>) {
    forall c, d, n :: c in calls && d in calls && Owns(calls[c], n) && Owns(calls[d], n) ==> c == d
  }

  /** The waiters in a queue wait for its name, each once. */
  ghost predicate QueueOk(calls: map<Id, Call>, q: seq<Id>, n: Name) {
    Distinct(q) && forall i :: 0 <= i < |q| ==> q[i] in calls && Queued(calls[q[i]], n)
  }

  ghost predicate QueuesOk(table: map<Name, seq<Id>>, calls: map<Id, Call>) {
    forall n :: n in table ==> QueueOk(calls, table[n], n)
  }

  /** Every waiter whose loop lives is in its queue. */
  ghost predicate NobodyLost(table: map<Name, seq<Id>>, calls: map<Id, Call>) {
    forall c, n :: c in calls && Queued(calls[c], n) && !calls[c].gone ==> n in table && c in table[n]
  }

  ghost predicate TableOk(table: map<Name, seq<Id>>, calls: map<Id, Call>) {
    forall n :: n in table <==> Owned(calls, n)
  }

  ghost predicate Inv(s: State) {
    CallsOk(s.calls) && TableOk(s.table, s.calls) && OneOwner(s.calls) && QueuesOk(s.table, s.calls) && NobodyLost(s.table, s.calls)
  }
}
