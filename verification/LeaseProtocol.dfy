/**
 kv_global_lock as a distributed protocol (transfer_queue/kv_lock.py with one lock actor per shard): clients that
 visit shards in ascending order, calls whose requests and replies may be delayed without bound, the renewer of each
 process, releases, and lease expiry, under one global clock.

 A call in flight is the object reference the client holds: it is a request, then maybe suspended in the actor, then
 a reply. A client reads its clock for `sent` after it submitted the call, and at the latest `skew` after the reply left
 the actor. The source takes the reading to precede the reply, which is `skew` zero; nothing in the code orders the two.
 */
module LeaseProtocol {
  import opened Prelude
  import T = LockTable
  import R = LockRuns

  datatype ShardNames = ShardNames(shard: nat, names: seq<T.Name>)

  datatype Stage = InRequest | Suspended(call: nat) | InReply(remaining: Option<real>, replied: real)

  /** `sent`: the clock reading the client keeps for the call; `replied`: when the reply left the actor. */
  datatype CallRef = NoCall | Calling(sent: Option<real>, stage: Stage)

  /** One GlobalLease with the block that asks for it. Shards plan[..cursor] have granted. */
  datatype Client = Client(
    process: nat,
    plan: seq<ShardNames>,
    leaseS: real,
    cursor: nat,
    call: CallRef,
    pending: set<nat>,        // shards that may hold or queue the token
    deadline: Option<real>,   // None: infinity
    registered: bool,
    lost: bool,
    closed: bool,             // close() gave the lease up
    left: bool)               // the block was left, by its end or by an exception

  /** A renewal round of one process: the granted counts it saw, what it asked, and what came of it. */
  datatype Round = Round(
    last: real,
    batch: map<T.Token, nat>,
    asked: map<nat, seq<T.Token>>,
    arrived: map<nat, map<T.Token, bool>>,   // executed by the actor, the reply still on its way
    answers: map<nat, map<T.Token, bool>>)   // received

  datatype World = World(
    now: real,
    numShards: nat,
    hash: T.Name -> nat,
    servers: seq<T.State>,                // one actor per shard
    clients: map<T.Token, Client>,
    rounds: map<nat, Round>,
    strays: set<(nat, seq<T.Token>)>,     // renewals of finished rounds that no one waits for
    releases: set<(T.Token, nat)>)

  // ---------------------------------------------------------------- the request's plan

  function Shard(hash: T.Name -> nat, numShards: nat, name: T.Name): nat
    requires numShards > 0
  {
    hash(name) % numShards
  }

  function NamesOf(hash: T.Name -> nat, numShards: nat, names: seq<T.Name>, shard: nat): seq<T.Name>
    requires numShards > 0
  {
    if names == [] then [] else
      var k := |names| - 1;
      NamesOf(hash, numShards, names[..k], shard) + if Shard(hash, numShards, names[k]) == shard then [names[k]] else []
  }

  /** The names grouped by shard, shards ascending. */
  function PlanFrom(hash: T.Name -> nat, numShards: nat, names: seq<T.Name>, from: nat): seq<ShardNames>
    requires numShards > 0
    decreases numShards - from
  {
    if from >= numShards then [] else
      var mine := NamesOf(hash, numShards, names, from);
      (if mine == [] then [] else [ShardNames(from, mine)]) + PlanFrom(hash, numShards, names, from + 1)
  }

  // ---------------------------------------------------------------- steps

  datatype Step =
    | Tick(later: real)
    | Begin(token: T.Token, process: nat, names: seq<T.Name>, leaseS: real)
    | Submit(token: T.Token)
    | Stamp(token: T.Token)
    | AcquireArrives(token: T.Token)
    | AcquireWakes(token: T.Token)
    | TakeReply(token: T.Token)
    | Leave(token: T.Token)
    | Close(process: nat)
    | ReleaseArrives(token: T.Token, shard: nat)
    | TimerFires(shard: nat)
    | RoundStarts(process: nat, batch: map<T.Token, nat>, asked: map<nat, seq<T.Token>>)
    | RenewArrives(process: nat, shard: nat)
    | RenewReplies(process: nat, shard: nat)
    | RenewFails(process: nat, shard: nat)
    | RoundEnds(process: nat)
    | StrayArrives(shard: nat, tokens: seq<T.Token>)

  ghost predicate InCall(w: World, t: T.Token) {
    t in w.clients && w.clients[t].call.Calling? && w.clients[t].cursor < |w.clients[t].plan|
  }

  ghost function At(w: World, t: T.Token): nat
    requires t in w.clients && w.clients[t].cursor < |w.clients[t].plan|
  {
    w.clients[t].plan[w.clients[t].cursor].shard
  }

  ghost predicate HasTables(w: World, shard: nat) {
    shard < |w.servers| && T.Tables(w.servers[shard])
  }

  ghost predicate AskedFor(w: World, t: T.Token, granted: nat, shard: nat) {
    t in w.clients && granted <= |w.clients[t].plan| && exists i :: 0 <= i < granted && w.clients[t].plan[i].shard == shard
  }

  ghost predicate RoundFits(w: World, process: nat, batch: map<T.Token, nat>, asked: map<nat, seq<T.Token>>) {
    && (forall t :: t in batch ==> t in w.clients && w.clients[t].process == process && 0 < batch[t] <= w.clients[t].cursor)
    && (forall shard, t :: shard in asked && t in asked[shard] <==> t in batch && AskedFor(w, t, batch[t], shard))
  }

  ghost predicate Enabled(w: World, step: Step, skew: real) {
    match step
    case Tick(later) => w.now <= later
    case Begin(t, process, names, leaseS) => t !in w.clients && T.Request(names, leaseS) && w.numShards > 0
    case Submit(t) =>
      t in w.clients && !w.clients[t].left && w.clients[t].cursor < |w.clients[t].plan| && w.clients[t].call.NoCall?
    case Stamp(t) =>
      && InCall(w, t) && w.clients[t].call.sent.None?
      && (w.clients[t].call.stage.InReply? ==> w.now <= w.clients[t].call.stage.replied + skew)
    case AcquireArrives(t) => InCall(w, t) && w.clients[t].call.stage.InRequest? && HasTables(w, At(w, t))
    case AcquireWakes(t) =>
      && InCall(w, t) && w.clients[t].call.stage.Suspended? && HasTables(w, At(w, t))
      && w.clients[t].call.stage.call in w.servers[At(w, t)].calls
    case TakeReply(t) =>
      InCall(w, t) && !w.clients[t].left && w.clients[t].call.stage.InReply? && w.clients[t].call.sent.Some?
    case Leave(t) => t in w.clients && !w.clients[t].left
    case Close(process) => true
    case ReleaseArrives(t, shard) => (t, shard) in w.releases && HasTables(w, shard)
    case TimerFires(shard) => HasTables(w, shard)
    case RoundStarts(process, batch, asked) => process !in w.rounds && RoundFits(w, process, batch, asked)
    case RenewArrives(p, shard) =>
      p in w.rounds && shard in w.rounds[p].asked && shard !in w.rounds[p].arrived && HasTables(w, shard)
    case RenewReplies(p, shard) => p in w.rounds && shard in w.rounds[p].arrived
    case RenewFails(p, shard) => p in w.rounds && shard in w.rounds[p].asked
    case RoundEnds(p) => p in w.rounds
    case StrayArrives(shard, tokens) => (shard, tokens) in w.strays && HasTables(w, shard)
  }

  /** Every step that reaches an actor is one of the actor's events. */
  ghost function Serve(w: World, shard: nat, e: R.Event): World
    requires HasTables(w, shard) && R.Allowed(w.servers[shard], e)
  {
    w.(servers := w.servers[shard := R.Apply(w.servers[shard], e, w.now)])
  }

  ghost function SetClient(w: World, t: T.Token, c: Client): World {
    w.(clients := w.clients[t := c])
  }

  /** The acquire call that client `t` has under way. */
  ghost function AcquireEvent(w: World, t: T.Token): R.Event
    requires InCall(w, t)
  {
    var c := w.clients[t];
    R.AcquireCall(c.plan[c.cursor].names, t, c.leaseS, w.numShards)
  }

  ghost function StageAfter(entered: T.Entered, now: real): Stage {
    match entered
    case Answered(remaining) => InReply(remaining, now)
    case Suspended(call, mayWait) => Suspended(call)
    case WrongShardCount => InReply(None, now)
  }

  function Earlier(deadline: Option<real>, at: real): real {
    if deadline.None? || at < deadline.value then at else deadline.value
  }

  /** _take_grant and the loop around it. */
  function Taken(c: Client): Client
    requires c.call.Calling? && c.call.stage.InReply? && c.call.sent.Some?
  {
    match c.call.stage.remaining
    case None => c.(call := NoCall)
    case Some(remaining) =>
      c.(call := NoCall, deadline := Some(Earlier(c.deadline, c.call.sent.value + remaining)), cursor := c.cursor + 1, registered := true)
  }

  function Gone(c: Client): Client {
    c.(left := true, registered := false, pending := {})
  }

  /** close() marks every lease of the process and releases those that were registered. */
  function Closed(c: Client): Client {
    if c.registered then c.(closed := true, registered := false, pending := {}) else c.(closed := true)
  }

  ghost function ReleasesOf(t: T.Token, pending: set<nat>): set<(T.Token, nat)> {
    set shard | shard in pending :: (t, shard)
  }

  ghost predicate Said(answers: map<nat, map<T.Token, bool>>, shard: nat, t: T.Token) {
    shard in answers && t in answers[shard] && answers[shard][t]
  }

  /** How the end of a round moves one lease of its batch. */
  ghost function Renewed(c: Client, t: T.Token, granted: nat, r: Round): Client
    requires granted <= |c.plan|
  {
    if exists i :: 0 <= i < granted && c.plan[i].shard in r.answers && !Said(r.answers, c.plan[i].shard, t) then c.(lost := true)
    else if (forall i :: 0 <= i < granted ==> Said(r.answers, c.plan[i].shard, t)) && c.cursor == granted then
      c.(deadline := Some(r.last + c.leaseS))
    else c
  }

  ghost predicate RoundRuns(w: World, process: nat) {
    && process in w.rounds
    && forall t :: t in w.rounds[process].batch ==> t in w.clients && w.rounds[process].batch[t] <= |w.clients[t].plan|
  }

  ghost function After(w: World, step: Step, skew: real): World
    requires Enabled(w, step, skew)
    requires step.AcquireArrives? ==> R.Allowed(w.servers[At(w, step.token)], AcquireEvent(w, step.token))
    requires step.RoundEnds? ==> RoundRuns(w, step.process)
  {
    match step
    case Tick(later) => w.(now := later)
    case Begin(t, process, names, leaseS) =>
      SetClient(w, t, Client(process, PlanFrom(w.hash, w.numShards, names, 0), leaseS, 0, NoCall, {}, None, false, false, false, false))
    case Submit(t) =>
      var c := w.clients[t];
      SetClient(w, t, c.(call := Calling(None, InRequest), pending := c.pending + {At(w, t)}))
    case Stamp(t) =>
      var c := w.clients[t];
      SetClient(w, t, c.(call := c.call.(sent := Some(w.now))))
    case AcquireArrives(t) =>
      var c := w.clients[t];
      var (_, entered) := T.Enter(w.servers[At(w, t)], c.plan[c.cursor].names, t, c.leaseS, w.numShards, w.now);
      SetClient(Serve(w, At(w, t), AcquireEvent(w, t)), t, c.(call := c.call.(stage := StageAfter(entered, w.now))))
    case AcquireWakes(t) =>
      var c := w.clients[t];
      var (_, remaining) := T.Resume(w.servers[At(w, t)], c.call.stage.call, w.now);
      SetClient(Serve(w, At(w, t), R.Wake(c.call.stage.call)), t, c.(call := c.call.(stage := InReply(remaining, w.now))))
    case TakeReply(t) => SetClient(w, t, Taken(w.clients[t]))
    case Leave(t) => SetClient(w, t, Gone(w.clients[t])).(releases := w.releases + ReleasesOf(t, w.clients[t].pending))
    case Close(process) =>
      w.(clients := map t | t in w.clients :: if w.clients[t].process == process then Closed(w.clients[t]) else w.clients[t],
         releases := w.releases + set t, shard | t in w.clients && w.clients[t].process == process && w.clients[t].registered
                                                 && shard in w.clients[t].pending :: (t, shard))
    case ReleaseArrives(t, shard) => Serve(w, shard, R.ReleaseCall(t)).(releases := w.releases - {(t, shard)})
    case TimerFires(shard) => Serve(w, shard, R.TimerFires)
    case RoundStarts(process, batch, asked) => w.(rounds := w.rounds[process := Round(w.now, batch, asked, map[], map[])])
    case RenewArrives(p, shard) =>
      var r := w.rounds[p];
      var (_, alive) := T.RenewMany(w.servers[shard], r.asked[shard], w.now);
      Serve(w, shard, R.RenewCall(r.asked[shard])).(rounds := w.rounds[p := r.(arrived := r.arrived[shard := alive])])
    case RenewReplies(p, shard) =>
      var r := w.rounds[p];
      w.(rounds := w.rounds[p := r.(answers := r.answers[shard := r.arrived[shard]])])
    case RenewFails(p, shard) =>
      var r := w.rounds[p];
      w.(rounds := w.rounds[p := r.(answers := r.answers[shard := map[]])])
    case RoundEnds(p) =>
      var r := w.rounds[p];
      w.(clients := map t | t in w.clients :: if t in r.batch then Renewed(w.clients[t], t, r.batch[t], r) else w.clients[t],
         rounds := w.rounds - {p},
         strays := w.strays + set shard | shard in r.asked && shard !in r.arrived :: (shard, r.asked[shard]))
    case StrayArrives(shard, tokens) => Serve(w, shard, R.RenewCall(tokens)).(strays := w.strays - {(shard, tokens)})
  }

  ghost function Start(now: real, numShards: nat, maxParked: nat, hash: T.Name -> nat): World {
    World(now, numShards, hash, seq(numShards, _ => T.Initial(numShards, maxParked)), map[], map[], {}, {})
  }

  // ---------------------------------------------------------------- what the client sees

  /** GlobalLease.check() does not raise at time `at`. */
  ghost predicate CheckPasses(c: Client, at: real) {
    !c.lost && !c.closed && (c.deadline.None? || at < c.deadline.value)
  }

  /** All shards granted and the block not left: between the yield and the exit. */
  ghost predicate Inside(c: Client) {
    c.cursor == |c.plan| && !c.left
  }

  ghost predicate Locks(c: Client, n: T.Name) {
    exists i :: 0 <= i < |c.plan| && n in c.plan[i].names
  }
}
