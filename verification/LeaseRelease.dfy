/** What leaving a kv_global_lock block gives back: the release calls reach every place where the token may be. */
module LeaseRelease {
  import opened Prelude
  import opened LeaseProtocol
  import opened LeaseSafety
  import opened LeaseTheorems
  import T = LockTable
  import R = LockRuns
  import S = LockService
  import X = LockEffects

  ghost predicate AtShard(s: T.State, t: T.Token) {
    t in s.leases || t in s.waiting
  }

  /** Wherever an active client's token holds or waits, and where its call is under way, the shard is pending. */
  ghost predicate PendingOk(clients: map<T.Token, Client>, servers: seq<T.State>) {
    forall t :: t in clients && Active(clients[t]) ==> ClientPending(clients[t], t, servers)
  }

  ghost predicate ClientPending(c: Client, t: T.Token, servers: seq<T.State>) {
    && (forall k: nat :: k < |servers| && AtShard(servers[k], t) ==> k in c.pending)
    && (c.call.Calling? && c.cursor < |c.plan| ==> c.plan[c.cursor].shard in c.pending)
  }

  /** One event at one actor puts a token there only if it was there or its own call arrives. */
  lemma ServePending(w: World, k: nat, e: R.Event, skew: real)
    requires WorldOk(w, skew) && Fits(w, k, e) && PendingOk(w.clients, w.servers)
    ensures HasTables(w, k) && PendingOk(w.clients, Serve(w, k, e).servers)
  {
    ServeEffect(w, k, e, skew);
    var servers := Serve(w, k, e).servers;
    hide WorldOk;
    forall t | t in w.clients && Active(w.clients[t]) ensures ClientPending(w.clients[t], t, servers) {
      assert ClientPending(w.clients[t], t, w.servers);
      if AtShard(servers[k], t) { CameFrom(w, k, e, servers[k], t); }
    }
  }

  lemma CameFrom(w: World, k: nat, e: R.Event, s': T.State, t: T.Token)
    requires Fits(w, k, e) && X.Effect(w.servers[k], e, s', w.now) && AtShard(s', t)
    ensures AtShard(w.servers[k], t) || (InCall(w, t) && k == At(w, t))
  {
    if t in s'.leases {
      assert X.Asked(w.servers[k], e, t, s'.leases[t].names, s'.leases[t].leaseS);
    } else {
      assert X.Waited(w.servers[k], e, t, s'.waiting[t].names, s'.waiting[t].leaseS);
    }
  }

  /** A client whose token and pending shards stay as they are, and whose call at most moves within its shard. */
  ghost predicate KeepsPending(c: Client, c': Client) {
    && (Active(c') ==> Active(c) && c.pending <= c'.pending)
    && (Active(c') && c'.call.Calling? && c'.cursor < |c'.plan| ==>
          c'.plan[c'.cursor].shard in c'.pending || (c.call.Calling? && c'.cursor == c.cursor && c'.plan == c.plan))
  }

  lemma ClientKeeps(c: Client, c': Client, t: T.Token, servers: seq<T.State>)
    requires KeepsPending(c, c') && (Active(c) ==> ClientPending(c, t, servers))
    ensures Active(c') ==> ClientPending(c', t, servers)
  {
  }

  lemma ClientsKeep(clients: map<T.Token, Client>, clients': map<T.Token, Client>, servers: seq<T.State>)
    requires PendingOk(clients, servers) && clients'.Keys == clients.Keys
    requires forall t :: t in clients ==> KeepsPending(clients[t], clients'[t])
    ensures PendingOk(clients', servers)
  {
    hide KeepsPending, ClientPending;
    forall t | t in clients' && Active(clients'[t]) ensures ClientPending(clients'[t], t, servers) {
      ClientKeeps(clients[t], clients'[t], t, servers);
    }
  }

  ghost predicate Serves(step: Step) {
    step.AcquireArrives? || step.AcquireWakes? || step.ReleaseArrives? || step.TimerFires? || step.RenewArrives? || step.StrayArrives?
  }

  /** The actor that a step reaches, and the event it brings. */
  ghost predicate Brings(w: World, step: Step, k: nat, e: R.Event) {
    match step
    case AcquireArrives(t) => InCall(w, t) && k == At(w, t) && e == AcquireEvent(w, t)
    case AcquireWakes(t) => InCall(w, t) && w.clients[t].call.stage.Suspended? && k == At(w, t) && e == R.Wake(w.clients[t].call.stage.call)
    case ReleaseArrives(t, shard) => k == shard && e == R.ReleaseCall(t)
    case TimerFires(shard) => k == shard && e == R.TimerFires
    case RenewArrives(p, shard) => p in w.rounds && shard in w.rounds[p].asked && k == shard && e == R.RenewCall(w.rounds[p].asked[shard])
    case StrayArrives(shard, tokens) => k == shard && e == R.RenewCall(tokens)
    case _ => false
  }

  lemma StepFits(w: World, step: Step, skew: real) returns (k: nat, e: R.Event)
    requires WorldOk(w, skew) && Fires(w, step, skew) && Serves(step)
    ensures Brings(w, step, k, e) && Fits(w, k, e) && HasTables(w, k)
    ensures After(w, step, skew).servers == Serve(w, k, e).servers
  {
    hide T.Enter, T.Resume, T.RenewMany, R.Apply, ServersOk, PlansOk, CallsOk, AllPlaced, PromisesOk, RoundsOk;
    match step
    case AcquireArrives(t) => k, e := At(w, t), AcquireEvent(w, t);
    case AcquireWakes(t) =>
      k, e := At(w, t), R.Wake(w.clients[t].call.stage.call);
      assert Wakes(w, k, e.call, t);
    case ReleaseArrives(t, shard) =>
      k, e := shard, R.ReleaseCall(t);
      assert !Active(w.clients[(t, shard).0]);
    case TimerFires(shard) => k, e := shard, R.TimerFires;
    case RenewArrives(p, shard) => k, e := shard, R.RenewCall(w.rounds[p].asked[shard]);
    case StrayArrives(shard, tokens) => k, e := shard, R.RenewCall(tokens);
  }

  /** No step but Begin adds a client, and each keeps what is pending for those that stay active. */
  lemma StepKeepsClients(w: World, step: Step, skew: real, t: T.Token)
    requires Fires(w, step, skew) && !step.Begin? && t in w.clients
    ensures After(w, step, skew).clients.Keys == w.clients.Keys
    ensures KeepsPending(w.clients[t], After(w, step, skew).clients[t])
  {
    hide T.Enter, T.Resume, T.RenewMany, R.Apply;
  }

  lemma StepSameServers(w: World, step: Step, skew: real)
    requires Fires(w, step, skew) && !Serves(step)
    ensures After(w, step, skew).servers == w.servers
  {
  }

  lemma BeginPending(w: World, step: Step, skew: real)
    requires WorldOk(w, skew) && Fires(w, step, skew) && step.Begin? && PendingOk(w.clients, w.servers)
    ensures PendingOk(After(w, step, skew).clients, w.servers)
  {
    hide PlanFrom;
    forall k: nat | k < |w.servers| ensures !AtShard(w.servers[k], step.token) {
      ServerOf(w, k, skew);
    }
  }

  lemma StepPending(w: World, step: Step, skew: real)
    requires WorldOk(w, skew) && Fires(w, step, skew) && PendingOk(w.clients, w.servers)
    ensures PendingOk(After(w, step, skew).clients, After(w, step, skew).servers)
  {
    hide WorldOk, PendingOk, After, KeepsPending, Fits, Brings, Enabled, RoundRuns, R.Allowed;
    var w' := After(w, step, skew);
    if step.Begin? {
      BeginPending(w, step, skew);
      StepSameServers(w, step, skew);
    } else {
      var clients := w.clients;
      if Serves(step) {
        var k, e := StepFits(w, step, skew);
        ServePending(w, k, e, skew);
      } else {
        StepSameServers(w, step, skew);
      }
      forall t | t in clients ensures w'.clients.Keys == clients.Keys && KeepsPending(clients[t], w'.clients[t]) {
        StepKeepsClients(w, step, skew, t);
      }
      SameClients(w, step, skew);
      ClientsKeep(clients, w'.clients, w'.servers);
    }
  }

  lemma SameClients(w: World, step: Step, skew: real)
    requires Fires(w, step, skew) && !step.Begin?
    ensures After(w, step, skew).clients.Keys == w.clients.Keys
  {
    hide T.Enter, T.Resume, T.RenewMany, R.Apply;
  }

  lemma {:induction false} RunPending(w: World, steps: seq<Step>, w': World, skew: real)
    requires WorldOk(w, skew) && PendingOk(w.clients, w.servers) && Run(w, steps, w', skew)
    ensures WorldOk(w', skew) && PendingOk(w'.clients, w'.servers)
    decreases |steps|
  {
    hide WorldOk, PendingOk, After, Enabled, RoundRuns, R.Allowed;
    if steps != [] {
      FiresIsEnabled(w, steps[0], skew);
      StepOk(w, steps[0], skew);
      StepPending(w, steps[0], skew);
      RunPending(After(w, steps[0], skew), steps[1..], w', skew);
    }
  }

  /** A release for the token is under way to every actor where it holds or waits, and to the one its call may still reach. */
  ghost predicate ReleasedEverywhere(w: World, t: T.Token) {
    && t in w.clients
    && (forall k: nat :: k < |w.servers| && AtShard(w.servers[k], t) ==> (t, k) in w.releases)
    && (InCall(w, t) ==> (t, At(w, t)) in w.releases)
  }

  /** In every reachable world, leaving the block releases the token wherever it is or may come to be. */
  lemma LeavingReleases(now: real, numShards: nat, maxParked: nat, hash: T.Name -> nat, steps: seq<Step>, w: World, skew: real, t: T.Token)
    requires skew >= 0.0 && Run(Start(now, numShards, maxParked, hash), steps, w, skew)
    requires t in w.clients && Active(w.clients[t])
    ensures ReleasedEverywhere(After(w, Leave(t), skew), t)
  {
    ReachedPending(now, numShards, maxParked, hash, steps, w, skew);
    hide Run, WorldOk;
    assert ClientPending(w.clients[t], t, w.servers);
  }

  /** close() releases every lease of its process that has been granted a shard, as far as it has come. */
  lemma ClosingReleases(now: real, numShards: nat, maxParked: nat, hash: T.Name -> nat, steps: seq<Step>, w: World, skew: real, process: nat, t: T.Token)
    requires skew >= 0.0 && Run(Start(now, numShards, maxParked, hash), steps, w, skew)
    requires t in w.clients && Active(w.clients[t]) && w.clients[t].process == process && w.clients[t].registered
    ensures ReleasedEverywhere(After(w, Close(process), skew), t)
  {
    ReachedPending(now, numShards, maxParked, hash, steps, w, skew);
    hide Run, WorldOk;
    assert ClientPending(w.clients[t], t, w.servers);
  }

  lemma ReachedPending(now: real, numShards: nat, maxParked: nat, hash: T.Name -> nat, steps: seq<Step>, w: World, skew: real)
    requires skew >= 0.0 && Run(Start(now, numShards, maxParked, hash), steps, w, skew)
    ensures PendingOk(w.clients, w.servers)
  {
    StartOk(now, numShards, maxParked, hash, skew);
    hide Run, WorldOk;
    RunPending(Start(now, numShards, maxParked, hash), steps, w, skew);
  }
}
