/** Mutual exclusion of kv_global_lock in every reachable world, and the one thing it rests on. */
module LeaseSafety {
  import opened Prelude
  import opened LeaseProtocol
  import T = LockTable
  import I = LockInvariants
  import R = LockRuns
  import S = LockService
  import X = LockEffects

  // ---------------------------------------------------------------- the invariant

  ghost predicate ServersOk(servers: seq<T.State>, numShards: nat, now: real) {
    && |servers| == numShards
    && forall k :: 0 <= k < |servers| ==> R.Inv(servers[k], now) && servers[k].numShards == numShards
  }

  ghost predicate PlanOk(plan: seq<ShardNames>, leaseS: real, numShards: nat, hash: T.Name -> nat) {
    && (forall i :: 0 <= i < |plan| ==> EntryOk(plan[i], leaseS, numShards, hash))
    && (forall i, j :: 0 <= i < j < |plan| ==> plan[i].shard < plan[j].shard)
  }

  ghost predicate EntryOk(e: ShardNames, leaseS: real, numShards: nat, hash: T.Name -> nat) {
    && e.shard < numShards && T.Request(e.names, leaseS)
    && forall n :: n in e.names ==> Shard(hash, numShards, n) == e.shard
  }

  ghost predicate PlansOk(clients: map<T.Token, Client>, numShards: nat, hash: T.Name -> nat) {
    forall t :: t in clients ==> clients[t].cursor <= |clients[t].plan| && PlanOk(clients[t].plan, clients[t].leaseS, numShards, hash)
  }

  /** The call is at the client's current shard, and `sent` was read at the latest `skew` after its reply left. */
  ghost predicate CallOk(c: Client, now: real, skew: real) {
    c.call.Calling? ==>
      && c.cursor < |c.plan|
      && (c.call.sent.Some? ==> c.call.sent.value <= now)
      && (c.call.sent.Some? && c.call.stage.InReply? ==> c.call.sent.value <= c.call.stage.replied + skew)
  }

  /** What the actor knows of the call. */
  ghost predicate CallServed(c: Client, t: T.Token, servers: seq<T.State>) {
    c.call.Calling? && c.cursor < |c.plan| ==>
      var shard := c.plan[c.cursor].shard;
      && shard < |servers|
      && (c.call.stage.Suspended? ==> c.call.stage.call in servers[shard].calls && servers[shard].calls[c.call.stage.call].token == t)
      && (c.call.stage.InReply? && c.call.stage.remaining.Some? ==> t !in servers[shard].waiting)
  }

  ghost predicate CallsOk(clients: map<T.Token, Client>, servers: seq<T.State>, now: real, skew: real) {
    forall t :: t in clients ==> CallOk(clients[t], now, skew) && CallServed(clients[t], t, servers)
  }

  ghost predicate PlanEntry(c: Client, i: nat, shard: nat, names: seq<T.Name>, leaseS: real) {
    i < |c.plan| && i <= c.cursor && c.plan[i] == ShardNames(shard, names) && c.leaseS == leaseS
  }

  /** Leases lie at shards the client has reached; it waits only at its current one. */
  ghost predicate Placed(clients: map<T.Token, Client>, shard: nat, s: T.State) {
    && (forall t :: t in s.leases ==> t in clients && Reached(clients[t], shard, s.leases[t].names, s.leases[t].leaseS))
    && (forall t :: t in s.waiting ==> t in clients && PlanEntry(clients[t], clients[t].cursor, shard, s.waiting[t].names, s.waiting[t].leaseS))
  }

  ghost predicate Reached(c: Client, shard: nat, names: seq<T.Name>, leaseS: real) {
    exists i: nat :: PlanEntry(c, i, shard, names, leaseS)
  }

  ghost predicate AllPlaced(clients: map<T.Token, Client>, servers: seq<T.State>) {
    forall k :: 0 <= k < |servers| ==> Placed(clients, k, servers[k])
  }

  ghost predicate Active(c: Client) {
    !c.left && !c.closed
  }

  ghost predicate ReleasesOk(clients: map<T.Token, Client>, releases: set<(T.Token, nat)>) {
    forall r :: r in releases ==> r.0 in clients && !Active(clients[r.0])
  }

  /** Until `until`, the actor of `shard` keeps the token's lease at least that long. */
  ghost predicate Held(servers: seq<T.State>, now: real, shard: nat, t: T.Token, until: real) {
    shard < |servers| && (now < until ==> t in servers[shard].leases && servers[shard].leases[t].expiresAt >= until)
  }

  ghost predicate PromiseOk(c: Client, t: T.Token, servers: seq<T.State>, now: real, skew: real) {
    Active(c) ==>
      && (c.cursor > 0 ==> c.deadline.Some?)
      && (forall i :: 0 <= i < c.cursor && i < |c.plan| && c.deadline.Some? ==> Held(servers, now, c.plan[i].shard, t, c.deadline.value - skew))
      && (c.call.Calling? && c.call.stage.InReply? && c.call.stage.remaining.Some? && c.cursor < |c.plan| ==>
            Held(servers, now, c.plan[c.cursor].shard, t, c.call.stage.replied + c.call.stage.remaining.value))
  }

  ghost predicate PromisesOk(clients: map<T.Token, Client>, servers: seq<T.State>, now: real, skew: real) {
    forall t :: t in clients ==> PromiseOk(clients[t], t, servers, now, skew)
  }

  ghost predicate RoundOk(r: Round, clients: map<T.Token, Client>, servers: seq<T.State>, now: real) {
    && r.last <= now
    && (forall t :: t in r.batch ==> t in clients && r.batch[t] <= clients[t].cursor && RenewalsOk(r, clients[t], t, servers, now))
  }

  ghost predicate RenewalsOk(r: Round, c: Client, t: T.Token, servers: seq<T.State>, now: real) {
    Active(c) ==> forall i :: 0 <= i < |c.plan| && (Said(r.arrived, c.plan[i].shard, t) || Said(r.answers, c.plan[i].shard, t)) ==>
                    Held(servers, now, c.plan[i].shard, t, r.last + c.leaseS)
  }

  ghost predicate RoundsOk(rounds: map<nat, Round>, clients: map<T.Token, Client>, servers: seq<T.State>, now: real) {
    forall p :: p in rounds ==> RoundOk(rounds[p], clients, servers, now)
  }

  ghost predicate WorldOk(w: World, skew: real) {
    && skew >= 0.0
    && ServersOk(w.servers, w.numShards, w.now)
    && PlansOk(w.clients, w.numShards, w.hash)
    && CallsOk(w.clients, w.servers, w.now, skew)
    && AllPlaced(w.clients, w.servers)
    && ReleasesOk(w.clients, w.releases)
    && PromisesOk(w.clients, w.servers, w.now, skew)
    && RoundsOk(w.rounds, w.clients, w.servers, w.now)
  }

  // ---------------------------------------------------------------- one actor takes one event

  /** The event fits the world: an acquire is the client's own call, a wake its suspended one, a release was sent. */
  ghost predicate Fits(w: World, shard: nat, e: R.Event) {
    && shard < |w.servers| && R.Allowed(w.servers[shard], e)
    && (e.AcquireCall? ==> InCall(w, e.token) && w.clients[e.token].call.stage.InRequest? && shard == At(w, e.token)
                           && e == AcquireEvent(w, e.token))
    && (e.Wake? ==> exists t :: Wakes(w, shard, e.call, t))
    && (e.ReleaseCall? ==> e.token in w.clients ==> !Active(w.clients[e.token]))
  }

  ghost predicate Wakes(w: World, shard: nat, call: nat, t: T.Token) {
    InCall(w, t) && w.clients[t].call.stage == Suspended(call) && shard == At(w, t)
  }

  /** Every client keeps its call as the actor knows it, but for the one whose call the event moves on. */
  ghost predicate Moves(w: World, k: nat, e: R.Event, t: T.Token) {
    || (e.AcquireCall? && e.token == t)
    || (e.Wake? && Wakes(w, k, e.call, t))
  }

  lemma ServeEffect(w: World, shard: nat, e: R.Event, skew: real)
    requires WorldOk(w, skew) && Fits(w, shard, e)
    ensures HasTables(w, shard)
    ensures R.Inv(Serve(w, shard, e).servers[shard], w.now)
    ensures X.Effect(w.servers[shard], e, Serve(w, shard, e).servers[shard], w.now)
  {
    assert R.Inv(w.servers[shard], w.now);
    R.StepInv(w.servers[shard], e, w.now);
    X.StepEffect(w.servers[shard], e, w.now);
  }

  lemma HeldServed(servers: seq<T.State>, k: nat, e: R.Event, s': T.State, now: real, shard: nat, t: T.Token, until: real)
    requires k < |servers| && X.Effect(servers[k], e, s', now) && e != R.ReleaseCall(t)
    requires Held(servers, now, shard, t, until)
    ensures Held(servers[k := s'], now, shard, t, until)
  {
    if shard == k && now < until {
      assert X.LeaseKept(servers[k], e, s', now, t);
    }
  }

  lemma PromiseServed(c: Client, t: T.Token, servers: seq<T.State>, k: nat, e: R.Event, s': T.State, now: real, skew: real)
    requires k < |servers| && X.Effect(servers[k], e, s', now) && (Active(c) ==> e != R.ReleaseCall(t))
    requires PromiseOk(c, t, servers, now, skew)
    ensures PromiseOk(c, t, servers[k := s'], now, skew)
  {
    hide Held, X.Effect;
    if Active(c) {
      forall i | 0 <= i < c.cursor && i < |c.plan| && c.deadline.Some?
        ensures Held(servers[k := s'], now, c.plan[i].shard, t, c.deadline.value - skew)
      {
        HeldServed(servers, k, e, s', now, c.plan[i].shard, t, c.deadline.value - skew);
      }
      if c.call.Calling? && c.call.stage.InReply? && c.call.stage.remaining.Some? && c.cursor < |c.plan| {
        HeldServed(servers, k, e, s', now, c.plan[c.cursor].shard, t, c.call.stage.replied + c.call.stage.remaining.value);
      }
    }
  }

  lemma RoundServed(r: Round, clients: map<T.Token, Client>, servers: seq<T.State>, k: nat, e: R.Event, s': T.State, now: real)
    requires k < |servers| && X.Effect(servers[k], e, s', now)
    requires e.ReleaseCall? && e.token in clients ==> !Active(clients[e.token])
    requires RoundOk(r, clients, servers, now)
    ensures RoundOk(r, clients, servers[k := s'], now)
  {
    hide Held, X.Effect;
    forall t, i | t in r.batch && Active(clients[t]) && 0 <= i < |clients[t].plan|
                  && (Said(r.arrived, clients[t].plan[i].shard, t) || Said(r.answers, clients[t].plan[i].shard, t))
      ensures Held(servers[k := s'], now, clients[t].plan[i].shard, t, r.last + clients[t].leaseS)
    {
      assert RenewalsOk(r, clients[t], t, servers, now);
      HeldServed(servers, k, e, s', now, clients[t].plan[i].shard, t, r.last + clients[t].leaseS);
    }
  }

  lemma PlacedServed(clients: map<T.Token, Client>, k: nat, s: T.State, e: R.Event, s': T.State, now: real)
    requires Placed(clients, k, s) && X.Effect(s, e, s', now)
    requires e.AcquireCall? ==> e.token in clients && PlanEntry(clients[e.token], clients[e.token].cursor, k, e.names, e.leaseS)
    ensures Placed(clients, k, s')
  {
    hide X.LeaseKept, PlanEntry;
    forall t | t in s'.leases ensures t in clients && Reached(clients[t], k, s'.leases[t].names, s'.leases[t].leaseS) {
      assert X.Asked(s, e, t, s'.leases[t].names, s'.leases[t].leaseS);
    }
    forall t | t in s'.waiting
      ensures t in clients && PlanEntry(clients[t], clients[t].cursor, k, s'.waiting[t].names, s'.waiting[t].leaseS)
    {
      assert X.Waited(s, e, t, s'.waiting[t].names, s'.waiting[t].leaseS);
    }
  }

  lemma CallServedOn(w: World, k: nat, e: R.Event, s': T.State, skew: real, t: T.Token)
    requires WorldOk(w, skew) && Fits(w, k, e) && X.Effect(w.servers[k], e, s', w.now)
    requires t in w.clients && !Moves(w, k, e, t)
    ensures CallServed(w.clients[t], t, w.servers[k := s'])
  {
    var c, s := w.clients[t], w.servers[k];
    hide AllPlaced, PromisesOk, RoundsOk, ServersOk, PlansOk, X.LeaseKept, X.Asked;
    assert CallServed(c, t, w.servers);
    if c.call.Calling? && c.cursor < |c.plan| && c.plan[c.cursor].shard == k {
      if c.call.stage.InReply? && t in s'.waiting {
        assert X.Waited(s, e, t, s'.waiting[t].names, s'.waiting[t].leaseS);
      }
    }
  }

  lemma ServeKeepsPromises(w: World, k: nat, e: R.Event, s': T.State, skew: real)
    requires WorldOk(w, skew) && Fits(w, k, e) && X.Effect(w.servers[k], e, s', w.now)
    ensures PromisesOk(w.clients, w.servers[k := s'], w.now, skew) && RoundsOk(w.rounds, w.clients, w.servers[k := s'], w.now)
  {
    hide R.Inv, X.Effect, PromiseOk, RoundOk, PlansOk, CallsOk, AllPlaced;
    forall t | t in w.clients ensures PromiseOk(w.clients[t], t, w.servers[k := s'], w.now, skew) {
      PromiseServed(w.clients[t], t, w.servers, k, e, s', w.now, skew);
    }
    forall p | p in w.rounds ensures RoundOk(w.rounds[p], w.clients, w.servers[k := s'], w.now) {
      RoundServed(w.rounds[p], w.clients, w.servers, k, e, s', w.now);
    }
  }

  /** All of the invariant but the moved call survives one event at one actor. */
  lemma ServeKeeps(w: World, k: nat, e: R.Event, skew: real)
    requires WorldOk(w, skew) && Fits(w, k, e)
    ensures HasTables(w, k)
    ensures var w' := Serve(w, k, e);
            && ServersOk(w'.servers, w.numShards, w.now) && AllPlaced(w.clients, w'.servers)
            && PromisesOk(w.clients, w'.servers, w.now, skew) && RoundsOk(w.rounds, w.clients, w'.servers, w.now)
            && forall t :: t in w.clients && !Moves(w, k, e, t) ==> CallServed(w.clients[t], t, w'.servers)
  {
    ServeEffect(w, k, e, skew);
    var w' := Serve(w, k, e);
    var s' := w'.servers[k];
    hide R.Inv, X.Effect, PromiseOk, RoundOk, Placed, CallServed, CallOk;
    ServeKeepsPromises(w, k, e, s', skew);
    assert Placed(w.clients, k, w.servers[k]);
    PlacedServed(w.clients, k, w.servers[k], e, s', w.now);
    forall t | t in w.clients && !Moves(w, k, e, t) ensures CallServed(w.clients[t], t, w'.servers) {
      CallServedOn(w, k, e, s', skew, t);
    }
  }

  // ---------------------------------------------------------------- one client moves

  ghost predicate MovesTo(c: Client, c': Client) {
    && c'.plan == c.plan && c'.leaseS == c.leaseS && c.cursor <= c'.cursor <= |c.plan| && (Active(c') ==> Active(c))
  }

  /** Everything but what concerns the call of `t`. */
  ghost predicate OkBut(w: World, t: T.Token, skew: real) {
    && skew >= 0.0
    && ServersOk(w.servers, w.numShards, w.now)
    && PlansOk(w.clients, w.numShards, w.hash)
    && (forall u :: u in w.clients && u != t ==> CallOk(w.clients[u], w.now, skew) && CallServed(w.clients[u], u, w.servers))
    && AllPlaced(w.clients, w.servers)
    && ReleasesOk(w.clients, w.releases)
    && (forall u :: u in w.clients && u != t ==> PromiseOk(w.clients[u], u, w.servers, w.now, skew))
    && RoundsOk(w.rounds, w.clients, w.servers, w.now)
  }

  lemma OkIsOkBut(w: World, t: T.Token, skew: real)
    requires WorldOk(w, skew)
    ensures OkBut(w, t, skew)
  {
  }

  lemma RoundMoves(r: Round, clients: map<T.Token, Client>, t: T.Token, c': Client, servers: seq<T.State>, now: real)
    requires RoundOk(r, clients, servers, now) && t in clients && MovesTo(clients[t], c')
    ensures RoundOk(r, clients[t := c'], servers, now)
  {
    hide Held;
    forall u | u in r.batch ensures u in clients[t := c'] && r.batch[u] <= clients[t := c'][u].cursor && RenewalsOk(r, clients[t := c'][u], u, servers, now) {
      assert RenewalsOk(r, clients[u], u, servers, now);
    }
  }

  lemma PlacedMoves(clients: map<T.Token, Client>, t: T.Token, c': Client, k: nat, s: T.State)
    requires Placed(clients, k, s) && t in clients && MovesTo(clients[t], c')
    requires c'.cursor == clients[t].cursor || t !in s.waiting
    ensures Placed(clients[t := c'], k, s)
  {
    forall u | u in s.leases ensures Reached(clients[t := c'][u], k, s.leases[u].names, s.leases[u].leaseS) {
      assert Reached(clients[u], k, s.leases[u].names, s.leases[u].leaseS);
      var i: nat :| PlanEntry(clients[u], i, k, s.leases[u].names, s.leases[u].leaseS);
      assert PlanEntry(clients[t := c'][u], i, k, s.leases[u].names, s.leases[u].leaseS);
    }
  }

  lemma ClientMoves(w: World, t: T.Token, c': Client, skew: real)
    requires OkBut(w, t, skew) && t in w.clients && MovesTo(w.clients[t], c')
    requires c'.cursor == w.clients[t].cursor || forall k :: 0 <= k < |w.servers| ==> t !in w.servers[k].waiting
    requires CallOk(c', w.now, skew) && CallServed(c', t, w.servers) && PromiseOk(c', t, w.servers, w.now, skew)
    ensures WorldOk(SetClient(w, t, c'), skew)
  {
    var w' := SetClient(w, t, c');
    hide CallOk, CallServed, PromiseOk, RoundOk, Placed, PlanOk, R.Inv;
    forall p | p in w'.rounds ensures RoundOk(w'.rounds[p], w'.clients, w'.servers, w'.now) {
      RoundMoves(w.rounds[p], w.clients, t, c', w.servers, w.now);
    }
    forall k | 0 <= k < |w.servers| ensures Placed(w'.clients, k, w.servers[k]) {
      PlacedMoves(w.clients, t, c', k, w.servers[k]);
    }
  }

  // ---------------------------------------------------------------- the steps

  lemma TickOk(w: World, later: real, skew: real)
    requires WorldOk(w, skew) && w.now <= later
    ensures WorldOk(w.(now := later), skew)
  {
    hide Placed, PlanOk, CallServed;
    forall k | 0 <= k < |w.servers| ensures R.Inv(w.servers[k], later) {
      R.LaterInv(w.servers[k], w.now, later);
    }
    hide R.Inv;
    forall t | t in w.clients ensures PromiseOk(w.clients[t], t, w.servers, later, skew) {
      assert PromiseOk(w.clients[t], t, w.servers, w.now, skew);
    }
    forall p | p in w.rounds ensures RoundOk(w.rounds[p], w.clients, w.servers, later) {
      RoundLater(w.rounds[p], w.clients, w.servers, w.now, later);
    }
  }

  lemma RoundLater(r: Round, clients: map<T.Token, Client>, servers: seq<T.State>, now: real, later: real)
    requires RoundOk(r, clients, servers, now) && now <= later
    ensures RoundOk(r, clients, servers, later)
  {
    forall t | t in r.batch ensures RenewalsOk(r, clients[t], t, servers, later) {
      assert RenewalsOk(r, clients[t], t, servers, now);
    }
  }

  lemma {:induction false} NamesOfOk(hash: T.Name -> nat, numShards: nat, names: seq<T.Name>, shard: nat)
    requires numShards > 0 && Distinct(names)
    ensures Distinct(NamesOf(hash, numShards, names, shard))
    ensures forall n :: n in NamesOf(hash, numShards, names, shard) <==> n in names && Shard(hash, numShards, n) == shard
  {
    if names != [] {
      var k := |names| - 1;
      assert names == names[..k] + [names[k]];
      NamesOfOk(hash, numShards, names[..k], shard);
    }
  }

  /** The plan visits shards in ascending order, each with the names that hash to it. */
  lemma {:induction false} PlanFromOk(hash: T.Name -> nat, numShards: nat, names: seq<T.Name>, from: nat, leaseS: real)
    requires numShards > 0 && Distinct(names) && leaseS > 0.0
    ensures PlanOk(PlanFrom(hash, numShards, names, from), leaseS, numShards, hash)
    ensures forall i :: 0 <= i < |PlanFrom(hash, numShards, names, from)| ==> PlanFrom(hash, numShards, names, from)[i].shard >= from
    decreases numShards - from
  {
    if from < numShards {
      var mine := NamesOf(hash, numShards, names, from);
      NamesOfOk(hash, numShards, names, from);
      assert PlanFrom(hash, numShards, names, from) == (if mine == [] then [] else [ShardNames(from, mine)]) + PlanFrom(hash, numShards, names, from + 1);
      hide PlanFrom, PlanOk, EntryOk;
      PlanFromOk(hash, numShards, names, from + 1, leaseS);
      var rest := PlanFrom(hash, numShards, names, from + 1);
      if mine != [] {
        PlanCons(ShardNames(from, mine), rest, leaseS, numShards, hash);
        ShardsCons(ShardNames(from, mine), rest, from);
      } else {
        assert [] + rest == rest;
      }
    }
  }

  lemma ShardsCons(e: ShardNames, rest: seq<ShardNames>, from: nat)
    requires e.shard >= from && forall i :: 0 <= i < |rest| ==> rest[i].shard >= from + 1
    ensures forall i :: 0 <= i < |[e] + rest| ==> ([e] + rest)[i].shard >= from
  {
  }

  lemma PlanCons(e: ShardNames, rest: seq<ShardNames>, leaseS: real, numShards: nat, hash: T.Name -> nat)
    requires PlanOk(rest, leaseS, numShards, hash) && EntryOk(e, leaseS, numShards, hash)
    requires forall i :: 0 <= i < |rest| ==> e.shard < rest[i].shard
    ensures PlanOk([e] + rest, leaseS, numShards, hash)
  {
    hide EntryOk;
  }

  ghost predicate InPlan(plan: seq<ShardNames>, n: T.Name) {
    exists i :: 0 <= i < |plan| && n in plan[i].names
  }

  lemma InPlanCons(e: ShardNames, rest: seq<ShardNames>, n: T.Name)
    ensures InPlan([e] + rest, n) <==> n in e.names || InPlan(rest, n)
  {
    var plan := [e] + rest;
    assert plan[0] == e && forall i :: 0 <= i < |rest| ==> plan[i + 1] == rest[i];
    if i :| 0 <= i < |rest| && n in rest[i].names { assert n in plan[i + 1].names; }
  }

  /** The plan locks exactly the requested names. */
  lemma {:induction false} PlanCovers(hash: T.Name -> nat, numShards: nat, names: seq<T.Name>, from: nat, n: T.Name)
    requires numShards > 0 && Distinct(names)
    ensures InPlan(PlanFrom(hash, numShards, names, from), n) <==> n in names && Shard(hash, numShards, n) >= from
    decreases numShards - from
  {
    if from < numShards {
      var mine, rest := NamesOf(hash, numShards, names, from), PlanFrom(hash, numShards, names, from + 1);
      NamesOfOk(hash, numShards, names, from);
      PlanCovers(hash, numShards, names, from + 1, n);
      InPlanCons(ShardNames(from, mine), rest, n);
      assert [] + rest == rest;
    }
  }

  lemma BeginOk(w: World, t: T.Token, process: nat, names: seq<T.Name>, leaseS: real, skew: real)
    requires WorldOk(w, skew) && Enabled(w, Begin(t, process, names, leaseS), skew)
    ensures WorldOk(After(w, Begin(t, process, names, leaseS), skew), skew)
  {
    var c := Client(process, PlanFrom(w.hash, w.numShards, names, 0), leaseS, 0, NoCall, {}, None, false, false, false, false);
    assert After(w, Begin(t, process, names, leaseS), skew) == SetClient(w, t, c);
    assert w.numShards > 0 && Distinct(names) && leaseS > 0.0 && t !in w.clients;
    hide *;
    PlanFromOk(w.hash, w.numShards, names, 0, leaseS);
    NewClientOk(c, t, w.servers, w.now, skew);
    ClientJoins(w, t, c, skew);
  }

  /** A client that has not called yet changes nothing that was known. */
  lemma ClientJoins(w: World, t: T.Token, c: Client, skew: real)
    requires WorldOk(w, skew) && t !in w.clients && c.cursor <= |c.plan| && PlanOk(c.plan, c.leaseS, w.numShards, w.hash)
    requires CallOk(c, w.now, skew) && CallServed(c, t, w.servers) && PromiseOk(c, t, w.servers, w.now, skew)
    ensures WorldOk(SetClient(w, t, c), skew)
  {
    var clients := w.clients[t := c];
    JoinedRecords(w, t, c, skew);
    hide PlansOk, CallsOk, PromisesOk, ServersOk;
    hide RoundOk, Placed;
    forall k | 0 <= k < |w.servers| ensures Placed(clients, k, w.servers[k]) {
      PlacedWithNew(w.clients, t, c, k, w.servers[k]);
    }
    forall p | p in w.rounds ensures RoundOk(w.rounds[p], clients, w.servers, w.now) {
      RoundWithNew(w.rounds[p], w.clients, t, c, w.servers, w.now);
    }
  }

  lemma JoinedRecords(w: World, t: T.Token, c: Client, skew: real)
    requires PlansOk(w.clients, w.numShards, w.hash) && CallsOk(w.clients, w.servers, w.now, skew) && PromisesOk(w.clients, w.servers, w.now, skew)
    requires c.cursor <= |c.plan| && PlanOk(c.plan, c.leaseS, w.numShards, w.hash)
    requires CallOk(c, w.now, skew) && CallServed(c, t, w.servers) && PromiseOk(c, t, w.servers, w.now, skew)
    ensures PlansOk(w.clients[t := c], w.numShards, w.hash) && CallsOk(w.clients[t := c], w.servers, w.now, skew)
    ensures PromisesOk(w.clients[t := c], w.servers, w.now, skew)
  {
    hide PlanOk, CallOk, CallServed, PromiseOk;
  }

  lemma PlacedWithNew(clients: map<T.Token, Client>, t: T.Token, c: Client, k: nat, s: T.State)
    requires Placed(clients, k, s) && t !in clients
    ensures Placed(clients[t := c], k, s)
  {
  }

  lemma RoundWithNew(r: Round, clients: map<T.Token, Client>, t: T.Token, c: Client, servers: seq<T.State>, now: real)
    requires RoundOk(r, clients, servers, now) && t !in clients
    ensures RoundOk(r, clients[t := c], servers, now)
  {
    hide RenewalsOk;
  }

  lemma NewClientOk(c: Client, t: T.Token, servers: seq<T.State>, now: real, skew: real)
    requires c.call.NoCall? && c.cursor == 0
    ensures CallOk(c, now, skew) && CallServed(c, t, servers) && PromiseOk(c, t, servers, now, skew)
  {
  }

  lemma ClientOf(w: World, t: T.Token, skew: real)
    requires WorldOk(w, skew) && t in w.clients
    ensures var c := w.clients[t];
            && c.cursor <= |c.plan| && PlanOk(c.plan, c.leaseS, w.numShards, w.hash) && CallOk(c, w.now, skew)
            && CallServed(c, t, w.servers) && PromiseOk(c, t, w.servers, w.now, skew)
  {
  }

  lemma ServerOf(w: World, k: nat, skew: real)
    requires WorldOk(w, skew) && k < |w.servers|
    ensures R.Inv(w.servers[k], w.now) && w.servers[k].numShards == w.numShards && Placed(w.clients, k, w.servers[k])
  {
  }

  lemma EntryOf(w: World, t: T.Token, skew: real)
    requires WorldOk(w, skew) && t in w.clients && w.clients[t].cursor < |w.clients[t].plan|
    ensures At(w, t) < |w.servers| && EntryOk(w.clients[t].plan[w.clients[t].cursor], w.clients[t].leaseS, w.numShards, w.hash)
  {
    ClientOf(w, t, skew);
  }

  lemma SubmitOk(w: World, t: T.Token, skew: real)
    requires WorldOk(w, skew) && Enabled(w, Submit(t), skew)
    ensures WorldOk(After(w, Submit(t), skew), skew)
  {
    var c, c' := w.clients[t], After(w, Submit(t), skew).clients[t];
    OkIsOkBut(w, t, skew);
    ClientOf(w, t, skew);
    EntryOf(w, t, skew);
    hide WorldOk, OkBut, PlanOk;
    ClientMoves(w, t, c', skew);
  }

  lemma StampOk(w: World, t: T.Token, skew: real)
    requires WorldOk(w, skew) && Enabled(w, Stamp(t), skew)
    ensures WorldOk(After(w, Stamp(t), skew), skew)
  {
    var c, c' := w.clients[t], After(w, Stamp(t), skew).clients[t];
    OkIsOkBut(w, t, skew);
    ClientOf(w, t, skew);
    hide WorldOk, OkBut, PlanOk;
    ClientMoves(w, t, c', skew);
  }

  lemma TakeReplyOk(w: World, t: T.Token, skew: real)
    requires WorldOk(w, skew) && Enabled(w, TakeReply(t), skew)
    ensures WorldOk(After(w, TakeReply(t), skew), skew)
  {
    var c, c' := w.clients[t], After(w, TakeReply(t), skew).clients[t];
    OkIsOkBut(w, t, skew);
    ClientOf(w, t, skew);
    EntryOf(w, t, skew);
    TakenOk(c, t, w.servers, w.now, skew);
    if c'.cursor != c.cursor { NotWaiting(w, t, skew); }
    hide WorldOk, OkBut, PlanOk, PromiseOk;
    ClientMoves(w, t, c', skew);
  }

  lemma NotWaiting(w: World, t: T.Token, skew: real)
    requires WorldOk(w, skew) && InCall(w, t) && t !in w.servers[At(w, t)].waiting
    requires At(w, t) < |w.servers|
    ensures forall k :: 0 <= k < |w.servers| ==> t !in w.servers[k].waiting
  {
    forall k | 0 <= k < |w.servers| ensures t !in w.servers[k].waiting {
      assert Placed(w.clients, k, w.servers[k]);
    }
  }

  /** The new deadline is still covered by every shard granted so far. */
  lemma TakenOk(c: Client, t: T.Token, servers: seq<T.State>, now: real, skew: real)
    requires c.call.Calling? && c.call.stage.InReply? && c.call.sent.Some? && c.cursor < |c.plan|
    requires PromiseOk(c, t, servers, now, skew) && CallOk(c, now, skew) && CallServed(c, t, servers)
    ensures PromiseOk(Taken(c), t, servers, now, skew)
    ensures Taken(c).cursor != c.cursor ==> t !in servers[c.plan[c.cursor].shard].waiting
  {
    var c' := Taken(c);
    if Active(c) && c.call.stage.remaining.Some? {
      var until := c.call.stage.replied + c.call.stage.remaining.value;
      forall i | 0 <= i < c'.cursor ensures Held(servers, now, c.plan[i].shard, t, c'.deadline.value - skew) {
        if i < c.cursor {
          assert Held(servers, now, c.plan[i].shard, t, c.deadline.value - skew);
        } else {
          assert Held(servers, now, c.plan[i].shard, t, until);
        }
      }
    }
  }

  /** The reply of an acquire promises no more than the lease in force. */
  lemma CallMoved(c: Client, t: T.Token, servers: seq<T.State>, now: real, skew: real, stage: Stage)
    requires c.call.Calling? && c.cursor < |c.plan| && CallOk(c, now, skew) && PromiseOk(c, t, servers, now, skew)
    requires c.plan[c.cursor].shard < |servers| && skew >= 0.0
    requires var s := servers[c.plan[c.cursor].shard];
             match stage
             case InRequest => true
             case Suspended(call) => call in s.calls && s.calls[call].token == t
             case InReply(r, replied) => replied == now && (r.Some? ==> r == T.Remaining(s, t, now) && t !in s.waiting)
    ensures var c' := c.(call := c.call.(stage := stage));
            CallOk(c', now, skew) && CallServed(c', t, servers) && PromiseOk(c', t, servers, now, skew)
  {
    var c' := c.(call := c.call.(stage := stage));
    if Active(c') {
      forall i | 0 <= i < c'.cursor && i < |c'.plan| && c'.deadline.Some? ensures Held(servers, now, c'.plan[i].shard, t, c'.deadline.value - skew) {
        assert Held(servers, now, c.plan[i].shard, t, c.deadline.value - skew);
      }
    }
  }

  lemma AcquireArrivesOk(w: World, t: T.Token, skew: real)
    requires WorldOk(w, skew) && Enabled(w, AcquireArrives(t), skew)
    ensures R.Allowed(w.servers[At(w, t)], AcquireEvent(w, t))
    ensures WorldOk(After(w, AcquireArrives(t), skew), skew)
  {
    hide CallsOk, PlansOk, ReleasesOk, PromisesOk, Held, ServersOk, AllPlaced, RoundsOk;
    var c, k, e := w.clients[t], At(w, t), AcquireEvent(w, t);
    EntryOf(w, t, skew);
    ServerOf(w, k, skew);
    ClientOf(w, t, skew);
    X.EnterAnswers(w.servers[k], c.plan[c.cursor].names, t, c.leaseS, w.now);
    ServeKeeps(w, k, e, skew);
    var w1, c' := Serve(w, k, e), After(w, AcquireArrives(t), skew).clients[t];
    ServedIsOkBut(w, k, e, t, skew);
    hide WorldOk, OkBut, PlanOk, PromiseOk, CallOk, CallServed, ServersOk, AllPlaced, RoundsOk, R.Inv, T.Enter;
    assert PromiseOk(c, t, w1.servers, w1.now, skew) by { PromiseOf(w, k, e, t, skew); }
    CallMoved(c, t, w1.servers, w1.now, skew, c'.call.stage);
    ClientMoves(w1, t, c', skew);
  }

  lemma PromiseOf(w: World, k: nat, e: R.Event, t: T.Token, skew: real)
    requires WorldOk(w, skew) && Fits(w, k, e) && t in w.clients
    ensures HasTables(w, k) && PromiseOk(w.clients[t], t, Serve(w, k, e).servers, w.now, skew)
  {
    ServeKeeps(w, k, e, skew);
  }

  lemma ServedIsOkBut(w: World, k: nat, e: R.Event, t: T.Token, skew: real)
    requires WorldOk(w, skew) && Fits(w, k, e) && forall u :: Moves(w, k, e, u) ==> u == t
    ensures HasTables(w, k) && OkBut(Serve(w, k, e), t, skew)
  {
    ServeKeeps(w, k, e, skew);
    hide ServersOk, PlanOk, PromiseOk, CallOk, CallServed, AllPlaced, RoundsOk, R.Inv;
  }

  lemma OneCallEach(w: World, k: nat, call: nat, t: T.Token, u: T.Token, skew: real)
    requires WorldOk(w, skew) && Wakes(w, k, call, t) && Wakes(w, k, call, u)
    ensures t == u
  {
    assert CallServed(w.clients[t], t, w.servers) && CallServed(w.clients[u], u, w.servers);
  }

  lemma AcquireWakesOk(w: World, t: T.Token, skew: real)
    requires WorldOk(w, skew) && Enabled(w, AcquireWakes(t), skew)
    ensures WorldOk(After(w, AcquireWakes(t), skew), skew)
  {
    var c, k := w.clients[t], At(w, t);
    var e := R.Wake(c.call.stage.call);
    EntryOf(w, t, skew);
    ServerOf(w, k, skew);
    ClientOf(w, t, skew);
    X.ResumeAnswers(w.servers[k], c.call.stage.call, w.now);
    assert Wakes(w, k, e.call, t);
    ServeKeeps(w, k, e, skew);
    forall u | Moves(w, k, e, u) ensures u == t { OneCallEach(w, k, e.call, t, u, skew); }
    var w1, c' := Serve(w, k, e), After(w, AcquireWakes(t), skew).clients[t];
    ServedIsOkBut(w, k, e, t, skew);
    hide WorldOk, OkBut, PlanOk, PromiseOk, CallOk, ServersOk, AllPlaced, RoundsOk, R.Inv, T.Resume;
    assert PromiseOk(c, t, w1.servers, w1.now, skew) by { PromiseOf(w, k, e, t, skew); }
    CallMoved(c, t, w1.servers, w1.now, skew, c'.call.stage);
    ClientMoves(w1, t, c', skew);
  }

  // A process's leases are given up together.

  lemma GoneOk(c: Client, c': Client, t: T.Token, servers: seq<T.State>, now: real, skew: real)
    requires CallOk(c, now, skew) && CallServed(c, t, servers) && PromiseOk(c, t, servers, now, skew)
    requires c'.plan == c.plan && c'.leaseS == c.leaseS && c'.cursor == c.cursor && c'.call == c.call
    requires c'.deadline == c.deadline && (Active(c') ==> Active(c))
    ensures CallOk(c', now, skew) && CallServed(c', t, servers) && PromiseOk(c', t, servers, now, skew) && (c.cursor <= |c.plan| ==> MovesTo(c, c'))
  {
  }

  lemma LeaveOk(w: World, t: T.Token, skew: real)
    requires WorldOk(w, skew) && Enabled(w, Leave(t), skew)
    ensures WorldOk(After(w, Leave(t), skew), skew)
  {
    var c := w.clients[t];
    ClientOf(w, t, skew);
    OkIsOkBut(w, t, skew);
    GoneOk(c, Gone(c), t, w.servers, w.now, skew);
    ClientMoves(w, t, Gone(c), skew);
    hide ServersOk, PlansOk, CallsOk, AllPlaced, PromisesOk, RoundsOk;
    var w1, w' := SetClient(w, t, Gone(c)), After(w, Leave(t), skew);
    assert ReleasesOk(w1.clients, w1.releases);
  }

  /** Several clients change in ways that promise nothing new. */
  lemma ManyMove(w: World, clients': map<T.Token, Client>, skew: real)
    requires WorldOk(w, skew) && clients'.Keys == w.clients.Keys
    requires forall t :: t in w.clients ==>
               && MovesTo(w.clients[t], clients'[t]) && clients'[t].cursor == w.clients[t].cursor
               && CallOk(clients'[t], w.now, skew) && CallServed(clients'[t], t, w.servers) && PromiseOk(clients'[t], t, w.servers, w.now, skew)
    ensures WorldOk(w.(clients := clients'), skew)
  {
    hide CallOk, CallServed, PromiseOk, PlanOk, R.Inv;
    forall k | 0 <= k < |w.servers| ensures Placed(clients', k, w.servers[k]) {
      PlacedMany(w.clients, clients', k, w.servers[k]);
    }
    hide Placed;
    forall p | p in w.rounds ensures RoundOk(w.rounds[p], clients', w.servers, w.now) {
      RoundMany(w.rounds[p], w.clients, clients', w.servers, w.now);
    }
  }

  lemma PlacedMany(clients: map<T.Token, Client>, clients': map<T.Token, Client>, k: nat, s: T.State)
    requires Placed(clients, k, s) && clients'.Keys == clients.Keys
    requires forall t :: t in clients ==> MovesTo(clients[t], clients'[t]) && clients'[t].cursor == clients[t].cursor
    ensures Placed(clients', k, s)
  {
    forall u | u in s.leases ensures Reached(clients'[u], k, s.leases[u].names, s.leases[u].leaseS) {
      assert Reached(clients[u], k, s.leases[u].names, s.leases[u].leaseS);
      var i: nat :| PlanEntry(clients[u], i, k, s.leases[u].names, s.leases[u].leaseS);
      assert PlanEntry(clients'[u], i, k, s.leases[u].names, s.leases[u].leaseS);
    }
  }

  lemma RoundMany(r: Round, clients: map<T.Token, Client>, clients': map<T.Token, Client>, servers: seq<T.State>, now: real)
    requires RoundOk(r, clients, servers, now) && clients'.Keys == clients.Keys
    requires forall t :: t in clients ==> MovesTo(clients[t], clients'[t])
    ensures RoundOk(r, clients', servers, now)
  {
    hide Held;
    forall t | t in r.batch ensures RenewalsOk(r, clients'[t], t, servers, now) {
      assert RenewalsOk(r, clients[t], t, servers, now);
    }
  }

  lemma CloseOk(w: World, process: nat, skew: real)
    requires WorldOk(w, skew)
    ensures WorldOk(After(w, Close(process), skew), skew)
  {
    var w' := After(w, Close(process), skew);
    forall t | t in w.clients
      ensures MovesTo(w.clients[t], w'.clients[t]) && w'.clients[t].cursor == w.clients[t].cursor
      ensures CallOk(w'.clients[t], w.now, skew) && CallServed(w'.clients[t], t, w.servers) && PromiseOk(w'.clients[t], t, w.servers, w.now, skew)
    {
      ClientOf(w, t, skew);
      GoneOk(w.clients[t], w'.clients[t], t, w.servers, w.now, skew);
    }
    hide CallOk, CallServed, PromiseOk;
    ManyMove(w, w'.clients, skew);
    hide ServersOk, PlansOk, CallsOk, AllPlaced, PromisesOk, RoundsOk;
    assert ReleasesOk(w.clients, w.releases);
  }

  // ---------------------------------------------------------------- events that move no client

  lemma ServeOnlyOk(w: World, k: nat, e: R.Event, skew: real)
    requires WorldOk(w, skew) && Fits(w, k, e) && !e.AcquireCall? && !e.Wake?
    ensures HasTables(w, k) && WorldOk(Serve(w, k, e), skew)
  {
    ServeKeeps(w, k, e, skew);
    hide ServersOk, PlanOk, AllPlaced, PromisesOk, RoundsOk, CallServed;
    assert forall t :: !Moves(w, k, e, t);
  }

  lemma ReleaseArrivesOk(w: World, t: T.Token, shard: nat, skew: real)
    requires WorldOk(w, skew) && Enabled(w, ReleaseArrives(t, shard), skew)
    ensures WorldOk(After(w, ReleaseArrives(t, shard), skew), skew)
  {
    assert (t, shard) in w.releases && !Active(w.clients[(t, shard).0]);
    ServeOnlyOk(w, shard, R.ReleaseCall(t), skew);
    hide ServersOk, PlansOk, AllPlaced, PromisesOk, RoundsOk, CallsOk;
  }

  lemma ServeDropsNothing(w: World, strays: set<(nat, seq<T.Token>)>, skew: real)
    requires WorldOk(w, skew)
    ensures WorldOk(w.(strays := strays), skew)
  {
    hide ServersOk, PlansOk, AllPlaced, PromisesOk, RoundsOk, CallsOk;
  }

  // ---------------------------------------------------------------- renewal

  /** A token that the actor answered as alive is now held for its own length from the arrival, later than the round began. */
  lemma RenewalHolds(w: World, shard: nat, tokens: seq<T.Token>, t: T.Token, leaseS: real, skew: real)
    requires WorldOk(w, skew) && shard < |w.servers|
    requires t in tokens && T.Alive(w.servers[shard], t, w.now) && w.servers[shard].leases[t].leaseS == leaseS
    ensures Held(w.servers[shard := T.RenewMany(w.servers[shard], tokens, w.now).0], w.now, shard, t, w.now + leaseS)
  {
    ServerOf(w, shard, skew);
    X.TimelyOf(w.servers[shard], w.now);
    S.RenewManyLeases(w.servers[shard], tokens, w.now);
  }

  lemma PlanEntryLength(c: Client, shard: nat, names: seq<T.Name>, leaseS: real)
    requires Reached(c, shard, names, leaseS)
    ensures c.leaseS == leaseS
  {
  }

  lemma AnswerHolds(w: World, shard: nat, tokens: seq<T.Token>, t: T.Token, skew: real)
    requires WorldOk(w, skew) && shard < |w.servers| && t in w.clients
    requires var alive := T.RenewMany(w.servers[shard], tokens, w.now).1; t in alive && alive[t]
    ensures Held(w.servers[shard := T.RenewMany(w.servers[shard], tokens, w.now).0], w.now, shard, t, w.now + w.clients[t].leaseS)
  {
    ServerOf(w, shard, skew);
    X.TimelyOf(w.servers[shard], w.now);
    S.RenewManyLeases(w.servers[shard], tokens, w.now);
    var l := w.servers[shard].leases[t];
    PlanEntryLength(w.clients[t], shard, l.names, l.leaseS);
    RenewalHolds(w, shard, tokens, t, l.leaseS, skew);
  }

  lemma RenewArrivesOk(w: World, p: nat, shard: nat, skew: real)
    requires WorldOk(w, skew) && Enabled(w, RenewArrives(p, shard), skew)
    ensures WorldOk(After(w, RenewArrives(p, shard), skew), skew)
  {
    var r := w.rounds[p];
    var tokens := r.asked[shard];
    var e := R.RenewCall(tokens);
    ServeOnlyOk(w, shard, e, skew);
    var w1, r' := Serve(w, shard, e), After(w, RenewArrives(p, shard), skew).rounds[p];
    RoundOf(w1, p, skew);
    forall t | t in r'.batch ensures RenewalsOk(r', w1.clients[t], t, w1.servers, w1.now) {
      assert RenewalsOk(r, w1.clients[t], t, w1.servers, w1.now);
      if Said(r'.arrived, shard, t) {
        AnswerHolds(w, shard, tokens, t, skew);
      }
      hide WorldOk, T.RenewMany;
      ArrivalOk(r, r', shard, w1.clients[t], t, w1.servers, w1.now);
    }
    hide WorldOk, RenewalsOk, T.RenewMany;
    RoundReplaced(w1, p, r', skew);
  }

  lemma ArrivalOk(r: Round, r': Round, shard: nat, c: Client, t: T.Token, servers: seq<T.State>, now: real)
    requires RenewalsOk(r, c, t, servers, now) && r.last <= now
    requires shard in r'.arrived && r' == r.(arrived := r.arrived[shard := r'.arrived[shard]])
    requires Said(r'.arrived, shard, t) ==> Held(servers, now, shard, t, now + c.leaseS)
    ensures RenewalsOk(r', c, t, servers, now)
  {
  }

  lemma RoundOf(w: World, p: nat, skew: real)
    requires WorldOk(w, skew) && p in w.rounds
    ensures RoundOk(w.rounds[p], w.clients, w.servers, w.now)
  {
  }

  lemma RoundReplaced(w: World, p: nat, r: Round, skew: real)
    requires WorldOk(w, skew) && RoundOk(r, w.clients, w.servers, w.now)
    ensures WorldOk(w.(rounds := w.rounds[p := r]), skew)
  {
    hide ServersOk, PlansOk, AllPlaced, PromisesOk, CallsOk, RoundOk;
  }

  lemma RoundStepOk(w: World, step: Step, skew: real)
    requires WorldOk(w, skew) && Enabled(w, step, skew) && (step.RoundStarts? || step.RenewReplies? || step.RenewFails?)
    ensures WorldOk(After(w, step, skew), skew)
  {
    hide ServersOk, PlansOk, CallsOk, AllPlaced, ReleasesOk, PromisesOk, Held;
    var p := step.process;
    var r' := After(w, step, skew).rounds[p];
    if !step.RoundStarts? { RoundOf(w, p, skew); }
    forall t | t in r'.batch ensures RenewalsOk(r', w.clients[t], t, w.servers, w.now) {
      if !step.RoundStarts? { assert RenewalsOk(w.rounds[p], w.clients[t], t, w.servers, w.now); }
    }
    hide WorldOk, RenewalsOk;
    RoundReplaced(w, p, r', skew);
  }

  /** The renewed deadline counts from before the requests were sent, so every shard outlasts it. */
  lemma RenewedPromise(c: Client, t: T.Token, granted: nat, r: Round, servers: seq<T.State>, now: real, skew: real)
    requires PromiseOk(c, t, servers, now, skew) && RenewalsOk(r, c, t, servers, now) && granted <= |c.plan| && skew >= 0.0
    ensures PromiseOk(Renewed(c, t, granted, r), t, servers, now, skew)
  {
    var c' := Renewed(c, t, granted, r);
    if Active(c) && c' == c.(deadline := Some(r.last + c.leaseS)) && c.cursor == granted && forall i :: 0 <= i < granted ==> Said(r.answers, c.plan[i].shard, t) {
      forall i | 0 <= i < c'.cursor && i < |c'.plan| ensures Held(servers, now, c'.plan[i].shard, t, c'.deadline.value - skew) {
        assert Said(r.answers, c.plan[i].shard, t);
        assert Held(servers, now, c.plan[i].shard, t, r.last + c.leaseS);
      }
    }
  }

  lemma RenewedOk(w: World, p: nat, t: T.Token, skew: real)
    requires WorldOk(w, skew) && p in w.rounds && t in w.rounds[p].batch
    ensures t in w.clients && w.rounds[p].batch[t] <= |w.clients[t].plan|
    ensures var c, c' := w.clients[t], Renewed(w.clients[t], t, w.rounds[p].batch[t], w.rounds[p]);
            && MovesTo(c, c') && c'.cursor == c.cursor
            && CallOk(c', w.now, skew) && CallServed(c', t, w.servers) && PromiseOk(c', t, w.servers, w.now, skew)
  {
    RoundOf(w, p, skew);
    ClientOf(w, t, skew);
    assert RenewalsOk(w.rounds[p], w.clients[t], t, w.servers, w.now);
    assert skew >= 0.0;
    hide PlanOk, WorldOk, RenewalsOk, PromiseOk;
    RenewedPromise(w.clients[t], t, w.rounds[p].batch[t], w.rounds[p], w.servers, w.now, skew);
  }

  lemma RoundEndsOk(w: World, p: nat, skew: real)
    requires WorldOk(w, skew) && p in w.rounds
    ensures RoundRuns(w, p)
    ensures WorldOk(After(w, RoundEnds(p), skew), skew)
  {
    forall t | t in w.rounds[p].batch ensures t in w.clients && w.rounds[p].batch[t] <= |w.clients[t].plan| {
      RenewedOk(w, p, t, skew);
    }
    var w' := After(w, RoundEnds(p), skew);
    forall t | t in w.clients
      ensures MovesTo(w.clients[t], w'.clients[t]) && w'.clients[t].cursor == w.clients[t].cursor
      ensures CallOk(w'.clients[t], w.now, skew) && CallServed(w'.clients[t], t, w.servers) && PromiseOk(w'.clients[t], t, w.servers, w.now, skew)
    {
      ClientOf(w, t, skew);
      if t in w.rounds[p].batch { RenewedOk(w, p, t, skew); }
    }
    hide CallOk, CallServed, PromiseOk, Renewed;
    ManyMove(w, w'.clients, skew);
    hide ServersOk, PlansOk, AllPlaced, PromisesOk, CallsOk, RoundOk;
  }

  // ---------------------------------------------------------------- every step, every run

  lemma StepOk(w: World, step: Step, skew: real)
    requires WorldOk(w, skew) && Enabled(w, step, skew)
    ensures step.AcquireArrives? ==> R.Allowed(w.servers[At(w, step.token)], AcquireEvent(w, step.token))
    ensures step.RoundEnds? ==> RoundRuns(w, step.process)
    ensures WorldOk(After(w, step, skew), skew)
  {
    hide WorldOk;
    match step
    case Tick(later) => TickOk(w, later, skew);
    case Begin(t, process, names, leaseS) => BeginOk(w, t, process, names, leaseS, skew);
    case Submit(t) => SubmitOk(w, t, skew);
    case Stamp(t) => StampOk(w, t, skew);
    case AcquireArrives(t) => AcquireArrivesOk(w, t, skew);
    case AcquireWakes(t) => AcquireWakesOk(w, t, skew);
    case TakeReply(t) => TakeReplyOk(w, t, skew);
    case Leave(t) => LeaveOk(w, t, skew);
    case Close(process) => CloseOk(w, process, skew);
    case ReleaseArrives(t, shard) => ReleaseArrivesOk(w, t, shard, skew);
    case TimerFires(shard) => ServeOnlyOk(w, shard, R.TimerFires, skew);
    case RoundStarts(process, batch, asked) => RoundStepOk(w, step, skew);
    case RenewArrives(p, shard) => RenewArrivesOk(w, p, shard, skew);
    case RenewReplies(p, shard) => RoundStepOk(w, step, skew);
    case RenewFails(p, shard) => RoundStepOk(w, step, skew);
    case RoundEnds(p) => RoundEndsOk(w, p, skew);
    case StrayArrives(shard, tokens) =>
      ServeOnlyOk(w, shard, R.RenewCall(tokens), skew);
      ServeDropsNothing(Serve(w, shard, R.RenewCall(tokens)), w.strays - {(shard, tokens)}, skew);
  }
}
