/**
 Requests over several shards cannot deadlock: clients visit shards in ascending order, so whoever blocks a waiter
 waits further on, or nowhere.
 */
module LeaseOrder {
  import opened Prelude
  import opened LeaseProtocol
  import opened LeaseSafety
  import T = LockTable
  import I = LockInvariants
  import R = LockRuns

  ghost predicate WaitsAt(w: World, t: T.Token, k: nat) {
    k < |w.servers| && t in w.servers[k].waiting
  }

  ghost predicate Waits(w: World, t: T.Token) {
    exists k: nat :: WaitsAt(w, t, k)
  }

  ghost predicate Holds(w: World, t: T.Token) {
    exists k :: 0 <= k < |w.servers| && t in w.servers[k].leases
  }

  /** At this actor `u` holds a name that `t` waits for, or is ahead of it in a queue. */
  ghost predicate BlocksAt(s: T.State, u: T.Token, t: T.Token)
    requires t in s.waiting
  {
    || (exists n :: n in s.waiting[t].names && n in s.holder && s.holder[n] == u)
    || (u in s.waiting && s.waiting[u].id < s.waiting[t].id && I.SharesName(s.waiting[u].names, s.waiting[t].names))
  }

  ghost predicate Blocks(w: World, u: T.Token, t: T.Token) {
    exists k: nat :: WaitsAt(w, t, k) && BlocksAt(w.servers[k], u, t)
  }

  /** The order (shard, arrival): `u` waits at a later shard than `t`, or before it at the same one. */
  ghost predicate FurtherOn(w: World, u: T.Token, l: nat, t: T.Token, k: nat)
    requires WaitsAt(w, u, l) && WaitsAt(w, t, k)
  {
    l > k || (l == k && w.servers[l].waiting[u].id < w.servers[k].waiting[t].id)
  }

  lemma WaitsAtOneShard(w: World, t: T.Token, k: nat, skew: real)
    requires WorldOk(w, skew) && WaitsAt(w, t, k)
    ensures t in w.clients && w.clients[t].cursor < |w.clients[t].plan| && At(w, t) == k
  {
    ServerOf(w, k, skew);
  }

  /** A client that waits holds only at earlier shards. */
  lemma HoldsOnlyEarlier(w: World, u: T.Token, l: nat, k: nat, skew: real)
    requires WorldOk(w, skew) && WaitsAt(w, u, l) && k < |w.servers| && u in w.servers[k].leases
    ensures k < l
  {
    WaitsAtOneShard(w, u, l, skew);
    ServerOf(w, k, skew);
    ClientOf(w, u, skew);
    var c, lease := w.clients[u], w.servers[k].leases[u];
    assert Reached(c, k, lease.names, lease.leaseS);
    var i: nat :| PlanEntry(c, i, k, lease.names, lease.leaseS);
    Separate(w, u, k, skew);
    assert i != c.cursor;
  }

  lemma Separate(w: World, u: T.Token, k: nat, skew: real)
    requires WorldOk(w, skew) && k < |w.servers| && u in w.servers[k].leases
    ensures u !in w.servers[k].waiting
  {
    ServerOf(w, k, skew);
    hide WorldOk, I.NoneHeads, T.HoldersOk, T.QueuesOk;
  }

  /** Whoever blocks a waiter waits further on, or nowhere. */
  lemma BlockerIsFurtherOn(w: World, u: T.Token, l: nat, t: T.Token, k: nat, skew: real)
    requires WorldOk(w, skew) && WaitsAt(w, t, k) && BlocksAt(w.servers[k], u, t) && WaitsAt(w, u, l)
    ensures FurtherOn(w, u, l, t, k)
  {
    var s := w.servers[k];
    if u in s.waiting {
      WaitsAtOneShard(w, u, k, skew);
      WaitsAtOneShard(w, u, l, skew);
      if n :| n in s.waiting[t].names && n in s.holder && s.holder[n] == u {
        HolderHolds(w, k, n, skew);
        Separate(w, u, k, skew);
      }
    } else {
      var n :| n in s.waiting[t].names && n in s.holder && s.holder[n] == u;
      HolderHolds(w, k, n, skew);
      HoldsOnlyEarlier(w, u, l, k, skew);
    }
  }

  lemma HolderHolds(w: World, k: nat, n: T.Name, skew: real)
    requires WorldOk(w, skew) && k < |w.servers| && n in w.servers[k].holder
    ensures w.servers[k].holder[n] in w.servers[k].leases
  {
    ServerOf(w, k, skew);
    hide WorldOk, I.NoneHeads, T.QueuesOk;
  }

  /** No waiter waits for nothing. */
  lemma SomeoneBlocksAt(s: T.State, t: T.Token) returns (u: T.Token)
    requires T.Tables(s) && I.NoneGrantable(s) && t in s.waiting
    ensures BlocksAt(s, u, t)
    ensures u in s.leases || u in s.waiting
  {
    assert !T.Heads(s.holder, s.queues, s.waiting[t].names, t);
    var n :| n in s.waiting[t].names && !(n !in s.holder && n in s.queues && s.queues[n] != [] && s.queues[n][0] == t);
    if n in s.holder {
      u := s.holder[n];
    } else {
      I.HeadIsOldest(s, n, t);
      u := s.queues[n][0];
      assert T.QueueOk(s.queues[n], n, s.waiting);
      assert n in s.waiting[u].names;
    }
  }

  lemma SomeoneBlocks(w: World, t: T.Token, k: nat, skew: real) returns (u: T.Token)
    requires WorldOk(w, skew) && WaitsAt(w, t, k)
    ensures BlocksAt(w.servers[k], u, t) && Blocks(w, u, t)
    ensures Holds(w, u) || WaitsAt(w, u, k)
  {
    ServerOf(w, k, skew);
    hide WorldOk, T.Tables, I.NoneGrantable;
    u := SomeoneBlocksAt(w.servers[k], t);
  }

  ghost predicate Chain(w: World, path: seq<T.Token>) {
    path != [] && forall i :: 0 <= i < |path| - 1 ==> Blocks(w, path[i + 1], path[i])
  }

  /** From any waiter the blocked-by relation leads to a lease holder that waits for nothing. */
  lemma {:induction false} EveryWaitEndsAtARunner(w: World, t: T.Token, k: nat, skew: real) returns (path: seq<T.Token>)
    requires WorldOk(w, skew) && WaitsAt(w, t, k)
    ensures Chain(w, path) && path[0] == t
    ensures var last := path[|path| - 1]; Holds(w, last) && !Waits(w, last)
    decreases |w.servers| - k, w.servers[k].waiting[t].id
  {
    hide WorldOk, BlocksAt, Blocks, Chain, Holds;
    var u := SomeoneBlocks(w, t, k, skew);
    if l: nat :| WaitsAt(w, u, l) {
      BlockerIsFurtherOn(w, u, l, t, k, skew);
      path := EveryWaitEndsAtARunner(w, u, l, skew);
      ChainStarts(w, path);
    } else {
      path := [u];
      ChainOfOne(w, u);
    }
    ChainCons(w, t, path);
    path := [t] + path;
  }

  lemma ChainStarts(w: World, path: seq<T.Token>)
    requires Chain(w, path)
    ensures path != []
  {
  }

  lemma ChainOfOne(w: World, u: T.Token)
    ensures Chain(w, [u])
  {
  }

  lemma ChainCons(w: World, t: T.Token, path: seq<T.Token>)
    requires Chain(w, path) && Blocks(w, path[0], t)
    ensures Chain(w, [t] + path)
  {
    var longer := [t] + path;
    forall i | 0 <= i < |longer| - 1 ensures Blocks(w, longer[i + 1], longer[i]) {
      assert i > 0 ==> Blocks(w, path[i - 1 + 1], path[i - 1]);
    }
  }

  lemma {:induction false} ChainLeadsOn(w: World, path: seq<T.Token>, i: nat, j: nat, k: nat, l: nat, skew: real)
    requires WorldOk(w, skew) && Chain(w, path) && i < j < |path|
    requires WaitsAt(w, path[i], k) && WaitsAt(w, path[j], l)
    ensures FurtherOn(w, path[j], l, path[i], k)
    decreases j
  {
    hide WorldOk, BlocksAt;
    assert Blocks(w, path[j - 1 + 1], path[j - 1]);
    var m: nat :| WaitsAt(w, path[j - 1], m) && BlocksAt(w.servers[m], path[j], path[j - 1]);
    BlockerIsFurtherOn(w, path[j], l, path[j - 1], m, skew);
    if i == j - 1 {
      WaitsAtOneShard(w, path[i], k, skew);
      WaitsAtOneShard(w, path[i], m, skew);
    } else {
      ChainLeadsOn(w, path, i, j - 1, k, m, skew);
    }
  }

  /** No chain of blocked requests closes into a cycle. */
  lemma NoDeadlock(w: World, path: seq<T.Token>, i: nat, j: nat, skew: real)
    requires WorldOk(w, skew) && Chain(w, path) && i < j < |path|
    ensures path[i] != path[j]
  {
    assert Blocks(w, path[i + 1], path[i]);
    var k: nat :| WaitsAt(w, path[i], k);
    hide WorldOk;
    if path[i] == path[j] {
      ChainLeadsOn(w, path, i, j, k, k, skew);
    }
  }
}
