/**
 The order of one actor's tombstones (transfer_queue/lock_manager.py). The source keeps the released tokens in
 insertion order, takes that for expiry order, and prunes only from the front. This module says in which runs that is
 right: exactly those in which no release renews the tombstone of a token while another released earlier lies behind it.
 */
module Tombstones {
  import opened Prelude
  import opened LockTable
  import opened LockInvariants
  import opened LockRuns
  import opened LockService

  // ---------------------------------------------------------------- one list

  ghost predicate InExpiryOrder(w: seq<Tombstone>) {
    forall i, j :: 0 <= i < j < |w| ==> w[i].until <= w[j].until
  }

  /** Pruning drops every tombstone that is due and no other. */
  ghost predicate PrunesExactly(w: seq<Tombstone>, now: real) {
    forall x :: x in Prune(w, now) <==> x in w && x.until > now
  }

  /** Where a token's tombstone lies; |w| if it has none. */
  function TombAt(w: seq<Tombstone>, token: Token): (i: nat)
    ensures i <= |w| && (i < |w| ==> w[i].token == token) && forall j :: 0 <= j < i ==> w[j].token != token
  {
    if w == [] then 0 else if w[0].token == token then 0 else 1 + TombAt(w[1..], token)
  }

  lemma {:induction false} EntombPlace(w: seq<Tombstone>, token: Token, until: real)
    ensures var i := TombAt(w, token);
            Entomb(w, token, until) == w[..i] + [Tombstone(token, until)] + if i < |w| then w[i + 1..] else []
  {
    if w != [] && w[0].token != token {
      EntombPlace(w[1..], token, until);
      var i := TombAt(w[1..], token);
      assert w[..i + 1] == [w[0]] + w[1..][..i];
    }
  }

  /** A tombstone behind this token's place was made before `until`. */
  ghost predicate EarlierBehind(w: seq<Tombstone>, token: Token, until: real) {
    exists j :: TombAt(w, token) < j < |w| && w[j].until < until
  }

  ghost predicate NoneLater(w: seq<Tombstone>, until: real) {
    forall i :: 0 <= i < |w| ==> w[i].until <= until
  }

  lemma EntombOrdered(w: seq<Tombstone>, token: Token, until: real)
    requires InExpiryOrder(w) && NoneLater(w, until)
    ensures InExpiryOrder(Entomb(w, token, until)) <==> !EarlierBehind(w, token, until)
    ensures NoneLater(Entomb(w, token, until), until)
  {
    hide Entomb, TombAt;
    var i, w' := TombAt(w, token), Entomb(w, token, until);
    EntombPlace(w, token, until);
    assert w'[i] == Tombstone(token, until);
    forall j | i < j < |w| ensures w'[j] == w[j] {}
    if EarlierBehind(w, token, until) {
      var j :| i < j < |w| && w[j].until < until;
      assert w'[i].until > w'[j].until;
    }
  }

  lemma PruneOrdered(w: seq<Tombstone>, now: real, until: real)
    requires InExpiryOrder(w) && NoneLater(w, until)
    ensures InExpiryOrder(Prune(w, now)) && NoneLater(Prune(w, now), until)
  {
    PruneKeepsUnexpired(w, now);
  }

  lemma {:induction false} OrderedPrunesExactly(w: seq<Tombstone>, now: real)
    requires InExpiryOrder(w)
    ensures PrunesExactly(w, now)
  {
    if w != [] {
      assert forall x :: x in w <==> x == w[0] || x in w[1..];
      if w[0].until <= now {
        OrderedPrunesExactly(w[1..], now);
      } else {
        forall x | x in w ensures x.until > now {
          var i :| 0 <= i < |w| && w[i] == x;
          assert i == 0 || w[0].until <= w[i].until;
        }
      }
    }
  }

  /** A list prunes exactly at every instant if and only if it is in expiry order. */
  lemma PruneExactIff(w: seq<Tombstone>)
    ensures InExpiryOrder(w) <==> forall now :: PrunesExactly(w, now)
  {
    if InExpiryOrder(w) {
      forall now ensures PrunesExactly(w, now) { OrderedPrunesExactly(w, now); }
    } else {
      var i, j :| 0 <= i < j < |w| && w[i].until > w[j].until;
      StaysBehind(w, i, j);
    }
  }

  /** A tombstone behind a later one outlives its time: at the instant it falls due, pruning does not reach it. */
  lemma StaysBehind(w: seq<Tombstone>, i: nat, j: nat)
    requires i < j < |w| && w[i].until > w[j].until
    ensures !PrunesExactly(w, w[j].until)
  {
    var now := w[j].until;
    var d := |w| - |Prune(w, now)|;
    PruneKeepsUnexpired(w, now);
    assert d <= i;
    assert Prune(w, now)[j - d] == w[j];
  }

  // ---------------------------------------------------------------- one step

  /** The release, of a token that does not hold, that puts the list out of order. */
  ghost predicate Reorders(s: State, e: Event, at: real) {
    && e.ReleaseCall? && e.token !in s.leases
    && EarlierBehind(Prune(s.withdrawn, at), e.token, at + WITHDRAWN_TTL_S)
  }

  /** Every other step leaves the tombstones alone. */
  lemma StepTombs(s: State, e: Event, at: real)
    requires Inv(s, at) && Allowed(s, e)
    ensures Apply(s, e, at).withdrawn ==
            if e.ReleaseCall? && e.token !in s.leases then Entomb(Prune(s.withdrawn, at), e.token, at + WITHDRAWN_TTL_S) else s.withdrawn
  {
    hide Tables, Progress, Expires, CallsOk, NoneGrantable;
    match e
    case AcquireCall(names, t, leaseS, numShards) =>
    case Wake(call) =>
    case RenewCall(tokens) => RenewManyTombs(s, tokens, at);
    case ReleaseCall(t) =>
      if t in s.leases {
        FreeProgress(s, t, at);
        FreeTombs(s, t, at);
      } else {
        WithdrawInv(s, t, at);
      }
    case TimerFires =>
      ExpireProgress(s, at);
      ExpireTombs(s, at);
  }

  lemma StepOrder(s: State, e: Event, at: real)
    requires Inv(s, at) && Allowed(s, e)
    requires InExpiryOrder(s.withdrawn) && NoneLater(s.withdrawn, at + WITHDRAWN_TTL_S)
    ensures InExpiryOrder(Apply(s, e, at).withdrawn) <==> !Reorders(s, e, at)
    ensures NoneLater(Apply(s, e, at).withdrawn, at + WITHDRAWN_TTL_S)
  {
    hide Inv, InExpiryOrder, EarlierBehind, NoneLater, Prune, Entomb, Apply;
    TablesOf(s, at);
    StepTombs(s, e, at);
    PruneOrdered(s.withdrawn, at, at + WITHDRAWN_TTL_S);
    if e.ReleaseCall? && e.token !in s.leases {
      EntombOrdered(Prune(s.withdrawn, at), e.token, at + WITHDRAWN_TTL_S);
    }
  }

  // ---------------------------------------------------------------- any run

  /** At every state of the run the list is in expiry order. */
  ghost predicate AlwaysOrdered(s: State, trace: seq<Timed>)
    decreases |trace|
  {
    && InExpiryOrder(s.withdrawn)
    && (trace != [] ==>
          && Tables(s) && Allowed(s, trace[0].event)
          && AlwaysOrdered(Apply(s, trace[0].event, trace[0].at), trace[1..]))
  }

  ghost predicate NeverReorders(s: State, trace: seq<Timed>)
    decreases |trace|
  {
    trace != [] ==>
      && Tables(s) && Allowed(s, trace[0].event)
      && !Reorders(s, trace[0].event, trace[0].at)
      && NeverReorders(Apply(s, trace[0].event, trace[0].at), trace[1..])
  }

  /**
   Insertion order is expiry order throughout a run if and only if no release in it renews a tombstone that has an
   earlier-released token's behind it; then pruning the list reached is exact at every instant.
   */
  lemma {:induction false} RunOrder(s: State, now: real, trace: seq<Timed>, s': State, now': real)
    requires Inv(s, now) && Run(s, now, trace, s', now')
    requires InExpiryOrder(s.withdrawn) && NoneLater(s.withdrawn, now + WITHDRAWN_TTL_S)
    ensures AlwaysOrdered(s, trace) <==> NeverReorders(s, trace)
    ensures NeverReorders(s, trace) ==> NoneLater(s'.withdrawn, now' + WITHDRAWN_TTL_S) && forall t :: PrunesExactly(s'.withdrawn, t)
    decreases |trace|
  {
    hide Inv, Tables, Reorders, InExpiryOrder, PrunesExactly, Apply;
    if trace == [] {
      PruneExactIff(s.withdrawn);
    } else {
      var e, at := trace[0].event, trace[0].at;
      LaterInv(s, now, at);
      StepInv(s, e, at);
      StepOrder(s, e, at);
      var m := Apply(s, e, at);
      if Reorders(s, e, at) {
        if AlwaysOrdered(m, trace[1..]) { OrderedFirst(m, trace[1..]); }
      } else {
        RunOrder(m, at, trace[1..], s', now');
      }
    }
  }

  lemma OrderedFirst(s: State, trace: seq<Timed>)
    requires AlwaysOrdered(s, trace)
    ensures InExpiryOrder(s.withdrawn)
  {
  }

  // ---------------------------------------------------------------- callers that release a token once

  ghost predicate Releases(trace: seq<Timed>, i: int, token: Token) {
    0 <= i < |trace| && trace[i].event == ReleaseCall(token)
  }

  ghost predicate ReleasesOnce(trace: seq<Timed>) {
    forall i, j, token :: Releases(trace, i, token) && Releases(trace, j, token) ==> i == j
  }

  ghost predicate Entombed(w: seq<Tombstone>, token: Token) {
    exists k :: 0 <= k < |w| && w[k].token == token
  }

  /** No token released by the trace has a tombstone yet. */
  ghost predicate Fresh(w: seq<Tombstone>, trace: seq<Timed>) {
    forall i, token :: Releases(trace, i, token) ==> !Entombed(w, token)
  }

  lemma RestReleases(trace: seq<Timed>)
    requires trace != []
    ensures forall i, token :: Releases(trace[1..], i, token) ==> Releases(trace, i + 1, token)
  {
  }

  lemma PruneEntombs(w: seq<Tombstone>, now: real, token: Token)
    requires Entombed(Prune(w, now), token)
    ensures Entombed(w, token)
  {
    PruneKeepsUnexpired(w, now);
    var p := Prune(w, now);
    var k :| 0 <= k < |p| && p[k].token == token;
    assert w[k + |w| - |p|] == p[k];
  }

  lemma EntombEntombs(w: seq<Tombstone>, added: Token, until: real, token: Token)
    requires Entombed(Entomb(w, added, until), token) && token != added
    ensures Entombed(w, token)
  {
    EntombPlace(w, added, until);
    var w' := Entomb(w, added, until);
    var k :| 0 <= k < |w'| && w'[k].token == token;
    assert k < |w| && w[k] == w'[k];
  }

  lemma StepEntombs(s: State, e: Event, at: real, token: Token)
    requires Inv(s, at) && Allowed(s, e)
    requires Tables(s) && Entombed(Apply(s, e, at).withdrawn, token)
    ensures Entombed(s.withdrawn, token) || e == ReleaseCall(token)
  {
    hide Inv, Tables, Entombed, Prune, Entomb, Apply;
    StepTombs(s, e, at);
    if e.ReleaseCall? && e.token !in s.leases && token != e.token {
      EntombEntombs(Prune(s.withdrawn, at), e.token, at + WITHDRAWN_TTL_S, token);
      PruneEntombs(s.withdrawn, at, token);
    }
  }

  lemma FreshNeverReorders(s: State, e: Event, at: real)
    requires e.ReleaseCall? ==> !Entombed(s.withdrawn, e.token)
    ensures !Reorders(s, e, at)
  {
    if e.ReleaseCall? {
      var p := Prune(s.withdrawn, at);
      if TombAt(p, e.token) < |p| {
        assert Entombed(p, e.token);
        PruneEntombs(s.withdrawn, at, e.token);
      }
    }
  }

  lemma {:induction false} OnceNeverReorders(s: State, now: real, trace: seq<Timed>, s': State, now': real)
    requires Inv(s, now) && Run(s, now, trace, s', now')
    requires ReleasesOnce(trace) && Fresh(s.withdrawn, trace)
    ensures NeverReorders(s, trace)
    decreases |trace|
  {
    hide Inv, Tables, Reorders, Apply, Entombed;
    if trace != [] {
      var e, at := trace[0].event, trace[0].at;
      LaterInv(s, now, at);
      StepInv(s, e, at);
      var m := Apply(s, e, at);
      RestReleases(trace);
      if e.ReleaseCall? { assert Releases(trace, 0, e.token); }
      FreshNeverReorders(s, e, at);
      forall i, token | Releases(trace[1..], i, token) ensures !Entombed(m.withdrawn, token) {
        assert Releases(trace, i + 1, token);
        if Entombed(m.withdrawn, token) {
          StepEntombs(s, e, at, token);
        }
      }
      OnceNeverReorders(m, at, trace[1..], s', now');
    }
  }

  /** When every caller releases its token at most once, as clients do, insertion order is always expiry order. */
  lemma OneReleaseEachPrunesExactly(numShards: nat, maxParked: nat, now: real, trace: seq<Timed>, s: State, now': real)
    requires Run(Initial(numShards, maxParked), now, trace, s, now') && ReleasesOnce(trace)
    ensures AlwaysOrdered(Initial(numShards, maxParked), trace) && forall t :: PrunesExactly(s.withdrawn, t)
  {
    var s0 := Initial(numShards, maxParked);
    InitialInv(numShards, maxParked, now);
    OnceNeverReorders(s0, now, trace, s, now');
    RunOrder(s0, now, trace, s, now');
  }

  // ---------------------------------------------------------------- the run in which the order fails

  /** A free actor with these tombstones. */
  function Tombs(w: seq<Tombstone>): State {
    Initial(1, 1).(withdrawn := w)
  }

  lemma ReleaseFirst(w: seq<Tombstone>, now: real, token: Token, at: real, trace: seq<Timed>, s': State, now': real)
    requires now <= at && Run(Tombs(Entomb(Prune(w, at), token, at + WITHDRAWN_TTL_S)), at, trace, s', now')
    ensures Run(Tombs(w), now, [Timed(ReleaseCall(token), at)] + trace, s', now')
  {
    var t := [Timed(ReleaseCall(token), at)] + trace;
    assert t[1..] == trace;
    assert Apply(Tombs(w), ReleaseCall(token), at) == Tombs(Entomb(Prune(w, at), token, at + WITHDRAWN_TTL_S));
  }

  lemma ReleasedLists()
    ensures Entomb(Prune([], 0.0), 1, 300.0) == [Tombstone(1, 300.0)]
    ensures Entomb(Prune([Tombstone(1, 300.0)], 1.0), 2, 301.0) == [Tombstone(1, 300.0), Tombstone(2, 301.0)]
    ensures Entomb(Prune([Tombstone(1, 300.0), Tombstone(2, 301.0)], 200.0), 1, 500.0) == [Tombstone(1, 500.0), Tombstone(2, 301.0)]
  {
  }

  lemma LateReleasedList()
    ensures Entomb(Prune([Tombstone(1, 500.0), Tombstone(2, 301.0)], 400.0), 3, 700.0)
         == [Tombstone(1, 500.0), Tombstone(2, 301.0), Tombstone(3, 700.0)]
  {
    assert Entomb([Tombstone(2, 301.0)], 3, 700.0) == [Tombstone(2, 301.0), Tombstone(3, 700.0)];
  }

  /**
   Releasing token 1 again at 200 renews its tombstone in place, ahead of token 2's. At 400 another release prunes, and
   token 2, whose tombstone was due at 301, is still turned away.
   */
  lemma SecondReleaseBreaksOrder()
    ensures var s := Tombs([Tombstone(1, 500.0), Tombstone(2, 301.0)]);
            && Run(Initial(1, 1), 0.0, [Timed(ReleaseCall(1), 0.0), Timed(ReleaseCall(2), 1.0), Timed(ReleaseCall(1), 200.0)], s, 200.0)
            && !InExpiryOrder(s.withdrawn)
    ensures var s := Tombs([Tombstone(1, 500.0), Tombstone(2, 301.0)]);
            var late := Tombs([Tombstone(1, 500.0), Tombstone(2, 301.0), Tombstone(3, 700.0)]);
            Run(s, 200.0, [Timed(ReleaseCall(3), 400.0)], late, 400.0) && IsWithdrawn(late, 2)
  {
    hide Run, Prune, Entomb;
    var b, c := [Tombstone(1, 500.0), Tombstone(2, 301.0)], [Tombstone(1, 500.0), Tombstone(2, 301.0), Tombstone(3, 700.0)];
    var second, third := Timed(ReleaseCall(2), 1.0), Timed(ReleaseCall(1), 200.0);
    assert b[0].until > b[1].until && c[1].token == 2;
    ReleasedLists();
    RunNothing(Tombs(b), 200.0);
    ReleaseFirst([Tombstone(1, 300.0), Tombstone(2, 301.0)], 1.0, 1, 200.0, [], Tombs(b), 200.0);
    assert [third] + [] == [third];
    ReleaseFirst([Tombstone(1, 300.0)], 0.0, 2, 1.0, [third], Tombs(b), 200.0);
    assert [second] + [third] == [second, third];
    ReleaseFirst([], 0.0, 1, 0.0, [second, third], Tombs(b), 200.0);
    assert [Timed(ReleaseCall(1), 0.0)] + [second, third] == [Timed(ReleaseCall(1), 0.0), second, third];
    assert Tombs([]) == Initial(1, 1);
    LateReleasedList();
    RunNothing(Tombs(c), 400.0);
    ReleaseFirst(b, 200.0, 3, 400.0, [], Tombs(c), 400.0);
    assert [Timed(ReleaseCall(3), 400.0)] + [] == [Timed(ReleaseCall(3), 400.0)];
  }
}
