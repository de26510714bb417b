/** What callers of one lock actor can rely on: the order of service, expiry, and how final a release is. */
module LockService {
  import opened Prelude
  import opened LockTable
  import opened LockInvariants
  import opened LockRuns

  // ---------------------------------------------------------------- one arrival order

  /** The waiter with the smallest id heads every queue it is in. */
  lemma OldestHeadsItsQueues(s: State, t: Token)
    requires Tables(s) && t in s.waiting
    requires forall u :: u in s.waiting ==> s.waiting[t].id <= s.waiting[u].id
    ensures forall n :: n in s.waiting[t].names ==> n in s.queues && s.queues[n] != [] && s.queues[n][0] == t
  {
    forall n | n in s.waiting[t].names ensures n in s.queues && s.queues[n] != [] && s.queues[n][0] == t {
      HeadIsOldest(s, n, t);
    }
  }

  lemma {:induction false} OldestExists(s: State, among: set<Token>) returns (t: Token)
    requires among != {} && among <= s.waiting.Keys
    ensures t in among && forall u :: u in among ==> s.waiting[t].id <= s.waiting[u].id
    decreases |among|
  {
    t :| t in among;
    if among != {t} {
      var o := OldestExists(s, among - {t});
      if s.waiting[o].id < s.waiting[t].id { t := o; }
    }
  }

  /** While anyone waits, the oldest waiter heads all its queues: it waits for a lease that still holds, and for nothing else. */
  lemma WaitersWaitForALease(s: State, now: real) returns (t: Token, n: Name)
    requires Inv(s, now) && s.waiting != map[]
    ensures t in s.waiting && forall u :: u in s.waiting ==> s.waiting[t].id <= s.waiting[u].id
    ensures forall m :: m in s.waiting[t].names ==> m in s.queues && s.queues[m] != [] && s.queues[m][0] == t
    ensures n in s.waiting[t].names && n in s.holder && s.holder[n] in s.leases && n in s.leases[s.holder[n]].names
  {
    var t0 :| t0 in s.waiting;
    t := OldestExists(s, s.waiting.Keys);
    OldestHeadsItsQueues(s, t);
    assert !Heads(s.holder, s.queues, s.waiting[t].names, t);
    n :| n in s.waiting[t].names && n in s.holder;
  }

  /** Waiters keep their id and names, and later ones get larger ids. */
  ghost predicate Evolves(s: State, s': State) {
    && s.nextWaiter <= s'.nextWaiter
    && forall t :: t in s'.waiting ==> SameRequest(s, s', t) || s'.waiting[t].id >= s.nextWaiter
  }

  ghost predicate SameRequest(s: State, s': State, t: Token) {
    && t in s.waiting && t in s'.waiting
    && s'.waiting[t].id == s.waiting[t].id && s'.waiting[t].names == s.waiting[t].names && s'.waiting[t].leaseS == s.waiting[t].leaseS
  }

  /** The waiters that are served before `t` on some name. */
  ghost function Ahead(s: State, t: Token): set<Token>
    requires t in s.waiting
  {
    set u | u in s.waiting && s.waiting[u].id < s.waiting[t].id && SharesName(s.waiting[u].names, s.waiting[t].names)
  }

  // ---------------------------------------------------------------- freeing leases

  /**
   Leases outside `gone` stay as they are; new ones come from the waiters, for their own length, and never past an older
   waiter that shares a name; a waiter leaves only granted or abandoned.
   */
  ghost predicate Progress(s: State, s': State, gone: set<Token>, now: real) {
    && (forall t :: t in s'.waiting ==> t in s.waiting && s'.waiting[t] == s.waiting[t])
    && (forall t :: t in s.leases && t !in gone ==> t in s'.leases && s'.leases[t] == s.leases[t])
    && (forall t :: t in s'.leases ==> KeptOrGranted(s, s', t, gone, now))
    && (forall t :: t in s.waiting && t !in s'.waiting ==> t in s'.leases || Abandoned(s.waiting[t], now))
    && (forall t, u :: t in s'.leases && t !in s.leases && u in s'.waiting ==> NotPassed(s, t, u))
    && SameElsewhere(s, s')
  }

  ghost predicate KeptOrGranted(s: State, s': State, t: Token, gone: set<Token>, now: real)
    requires t in s'.leases
  {
    || (t in s.leases && t !in gone && s'.leases[t] == s.leases[t])
    || (t !in s.leases && GrantedBy(s, s', t, now))
  }

  lemma FreeProgress(s: State, token: Token, now: real)
    requires Tables(s) && token in s.leases
    ensures Progress(s, Free(s, token, now), {token}, now)
  {
    var u, s' := Unhold(s, token), Free(s, token, now);
    UnholdTables(s, token);
    HandOffChanges(u, s.leases[token].names, now);
    forall t | t in s'.leases ensures KeptOrGranted(s, s', t, {token}, now) {
      if t !in u.leases { NewLease(u, s', t, now); }
    }
    assert forall a, b :: NotPassed(u, a, b) <==> NotPassed(s, a, b);
  }

  lemma ProgressTransitive(a: State, b: State, c: State, gone: set<Token>, gone': set<Token>, now: real)
    requires a.leases.Keys !! a.waiting.Keys
    requires Progress(a, b, gone, now) && Progress(b, c, gone', now)
    requires forall t :: t in gone' ==> t in a.leases
    ensures Progress(a, c, gone + gone', now)
  {
    forall t | t in c.leases ensures KeptOrGranted(a, c, t, gone + gone', now) {
      assert KeptOrGranted(b, c, t, gone', now);
      if t in b.leases { assert KeptOrGranted(a, b, t, gone, now); }
    }
    forall t, u | t in c.leases && t !in a.leases && u in c.waiting ensures NotPassed(a, t, u) {
      assert KeptOrGranted(b, c, t, gone', now);
      if t in b.leases { assert NotPassed(a, t, u); } else { assert NotPassed(b, t, u); }
    }
    forall t | t in a.waiting && t !in c.waiting ensures t in c.leases || Abandoned(a.waiting[t], now) {
      if t !in b.waiting && t in b.leases { assert t !in gone'; }
    }
  }

  ghost function DueLeases(s: State, now: real): set<Token> {
    set t | t in s.leases && s.leases[t].expiresAt <= now
  }

  /** An expiry frees exactly the due leases. */
  lemma {:induction false} ExpireDueProgress(s: State, now: real)
    requires Tables(s) && Expires(s, now)
    ensures Progress(s, ExpireDue(s, now), DueLeases(s, now), now)
    decreases DueCount(s.expiries, now)
  {
    hide Tables, Progress, LeasesTimely;
    if !Due(s.expiries, now) {
      NoDueLease(s, now);
      assert DueLeases(s, now) == {};
      ProgressReflexive(s, now);
    } else {
      var e := s.expiries[0];
      var popped := s.(expiries := s.expiries[1..]);
      PopTables(s, now);
      if Current(popped, e) {
        var freed := Free(popped, e.token, now);
        FreeTables(popped, e.token, now);
        FreeDueCount(popped, e.token, now);
        UnholdTables(popped, e.token);
        UnholdExpires(s, popped, now);
        HandOffExpires(Unhold(popped, e.token), popped.leases[e.token].names, now);
        FreeProgress(popped, e.token, now);
        ExpireDueProgress(freed, now);
        DueAfterFree(popped, e.token, now);
        Separate(popped);
        ProgressTransitive(popped, freed, ExpireDue(freed, now), {e.token}, DueLeases(freed, now), now);
        assert {e.token} + DueLeases(freed, now) == DueLeases(s, now);
      } else {
        ExpireDueProgress(popped, now);
        assert DueLeases(popped, now) == DueLeases(s, now);
      }
      ProgressIgnoresHeap(s, popped, ExpireDue(s, now), now);
    }
  }

  lemma Separate(s: State)
    requires Tables(s)
    ensures s.leases.Keys !! s.waiting.Keys
  {
  }

  lemma ProgressReflexive(s: State, now: real)
    ensures Progress(s, s, {}, now)
  {
  }

  lemma ProgressIgnoresHeap(s: State, popped: State, s': State, now: real)
    requires popped == s.(expiries := popped.expiries)
    requires Progress(popped, s', DueLeases(s, now), now)
    ensures Progress(s, s', DueLeases(s, now), now)
  {
    forall t | t in s'.leases ensures KeptOrGranted(s, s', t, DueLeases(s, now), now) {
      assert KeptOrGranted(popped, s', t, DueLeases(s, now), now);
    }
    assert forall a, b :: NotPassed(popped, a, b) <==> NotPassed(s, a, b);
  }

  lemma DueAfterFree(s: State, token: Token, now: real)
    requires Tables(s) && token in s.leases && s.leases[token].expiresAt <= now
    requires Progress(s, Free(s, token, now), {token}, now)
    ensures DueLeases(Free(s, token, now), now) == DueLeases(s, now) - {token}
  {
    var s' := Free(s, token, now);
    forall t ensures t in DueLeases(s', now) <==> t in DueLeases(s, now) - {token} {
      if t in s'.leases {
        assert KeptOrGranted(s, s', t, {token}, now);
      }
    }
  }

  lemma ExpireProgress(s: State, now: real)
    requires Inv(s, now)
    ensures Progress(s, Expire(s, now), DueLeases(s, now), now)
  {
    var d := ExpireDue(s, now);
    ExpireDueProgress(s, now);
    forall t | t in d.leases ensures KeptOrGranted(s, Rearm(d), t, DueLeases(s, now), now) {
      assert KeptOrGranted(s, d, t, DueLeases(s, now), now);
    }
  }

  // ---------------------------------------------------------------- any one step

  /**
   What one step at `now` may do: leases go only by expiry or their own release, waiters go only released, skipped as
   abandoned or, if they are not, granted, and a new lease was never granted past an older waiter that shares a name and
   still waits.
   */
  ghost predicate Serves(s: State, e: Event, s': State, now: real) {
    && Evolves(s, s')
    && (forall t :: t in s.leases && t !in s'.leases ==> s.leases[t].expiresAt <= now || e == ReleaseCall(t))
    && (forall t :: t in s.waiting && t !in s'.waiting ==> t in s'.leases || Abandoned(s.waiting[t], now) || e == ReleaseCall(t))
    && (forall t :: t in s.waiting && t in s'.leases && t !in s.leases ==> !Abandoned(s.waiting[t], now))
    && (forall t, u :: t in s'.leases && t !in s.leases && u in s'.waiting ==> FirstServed(s, s', t, u))
  }

  /** Either they share no name, or `t` waited and arrived before `u`. */
  ghost predicate FirstServed(s: State, s': State, t: Token, u: Token)
    requires t in s'.leases && u in s'.waiting
  {
    SharesName(s'.leases[t].names, s'.waiting[u].names) ==> t in s.waiting && s.waiting[t].id < s'.waiting[u].id
  }

  lemma ProgressServes(s: State, e: Event, m: State, s': State, gone: set<Token>, now: real)
    requires Progress(m, s', gone, now)
    requires forall t :: t in gone ==> t !in s.leases || s.leases[t].expiresAt <= now || e == ReleaseCall(t)
    requires m.leases == s.leases && m.nextWaiter == s.nextWaiter
    requires forall t :: t in m.waiting ==> t in s.waiting && m.waiting[t] == s.waiting[t]
    requires forall t :: t in s.waiting && t !in m.waiting ==> e == ReleaseCall(t)
    ensures Serves(s, e, s', now)
  {
    forall t, u | t in s'.leases && t !in s.leases && u in s'.waiting ensures FirstServed(s, s', t, u) {
      assert KeptOrGranted(m, s', t, gone, now);
      assert NotPassed(m, t, u);
    }
  }

  lemma GrantServes(s: State, e: Event, names: seq<Name>, token: Token, leaseS: real, now: real)
    requires forall t, n :: t in s.waiting && n in s.waiting[t].names ==> n in s.queues
    requires token !in s.waiting && forall n :: n in names ==> !Busy(s, n)
    ensures Serves(s, e, Grant(s, token, names, leaseS, now), now)
  {
    forall u | u in s.waiting ensures !SharesName(names, s.waiting[u].names) {
      if n :| n in names && n in s.waiting[u].names {
        assert Busy(s, n);
      }
    }
  }

  lemma EnqueueServes(s: State, e: Event, names: seq<Name>, token: Token, leaseS: real, now: real)
    requires token !in s.waiting
    ensures Serves(s, e, Enqueue(s, token, names, leaseS, now), now)
  {
  }

  lemma AdmitServes(s: State, names: seq<Name>, token: Token, leaseS: real, numShards: nat, now: real)
    requires Tables(s)
    ensures Serves(s, AcquireCall(names, token, leaseS, numShards), Admit(s, names, token, leaseS, now), now)
  {
    hide Serves;
    var e := AcquireCall(names, token, leaseS, numShards);
    if token in s.leases || token in s.waiting {
      ServesReflexive(s, e, now);
    } else if exists n :: n in names && Busy(s, n) {
      EnqueueServes(s, e, names, token, leaseS, now);
    } else {
      assert forall n :: n in names ==> !Busy(s, n);
      GrantServes(s, e, names, token, leaseS, now);
    }
  }

  lemma ServesThenSame(s: State, e: Event, m: State, s': State, now: real)
    requires Serves(s, e, m, now)
    requires s'.nextWaiter == m.nextWaiter && s'.waiting.Keys == m.waiting.Keys && s'.leases.Keys == m.leases.Keys
    requires forall t :: t in m.leases ==> s'.leases[t].names == m.leases[t].names
    requires forall t :: t in m.waiting ==> SameRequest(m, s', t)
    ensures Serves(s, e, s', now)
  {
    forall t | t in s'.waiting ensures SameRequest(s, s', t) || s'.waiting[t].id >= s.nextWaiter {
      assert SameRequest(m, s', t) && (SameRequest(s, m, t) || m.waiting[t].id >= s.nextWaiter);
    }
    forall t, u | t in s'.leases && t !in s.leases && u in s'.waiting ensures FirstServed(s, s', t, u) {
      assert FirstServed(s, m, t, u) && SameRequest(m, s', u);
    }
  }

  lemma ServesReflexive(s: State, e: Event, now: real)
    ensures Serves(s, e, s, now)
  {
  }

  ghost predicate LengthsPositive(leases: map<Token, Lease>) {
    forall t :: t in leases ==> leases[t].leaseS > 0.0
  }

  /** Each token is answered with whether its lease was alive; exactly the live ones now last their own length from now. */
  lemma {:induction false} RenewManyLeases(s: State, tokens: seq<Token>, now: real)
    requires LengthsPositive(s.leases)
    ensures var (s', alive) := RenewMany(s, tokens, now);
            && s'.waiting == s.waiting && s'.nextWaiter == s.nextWaiter && s'.leases.Keys == s.leases.Keys
            && (forall t :: t in s.leases ==>
                  s'.leases[t] == if t in tokens && Alive(s, t, now) then s.leases[t].(expiresAt := now + s.leases[t].leaseS) else s.leases[t])
            && (forall t :: t in alive <==> t in tokens)
            && (forall t :: t in tokens ==> alive[t] == Alive(s, t, now))
  {
    if tokens != [] {
      var k := |tokens| - 1;
      RenewManyLeases(s, tokens[..k], now);
      assert tokens == tokens[..k] + [tokens[k]];
    }
  }

  /** Every step serves in order. */
  lemma StepServes(s: State, e: Event, now: real)
    requires Inv(s, now) && Allowed(s, e)
    ensures Serves(s, e, Apply(s, e, now), now)
  {
    hide Tables, Serves, Progress, Expires, CallsOk, TombstonesOk, NoneGrantable;
    ServesReflexive(s, e, now);
    match e
    case AcquireCall(names, token, leaseS, numShards) =>
      if numShards == s.numShards && !IsWithdrawn(s, token) {
        var m := Admit(s, names, token, leaseS, now);
        AdmitServes(s, names, token, leaseS, numShards, now);
        if token in m.waiting {
          assert Park(m, token).waiting.Keys == m.waiting.Keys;
          ServesThenSame(s, e, m, Park(m, token), now);
        }
      }
    case Wake(call) =>
      assert Unpark(s, call, now).waiting.Keys == s.waiting.Keys;
      ServesThenSame(s, e, s, Unpark(s, call, now), now);
    case RenewCall(tokens) =>
      LengthsOf(s);
      RenewManyLeases(s, tokens, now);
      ServesThenSame(s, e, s, RenewMany(s, tokens, now).0, now);
    case ReleaseCall(token) =>
      ReleaseServes(s, token, now);
    case TimerFires =>
      ExpireProgress(s, now);
      ProgressServes(s, e, s, Expire(s, now), DueLeases(s, now), now);
  }

  lemma LengthsOf(s: State)
    requires Tables(s)
    ensures LengthsPositive(s.leases)
  {
  }

  lemma ReleaseServes(s: State, token: Token, now: real)
    requires Inv(s, now)
    ensures Serves(s, ReleaseCall(token), Release(s, token, now), now)
  {
    hide Tables, Progress, Expires, CallsOk, TombstonesOk, NoneGrantable;
    var e := ReleaseCall(token);
    ServesReflexive(s, e, now);
    if token in s.leases {
      FreeProgress(s, token, now);
      ProgressServes(s, e, s, Free(s, token, now), {token}, now);
    } else if token in s.waiting {
      var left, m, s' := Leave(s, token), Withdraw(s, token, now), Release(s, token, now);
      WithdrawChanges(s, token, now);
      HandedOffIsProgress(left, m, now);
      ProgressServes(s, e, left, m, {}, now);
      ServesThenSame(s, e, m, s', now);
    } else {
      ServesThenSame(s, e, s, Release(s, token, now), now);
    }
  }

  lemma HandedOffIsProgress(s: State, s': State, now: real)
    requires HandedOff(s, s', now)
    ensures Progress(s, s', {}, now)
  {
    forall t | t in s'.leases ensures KeptOrGranted(s, s', t, {}, now) {
      if t !in s.leases { NewLease(s, s', t, now); }
    }
  }

  // ---------------------------------------------------------------- any run

  lemma {:induction false} RunEvolves(s: State, now: real, trace: seq<Timed>, s': State, now': real)
    requires Inv(s, now) && Run(s, now, trace, s', now')
    ensures Evolves(s, s')
    decreases |trace|
  {
    hide Inv;
    if trace != [] {
      var m := Apply(s, trace[0].event, trace[0].at);
      LaterInv(s, now, trace[0].at);
      StepInv(s, trace[0].event, trace[0].at);
      StepServes(s, trace[0].event, trace[0].at);
      RunEvolves(m, trace[0].at, trace[1..], s', now');
      forall t | t in s'.waiting ensures SameRequest(s, s', t) || s'.waiting[t].id >= s.nextWaiter {
        assert SameRequest(m, s', t) || s'.waiting[t].id >= m.nextWaiter;
        assert t in m.waiting ==> SameRequest(s, m, t) || m.waiting[t].id >= s.nextWaiter;
      }
    }
  }

  /** Over any run, nobody moves in ahead of a request that keeps waiting. */
  lemma NobodyOvertakes(s: State, now: real, trace: seq<Timed>, s': State, now': real, t: Token)
    requires Inv(s, now) && Run(s, now, trace, s', now')
    requires t in s.waiting && t in s'.waiting && s'.waiting[t].id == s.waiting[t].id
    ensures Ahead(s', t) <= Ahead(s, t)
  {
    RunEvolves(s, now, trace, s', now');
    assert s.waiting[t].id < s.nextWaiter;
    assert SameRequest(s, s', t);
    forall u | u in Ahead(s', t) ensures u in Ahead(s, t) {
      assert SameRequest(s, s', u);
    }
  }

  /**
   A waiter that leaves without its own release is skipped if none of its calls is in the actor and the last one ended more
   than ten seconds ago; otherwise, and only then, it is granted.
   */
  lemma SkippedExactly(s: State, e: Event, now: real, t: Token)
    requires Inv(s, now) && Allowed(s, e) && e != ReleaseCall(t)
    requires t in s.waiting && t !in Apply(s, e, now).waiting
    ensures t !in Apply(s, e, now).leases <==> s.waiting[t].calls == 0 && now - s.waiting[t].seen > 10.0
  {
    StepServes(s, e, now);
    Separate(s);
  }

  /** A waiter with a call suspended in the actor is never skipped: it leaves only by its grant or its own release. */
  lemma WaitingCallKeepsItsPlace(s: State, e: Event, now: real, call: nat, t: Token)
    requires Inv(s, now) && Allowed(s, e)
    requires call in s.calls && t in s.waiting && s.calls[call].waiter == s.waiting[t].id
    ensures var s' := Apply(s, e, now); t in s'.waiting || t in s'.leases || e == ReleaseCall(t)
  {
    StepServes(s, e, now);
    CallCounted(s, call);
  }

  // ---------------------------------------------------------------- how final a release is

  ghost predicate TombUntil(w: seq<Tombstone>, token: Token, until: real) {
    exists i :: 0 <= i < |w| && w[i].token == token && w[i].until >= until
  }

  /** Pruning drops a prefix: a tombstone not yet due moves to the front by the number dropped. */
  lemma PruneShifts(w: seq<Tombstone>, at: real, i: nat)
    requires i < |w| && w[i].until > at
    ensures var d := |w| - |Prune(w, at)|; 0 <= d <= i && i - d < |Prune(w, at)| && Prune(w, at)[i - d] == w[i]
  {
    PruneKeepsUnexpired(w, at);
  }

  /** Entombing renews a token's tombstone or keeps it, and keeps every other one where it is. */
  lemma {:induction false} EntombAt(w: seq<Tombstone>, added: Token, until: real, i: nat)
    requires i < |w| && forall j :: 0 <= j < i ==> w[j].token != w[i].token
    ensures var w' := Entomb(w, added, until);
            i < |w'| && w'[i] == if w[i].token == added then Tombstone(added, until) else w[i]
  {
    if i > 0 && w[0].token != added {
      assert forall j :: 0 <= j < i - 1 ==> w[1..][j] == w[j + 1];
      EntombAt(w[1..], added, until, i - 1);
    }
  }

  lemma EntombKeeps(w: seq<Tombstone>, added: Token, at: real, token: Token, until: real)
    requires OneTombEach(w) && TombUntil(w, token, until) && at < until <= at + WITHDRAWN_TTL_S
    ensures TombUntil(Entomb(Prune(w, at), added, at + WITHDRAWN_TTL_S), token, until)
  {
    var i :| 0 <= i < |w| && w[i].token == token && w[i].until >= until;
    var p := Prune(w, at);
    PruneShifts(w, at, i);
    PrunedOnce(w, at);
    EntombAt(p, added, at + WITHDRAWN_TTL_S, i - (|w| - |p|));
  }

  lemma PrunedOnce(w: seq<Tombstone>, at: real)
    requires OneTombEach(w)
    ensures OneTombEach(Prune(w, at))
  {
    PruneKeepsUnexpired(w, at);
  }

  lemma StepKeepsTomb(s: State, e: Event, at: real, token: Token, until: real)
    requires Inv(s, at) && Allowed(s, e)
    requires TombUntil(s.withdrawn, token, until) && at < until <= at + WITHDRAWN_TTL_S
    ensures TombUntil(Apply(s, e, at).withdrawn, token, until)
  {
    hide Tables, Progress, Expires, CallsOk, NoneGrantable, TombUntil;
    match e
    case AcquireCall(names, t, leaseS, numShards) =>
    case Wake(call) =>
    case RenewCall(tokens) => RenewManyTombs(s, tokens, at);
    case ReleaseCall(t) =>
      if t in s.leases {
        FreeProgress(s, t, at);
        FreeTombs(s, t, at);
      } else {
        WithdrawInv(s, t, at);
        EntombKeeps(s.withdrawn, t, at, token, until);
      }
    case TimerFires =>
      ExpireProgress(s, at);
      ExpireTombs(s, at);
  }

  lemma FreeTombs(s: State, t: Token, at: real)
    requires Tables(s) && t in s.leases && Progress(s, Free(s, t, at), {t}, at)
    ensures Free(s, t, at).withdrawn == s.withdrawn
  {
  }

  lemma ExpireTombs(s: State, at: real)
    requires Tables(s) && Progress(s, Expire(s, at), DueLeases(s, at), at)
    ensures Expire(s, at).withdrawn == s.withdrawn
  {
  }

  lemma {:induction false} RenewManyTombs(s: State, tokens: seq<Token>, at: real)
    ensures RenewMany(s, tokens, at).0.withdrawn == s.withdrawn
  {
    if tokens != [] { RenewManyTombs(s, tokens[..|tokens| - 1], at); }
  }

  /** Until its tombstone is due, a withdrawn token neither holds nor waits, whatever calls arrive. */
  lemma {:induction false} WithdrawnStaysOut(s: State, now: real, trace: seq<Timed>, s': State, now': real, token: Token, until: real)
    requires Inv(s, now) && Run(s, now, trace, s', now')
    requires TombUntil(s.withdrawn, token, until) && now' < until <= now + WITHDRAWN_TTL_S
    ensures TombUntil(s'.withdrawn, token, until) && IsWithdrawn(s', token)
    ensures token !in s'.leases && token !in s'.waiting
    decreases |trace|
  {
    RunInv(s, now, trace, s', now');
    if trace != [] {
      var m := Apply(s, trace[0].event, trace[0].at);
      LaterInv(s, now, trace[0].at);
      StepInv(s, trace[0].event, trace[0].at);
      RunInv(m, trace[0].at, trace[1..], s', now');
      StepKeepsTomb(s, trace[0].event, trace[0].at, token, until);
      WithdrawnStaysOut(m, trace[0].at, trace[1..], s', now', token, until);
    }
  }

  /** Releasing a token that does not hold shuts it out for the tombstone's lifetime, over any run. */
  lemma ReleaseWithdrawsForGood(s: State, now: real, token: Token, trace: seq<Timed>, s': State, now': real)
    requires Inv(s, now) && token !in s.leases
    requires Run(Release(s, token, now), now, trace, s', now') && now' < now + WITHDRAWN_TTL_S
    ensures token !in s'.leases && token !in s'.waiting && IsWithdrawn(s', token)
    ensures forall names, leaseS, numShards :: numShards == s'.numShards ==>
              Enter(s', names, token, leaseS, numShards, now') == (s', Answered(None))
  {
    var s1 := Release(s, token, now);
    ReleaseInv(s, token, now);
    WithdrawInv(s, token, now);
    var p := Prune(s.withdrawn, now);
    PruneKeepsUnexpired(s.withdrawn, now);
    EntombAddsOne(p, token, now + WITHDRAWN_TTL_S);
    assert Tombstone(token, now + WITHDRAWN_TTL_S) in s1.withdrawn;
    WithdrawnStaysOut(s1, now, trace, s', now', token, now + WITHDRAWN_TTL_S);
  }

  /**
   The exact condition: an acquire that reaches the actor right after the release (one still under way when its caller
   gave up) is turned away if and only if the token was not holding when it was released.
   */
  lemma ReleaseTurnsLateCallAway(s: State, now: real, token: Token, names: seq<Name>, leaseS: real, later: real)
    requires Inv(s, now) && Request(names, leaseS) && now <= later
    ensures var s1 := Release(s, token, now);
            var (s2, answer) := Enter(s1, names, token, leaseS, s1.numShards, later);
            && (token !in s.leases <==> (s2 == s1 && answer == Answered(None)))
            && (token in s.leases ==> token in s2.leases || token in s2.waiting)
  {
    var s1 := Release(s, token, now);
    if token in s.leases {
      ReleaseOfHolder(s, now, token);
      LateCallAdmitted(s1, names, token, leaseS, later);
    } else {
      LateCallBarred(s, now, token, names, leaseS, later);
    }
  }

  lemma LateCallBarred(s: State, now: real, token: Token, names: seq<Name>, leaseS: real, later: real)
    requires Inv(s, now) && token !in s.leases && now <= later
    ensures var s1 := Release(s, token, now); Enter(s1, names, token, leaseS, s1.numShards, later) == (s1, Answered(None))
  {
    var s1 := Release(s, token, now);
    hide Release, Inv, Tables;
    TablesOf(s, now);
    assert IsWithdrawn(s1, token) by { ReleaseWithdrawsForGood(s, now, token, [], s1, now); }
  }

  lemma ReleaseOfHolder(s: State, now: real, token: Token)
    requires Inv(s, now) && token in s.leases
    ensures var s1 := Release(s, token, now); token !in s1.leases && token !in s1.waiting && !IsWithdrawn(s1, token)
  {
    FreeInv(s, token, now);
    FreeProgress(s, token, now);
    FreeTombs(s, token, now);
    Separate(s);
    hide Inv, Progress, HandOff;
    HolderNotTombstoned(s, now, token);
    FreeWaiters(s, now, token);
  }

  lemma HolderNotTombstoned(s: State, now: real, token: Token)
    requires Inv(s, now) && token in s.leases
    ensures !IsWithdrawn(s, token)
  {
  }

  lemma FreeWaiters(s: State, now: real, token: Token)
    requires Tables(s) && token in s.leases && Progress(s, Free(s, token, now), {token}, now)
    ensures token !in Free(s, token, now).waiting
  {
  }

  lemma LateCallAdmitted(s: State, names: seq<Name>, token: Token, leaseS: real, later: real)
    requires token !in s.leases && token !in s.waiting && !IsWithdrawn(s, token)
    ensures var (s2, answer) := Enter(s, names, token, leaseS, s.numShards, later);
            token in s2.leases || token in s2.waiting
  {
  }
}
