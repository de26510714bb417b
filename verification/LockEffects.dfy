/** What one event of a lock actor does to the leases, waiters and suspended calls of any one token. */
module LockEffects {
  import opened Prelude
  import opened LockTable
  import opened LockInvariants
  import opened LockRuns
  import opened LockService

  /** A lease is lost only to its release or its expiry, and its expiry never moves back. */
  ghost predicate LeaseKept(s: State, e: Event, s': State, now: real, t: Token)
    requires t in s.leases
  {
    || e == ReleaseCall(t)
    || s.leases[t].expiresAt <= now
    || (t in s'.leases && s'.leases[t].expiresAt >= s.leases[t].expiresAt)
  }

  /** `names` for `leaseS` is what `t` already holds or waits for, or what it asks for now. */
  ghost predicate Asked(s: State, e: Event, t: Token, names: seq<Name>, leaseS: real) {
    || (t in s.leases && s.leases[t].names == names && s.leases[t].leaseS == leaseS)
    || (t in s.waiting && s.waiting[t].names == names && s.waiting[t].leaseS == leaseS)
    || (e.AcquireCall? && e.token == t && e.names == names && e.leaseS == leaseS)
  }

  ghost predicate Waited(s: State, e: Event, t: Token, names: seq<Name>, leaseS: real) {
    || (t in s.waiting && s.waiting[t].names == names && s.waiting[t].leaseS == leaseS)
    || (e.AcquireCall? && e.token == t && e.names == names && e.leaseS == leaseS)
  }

  ghost predicate Effect(s: State, e: Event, s': State, now: real) {
    && s'.numShards == s.numShards
    && (forall t :: t in s.leases ==> LeaseKept(s, e, s', now, t))
    && (forall t :: t in s'.leases ==> Asked(s, e, t, s'.leases[t].names, s'.leases[t].leaseS))
    && (forall t :: t in s'.waiting ==> Waited(s, e, t, s'.waiting[t].names, s'.waiting[t].leaseS))
    && (forall c :: c in s.calls ==> e == Wake(c) || (c in s'.calls && s'.calls[c] == s.calls[c]))
  }

  lemma EffectReflexive(s: State, e: Event, now: real)
    ensures Effect(s, e, s, now)
  {
  }

  lemma ProgressEffect(s: State, e: Event, m: State, s': State, gone: set<Token>, now: real)
    requires Progress(m, s', gone, now)
    requires forall t :: t in gone && t in s.leases ==> s.leases[t].expiresAt <= now || e == ReleaseCall(t)
    requires m.leases == s.leases && m.calls == s.calls && m.numShards == s.numShards
    requires forall t :: t in m.waiting ==> t in s.waiting && m.waiting[t] == s.waiting[t]
    ensures Effect(s, e, s', now)
  {
    forall t | t in s'.leases ensures Asked(s, e, t, s'.leases[t].names, s'.leases[t].leaseS) {
      assert KeptOrGranted(m, s', t, gone, now);
    }
  }

  lemma AdmitEffect(s: State, names: seq<Name>, token: Token, leaseS: real, numShards: nat, now: real)
    ensures Effect(s, AcquireCall(names, token, leaseS, numShards), Admit(s, names, token, leaseS, now), now)
  {
  }

  lemma ParkEffect(s: State, e: Event, m: State, token: Token, now: real)
    requires Effect(s, e, m, now) && CallsOk(m) && token in m.waiting
    ensures Effect(s, e, Park(m, token), now)
  {
    var s' := Park(m, token);
    forall t | t in s.leases ensures LeaseKept(s, e, s', now, t) { assert LeaseKept(s, e, m, now, t); }
    forall t | t in s'.waiting ensures Waited(s, e, t, s'.waiting[t].names, s'.waiting[t].leaseS) {
      assert Waited(s, e, t, m.waiting[t].names, m.waiting[t].leaseS);
    }
  }

  lemma UnparkEffect(s: State, call: nat, now: real)
    requires call in s.calls
    ensures Effect(s, Wake(call), Unpark(s, call, now), now)
  {
  }

  lemma RenewEffect(s: State, tokens: seq<Token>, now: real)
    requires LengthsPositive(s.leases) && LeasesTimely(s.leases, now)
    ensures Effect(s, RenewCall(tokens), RenewMany(s, tokens, now).0, now)
  {
    RenewManyLeases(s, tokens, now);
    RenewManyCalls(s, tokens, now);
    var s' := RenewMany(s, tokens, now).0;
    hide RenewMany;
    forall t | t in s'.leases ensures Asked(s, RenewCall(tokens), t, s'.leases[t].names, s'.leases[t].leaseS) {
      assert t in s.leases;
    }
  }

  lemma {:induction false} RenewManyCalls(s: State, tokens: seq<Token>, now: real)
    ensures RenewMany(s, tokens, now).0.calls == s.calls && RenewMany(s, tokens, now).0.numShards == s.numShards
  {
    if tokens != [] { RenewManyCalls(s, tokens[..|tokens| - 1], now); }
  }

  lemma ReleaseEffect(s: State, token: Token, now: real)
    requires Inv(s, now)
    ensures Effect(s, ReleaseCall(token), Release(s, token, now), now)
  {
    hide Tables, Progress, Expires, CallsOk, TombstonesOk, NoneGrantable;
    var e := ReleaseCall(token);
    EffectReflexive(s, e, now);
    if token in s.leases {
      FreeProgress(s, token, now);
      ProgressEffect(s, e, s, Free(s, token, now), {token}, now);
    } else if token in s.waiting {
      var left, m := Leave(s, token), Withdraw(s, token, now);
      WithdrawChanges(s, token, now);
      HandedOffIsProgress(left, m, now);
      ProgressEffect(s, e, left, m, {}, now);
      EffectElsewhere(s, e, m, Release(s, token, now), now);
    } else {
      EffectElsewhere(s, e, s, Release(s, token, now), now);
    }
  }

  lemma EffectElsewhere(s: State, e: Event, m: State, s': State, now: real)
    requires Effect(s, e, m, now)
    requires s'.leases == m.leases && s'.waiting == m.waiting && s'.calls == m.calls && s'.numShards == m.numShards
    ensures Effect(s, e, s', now)
  {
    forall t | t in s.leases ensures LeaseKept(s, e, s', now, t) { assert LeaseKept(s, e, m, now, t); }
  }

  lemma TimelyOf(s: State, now: real)
    requires Inv(s, now)
    ensures LeasesTimely(s.leases, now) && LengthsPositive(s.leases)
  {
  }

  lemma StepEffect(s: State, e: Event, now: real)
    requires Inv(s, now) && Allowed(s, e)
    ensures Effect(s, e, Apply(s, e, now), now)
  {
    hide Tables, Progress, Expires, CallsOk, TombstonesOk, NoneGrantable, Effect;
    EffectReflexive(s, e, now);
    match e
    case AcquireCall(names, token, leaseS, numShards) =>
      if numShards == s.numShards && !IsWithdrawn(s, token) {
        var m := Admit(s, names, token, leaseS, now);
        AdmitEffect(s, names, token, leaseS, numShards, now);
        AdmitInv(s, names, token, leaseS, now);
        if token in m.waiting {
          ParkEffect(s, e, m, token, now);
        }
      }
    case Wake(call) => UnparkEffect(s, call, now);
    case RenewCall(tokens) =>
      TimelyOf(s, now);
      RenewEffect(s, tokens, now);
    case ReleaseCall(token) => ReleaseEffect(s, token, now);
    case TimerFires =>
      ExpireProgress(s, now);
      ProgressEffect(s, e, s, Expire(s, now), DueLeases(s, now), now);
  }

  // ---------------------------------------------------------------- what the answers say

  /** A positive answer is the rest of a lease that is in force; a suspended call is known to the actor. */
  lemma EnterAnswers(s: State, names: seq<Name>, token: Token, leaseS: real, now: real)
    requires Inv(s, now) && Request(names, leaseS)
    ensures var (s', entered) := Enter(s, names, token, leaseS, s.numShards, now);
            match entered
            case WrongShardCount => false
            case Answered(r) => r == Remaining(s', token, now) && token !in s'.waiting
            case Suspended(c, _) => c in s'.calls && s'.calls[c].token == token && token in s'.waiting
  {
    hide Tables, Expires, NoneGrantable, CallsOk;
    if IsWithdrawn(s, token) {
    } else {
      AdmitInv(s, names, token, leaseS, now);
    }
  }

  lemma ResumeAnswers(s: State, call: nat, now: real)
    requires Inv(s, now) && call in s.calls
    ensures var (s', r) := Resume(s, call, now);
            && r == Remaining(s', s.calls[call].token, now)
            && (r.Some? ==> s.calls[call].token !in s'.waiting)
  {
    Separate(s);
  }
}
