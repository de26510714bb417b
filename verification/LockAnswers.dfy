/** What a caller of one lock actor is told, read off the tables alone. */
module LockAnswers {
  import opened Prelude
  import opened LockTable
  import opened LockInvariants
  import opened LockRuns
  import opened LockService
  import X = LockEffects

  // ---------------------------------------------------------------- acquire

  ghost predicate Tombstoned(s: State, token: Token) {
    exists i :: 0 <= i < |s.withdrawn| && s.withdrawn[i].token == token
  }

  ghost predicate AllFree(s: State, names: seq<Name>) {
    forall n :: n in names ==> n !in s.holder && n !in s.queues
  }

  /** The answer is what the token's lease has left at `now`, or None without a lease. */
  ghost predicate SaysWhatIsLeft(s: State, token: Token, now: real, remaining: Option<real>) {
    if token in s.leases then remaining == Some(s.leases[token].expiresAt - now) else remaining == None
  }

  /**
   A call of the right shard count, for a token that is not withdrawn: a token that neither holds nor waits is granted all
   of its names for `leaseS` from now if nobody holds or awaits one of them, and queued otherwise; a waiting token's call is
   suspended, and may wait as long as a slot is free.
   */
  ghost predicate Served(s: State, s': State, names: seq<Name>, token: Token, leaseS: real, now: real, entered: Entered) {
    && !entered.WrongShardCount?
    && (entered.Answered? ==> token in s'.leases && token !in s'.waiting && SaysWhatIsLeft(s', token, now, entered.remaining))
    && (entered.Suspended? ==>
          && token in s'.waiting && token !in s'.leases
          && entered.call == s.nextCall && entered.call !in s.calls
          && entered.call in s'.calls && s'.calls[entered.call] == Call(token, s'.waiting[token].id)
          && (entered.mayWait <==> |s.calls| < s.maxParked))
    && (token in s.leases ==> s' == s)
    && (token !in s.leases && token !in s.waiting ==>
          && (entered.Answered? <==> AllFree(s, names))
          && (entered.Answered? ==> s'.leases[token] == Lease(names, leaseS, now + leaseS, now)
                                    && forall n :: n in names ==> n in s'.holder && s'.holder[n] == token))
  }

  /** What acquire decides before its await. */
  ghost predicate Decided(s: State, s': State, names: seq<Name>, token: Token, leaseS: real, numShards: nat, now: real, entered: Entered) {
    if numShards != s.numShards then s' == s && entered == WrongShardCount
    else if Tombstoned(s, token) then s' == s && entered == Answered(None)
    else Served(s, s', names, token, leaseS, now, entered)
  }

  lemma EnterDecides(s: State, names: seq<Name>, token: Token, leaseS: real, numShards: nat, now: real)
    requires Inv(s, now) && Request(names, leaseS)
    ensures var (s', entered) := Enter(s, names, token, leaseS, numShards, now);
            Decided(s, s', names, token, leaseS, numShards, now, entered)
  {
    hide Inv, Served, Admit, Park, Request;
    CountsOf(s, now);
    if numShards == s.numShards && !Tombstoned(s, token) {
      if token in s.leases || token in s.waiting {
        assert Admit(s, names, token, leaseS, now) == s by { AdmitsKnown(s, names, token, leaseS, now); }
        KnownServed(s, names, token, leaseS, now);
      } else if AllFree(s, names) {
        GrantServed(s, names, token, leaseS, now);
      } else {
        QueueServed(s, names, token, leaseS, now);
      }
    }
  }

  lemma CountsOf(s: State, now: real)
    requires Inv(s, now)
    ensures s.leases.Keys !! s.waiting.Keys && s.nextCall !in s.calls && s.parked == |s.calls|
  {
  }

  lemma AdmitsKnown(s: State, names: seq<Name>, token: Token, leaseS: real, now: real)
    requires token in s.leases || token in s.waiting
    ensures Admit(s, names, token, leaseS, now) == s
  {
  }

  lemma KnownServed(s: State, names: seq<Name>, token: Token, leaseS: real, now: real)
    requires s.leases.Keys !! s.waiting.Keys && s.nextCall !in s.calls && s.parked == |s.calls|
    requires token in s.leases || token in s.waiting
    ensures token in s.waiting ==> Served(s, Park(s, token), names, token, leaseS, now, Suspended(s.nextCall, s.parked < s.maxParked))
    ensures token in s.leases ==> Served(s, s, names, token, leaseS, now, Answered(Remaining(s, token, now)))
  {
  }

  lemma GrantServed(s: State, names: seq<Name>, token: Token, leaseS: real, now: real)
    requires token !in s.leases && token !in s.waiting && AllFree(s, names)
    ensures var s' := Admit(s, names, token, leaseS, now);
            token !in s'.waiting && Served(s, s', names, token, leaseS, now, Answered(Remaining(s', token, now)))
  {
    hide Push;
  }

  lemma QueueServed(s: State, names: seq<Name>, token: Token, leaseS: real, now: real)
    requires token !in s.leases && token !in s.waiting && !AllFree(s, names) && s.nextCall !in s.calls && s.parked == |s.calls|
    ensures var m := Admit(s, names, token, leaseS, now);
            token in m.waiting && Served(s, Park(m, token), names, token, leaseS, now, Suspended(m.nextCall, m.parked < m.maxParked))
  {
    hide JoinAll;
    var n :| n in names && !(n !in s.holder && n !in s.queues);
    assert Busy(s, n);
  }

  /** The end of a suspended call: its slot is free again, and a record that still waits was last seen now. */
  ghost predicate Ended(s: State, s': State, call: nat, now: real, remaining: Option<real>)
    requires call in s.calls
  {
    && SaysWhatIsLeft(s', s.calls[call].token, now, remaining)
    && s'.leases == s.leases && s'.calls == s.calls - {call} && s'.parked == |s'.calls|
    && s'.waiting.Keys == s.waiting.Keys
    && forall t :: t in s.waiting ==> s'.waiting[t].seen == SeenAfter(s, call, now, t)
  }

  ghost function SeenAfter(s: State, call: nat, now: real, t: Token): real
    requires call in s.calls && t in s.waiting
  {
    if s.waiting[t].id == s.calls[call].waiter then now else s.waiting[t].seen
  }

  lemma ResumeEnds(s: State, call: nat, now: real)
    requires Inv(s, now) && call in s.calls
    ensures var (s', remaining) := Resume(s, call, now); Ended(s, s', call, now, remaining)
  {
    hide Inv, Unpark;
    ResumeInv(s, call, now);
    CountsOf(Unpark(s, call, now), now);
    OwnerOf(s, call, now);
    UnparkEnds(s, call, now);
  }

  lemma UnparkEnds(s: State, call: nat, now: real)
    requires call in s.calls
    requires forall t :: t in s.waiting && s.waiting[t].id == s.calls[call].waiter ==> t == s.calls[call].token
    ensures var s' := Unpark(s, call, now);
            && s'.leases == s.leases && s'.calls == s.calls - {call} && s'.waiting.Keys == s.waiting.Keys
            && forall t :: t in s.waiting ==> s'.waiting[t].seen == SeenAfter(s, call, now, t)
  {
    assert Unpark(s, call, now).waiting.Keys == s.waiting.Keys;
  }

  lemma OwnerOf(s: State, call: nat, now: real)
    requires Inv(s, now) && call in s.calls
    ensures forall t :: t in s.waiting && s.waiting[t].id == s.calls[call].waiter ==> t == s.calls[call].token
  {
  }

  // ---------------------------------------------------------------- callers that hashed over another shard count

  ghost predicate OtherCount(trace: seq<Timed>, token: Token, numShards: nat) {
    forall i :: 0 <= i < |trace| && trace[i].event.AcquireCall? && trace[i].event.token == token ==> trace[i].event.numShards != numShards
  }

  lemma StepStaysOut(s: State, e: Event, now: real, token: Token)
    requires Inv(s, now) && Allowed(s, e) && token !in s.leases && token !in s.waiting
    requires e.AcquireCall? && e.token == token ==> e.numShards != s.numShards
    ensures var s' := Apply(s, e, now); token !in s'.leases && token !in s'.waiting && s'.numShards == s.numShards
  {
    hide Inv, Apply;
    TablesOf(s, now);
    X.StepEffect(s, e, now);
    if e.AcquireCall? && e.token == token {
      RefusedUnchanged(s, e, now);
    } else {
      assert forall names, leaseS :: !X.Asked(s, e, token, names, leaseS) && !X.Waited(s, e, token, names, leaseS);
    }
  }

  lemma RefusedUnchanged(s: State, e: Event, now: real)
    requires Inv(s, now) && Allowed(s, e) && e.AcquireCall? && e.numShards != s.numShards
    ensures Tables(s) && Apply(s, e, now) == s
  {
    EnterDecides(s, e.names, e.token, e.leaseS, e.numShards, now);
  }

  /** Over any run, a token all of whose calls carry another shard count never holds and never waits. */
  lemma {:induction false} WrongCountNeverServed(s: State, now: real, trace: seq<Timed>, s': State, now': real, token: Token)
    requires Inv(s, now) && Run(s, now, trace, s', now')
    requires token !in s.leases && token !in s.waiting && OtherCount(trace, token, s.numShards)
    ensures token !in s'.leases && token !in s'.waiting && s'.numShards == s.numShards
    decreases |trace|
  {
    hide Inv;
    if trace != [] {
      LaterInv(s, now, trace[0].at);
      StepInv(s, trace[0].event, trace[0].at);
      StepStaysOut(s, trace[0].event, trace[0].at, token);
      assert forall i :: 0 <= i < |trace[1..]| ==> trace[1..][i] == trace[i + 1];
      WrongCountNeverServed(Apply(s, trace[0].event, trace[0].at), trace[0].at, trace[1..], s', now', token);
    }
  }

  // ---------------------------------------------------------------- when a waiter was last seen

  /** A waiter is seen when it is queued and when one of its calls ends, and at no other event. */
  lemma StepSeen(s: State, e: Event, now: real, t: Token)
    requires Inv(s, now) && Allowed(s, e) && Tables(s) && t in Apply(s, e, now).waiting
    ensures var seen := Apply(s, e, now).waiting[t].seen;
            if t !in s.waiting then e.AcquireCall? && e.token == t && seen == now
            else if e.Wake? then seen == SeenAfter(s, e.call, now, t)
            else seen == s.waiting[t].seen
  {
    hide Inv, Tables, Enter, Resume, RenewMany, Release, Expire, Progress;
    match e
    case AcquireCall(names, token, leaseS, numShards) => EnterSeen(s, names, token, leaseS, numShards, now, t);
    case Wake(call) => ResumeEnds(s, call, now);
    case RenewCall(tokens) =>
      LengthsOf(s);
      RenewManyLeases(s, tokens, now);
    case ReleaseCall(token) => ReleaseSeen(s, token, now, t);
    case TimerFires => ExpireSeen(s, now, t);
  }

  lemma EnterSeen(s: State, names: seq<Name>, token: Token, leaseS: real, numShards: nat, now: real, t: Token)
    requires t in Enter(s, names, token, leaseS, numShards, now).0.waiting
    ensures var seen := Enter(s, names, token, leaseS, numShards, now).0.waiting[t].seen;
            if t in s.waiting then seen == s.waiting[t].seen else token == t && seen == now
  {
    hide JoinAll, Grant;
    GrantWaits(s, token, names, leaseS, now);
  }

  lemma GrantWaits(s: State, token: Token, names: seq<Name>, leaseS: real, now: real)
    ensures Grant(s, token, names, leaseS, now).waiting == s.waiting
  {
  }

  lemma ReleaseSeen(s: State, token: Token, now: real, t: Token)
    requires Inv(s, now) && Tables(s) && t in Release(s, token, now).waiting
    ensures t in s.waiting && Release(s, token, now).waiting[t] == s.waiting[t]
  {
    hide HandOff, Leave, Unhold, Prune, Entomb;
    if token in s.leases {
      FreeProgress(s, token, now);
    } else if token in s.waiting {
      WithdrawChanges(s, token, now);
      LeaveWaits(s, token);
    }
  }

  lemma LeaveWaits(s: State, token: Token)
    requires token in s.waiting
    ensures Leave(s, token).waiting == s.waiting - {token}
  {
  }

  lemma ExpireSeen(s: State, now: real, t: Token)
    requires Inv(s, now) && Tables(s) && t in Expire(s, now).waiting
    ensures t in s.waiting && Expire(s, now).waiting[t] == s.waiting[t]
  {
    hide Expire, Inv;
    ExpireProgress(s, now);
  }
}
