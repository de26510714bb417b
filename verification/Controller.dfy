/**
 The controller of one partition as an object (transfer_queue/controller.py): it serves notifications, fetches and resets
 on the status tensors and the sampler's cache. Every request keeps the tensors in step and does what Delivery says.
 */
module Controller {
  import opened Prelude
  import opened Delivery
  import P = PartitionStatus

  /** The samplers as objects: the sequential one keeps nothing, the rank-aware one its results. */
  class Sampler {
    const kind: Kind
    var states: map<Key, seq<nat>>

    constructor (kind: Kind)
      ensures this.kind == kind && states == map[]
    {
      this.kind, states := kind, map[];
    }

    method TakeBatch(ready: seq<nat>, n: nat, task: string, slot: Slot) returns (sampled: seq<nat>)
      modifies this`states
      ensures (sampled, states) == Sample(kind, old(states), ready, n, Key(task, slot))
      ensures kind == Sequential ==> states == old(states) && sampled <= ready && |sampled| == if n <= |ready| then n else |ready|
      ensures kind == RankAware && Key(task, slot) in old(states) ==> states == old(states) && sampled == states[Key(task, slot)]
      ensures kind == RankAware && Key(task, slot) !in old(states) ==>
                if n <= |ready| then sampled <= ready && |sampled| == n && states == old(states)[Key(task, slot) := sampled]
                else sampled == [] && states == old(states)
    {
      if kind == Sequential {
        return First(ready, n);
      }
      if Key(task, slot) !in states {
        sampled := First(ready, n);
        if |sampled| < n {
          return [];
        }
        states := states[Key(task, slot) := sampled];
      } else {
        sampled := states[Key(task, slot)];
      }
    }

    method HasCachedResult(task: string, slot: Slot) returns (cached: bool)
      ensures cached <==> kind == RankAware && Key(task, slot) in states
    {
      cached := kind == RankAware && Key(task, slot) in states;
    }
  }

  datatype Request =
    | Notify(indexes: seq<nat>, fields: seq<string>, ready: bool)
    | GetMetadata(task: string, wanted: seq<string>, n: nat, slot: Slot)
    | ResetConsumption(which: Option<string>)

  function StepOf(request: Request): Step {
    match request
    case Notify(indexes, fields, ready) => Produces(P.RowsFor(indexes), (set i | i in indexes), P.Names(fields), ready)
    case GetMetadata(task, wanted, n, slot) => Fetches(task, wanted, n, slot)
    case ResetConsumption(which) => StartsOver(which)
  }

  function StepsOf(requests: seq<Request>): seq<Step> {
    seq(|requests|, i requires 0 <= i < |requests| => StepOf(requests[i]))
  }

  class Controller {
    const polling: bool
    const partition: P.PartitionStatus
    const sampler: Sampler
    ghost var log: seq<Delivered>
    ghost var since: map<string, nat>

    /** The tensors are in step: every consumption vector has a place for every row. */
    ghost predicate Valid()
      reads this, partition, sampler
    {
      partition.Valid()
    }

    ghost function View(): State
      reads this, partition, sampler
    {
      State(sampler.kind, polling, partition.View(), sampler.states, log, since)
    }

    constructor (kind: Kind, polling: bool, rows: nat)
      ensures Valid() && View() == Initial(kind, polling, rows)
      ensures fresh(partition) && fresh(sampler)
    {
      this.polling := polling;
      partition := new P.PartitionStatus(rows);
      sampler := new Sampler(kind);
      log, since := [], map[];
    }

    method Update(indexes: seq<nat>, fields: seq<string>, ready: bool)
      requires Valid()
      modifies this, partition, sampler
      ensures Valid() && View() == Apply(old(View()), StepOf(Notify(indexes, fields, ready)))
    {
      partition.UpdateProductionStatus(indexes, fields, ready);
    }

    /** Fetch mode. An empty answer: too few samples are ready. */
    method Get(task: string, fields: seq<string>, n: nat, slot: Slot) returns (batch: seq<nat>)
      requires Valid()
      modifies this, partition, sampler
      ensures Valid() && View() == Fetch(old(View()), task, fields, n, slot)
      ensures log == old(log) + if batch == [] then [] else [Delivered(task, slot, batch)]
      ensures Hands(old(View()), task, fields, n, slot, batch)
    {
      ghost var handed := FetchHands(View(), task, fields, n, slot);
      hide Hands, P.PartitionStatus.Valid, P.PartitionStatus.View, Scan, Scanned, Marked, Sample;
      var ready := partition.ScanDataStatus(fields, task);
      if |ready| < n {
        var cached := sampler.HasCachedResult(task, slot);
        if !(polling && cached) {
          SameDelivery(log, task, slot, [], handed);
          return [];
        }
      }
      batch := sampler.TakeBatch(ready, n, task, slot);
      if batch != [] {
        partition.MarkConsumed(task, batch);
        log := log + [Delivered(task, slot, batch)];
      }
      SameDelivery(old(log), task, slot, batch, handed);
    }

    method StartOver(which: Option<string>)
      requires Valid()
      modifies this, partition, sampler
      ensures Valid() && View() == Reset(old(View()), which)
    {
      since := since + map t | t in partition.View().used && Resets(which, t) :: |log|;
      partition.ResetConsumption(which);
    }

    /** The request loop: whatever arrives, the tensors stay in step and the state is the one of the run. */
    method Serve(requests: seq<Request>)
      requires Valid()
      modifies this, partition, sampler
      ensures Valid() && View() == Run(old(View()), StepsOf(requests))
      ensures forall t :: t in partition.consumption ==> |partition.consumption[t]| == |partition.production|
      ensures Inv(old(View())) && CleanRun(old(View()), StepsOf(requests)) ==> HandsOutOnce(View())
    {
      hide Run, P.PartitionStatus.Valid, P.PartitionStatus.View, Inv, CleanRun, HandsOutOnce, Fetch, Reset, Notified, StepsOf;
      ghost var start := View();
      var i := 0;
      RunNone(start);
      while i < |requests|
        invariant i <= |requests| && Valid()
        invariant View() == Run(start, StepsOf(requests[..i]))
        decreases |requests| - i
      {
        RunOneMore(start, requests, i);
        match requests[i] {
          case Notify(indexes, fields, ready) => Update(indexes, fields, ready);
          case GetMetadata(task, wanted, n, slot) => var _ := Get(task, wanted, n, slot);
          case ResetConsumption(which) => StartOver(which);
        }
        i := i + 1;
      }
      assert requests[..i] == requests;
      partition.InStep();
      if Inv(start) && CleanRun(start, StepsOf(requests)) {
        RunInv(start, StepsOf(requests));
        OnceOf(View());
      }
    }
  }

  lemma RunNone(s: State)
    ensures Run(s, StepsOf([])) == s
  {
  }

  lemma RunOneMore(s: State, requests: seq<Request>, i: nat)
    requires i < |requests|
    ensures Run(s, StepsOf(requests[..i + 1])) == Apply(Run(s, StepsOf(requests[..i])), StepOf(requests[i]))
  {
    assert StepsOf(requests[..i + 1]) == StepsOf(requests[..i]) + [StepOf(requests[i])];
    assert StepsOf(requests[..i + 1])[..i] == StepsOf(requests[..i]);
  }
}
