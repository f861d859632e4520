/**
  The evidence recorder (pkg/evidence/recorder/recorder.go) as a transition system: the
  pending map, responders that complete a record and try to queue it, the bounded channel,
  the one worker, and Close.  Each step is one atomic action of one goroutine.
 */
module Recorder {
  import opened Options

  /** A record carries a fresh identifier and the request it belongs to. */
  datatype Record = Record(id: nat, request: string)

  datatype Phase = Running | Draining | Exited

  datatype State = State(
    capacity: nat,
    pending: map<string, Record>,
    overwritten: set<Record>,    // replaced in the pending map by a second request
    held: set<Record>,           // taken by a responder that is trying to queue it
    queue: seq<Record>,
    hand: Option<Record>,        // taken from the channel by the worker
    stored: seq<Record>,         // handed to storage, in order
    dropped: set<Record>,        // given up with an error
    done: bool,
    phase: Phase,
    returned: bool,              // Close has returned
    created: set<Record>,
    sent: seq<Record>,           // everything the channel ever accepted, in order
    early: nat)                  // how much of it before `done` was closed

  datatype Step =
    | Request(r: Record)         // RecordRequest stores the record in the pending map
    | Respond(request: string)   // RecordResponse takes it out again
    | Send(r: Record)            // the channel buffer accepts it
    | Handoff(r: Record)         // a waiting worker takes it straight from the responder
    | GiveUp(r: Record)          // the write timeout fires
    | Refuse(r: Record)          // the responder sees `done`
    | Receive                    // the worker takes the next record from the buffer
    | Store                      // and hands it to storage
    | SeeDone                    // the worker sees `done` and starts draining
    | Exit                       // the drained worker returns
    | CloseDone                  // Close closes `done`
    | CloseReturn                // and returns after the worker

  function Init(capacity: nat): State {
    State(capacity, map[], {}, {}, [], None, [], {}, false, Running, false, {}, [], 0)
  }

  predicate Enabled(s: State, step: Step) {
    match step
    case Request(r) => r !in s.created
    case Respond(request) => request in s.pending
    case Send(r) => r in s.held && |s.queue| < s.capacity
    case Handoff(r) => r in s.held && s.queue == [] && s.hand.None? && s.phase != Exited
    case GiveUp(r) => r in s.held
    case Refuse(r) => r in s.held && s.done
    case Receive => s.phase != Exited && s.hand.None? && |s.queue| > 0
    case Store => s.hand.Some?
    case SeeDone => s.phase == Running && s.done && s.hand.None?
    case Exit => s.phase == Draining && s.hand.None? && s.queue == []
    case CloseDone => !s.done
    case CloseReturn => s.done && s.phase == Exited && !s.returned
  }

  function Apply(s: State, step: Step): State
    requires Enabled(s, step)
  {
    match step
    case Request(r) =>
      s.(pending := s.pending[r.request := r], created := s.created + {r},
         overwritten := if r.request in s.pending then s.overwritten + {s.pending[r.request]} else s.overwritten)
    case Respond(request) =>
      s.(pending := s.pending - {request}, held := s.held + {s.pending[request]})
    case Send(r) =>
      s.(held := s.held - {r}, queue := s.queue + [r], sent := s.sent + [r])
    case Handoff(r) =>
      s.(held := s.held - {r}, hand := Some(r), sent := s.sent + [r])
    case GiveUp(r) => s.(held := s.held - {r}, dropped := s.dropped + {r})
    case Refuse(r) => s.(held := s.held - {r}, dropped := s.dropped + {r})
    case Receive => s.(queue := s.queue[1..], hand := Some(s.queue[0]))
    case Store => s.(stored := s.stored + [s.hand.value], hand := None)
    case SeeDone => s.(phase := Draining)
    case Exit => s.(phase := Exited)
    case CloseDone => s.(done := true, early := |s.sent|)
    case CloseReturn => s.(returned := true)
  }

  // ---------------------------------------------------------------- where a record is

  ghost function One(b: bool): nat { if b then 1 else 0 }

  ghost predicate IsPending(s: State, r: Record) {
    r.request in s.pending && s.pending[r.request] == r
  }

  /** In how many places the record is. */
  ghost function Places(s: State, r: Record): nat {
    One(IsPending(s, r)) + One(r in s.overwritten) + One(r in s.held) + multiset(s.queue)[r]
      + One(s.hand == Some(r)) + multiset(s.stored)[r] + One(r in s.dropped)
  }

  ghost predicate Accounted(s: State) {
    && (forall q :: q in s.pending ==> s.pending[q].request == q)
    && (forall r :: Places(s, r) == One(r in s.created))
  }

  function InHand(s: State): seq<Record> {
    if s.hand.Some? then [s.hand.value] else []
  }

  /** The channel is first in, first out, and the shutdown order is respected. */
  ghost predicate Flowing(s: State) {
    && s.stored + InHand(s) + s.queue == s.sent
    && |s.queue| <= s.capacity
    && s.early <= |s.sent|
    && (s.phase != Running ==> s.done)
    && (s.phase == Exited ==> s.hand.None? && s.early <= |s.stored|)
    && (s.returned ==> s.phase == Exited)
  }

  lemma {:induction false} AccountedStep(s: State, step: Step)
    requires Accounted(s) && Enabled(s, step)
    ensures Accounted(Apply(s, step))
  {
    var s' := Apply(s, step);
    forall r ensures Places(s', r) == One(r in s'.created) {
      assert Places(s, r) == One(r in s.created);
      PlacesStep(s, step, r);
    }
  }

  /** A step moves a record from one place to another; only a request brings one in. */
  lemma {:induction false} PlacesStep(s: State, step: Step, r: Record)
    requires Accounted(s) && Enabled(s, step)
    ensures Places(Apply(s, step), r) == Places(s, r) + One(step == Request(r))
  {
    match step
    case Request(x) =>
      assert Places(s, x) == One(x in s.created);
      if x.request in s.pending {
        assert Places(s, s.pending[x.request]) == One(s.pending[x.request] in s.created);
      }
      RequestPlaces(s, x, r);
    case Respond(request) =>
      assert Places(s, s.pending[request]) == One(s.pending[request] in s.created);
      RespondPlaces(s, request, r);
    case Send(x) =>
      assert Places(s, x) == One(x in s.created);
      ResponderPlaces(s, step, x, r);
    case Handoff(x) =>
      assert Places(s, x) == One(x in s.created);
      ResponderPlaces(s, step, x, r);
    case GiveUp(x) =>
      assert Places(s, x) == One(x in s.created);
      ResponderPlaces(s, step, x, r);
    case Refuse(x) =>
      assert Places(s, x) == One(x in s.created);
      ResponderPlaces(s, step, x, r);
    case _ => WorkerPlaces(s, step, r);
  }

  lemma {:induction false} RequestPlaces(s: State, x: Record, r: Record)
    requires Places(s, x) == 0
    requires x.request in s.pending ==>
      s.pending[x.request].request == x.request && Places(s, s.pending[x.request]) <= 1
    requires Enabled(s, Request(x))
    ensures Places(Apply(s, Request(x)), r) == Places(s, r) + One(x == r)
  {
  }

  lemma {:induction false} RespondPlaces(s: State, request: string, r: Record)
    requires request in s.pending && s.pending[request].request == request && Places(s, s.pending[request]) <= 1
    ensures Places(Apply(s, Respond(request)), r) == Places(s, r)
  {
  }

  lemma {:induction false} ResponderPlaces(s: State, step: Step, x: Record, r: Record)
    requires step in {Send(x), Handoff(x), GiveUp(x), Refuse(x)} && Enabled(s, step) && Places(s, x) <= 1
    ensures Places(Apply(s, step), r) == Places(s, r)
  {
  }

  lemma {:induction false} WorkerPlaces(s: State, step: Step, r: Record)
    requires Enabled(s, step)
    requires !step.Request? && !step.Respond? && !step.Send? && !step.Handoff? && !step.GiveUp? && !step.Refuse?
    ensures Places(Apply(s, step), r) == Places(s, r)
  {
    if step.Receive? { assert s.queue == [s.queue[0]] + s.queue[1..]; }
  }

  lemma {:induction false} FlowingStep(s: State, step: Step)
    requires Flowing(s) && Enabled(s, step)
    ensures Flowing(Apply(s, step))
  {
    var s' := Apply(s, step);
    match step
    case Send(r) => assert s'.stored + InHand(s') + s'.queue == (s.stored + InHand(s) + s.queue) + [r];
    case Handoff(r) => assert s'.stored + InHand(s') + s'.queue == (s.stored + InHand(s) + s.queue) + [r];
    case Receive => assert s.queue == [s.queue[0]] + s.queue[1..];
    case Exit => assert |s.stored + InHand(s) + s.queue| == |s.stored|;
    case _ =>
  }

  // ---------------------------------------------------------------- runs

  ghost predicate Run(capacity: nat, trace: seq<State>, steps: seq<Step>) {
    && |trace| == |steps| + 1
    && trace[0] == Init(capacity)
    && forall k :: 0 <= k < |steps| ==> Enabled(trace[k], steps[k]) && trace[k + 1] == Apply(trace[k], steps[k])
  }

  lemma {:induction false} RunInv(capacity: nat, trace: seq<State>, steps: seq<Step>, k: nat)
    requires Run(capacity, trace, steps) && k < |trace|
    ensures Accounted(trace[k]) && Flowing(trace[k])
  {
    if k > 0 {
      RunInv(capacity, trace, steps, k - 1);
      AccountedStep(trace[k - 1], steps[k - 1]);
      FlowingStep(trace[k - 1], steps[k - 1]);
    }
  }

  /** In every run every created record is in exactly one place, and is handed to storage at most once. */
  lemma {:induction false} ExactlyOnePlace(capacity: nat, trace: seq<State>, steps: seq<Step>, k: nat, r: Record)
    requires Run(capacity, trace, steps) && k < |trace|
    ensures Places(trace[k], r) == One(r in trace[k].created)
    ensures multiset(trace[k].stored)[r] <= 1
  {
    RunInv(capacity, trace, steps, k);
    assert Places(trace[k], r) == One(r in trace[k].created);
  }

  /** Storage receives the records in the order in which the channel accepted them. */
  lemma {:induction false} StoredInOrder(capacity: nat, trace: seq<State>, steps: seq<Step>, k: nat)
    requires Run(capacity, trace, steps) && k < |trace|
    ensures trace[k].stored <= trace[k].sent && |trace[k].queue| <= capacity
  {
    RunInv(capacity, trace, steps, k);
    CapacityFixed(capacity, trace, steps, k);
  }

  lemma {:induction false} CapacityFixed(capacity: nat, trace: seq<State>, steps: seq<Step>, k: nat)
    requires Run(capacity, trace, steps) && k < |trace|
    ensures trace[k].capacity == capacity
  {
    if k > 0 { CapacityFixed(capacity, trace, steps, k - 1); }
  }

  /**
    When Close has returned, everything the channel accepted before `done` was closed has
    been handed to storage, and anything still queued was accepted afterwards.
   */
  lemma {:induction false} CloseDrains(capacity: nat, trace: seq<State>, steps: seq<Step>, k: nat)
    requires Run(capacity, trace, steps) && k < |trace| && trace[k].returned
    ensures var s := trace[k];
      && s.early <= |s.sent|
      && s.sent[..s.early] <= s.stored
      && s.sent == s.stored + s.queue
      && s.early <= |s.stored|
  {
    RunInv(capacity, trace, steps, k);
    var s := trace[k];
    assert s.stored + InHand(s) + s.queue == s.stored + s.queue;
  }

  /** `early` is where the channel stood when `done` was closed, for good. */
  lemma {:induction false} EarlyIsAtClose(capacity: nat, trace: seq<State>, steps: seq<Step>, k: nat)
    requires Run(capacity, trace, steps) && k < |trace| && trace[k].done
    ensures exists j ::
      && 0 <= j < k && steps[j] == CloseDone && !trace[j].done
      && trace[k].early == |trace[j].sent| && trace[j].sent <= trace[k].sent
  {
    assert k > 0;
    var s := trace[k - 1];
    assert Enabled(s, steps[k - 1]) && trace[k] == Apply(s, steps[k - 1]);
    if s.done {
      EarlyIsAtClose(capacity, trace, steps, k - 1);
      assert s.sent <= trace[k].sent;
    } else {
      assert steps[k - 1] == CloseDone;
    }
  }

  /** Once the worker has left, nothing more ever reaches storage. */
  lemma {:induction false} NothingAfterExit(capacity: nat, trace: seq<State>, steps: seq<Step>, j: nat, k: nat)
    requires Run(capacity, trace, steps) && j <= k < |trace| && trace[j].phase == Exited
    ensures trace[k].stored == trace[j].stored && trace[k].phase == Exited
  {
    if j < k {
      NothingAfterExit(capacity, trace, steps, j, k - 1);
      RunInv(capacity, trace, steps, k - 1);
      ExitedStep(trace[k - 1], steps[k - 1]);
    }
  }

  lemma {:induction false} ExitedStep(s: State, step: Step)
    requires s.phase == Exited && s.hand.None? && Enabled(s, step)
    ensures Apply(s, step).stored == s.stored && Apply(s, step).phase == Exited
  {
  }

  /**
    The exact boundary: what the channel had accepted when the worker left is what is ever
    stored, so an accepted record is stored if and only if it was accepted by then.
   */
  lemma {:induction false} StoredIff(capacity: nat, trace: seq<State>, steps: seq<Step>, e: nat, k: nat)
    requires Run(capacity, trace, steps) && e < k < |trace| && steps[e] == Exit
    ensures trace[k].stored == trace[e].sent
    ensures forall r :: r in trace[k].sent ==> (r in trace[k].stored <==> r in trace[e].sent)
    ensures trace[k].sent == trace[e].sent + trace[k].queue
  {
    RunInv(capacity, trace, steps, e);
    RunInv(capacity, trace, steps, e + 1);
    assert Enabled(trace[e], Exit) && trace[e + 1] == Apply(trace[e], Exit);
    assert trace[e].stored + [] + [] == trace[e].stored;
    NothingAfterExit(capacity, trace, steps, e + 1, k);
    RunInv(capacity, trace, steps, k);
    assert trace[k].stored + [] + trace[k].queue == trace[k].sent;
  }

  lemma {:induction false} OneMore(capacity: nat, trace: seq<State>, steps: seq<Step>, step: Step)
    returns (trace': seq<State>, steps': seq<Step>)
    requires Run(capacity, trace, steps) && Enabled(trace[|trace| - 1], step)
    ensures Run(capacity, trace', steps') && |trace'| == |trace| + 1
    ensures trace'[|trace'| - 1] == Apply(trace[|trace| - 1], step)
  {
    trace', steps' := trace + [Apply(trace[|trace| - 1], step)], steps + [step];
  }

  /** A record accepted without an error can be left behind by Close. */
  lemma {:induction false} LeftBehind() returns (trace: seq<State>, steps: seq<Step>)
    ensures Run(1, trace, steps)
    ensures var s := trace[|trace| - 1]; s.returned && s.queue == [Record(0, "q")] && s.stored == [] && s.dropped == {}
  {
    var r := Record(0, "q");
    trace, steps := [Init(1)], [];
    trace, steps := OneMore(1, trace, steps, Request(r));
    trace, steps := OneMore(1, trace, steps, Respond("q"));
    trace, steps := OneMore(1, trace, steps, CloseDone);
    trace, steps := OneMore(1, trace, steps, SeeDone);
    trace, steps := OneMore(1, trace, steps, Exit);
    trace, steps := OneMore(1, trace, steps, Send(r));
    trace, steps := OneMore(1, trace, steps, CloseReturn);
  }
}
