/**
  Polls that come while a reload of the policy repository is waiting or under way
  (pkg/policy/git/watcher.go): exactly when what is under way is still bound to end right,
  over every order of the remaining actions, and two runs in which it does not.
 */
module GitReloads {
  import opened Options
  import opened GitWatcher

  // ---------------------------------------------------------------- polls during a reload

  /** A step towards the end of what is under way; no new commit is pulled and no checkout fails. */
  predicate Finishing(step: Step) {
    step.Note? || step.Fire? || (step.Advance? && step.works)
  }

  ghost predicate AllFinishing(steps: seq<Step>) {
    forall i :: 0 <= i < |steps| ==> Finishing(steps[i])
  }

  /** However what is under way ends, no reload after a rollback fails and the books end up right. */
  ghost predicate Safe(w: World, s: State) {
    forall steps :: Possible(w, s, steps) && AllFinishing(steps) ==>
      var s' := After(w, s, steps); !s'.stuck && (Settled(s') ==> Right(w, s'))
  }

  predicate Failing(w: World, phase: Phase) {
    (phase.Loaded? && !w.valid(phase.found)) || phase.Failed? || phase.Aiming?
  }

  /** Whatever will be read, recorded or checked out has the one valid content `c`. */
  ghost predicate Uniform(w: World, c: Content, s: State) {
    && w.valid(c) && w.policies(s.head) == c && !s.stuck
    && (s.timer.Some? ==> w.policies(s.timer.value) == c)
    && (s.poll.Some? ==> w.policies(s.poll.value.to) == c)
    && (forall id :: id in s.running ==> id < s.fired && Carries(w, c, s, s.running[id]))
    && (s.active == c || WillActivate(s))
    && (w.policies(s.last) == c || WillRecord(w, s))
  }

  ghost predicate Carries(w: World, c: Content, s: State, cb: Callback) {
    && (Failing(w, cb.phase) ==> w.policies(s.last) == c)
    && match cb.phase
       case Started => w.policies(cb.sha) == c
       case Loaded(found) => w.valid(found) ==> found == c == w.policies(cb.sha)
       case Recording => w.policies(cb.sha) == c && s.active == c
       case Aiming(target) => w.policies(target) == c
       case Reread(found) => found == c
       case _ => true
  }

  ghost predicate WillActivate(s: State) {
    s.timer.Some? || (s.poll.Some? && s.poll.value.changed)
    || exists id :: id in s.running && s.running[id].phase != Recording
  }

  ghost predicate WillRecord(w: World, s: State) {
    s.timer.Some? || s.poll.Some?
    || exists id :: id in s.running && Records(w, s.running[id].phase)
  }

  predicate Records(w: World, phase: Phase) {
    phase.Started? || phase.Recording? || (phase.Loaded? && w.valid(phase.found))
  }

  lemma {:induction false} UniformStep(w: World, c: Content, s: State, step: Step)
    requires Uniform(w, c, s) && Enabled(s, step) && Finishing(step)
    ensures Uniform(w, c, Apply(w, s, step))
  {
    var s' := Apply(w, s, step);
    if step.Advance? {
      UniformAdvance(w, c, s, step.id);
    } else if step.Fire? {
      assert s'.running[s.fired].phase == Started;
    } else {
      assert s'.running == s.running;
    }
  }

  /** An action leaves the other callbacks alone. */
  lemma {:induction false} OthersStay(w: World, s: State, id: nat)
    requires id in s.running
    ensures var s' := Advanced(w, s, id, true);
      && (forall i :: i in s'.running ==> i in s.running)
      && (forall i :: i in s.running && i != id ==> i in s'.running && s'.running[i] == s.running[i])
      && (id in s'.running ==> s'.running[id].sha == s.running[id].sha)
  {
  }

  lemma {:induction false} UniformAdvance(w: World, c: Content, s: State, id: nat)
    requires Uniform(w, c, s) && id in s.running
    ensures Uniform(w, c, Advanced(w, s, id, true))
  {
    var s' := Advanced(w, s, id, true);
    assert Carries(w, c, s, s.running[id]);
    OthersStay(w, s, id);
    UniformCarries(w, c, s, id);
    UniformActivates(w, c, s, id);
    UniformRecords(w, c, s, id);
  }

  lemma {:induction false} UniformCarries(w: World, c: Content, s: State, id: nat)
    requires Uniform(w, c, s) && id in s.running
    ensures var s' := Advanced(w, s, id, true);
      forall i :: i in s'.running ==> i < s'.fired && Carries(w, c, s', s'.running[i])
  {
    var s' := Advanced(w, s, id, true);
    OthersStay(w, s, id);
    assert Carries(w, c, s, s.running[id]);
    forall i | i in s'.running ensures i < s'.fired && Carries(w, c, s', s'.running[i]) {
      assert i in s.running && Carries(w, c, s, s.running[i]);
    }
  }

  lemma {:induction false} UniformActivates(w: World, c: Content, s: State, id: nat)
    requires id in s.running && Carries(w, c, s, s.running[id]) && w.valid(c) && w.policies(s.head) == c
    requires s.active == c || WillActivate(s)
    ensures var s' := Advanced(w, s, id, true); s'.active == c || WillActivate(s')
  {
    var s' := Advanced(w, s, id, true);
    OthersStay(w, s, id);
    if s.active != c && s'.active != c && s.timer.None? && !(s.poll.Some? && s.poll.value.changed) {
      var i :| i in s.running && s.running[i].phase != Recording;
      assert i in s'.running && s'.running[i].phase != Recording;
    }
  }

  lemma {:induction false} UniformRecords(w: World, c: Content, s: State, id: nat)
    requires id in s.running && Carries(w, c, s, s.running[id]) && w.valid(c) && w.policies(s.head) == c
    requires w.policies(s.last) == c || WillRecord(w, s)
    ensures var s' := Advanced(w, s, id, true); w.policies(s'.last) == c || WillRecord(w, s')
  {
    var s' := Advanced(w, s, id, true);
    OthersStay(w, s, id);
    if w.policies(s.last) != c && w.policies(s'.last) != c && s.timer.None? && s.poll.None? {
      var i :| i in s.running && Records(w, s.running[i].phase);
      assert i in s'.running && Records(w, s'.running[i].phase);
    }
  }

  lemma {:induction false} UniformEnds(w: World, c: Content, s: State, steps: seq<Step>)
    requires Uniform(w, c, s) && Possible(w, s, steps) && AllFinishing(steps)
    ensures Uniform(w, c, After(w, s, steps))
    decreases |steps|
  {
    if |steps| > 0 {
      UniformStep(w, c, s, steps[0]);
      UniformEnds(w, c, Apply(w, s, steps[0]), steps[1..]);
    }
  }

  lemma {:induction false} UniformIsSafe(w: World, c: Content, s: State)
    requires Uniform(w, c, s)
    ensures Safe(w, s)
  {
    forall steps | Possible(w, s, steps) && AllFinishing(steps)
      ensures var s' := After(w, s, steps); !s'.stuck && (Settled(s') ==> Right(w, s'))
    {
      UniformEnds(w, c, s, steps);
    }
  }

  /** One invalid commit is on its way to being rolled back; everything else has content `c`. */
  ghost predicate Rejecting(w: World, c: Content, s: State) {
    && w.valid(c) && s.active == c && w.policies(s.last) == c && !s.stuck
    && (w.policies(s.head) == c || (!w.valid(w.policies(s.head)) && Rejected(w, s)))
    && (s.timer.Some? || s.poll.Some? ==>
          !w.valid(w.policies(s.head)) && !(s.timer.Some? && s.poll.Some?)
          && forall id :: id in s.running ==> !Rejects(w, s.running[id].phase))
    && (s.poll.Some? ==> s.poll.value.changed)
    && (forall id, id' :: (id in s.running && id' in s.running
          && Rejects(w, s.running[id].phase) && Rejects(w, s.running[id'].phase)) ==> id == id')
    && (forall id :: id in s.running ==> id < s.fired && Tolerates(w, c, s, s.running[id]))
  }

  /** The callback has the invalid commit, or is about to read it. */
  predicate Rejects(w: World, phase: Phase) {
    phase.Started? || Failing(w, phase)
  }

  ghost predicate Rejected(w: World, s: State) {
    s.timer.Some? || s.poll.Some? || exists id :: id in s.running && Rejects(w, s.running[id].phase)
  }

  predicate Tolerates(w: World, c: Content, s: State, cb: Callback) {
    match cb.phase
    case Started => !w.valid(w.policies(s.head))
    case Loaded(found) => w.valid(found) ==> found == c == w.policies(cb.sha)
    case Recording => w.policies(cb.sha) == c
    case Failed => true
    case Aiming(target) => w.policies(target) == c
    case RolledBack => w.policies(s.head) == c
    case Reread(found) => found == c
  }

  lemma {:induction false} RejectingStep(w: World, c: Content, s: State, step: Step)
    requires Rejecting(w, c, s) && Enabled(s, step) && Finishing(step)
    ensures Rejecting(w, c, Apply(w, s, step))
  {
    var s' := Apply(w, s, step);
    if step.Advance? {
      RejectingAdvance(w, c, s, step.id);
    } else if step.Fire? {
      assert s'.running[s.fired].phase == Started;
      assert forall i :: i in s'.running && i != s.fired ==> s'.running[i] == s.running[i];
    } else {
      assert s'.running == s.running;
    }
  }

  lemma {:induction false} RejectingAdvance(w: World, c: Content, s: State, id: nat)
    requires Rejecting(w, c, s) && id in s.running
    ensures Rejecting(w, c, Advanced(w, s, id, true))
  {
    var s' := Advanced(w, s, id, true);
    OthersStay(w, s, id);
    assert Tolerates(w, c, s, s.running[id]);
    RejectingTolerates(w, c, s, id);
    assert id in s'.running && Rejects(w, s'.running[id].phase) ==> Rejects(w, s.running[id].phase);
    if !w.valid(w.policies(s'.head)) && s.timer.None? && s.poll.None? {
      var i :| i in s.running && Rejects(w, s.running[i].phase);
      assert i in s'.running && Rejects(w, s'.running[i].phase);
    }
  }

  lemma {:induction false} RejectingTolerates(w: World, c: Content, s: State, id: nat)
    requires Rejecting(w, c, s) && id in s.running
    ensures var s' := Advanced(w, s, id, true);
      forall i :: i in s'.running ==> i < s'.fired && Tolerates(w, c, s', s'.running[i])
  {
    var s' := Advanced(w, s, id, true);
    OthersStay(w, s, id);
    assert Tolerates(w, c, s, s.running[id]);
    forall i | i in s'.running ensures i < s'.fired && Tolerates(w, c, s', s'.running[i]) {
      assert i in s.running && Tolerates(w, c, s, s.running[i]);
    }
  }

  lemma {:induction false} RejectingEnds(w: World, c: Content, s: State, steps: seq<Step>)
    requires Rejecting(w, c, s) && Possible(w, s, steps) && AllFinishing(steps)
    ensures Rejecting(w, c, After(w, s, steps))
    decreases |steps|
  {
    if |steps| > 0 {
      RejectingStep(w, c, s, steps[0]);
      RejectingEnds(w, c, Apply(w, s, steps[0]), steps[1..]);
    }
  }

  lemma {:induction false} RejectingIsSafe(w: World, c: Content, s: State)
    requires Rejecting(w, c, s)
    ensures Safe(w, s)
  {
    forall steps | Possible(w, s, steps) && AllFinishing(steps)
      ensures var s' := After(w, s, steps); !s'.stuck && (Settled(s') ==> Right(w, s'))
    {
      RejectingEnds(w, c, s, steps);
    }
  }

  /** One way in which what is under way may go on from `s`. */
  ghost predicate Path(w: World, s: State, steps: seq<Step>, t: State) {
    Possible(w, s, steps) && AllFinishing(steps) && After(w, s, steps) == t
  }

  lemma {:induction false} Then(w: World, s: State, steps: seq<Step>, t: State, step: Step)
    returns (steps': seq<Step>, t': State)
    requires Path(w, s, steps, t) && Enabled(t, step) && Finishing(step)
    ensures Path(w, s, steps', t') && t' == Apply(w, t, step)
  {
    OneMore(w, s, steps, step);
    steps', t' := steps + [step], Apply(w, t, step);
  }

  lemma {:induction false} EndsBadly(w: World, s: State, steps: seq<Step>, t: State)
    requires Path(w, s, steps, t) && (t.stuck || (Settled(t) && !Right(w, t)))
    ensures !Safe(w, s)
  {
  }

  /** The armed timer goes off and its callback loads and records undisturbed. */
  lemma {:induction false} ReloadsNew(w: World, s: State, steps: seq<Step>, t: State)
    returns (steps': seq<Step>, t': State)
    requires Path(w, s, steps, t) && t.timer.Some? && t.fired !in t.running && w.valid(w.policies(t.head))
    ensures Path(w, s, steps', t')
    ensures t' == t.(timer := None, fired := t.fired + 1, active := w.policies(t.head),
                     last := t.timer.value, reloads := t.reloads + 1)
  {
    var id := t.fired;
    steps', t' := Then(w, s, steps, t, Fire);
    steps', t' := Then(w, s, steps', t', Advance(id, true));
    steps', t' := Then(w, s, steps', t', Advance(id, true));
    steps', t' := Then(w, s, steps', t', Advance(id, true));
    assert t'.running == t.running;
  }

  /** A failing callback gets as far as reading lastCommitSHA. */
  lemma {:induction false} Aims(w: World, s: State, steps: seq<Step>, t: State, id: nat)
    returns (steps': seq<Step>, t': State)
    requires Path(w, s, steps, t) && id in t.running && Failing(w, t.running[id].phase)
    requires t.running[id].phase.Aiming? ==> t.running[id].phase.target == t.last
    ensures Path(w, s, steps', t') && id in t'.running && t'.running[id].phase == Aiming(t.last)
    ensures t'.running - {id} == t.running - {id}
    ensures t' == t.(running := t'.running, failures := t'.failures)
  {
    steps', t' := steps, t;
    if t'.running[id].phase.Loaded? { steps', t' := Then(w, s, steps', t', Advance(id, true)); }
    if t'.running[id].phase.Failed? { steps', t' := Then(w, s, steps', t', Advance(id, true)); }
    assert t'.running - {id} == t.running - {id};
  }

  /** A failing callback rolls back to lastCommitSHA undisturbed. */
  lemma {:induction false} RollsBack(w: World, s: State, steps: seq<Step>, t: State, id: nat)
    returns (steps': seq<Step>, t': State)
    requires Path(w, s, steps, t) && id in t.running && Failing(w, t.running[id].phase)
    requires t.running[id].phase.Aiming? ==> t.running[id].phase.target == t.last
    ensures Path(w, s, steps', t') && t'.head == t.last && t'.running == t.running - {id}
    ensures t'.poll == t.poll && t'.timer == t.timer && t'.fired == t.fired && t'.last == t.last
    ensures if w.valid(w.policies(t.last)) then t'.active == w.policies(t.last) else t'.stuck
  {
    steps', t' := Aims(w, s, steps, t, id);
    steps', t' := Then(w, s, steps', t', Advance(id, true));
    steps', t' := Then(w, s, steps', t', Advance(id, true));
    steps', t' := Then(w, s, steps', t', Advance(id, true));
    assert t'.running == t.running - {id};
  }

  /** A poll has pulled `b` while the one callback `id` runs and no timer is armed. */
  ghost predicate PulledDuring(w: World, t: State, id: nat, b: Sha) {
    && t.poll.Some? && t.poll.value.to == b == t.head && t.timer.None?
    && id in t.running && t.running - {id} == map[] && t.fired !in t.running
    && w.valid(w.policies(t.last))
  }

  lemma {:induction false} StartedUnsafe(w: World, s: State, steps: seq<Step>, t: State, id: nat, b: Sha)
    requires Path(w, s, steps, t) && PulledDuring(w, t, id, b) && t.running[id].phase == Started
    requires !t.poll.value.changed ==> w.policies(b) == w.policies(t.running[id].sha)
    requires !(w.valid(w.policies(b)) && w.policies(b) == w.policies(t.running[id].sha))
    ensures !Safe(w, s)
  {
    var changed, a := t.poll.value.changed, t.running[id].sha;
    var steps', t' := Then(w, s, steps, t, Note);
    if w.valid(w.policies(b)) {
      steps', t' := ReloadsNew(w, s, steps', t');
      steps', t' := Then(w, s, steps', t', Advance(id, true));
      steps', t' := Then(w, s, steps', t', Advance(id, true));
      steps', t' := Then(w, s, steps', t', Advance(id, true));
      assert t'.running == map[] && t'.last == a && t'.active == w.policies(b);
    } else {
      steps', t' := Then(w, s, steps', t', Advance(id, true));
      assert t'.running - {id} == map[];
      steps', t' := RollsBack(w, s, steps', t', id);
      if changed {
        steps', t' := ReloadsNew(w, s, steps', t');
        assert t'.last == b && w.valid(t'.active);
      }
    }
    EndsBadly(w, s, steps', t');
  }

  lemma {:induction false} RecordingUnsafe(w: World, s: State, steps: seq<Step>, t: State, id: nat, b: Sha)
    requires Path(w, s, steps, t) && PulledDuring(w, t, id, b) && t.poll.value.changed
    requires t.running[id].phase == Recording && w.policies(t.running[id].sha) == t.active != w.policies(b)
    requires w.valid(w.policies(b)) || w.policies(t.last) != t.active
    ensures !Safe(w, s)
  {
    var steps', t' := Then(w, s, steps, t, Note);
    if w.valid(w.policies(b)) {
      steps', t' := ReloadsNew(w, s, steps', t');
    } else {
      var id' := t'.fired;
      steps', t' := Then(w, s, steps', t', Fire);
      steps', t' := Then(w, s, steps', t', Advance(id', true));
      steps', t' := RollsBack(w, s, steps', t', id');
      assert t'.running == t.running;
    }
    steps', t' := Then(w, s, steps', t', Advance(id, true));
    assert t'.running == map[] && t'.last == t.running[id].sha;
    EndsBadly(w, s, steps', t');
  }

  lemma {:induction false} FailingUnsafe(w: World, s: State, steps: seq<Step>, t: State, id: nat, b: Sha)
    requires Path(w, s, steps, t) && PulledDuring(w, t, id, b) && Failing(w, t.running[id].phase)
    requires t.running[id].phase.Aiming? ==> t.running[id].phase.target == t.last
    requires w.policies(b) != w.policies(t.last)
    ensures !Safe(w, s)
  {
    var steps', t' := RollsBack(w, s, steps, t, id);
    steps', t' := Then(w, s, steps', t', Note);
    if t'.timer.Some? { steps', t' := ReloadsNew(w, s, steps', t'); }
    EndsBadly(w, s, steps', t');
  }

  lemma {:induction false} RereadUnsafe(w: World, s: State, steps: seq<Step>, t: State, id: nat, b: Sha)
    requires Path(w, s, steps, t) && PulledDuring(w, t, id, b) && t.poll.value.changed && w.valid(w.policies(b))
    requires t.running[id].phase.Reread? && w.valid(t.running[id].phase.found)
    requires t.running[id].phase.found != w.policies(b)
    ensures !Safe(w, s)
  {
    var steps', t' := Then(w, s, steps, t, Note);
    steps', t' := ReloadsNew(w, s, steps', t');
    steps', t' := Then(w, s, steps', t', Advance(id, true));
    assert t'.running == map[];
    EndsBadly(w, s, steps', t');
  }

  lemma {:induction false} RolledBackUnsafe(w: World, s: State, steps: seq<Step>, t: State, id: nat, b: Sha)
    requires Path(w, s, steps, t) && PulledDuring(w, t, id, b)
    requires t.running[id].phase == RolledBack && !w.valid(w.policies(b))
    ensures !Safe(w, s)
  {
    var steps', t' := Then(w, s, steps, t, Advance(id, true));
    steps', t' := Then(w, s, steps', t', Advance(id, true));
    EndsBadly(w, s, steps', t');
  }

  /** When a poll may pull the commit `b` during a reload that has got this far. */
  predicate Harmless(w: World, s: State, phase: Phase, b: Sha) {
    var p := w.policies(b);
    match phase
    case Started => w.valid(p) && p == w.policies(s.head)
    case Loaded(found) =>
      if w.valid(found) then p == found || (!w.valid(p) && found == s.active) else p == s.active
    case Recording => p == s.active || (!w.valid(p) && s.active == w.policies(s.last))
    case Failed => p == s.active
    case Aiming(_) => p == s.active
    case RolledBack => w.valid(p)
    case Reread(_) => p == s.active || !w.valid(p)
  }

  /** What a harmless pull leaves under way has one content, or is one invalid commit being rejected. */
  lemma {:induction false} HarmlessShape(w: World, s: State, id: nat)
    requires Faithful(w) && Inv(w, s) && id in s.running && s.remote != s.head
    requires Harmless(w, s, s.running[id].phase, s.remote)
    ensures Uniform(w, w.policies(s.remote), Pulls(w, s)) || Rejecting(w, s.active, Pulls(w, s))
  {
    var t, p, cb := Pulls(w, s), w.policies(s.remote), s.running[id];
    assert Fits(w, s, cb);
    assert t.running == s.running && (forall i :: i in t.running ==> i == id);
    if w.valid(p) && (cb.phase.Started? || cb.phase.RolledBack? || p == s.active || cb.phase == Loaded(p)) {
      assert Uniform(w, p, t);
    } else {
      assert w.changes(s.head, s.remote);
      assert Rejecting(w, s.active, t);
    }
  }

  lemma {:induction false} HarmfulIsUnsafe(w: World, s: State, id: nat)
    requires Faithful(w) && Inv(w, s) && id in s.running && s.remote != s.head
    requires !Harmless(w, s, s.running[id].phase, s.remote)
    ensures !Safe(w, Pulls(w, s))
  {
    var t, b, cb := Pulls(w, s), s.remote, s.running[id];
    assert Fits(w, s, cb);
    assert s.running - {id} == map[] by { forall i | i in s.running ensures i == id {} }
    assert Path(w, t, [], t);
    assert PulledDuring(w, t, id, b);
    if cb.phase.Started? {
      StartedUnsafe(w, t, [], t, id, b);
    } else if cb.phase.Recording? {
      RecordingUnsafe(w, t, [], t, id, b);
    } else if cb.phase.Loaded? && w.valid(cb.phase.found) {
      var steps', t' := Then(w, t, [], t, Advance(id, true));
      assert t'.running - {id} == map[];
      RecordingUnsafe(w, t, steps', t', id, b);
    } else if cb.phase.RolledBack? {
      RolledBackUnsafe(w, t, [], t, id, b);
    } else if cb.phase.Reread? {
      RereadUnsafe(w, t, [], t, id, b);
    } else {
      FailingUnsafe(w, t, [], t, id, b);
    }
  }

  /**
    A poll that pulls a new commit during a reload: what is under way is bound to end right,
    in every order of the callbacks' actions, exactly when the commit is harmless to the
    reload at the point it has reached.
   */
  lemma {:induction false} PollDuringReload(w: World, s: State, id: nat)
    requires Faithful(w) && Inv(w, s) && id in s.running && s.remote != s.head
    ensures Safe(w, Apply(w, s, Pull(true))) <==> Harmless(w, s, s.running[id].phase, s.remote)
  {
    var t, p := Pulls(w, s), w.policies(s.remote);
    if Harmless(w, s, s.running[id].phase, s.remote) {
      HarmlessShape(w, s, id);
      if Uniform(w, p, t) { UniformIsSafe(w, p, t); } else { RejectingIsSafe(w, s.active, t); }
    } else {
      HarmfulIsUnsafe(w, s, id);
    }
  }

  /**
    A poll that pulls a new commit while the timer is armed: if the timer may go off before
    the poll has acted, exactly a valid commit with the same policies is harmless.
   */
  lemma {:induction false} PollWhileArmed(w: World, s: State)
    requires Faithful(w) && Inv(w, s) && s.poll.None? && s.timer.Some? && s.remote != s.head
    ensures Safe(w, Apply(w, s, Pull(true))) <==>
      w.valid(w.policies(s.remote)) && w.policies(s.remote) == w.policies(s.head)
  {
    var t, p := Pulls(w, s), w.policies(s.remote);
    if w.valid(p) && p == w.policies(s.head) {
      UniformIsSafe(w, p, t);
    } else {
      assert Path(w, t, [], t);
      var steps', t' := Then(w, t, [], t, Fire);
      assert t'.running - {s.fired} == map[];
      StartedUnsafe(w, t, steps', t', s.fired, s.remote);
    }
  }

  /** A state that a quiet run reaches is safe unless a poll is still to act. */
  lemma {:induction false} InvIsSafe(w: World, s: State)
    requires Faithful(w) && Inv(w, s) && s.poll.None?
    ensures Safe(w, s)
  {
    forall steps | Possible(w, s, steps) && AllFinishing(steps)
      ensures var s' := After(w, s, steps); !s'.stuck && (Settled(s') ==> Right(w, s'))
    {
      FinishingIsQuiet(w, s, steps);
      QuietRun(w, s, steps);
    }
  }

  lemma {:induction false} FinishingIsQuiet(w: World, s: State, steps: seq<Step>)
    requires Possible(w, s, steps) && AllFinishing(steps) && s.poll.None?
    ensures AllQuiet(w, s, steps)
    decreases |steps|
  {
    if |steps| > 0 {
      assert Finishing(steps[0]);
      FinishingIsQuiet(w, Apply(w, s, steps[0]), steps[1..]);
    }
  }

  /**
    The same poll when it acts before the timer goes off: harmless exactly if it changes
    policies, and so starts the wait over, or what HEAD carries is valid.
   */
  lemma {:induction false} NotedWhileArmed(w: World, s: State)
    requires Faithful(w) && Inv(w, s) && s.poll.None? && s.timer.Some? && s.remote != s.head
    ensures Safe(w, Apply(w, Apply(w, s, Pull(true)), Note)) <==>
      w.changes(s.head, s.remote) || w.valid(w.policies(s.remote))
  {
    var t, p := Noted(Pulls(w, s)), w.policies(s.remote);
    if w.changes(s.head, s.remote) {
      InvIsSafe(w, t);
    } else if w.valid(p) {
      UniformIsSafe(w, p, t);
    } else {
      assert Path(w, t, [], t);
      var steps', t' := Then(w, t, [], t, Fire);
      steps', t' := Then(w, t, steps', t', Advance(s.fired, true));
      steps', t' := RollsBack(w, t, steps', t', s.fired);
      EndsBadly(w, t, steps', t');
    }
  }

  // ---------------------------------------------------------------- two runs that go wrong

  ghost predicate Reaches(w: World, start: Sha, steps: seq<Step>, t: State) {
    Possible(w, Start(start, w), steps) && After(w, Start(start, w), steps) == t
  }

  lemma {:induction false} Go(w: World, start: Sha, steps: seq<Step>, t: State, step: Step)
    returns (steps': seq<Step>, t': State)
    requires Reaches(w, start, steps, t) && Enabled(t, step)
    ensures Reaches(w, start, steps', t') && t' == Apply(w, t, step) && steps <= steps'
  {
    OneMore(w, Start(start, w), steps, step);
    steps', t' := steps + [step], Apply(w, t, step);
  }

  /** A commit is pushed, pulled and acted on. */
  lemma {:induction false} Arrives(w: World, start: Sha, steps: seq<Step>, t: State, sha: Sha)
    returns (steps': seq<Step>, t': State)
    requires Reaches(w, start, steps, t) && t.poll.None? && sha != t.head
    ensures Reaches(w, start, steps', t') && steps <= steps'
    ensures t' == if w.changes(t.head, sha) then t.(remote := sha, head := sha, timer := Some(sha))
                  else t.(remote := sha, head := sha, last := sha, skipped := t.skipped + 1)
  {
    steps', t' := Go(w, start, steps, t, Push(sha));
    steps', t' := Go(w, start, steps', t', Pull(true));
    steps', t' := Go(w, start, steps', t', Note);
  }

  /** A callback that finds the policies invalid goes through its rollback. */
  lemma {:induction false} Backs(w: World, start: Sha, steps: seq<Step>, t: State, id: nat)
    returns (steps': seq<Step>, t': State)
    requires Reaches(w, start, steps, t) && id in t.running && t.running[id].phase == Started
    requires !w.valid(w.policies(t.head))
    ensures Reaches(w, start, steps', t') && steps <= steps'
    ensures t'.running == t.running - {id} && t'.head == t.last == t'.last
    ensures t'.poll == t.poll && t'.timer == t.timer && t'.fired == t.fired && t'.remote == t.remote
    ensures if w.valid(w.policies(t.last)) then t'.active == w.policies(t.last) else t'.stuck && t'.active == t.active
  {
    var act := Advance(id, true);
    steps', t' := Go(w, start, steps, t, act);
    steps', t' := Go(w, start, steps', t', act);
    steps', t' := Go(w, start, steps', t', act);
    steps', t' := Go(w, start, steps', t', act);
    steps', t' := Go(w, start, steps', t', act);
    steps', t' := Go(w, start, steps', t', act);
    assert t'.running == t.running - {id};
  }

  /**
    A poll between arming and firing: the invalid commit `bad` is followed by `other`,
    which touches no policy file; the rollback lands on `other` and cannot reload.
   */
  lemma {:induction false} RollbackDefeated(w: World, good: Sha, bad: Sha, other: Sha)
    returns (steps: seq<Step>, t: State)
    requires Faithful(w) && w.valid(w.policies(good)) && !w.valid(w.policies(bad))
    requires good != bad && bad != other && w.changes(good, bad) && !w.changes(bad, other)
    ensures Reaches(w, good, steps, t)
    ensures t.stuck && Settled(t) && t.last == other && t.active == w.policies(good) != w.policies(t.last)
  {
    assert w.policies(bad) == w.policies(other);
    steps, t := [], Start(good, w);
    steps, t := Arrives(w, good, steps, t, bad);
    steps, t := Arrives(w, good, steps, t, other);
    steps, t := Go(w, good, steps, t, Fire);
    steps, t := Backs(w, good, steps, t, 0);
    assert t.running == map[];
  }

  /**
    A poll between firing and reading: the callback for `a` reads the invalid `bad` and
    rolls back to `good`; the callback for `bad` then loads `good` and records `bad`, for
    good, and the next rollback fails.
   */
  lemma {:induction false} ReloadOvertaken(w: World, good: Sha, a: Sha, bad: Sha, next: Sha)
    returns (steps: seq<Step>, t: State, steps': seq<Step>, t': State)
    requires w.valid(w.policies(good)) && !w.valid(w.policies(bad)) && !w.valid(w.policies(next))
    requires good != a && a != bad && good != next && w.changes(good, a) && w.changes(a, bad) && w.changes(good, next)
    ensures Reaches(w, good, steps, t) && Settled(t)
    ensures t.active == w.policies(good) && t.last == bad && t.active != w.policies(t.last)
    ensures steps <= steps' && Reaches(w, good, steps', t') && t'.stuck
  {
    var act := Advance(1, true);
    steps, t := [], Start(good, w);
    steps, t := Arrives(w, good, steps, t, a);
    steps, t := Go(w, good, steps, t, Fire);
    steps, t := Arrives(w, good, steps, t, bad);
    steps, t := Backs(w, good, steps, t, 0);
    assert t.running == map[];
    steps, t := Go(w, good, steps, t, Fire);
    steps, t := Go(w, good, steps, t, act);
    steps, t := Go(w, good, steps, t, act);
    steps, t := Go(w, good, steps, t, act);
    assert t.running == map[];
    steps', t' := Arrives(w, good, steps, t, next);
    steps', t' := Go(w, good, steps', t', Fire);
    steps', t' := Backs(w, good, steps', t', 2);
  }
}
