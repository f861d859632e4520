/**
  The policy repository watcher (pkg/policy/git/watcher.go) as a state machine.  Three
  kinds of goroutine run side by side: the poll loop, the debounce timer and the reload
  callbacks it starts.  No lock spans a reload, and stopping a timer does not stop a
  callback that has started, so every step here is one atomic action of one of them.
  Git itself is a contract: a successful pull moves HEAD to the remote tip and reports
  whether policy files differ, a rollback checks out the commit it is given.
 */
module GitWatcher {
  import opened Options

  type Sha = nat
  type Content = nat

  /** What the commits hold; `changes(a, b)` tells whether a policy file differs between two of them. */
  datatype World = World(policies: Sha -> Content, valid: Content -> bool, changes: (Sha, Sha) -> bool)

  ghost predicate Faithful(w: World) {
    forall a, b :: !w.changes(a, b) ==> w.policies(a) == w.policies(b)
  }

  /** A poll that has pulled a new commit and not yet acted on it. */
  datatype Poll = Pulled(to: Sha, changed: bool)

  /** Where a reload callback is. */
  datatype Phase =
    | Started                  // about to read the files
    | Loaded(found: Content)   // has read them
    | Recording                // has put them to use, about to record the commit
    | Failed                   // found them invalid
    | Aiming(target: Sha)      // has read lastCommitSHA, about to check it out
    | RolledBack               // about to read the files again
    | Reread(found: Content)   // has read them again

  datatype Callback = Callback(sha: Sha, phase: Phase)

  datatype State = State(
    remote: Sha, head: Sha,
    last: Sha,                   // lastCommitSHA
    poll: Option<Poll>,
    timer: Option<Sha>,          // the armed debounce timer and the commit it was armed for
    running: map<nat, Callback>, // the reloads under way
    fired: nat,                  // how often the timer has fired
    active: Content,             // the policies the engine uses
    reloads: nat, failures: nat, skipped: nat,
    stuck: bool)                 // a reload after a rollback has failed

  datatype Step =
    | Push(sha: Sha)                // somebody moves the remote branch
    | Pull(works: bool)             // the poll loop pulls
    | Note                          // and acts on what it pulled
    | Fire                          // the debounce timer starts a callback
    | Advance(id: nat, works: bool) // a callback's next action; `works` tells of a checkout
    | Cancel                        // Stop cancels the timer

  function Start(sha: Sha, w: World): State {
    State(sha, sha, sha, None, None, map[], 0, w.policies(sha), 0, 0, 0, false)
  }

  predicate Enabled(s: State, step: Step) {
    match step
    case Pull(_) => s.poll.None?
    case Note => s.poll.Some?
    case Fire => s.timer.Some?
    case Advance(id, _) => id in s.running
    case _ => true
  }

  function Pulls(w: World, s: State): State {
    if s.remote == s.head then s
    else s.(head := s.remote, poll := Some(Pulled(s.remote, w.changes(s.head, s.remote))))
  }

  function Noted(s: State): State
    requires s.poll.Some?
  {
    if s.poll.value.changed then s.(poll := None, timer := Some(s.poll.value.to))
    else s.(poll := None, last := s.poll.value.to, skipped := s.skipped + 1)
  }

  function Fires(s: State): State
    requires s.timer.Some?
  {
    s.(timer := None, running := s.running[s.fired := Callback(s.timer.value, Started)], fired := s.fired + 1)
  }

  function Advanced(w: World, s: State, id: nat, works: bool): State
    requires id in s.running
  {
    var cb := s.running[id];
    var rest := s.running - {id};
    match cb.phase
    case Started => s.(running := s.running[id := cb.(phase := Loaded(w.policies(s.head)))])
    case Loaded(found) =>
      if w.valid(found) then s.(running := s.running[id := cb.(phase := Recording)], active := found)
      else s.(running := s.running[id := cb.(phase := Failed)], failures := s.failures + 1)
    case Recording => s.(running := rest, last := cb.sha, reloads := s.reloads + 1)
    case Failed => s.(running := s.running[id := cb.(phase := Aiming(s.last))])
    case Aiming(target) =>
      if works then s.(running := s.running[id := cb.(phase := RolledBack)], head := target)
      else s.(running := rest)
    case RolledBack => s.(running := s.running[id := cb.(phase := Reread(w.policies(s.head)))])
    case Reread(found) =>
      if w.valid(found) then s.(running := rest, active := found) else s.(running := rest, stuck := true)
  }

  function Apply(w: World, s: State, step: Step): State
    requires Enabled(s, step)
  {
    match step
    case Push(sha) => s.(remote := sha)
    case Pull(works) => if works then Pulls(w, s) else s
    case Note => Noted(s)
    case Fire => Fires(s)
    case Advance(id, works) => Advanced(w, s, id, works)
    case Cancel => s.(timer := None)
  }

  ghost predicate Possible(w: World, s: State, steps: seq<Step>)
    decreases |steps|
  {
    |steps| > 0 ==> Enabled(s, steps[0]) && Possible(w, Apply(w, s, steps[0]), steps[1..])
  }

  ghost function After(w: World, s: State, steps: seq<Step>): State
    requires Possible(w, s, steps)
    decreases |steps|
  {
    if |steps| == 0 then s else After(w, Apply(w, s, steps[0]), steps[1..])
  }

  lemma {:induction false} OneMore(w: World, s: State, steps: seq<Step>, step: Step)
    requires Possible(w, s, steps) && Enabled(After(w, s, steps), step)
    ensures Possible(w, s, steps + [step])
    ensures After(w, s, steps + [step]) == Apply(w, After(w, s, steps), step)
    decreases |steps|
  {
    if |steps| == 0 {
      assert steps + [step] == [step] && [step][1..] == [];
      assert Possible(w, Apply(w, s, step), []);
    } else {
      assert (steps + [step])[0] == steps[0] && (steps + [step])[1..] == steps[1..] + [step];
      OneMore(w, Apply(w, s, steps[0]), steps[1..], step);
    }
  }

  // ---------------------------------------------------------------- what quiet runs keep

  /**
    A step that leaves the bookkeeping alone: no poll finds a new commit while a callback
    runs, nor one without policy changes while the timer is armed; the timer does not go
    off inside a poll and is not cancelled; no checkout fails.
   */
  predicate Quiet(w: World, s: State, step: Step) {
    match step
    case Pull(_) => s.remote == s.head || (s.running == map[] && (s.timer.None? || w.changes(s.head, s.remote)))
    case Fire => s.poll.None?
    case Advance(_, works) => works
    case Cancel => s.timer.None?
    case _ => true
  }

  ghost predicate AllQuiet(w: World, s: State, steps: seq<Step>)
    requires Possible(w, s, steps)
    decreases |steps|
  {
    |steps| > 0 ==> Quiet(w, s, steps[0]) && AllQuiet(w, Apply(w, s, steps[0]), steps[1..])
  }

  /** Nothing is under way. */
  predicate Settled(s: State) {
    s.poll.None? && s.timer.None? && s.running == map[]
  }

  /** The engine uses the policies of lastCommitSHA, and HEAD carries them too. */
  predicate Right(w: World, s: State) {
    w.valid(s.active) && s.active == w.policies(s.last) && w.policies(s.head) == s.active
  }

  /** What a callback may rely on while it is the only thing under way. */
  predicate Fits(w: World, s: State, cb: Callback) {
    match cb.phase
    case Started => cb.sha == s.head
    case Loaded(found) => cb.sha == s.head && found == w.policies(s.head)
    case Recording => cb.sha == s.head && s.active == w.policies(s.head)
    case Failed => true
    case Aiming(target) => target == s.last
    case RolledBack => s.head == s.last
    case Reread(found) => s.head == s.last && found == s.active
  }

  ghost predicate Inv(w: World, s: State) {
    && w.valid(s.active) && w.valid(w.policies(s.last)) && !s.stuck
    && ((forall id :: id in s.running ==> s.running[id].phase != Recording) ==> s.active == w.policies(s.last))
    && (Settled(s) ==> Right(w, s))
    && (s.running != map[] ==> s.poll.None? && s.timer.None?)
    && (forall id, id' :: id in s.running && id' in s.running ==> id == id')
    && (forall id :: id in s.running ==> id < s.fired)
    && (forall id :: id in s.running ==> Fits(w, s, s.running[id]))
    && (s.poll.Some? ==> s.poll.value.to == s.head)
    && (s.poll.Some? && !s.poll.value.changed ==> s.timer.None? && w.policies(s.head) == s.active)
    && (s.poll.None? && s.timer.Some? ==> s.timer.value == s.head)
  }

  lemma {:induction false} QuietStep(w: World, s: State, step: Step)
    requires Faithful(w) && Inv(w, s) && Enabled(s, step) && Quiet(w, s, step)
    ensures Inv(w, Apply(w, s, step))
  {
    if step.Advance? {
      QuietAdvance(w, s, step.id);
    } else if step.Fire? {
      assert s.fired in Fires(s).running;
    } else if step == Pull(true) && s.remote != s.head && !w.changes(s.head, s.remote) {
      assert w.policies(s.head) == w.policies(s.remote);
    }
  }

  lemma {:induction false} QuietAdvance(w: World, s: State, id: nat)
    requires Inv(w, s) && id in s.running
    ensures Inv(w, Advanced(w, s, id, true))
  {
    assert s.running - {id} == map[] by {
      forall i | i in s.running ensures i == id {}
    }
  }

  /**
    In every quiet run from a valid commit, the active policies are valid and, except while
    a callback is about to record its commit, those of lastCommitSHA; with nothing under
    way HEAD carries the same policies; and no reload after a rollback fails.
   */
  lemma {:induction false} QuietRun(w: World, s: State, steps: seq<Step>)
    requires Faithful(w) && Inv(w, s) && Possible(w, s, steps) && AllQuiet(w, s, steps)
    ensures Inv(w, After(w, s, steps))
    decreases |steps|
  {
    if |steps| > 0 {
      QuietStep(w, s, steps[0]);
      QuietRun(w, Apply(w, s, steps[0]), steps[1..]);
    }
  }

  lemma {:induction false} StartsRight(w: World, sha: Sha)
    requires w.valid(w.policies(sha))
    ensures Inv(w, Start(sha, w))
  {
  }

  /** Whatever is active, and whatever a callback is about to make active, has been validated. */
  lemma {:induction false} ActiveIsValid(w: World, s: State, steps: seq<Step>)
    requires w.valid(s.active) && Possible(w, s, steps)
    ensures w.valid(After(w, s, steps).active)
    decreases |steps|
  {
    if |steps| > 0 { ActiveIsValid(w, Apply(w, s, steps[0]), steps[1..]); }
  }

  // ---------------------------------------------------------------- the watcher itself

  /** Each method is one atomic action; the callbacks under way are fields of the watcher. */
  class Watcher {
    const world: World
    // The repository: remote tip and checked-out commit.
    var remote: Sha
    var head: Sha
    var lastCommitSHA: Sha
    var pulled: Option<Poll>
    var debounceTimer: Option<Sha>
    var callbacks: map<nat, Callback>
    var fired: nat
    var active: Content
    var successfulReloads: nat
    var failedReloads: nat
    var skippedPolls: nat
    var stuck: bool

    function View(): State
      reads this
    {
      State(remote, head, lastCommitSHA, pulled, debounceTimer, callbacks, fired, active,
            successfulReloads, failedReloads, skippedPolls, stuck)
    }

    constructor (world: World, sha: Sha)
      ensures this.world == world && View() == Start(sha, world)
    {
      this.world := world;
      remote, head, lastCommitSHA, pulled, debounceTimer := sha, sha, sha, None, None;
      callbacks, fired, active := map[], 0, world.policies(sha);
      successfulReloads, failedReloads, skippedPolls, stuck := 0, 0, 0, false;
    }

    /** The first half of checkForChanges, under the repository's lock. */
    method PullChanges(works: bool)
      requires pulled.None?
      modifies this`head, this`pulled
      ensures View() == Apply(world, old(View()), Pull(works))
    {
      if works && head != remote {
        var from := head;
        head := remote;
        pulled := Some(Pulled(head, world.changes(from, head)));
      }
    }

    /** The second half: skip the commit, or arm the timer in place of an earlier one. */
    method ActOnChanges()
      requires pulled.Some?
      modifies this`pulled, this`skippedPolls, this`lastCommitSHA, this`debounceTimer
      ensures View() == Apply(world, old(View()), Note)
    {
      if !pulled.value.changed {
        skippedPolls := skippedPolls + 1;
        lastCommitSHA := pulled.value.to;
      } else {
        debounceTimer := Some(pulled.value.to);
      }
      pulled := None;
    }

    method TimerFires()
      requires debounceTimer.Some?
      modifies this`debounceTimer, this`callbacks, this`fired
      ensures View() == Apply(world, old(View()), Fire)
    {
      callbacks := callbacks[fired := Callback(debounceTimer.value, Started)];
      debounceTimer := None;
      fired := fired + 1;
    }

    /** The next action of one performReload. */
    method PerformReload(id: nat, rollbackWorks: bool)
      requires id in callbacks
      modifies this`callbacks, this`head, this`active, this`lastCommitSHA, this`successfulReloads, this`failedReloads, this`stuck
      ensures View() == Apply(world, old(View()), Advance(id, rollbackWorks))
    {
      var cb := callbacks[id];
      var next: Option<Phase> := None;
      match cb.phase {
        case Started => next := Some(Loaded(world.policies(head)));
        case Loaded(found) =>
          if world.valid(found) {
            active := found;
            next := Some(Recording);
          } else {
            failedReloads := failedReloads + 1;
            next := Some(Failed);
          }
        case Recording =>
          lastCommitSHA := cb.sha;
          successfulReloads := successfulReloads + 1;
        case Failed => next := Some(Aiming(lastCommitSHA));
        case Aiming(target) =>
          if rollbackWorks {
            head := target;
            next := Some(RolledBack);
          }
        case RolledBack => next := Some(Reread(world.policies(head)));
        case Reread(found) =>
          if world.valid(found) {
            active := found;
          } else {
            stuck := true;
          }
      }
      callbacks := if next.Some? then callbacks[id := cb.(phase := next.value)] else callbacks - {id};
    }
  }
}
