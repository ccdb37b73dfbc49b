/** The animation coordinator (frontend/visual/anim/core/anim_coordinator.py):
    sets of element animations wait in a first-in first-out queue; each
    `queue_to_elements` call starts the front set when none is running, and
    forgets the running set once all its animations have finished. */
module AnimCoordinators {
  import opened Wrappers
  import ElementManagers

  /** A `SequentialAnim`, by identity. Whether it has finished is state of
      the animation that the model takes as a parameter of each call. */
  type Anim = nat

  type Element = ElementManagers.ElementWrapper

  /** A set of animations to run together: each paired with its element. */
  type AnimSet = seq<(Element, Anim)>

  /** `is_not_running_anim` on a set: every animation in it has finished. */
  predicate AllFinished(s: AnimSet, finished: Anim -> bool)
  {
    forall i | 0 <= i < |s| :: finished(s[i].1)
  }

  /** The coordinator's state as a value: the waiting sets, front first, and
      the running set (empty when none). */
  datatype Coordination = Coordination(queue: seq<AnimSet>, current: AnimSet)

  /** One `queue_to_elements` on values: the next state and the set started
      by this call, if any. */
  function Tick(c: Coordination, finished: Anim -> bool): (Coordination, Option<AnimSet>)
  {
    if c.queue == [] then (c, None)
    else
      var started := if c.current == [] then Some(c.queue[0]) else None;
      var queue := if c.current == [] then c.queue[1..] else c.queue;
      var current := if c.current == [] then c.queue[0] else c.current;
      (Coordination(queue, if AllFinished(current, finished) then [] else current), started)
  }

  /** What a single call does: nothing while the queue is empty; a set is
      started only when none is running, and it is the front one; a running
      set is dropped only when all its animations have finished. */
  lemma TickMeaning(c: Coordination, finished: Anim -> bool)
    ensures c.queue == [] ==> Tick(c, finished) == (c, None)
    ensures Tick(c, finished).1.Some? <==> c.queue != [] && c.current == []
    ensures Tick(c, finished).1.Some? ==>
              Tick(c, finished).1.value == c.queue[0] && Tick(c, finished).0.queue == c.queue[1..]
    ensures c.queue != [] && c.current != [] ==>
              Tick(c, finished).0.queue == c.queue
              && (Tick(c, finished).0.current == [] <==> AllFinished(c.current, finished))
    ensures c.queue != [] && Tick(c, finished).0.current != [] ==>
              !AllFinished(Tick(c, finished).0.current, finished)
  {
  }

  /** A call on the coordinator: `queue_animation_set` or `queue_to_elements`
      with the animations' finished status at that moment. */
  datatype Call = QueueSet(animSet: AnimSet) | QueueToElements(finished: Anim -> bool)

  /** The set a call hands to the coordinator, if any. */
  function Handed(call: Call): seq<AnimSet>
  {
    match call
    case QueueSet(s) => [s]
    case QueueToElements(_) => []
  }

  /** The sets handed to the coordinator by a sequence of calls, in order. */
  function Queued(calls: seq<Call>): seq<AnimSet>
  {
    if calls == [] then [] else Queued(calls[..|calls| - 1]) + Handed(calls[|calls| - 1])
  }

  /** One call on values, from a state and the sets started before it. */
  function Step(c: Coordination, started: seq<AnimSet>, call: Call): (Coordination, seq<AnimSet>)
  {
    match call
    case QueueSet(s) => (Coordination(c.queue + [s], c.current), started)
    case QueueToElements(finished) =>
      var (after, now) := Tick(c, finished);
      (after, started + if now.Some? then [now.value] else [])
  }

  /** A sequence of calls on values: the final state and the sets started,
      in the order they started. */
  function Run(c: Coordination, calls: seq<Call>): (Coordination, seq<AnimSet>)
  {
    if calls == [] then (c, [])
    else
      var before := Run(c, calls[..|calls| - 1]);
      Step(before.0, before.1, calls[|calls| - 1])
  }

  /** First in, first out: the sets started so far followed by the sets still
      waiting are exactly the sets that were waiting at the start followed by
      the sets queued since, in order. So every set starts at most once and
      no set overtakes one queued before it. */
  lemma {:induction false} RunIsFifo(c: Coordination, calls: seq<Call>)
    ensures Run(c, calls).1 + Run(c, calls).0.queue == c.queue + Queued(calls)
  {
    if calls != [] {
      var front := calls[..|calls| - 1];
      var last := calls[|calls| - 1];
      RunIsFifo(c, front);
      var before := Run(c, front);
      StepIsFifo(before.0, before.1, last);
      assert c.queue + Queued(calls) == (c.queue + Queued(front)) + Handed(last);
    }
  }

  /** One call keeps the order: what it starts comes off the front of the
      queue, and what it hands over goes on the back. */
  lemma StepIsFifo(c: Coordination, started: seq<AnimSet>, call: Call)
    ensures Step(c, started, call).1 + Step(c, started, call).0.queue == (started + c.queue) + Handed(call)
  {
    match call
    case QueueSet(s) =>
    case QueueToElements(finished) =>
      if c.queue != [] && c.current == [] {
        assert c.queue == [c.queue[0]] + c.queue[1..];
      }
  }

  /** `AnimationCoordinator`. */
  class AnimationCoordinator {
    var queue: seq<AnimSet>
    var current: AnimSet

    constructor()
      ensures queue == [] && current == []
    {
      queue := [];
      current := [];
    }

    /** `queue_animation_set`: appends a set at the back. */
    method QueueAnimationSet(animSet: AnimSet)
      modifies this
      ensures queue == old(queue) + [animSet] && current == old(current)
    {
      queue := queue + [animSet];
    }

    /** `queue_to_elements`: behaves as Tick, and when it starts a set it
        hands each of its animations to its element once, in order; the
        hand-overs are returned. */
    method QueueToElements(finished: Anim -> bool) returns (delegated: seq<(Element, Anim)>)
      modifies this
      ensures var (next, started) := Tick(Coordination(old(queue), old(current)), finished);
              && Coordination(queue, current) == next
              && delegated == (if started.Some? then started.value else [])
    {
      delegated := [];
      if queue == [] {
        return;
      }
      if current == [] {
        current := queue[0];
        queue := queue[1..];
        for k := 0 to |current|
          invariant delegated == current[..k]
        {
          delegated := delegated + [current[k]];
        }
        assert current[..|current|] == current;
      }
      if IsNotRunningAnim(finished) {
        current := [];
      }
    }

    /** `is_not_running_anim`. */
    function IsNotRunningAnim(finished: Anim -> bool): bool
      reads this
    {
      AllFinished(current, finished)
    }
  }
}
