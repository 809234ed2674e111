/** Passing tags from the media thread to the network thread through a queue under a
    mutex. The steps are those between which the threads can interleave: what
    happens while the mutex is held is one step. */
module Handoff {

  datatype Media =
    | MediaIdle
    // the tag is in the queue, the mutex released; `process` was read under it
    | Pushed(process: bool)

  datatype Net<T> =
    | NetIdle
    // at the head of the draining loop
    | LoopHead
    // there was room for a tag, the mutex not yet taken
    | MayPop
    | Sending(tag: T)

  datatype State<T> = State(
    queue: seq<T>,
    // drains posted to the network thread and not yet begun
    posted: nat,
    // whether the connection will call back when it has room again
    readyArmed: bool,
    media: Media,
    net: Net<T>,
    sent: seq<T>)

  datatype Step<T> =
    | Push(tag: T)
    | LeavePush
    | StartPosted
    | StartReady
    | CheckRoom(canSend: bool)
    | Pop
    | Send

  function Initial<T>(): State<T> {
    State([], 0, false, MediaIdle, NetIdle, [])
  }

  predicate Enabled<T>(s: State<T>, step: Step<T>) {
    match step
    case Push(_) => s.media.MediaIdle?
    case LeavePush => s.media.Pushed?
    case StartPosted => s.net.NetIdle? && s.posted > 0
    case StartReady => s.net.NetIdle? && s.readyArmed
    case CheckRoom(_) => s.net.LoopHead?
    case Pop => s.net.MayPop?
    case Send => s.net.Sending?
  }

  function Next<T>(s: State<T>, step: Step<T>): State<T>
    requires Enabled(s, step)
  {
    match step
    case Push(tag) => s.(queue := s.queue + [tag], media := Pushed(s.queue == []))
    case LeavePush => s.(media := MediaIdle, posted := s.posted + if s.media.process then 1 else 0)
    case StartPosted => s.(net := LoopHead, posted := s.posted - 1)
    case StartReady => s.(net := LoopHead, readyArmed := false)
    case CheckRoom(canSend) => if canSend then s.(net := MayPop) else s.(net := NetIdle, readyArmed := true)
    case Pop => if s.queue == [] then s.(net := NetIdle) else s.(net := Sending(s.queue[0]), queue := s.queue[1..])
    case Send => s.(net := LoopHead, sent := s.sent + [s.net.tag])
  }

  /** Every step can be taken when its turn comes. */
  predicate IsRun<T>(s: State<T>, steps: seq<Step<T>>)
    decreases |steps|
  {
    steps == [] || (Enabled(s, steps[0]) && IsRun(Next(s, steps[0]), steps[1..]))
  }

  function After<T>(s: State<T>, steps: seq<Step<T>>): State<T>
    requires IsRun(s, steps)
    decreases |steps|
  {
    if steps == [] then s else After(Next(s, steps[0]), steps[1..])
  }

  /** The tags that a run schedules. */
  function Scheduled<T>(steps: seq<Step<T>>): seq<T> {
    if steps == [] then []
    else (if steps[0].Push? then [steps[0].tag] else []) + Scheduled(steps[1..])
  }

  function InFlight<T>(s: State<T>): seq<T> {
    if s.net.Sending? then [s.net.tag] else []
  }

  /** All tags there are, in order: sent, being sent, queued. */
  function Tags<T>(s: State<T>): seq<T> {
    s.sent + InFlight(s) + s.queue
  }

  /** Something will get to the queue: a drain that runs, is posted or about to be
      posted, or the connection's callback. */
  predicate DrainDue<T>(s: State<T>) {
    !s.net.NetIdle? || s.posted > 0 || s.media == Pushed(true) || s.readyArmed
  }

  predicate NoLostWakeup<T>(s: State<T>) {
    s.queue != [] ==> DrainDue(s)
  }

  lemma StepKeeps<T>(s: State<T>, step: Step<T>)
    requires Enabled(s, step) && NoLostWakeup(s)
    ensures NoLostWakeup(Next(s, step))
    ensures Tags(Next(s, step)) == Tags(s) + if step.Push? then [step.tag] else []
  {
  }

  /** In every interleaving: no tag is lost, doubled or overtaken, and a queue that
      is not empty has a drain due. */
  lemma {:induction false} EveryRunKeeps<T>(s: State<T>, steps: seq<Step<T>>)
    requires IsRun(s, steps) && NoLostWakeup(s)
    ensures NoLostWakeup(After(s, steps))
    ensures Tags(After(s, steps)) == Tags(s) + Scheduled(steps)
    decreases |steps|
  {
    if steps != [] {
      StepKeeps(s, steps[0]);
      EveryRunKeeps(Next(s, steps[0]), steps[1..]);
    }
  }

  /** From the start of a connection on, in every interleaving: what was scheduled is
      sent, being sent or queued, in order, and no wakeup is lost. */
  lemma EveryRunFromStart<T>(steps: seq<Step<T>>)
    requires IsRun(Initial(), steps)
    ensures NoLostWakeup(After(Initial(), steps))
    ensures Tags(After(Initial(), steps)) == Scheduled(steps)
  {
    EveryRunKeeps(Initial(), steps);
  }

  // ----- Without new tags and with room in the connection everything is sent -----

  /** A step that the system takes by itself towards a client that has room. */
  predicate Draining<T>(step: Step<T>) {
    !step.Push? && step != CheckRoom(false)
  }

  function Work<T>(s: State<T>): nat {
    4 * |s.queue| + 3 * s.posted + (if s.readyArmed then 3 else 0)
    + (if s.media.Pushed? then 4 else 0)
    + match s.net case NetIdle => 0 case LoopHead => 2 case MayPop => 1 case Sending(_) => 3
  }

  /** Nothing is left to do but to wait for a new tag. */
  predicate AtRest<T>(s: State<T>) {
    s.media.MediaIdle? && s.net.NetIdle? && s.posted == 0 && !s.readyArmed
  }

  /** At rest is where no draining step can be taken. */
  lemma AtRestIff<T>(s: State<T>)
    ensures AtRest(s) <==> forall step :: Draining(step) ==> !Enabled(s, step)
  {
    if !AtRest(s) {
      var step: Step<T> := if s.media.Pushed? then LeavePush else
        match s.net
        case NetIdle => if s.posted > 0 then StartPosted else StartReady
        case LoopHead => CheckRoom(true)
        case MayPop => Pop
        case Sending(_) => Send;
      assert Draining(step) && Enabled(s, step);
    }
  }

  lemma StepWorks<T>(s: State<T>, step: Step<T>)
    requires Enabled(s, step) && Draining(step)
    ensures Work(Next(s, step)) < Work(s)
  {
  }

  /** A run of draining steps is bounded, and one that cannot go on has sent every
      tag scheduled before it, in order. */
  lemma {:induction false} DrainSendsAll<T>(s: State<T>, steps: seq<Step<T>>)
    requires IsRun(s, steps) && NoLostWakeup(s)
    requires forall i :: 0 <= i < |steps| ==> Draining(steps[i])
    ensures |steps| <= Work(s)
    ensures AtRest(After(s, steps)) ==> After(s, steps).sent == Tags(s) && After(s, steps).queue == []
    decreases |steps|
  {
    if steps != [] {
      StepWorks(s, steps[0]);
      StepKeeps(s, steps[0]);
      DrainSendsAll(Next(s, steps[0]), steps[1..]);
    }
  }
}
