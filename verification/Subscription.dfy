/**
 A notification subscription over all shards, as a step system: one manager per shard with its stream,
 retries and initialisation, the goroutine that closes the user's channel, the goroutine that creates
 the subscription and the user. The steps of all of them interleave in any way.
 */
module Subscription {
  import opened Prelude
  import opened WaitGroup
  import Barrier

  // ---------- Notifications ----------

  datatype Change = KeyCreated | KeyModified | KeyDeleted

  /** A notification as the server sends it, under its key. */
  datatype Entry = Entry(change: Change, versionId: Option<int>)

  type Batch = map<Bytes, Entry>

  /** A notification as the user reads it. */
  datatype Notification = Notification(key: Bytes, change: Change, versionId: int)

  function Convert(key: Bytes, e: Entry): Notification {
    Notification(key, e.change, if e.versionId.Some? then e.versionId.value else -1)
  }

  /** The notifications of a batch, in one iteration order of its map. */
  function Converted(keys: seq<Bytes>, b: Batch): (ns: seq<Notification>)
    requires forall k :: k in keys ==> k in b
  {
    seq(|keys|, i requires 0 <= i < |keys| => Convert(keys[i], b[keys[i]]))
  }

  /** `n` says about its key what the batch says: the change, and the version or -1 if there is none. */
  ghost predicate Tells(n: Notification, b: Batch) {
    && n.key in b && n.change == b[n.key].change
    && match b[n.key].versionId
       case Some(v) => n.versionId == v
       case None => n.versionId == -1
  }

  /** `ns` has one notification for every key of `b` and no other, and each tells what `b` says. */
  ghost predicate Delivers(ns: seq<Notification>, b: Batch) {
    && (forall i :: 0 <= i < |ns| ==> Tells(ns[i], b))
    && (forall i, j :: 0 <= i < j < |ns| ==> ns[i].key != ns[j].key)
    && (forall k :: k in b ==> exists i :: 0 <= i < |ns| && ns[i].key == k)
  }

  ghost predicate DeliversPrefix(ns: seq<Notification>, b: Batch) {
    exists rest :: Delivers(ns + rest, b)
  }

  /** Whatever the iteration order, a batch is delivered. */
  lemma ConvertedDelivers(keys: seq<Bytes>, b: Batch)
    requires IterationOrder(keys, b)
    ensures Delivers(Converted(keys, b), b)
  {
    var ns := Converted(keys, b);
    forall k | k in b ensures exists i :: 0 <= i < |ns| && ns[i].key == k {
      assert k in keys;
      var i :| 0 <= i < |keys| && keys[i] == k;
      assert ns[i].key == k;
    }
  }

  // ---------- One shard manager ----------

  /**
   Where a manager is: about to connect; reading its stream, at offset `next`, possibly with the dummy
   batch still to come; sending the notifications of a batch; back from a failed attempt; in the retry
   callback; waiting for the next attempt; out of the retry loop; done.
   */
  datatype Phase =
    | Idle
    | Streaming(dummy: Option<int>, next: int)
    | Pushing(offset: int, rest: seq<Notification>, next: int)
    | Failed(err: Error)
    | Notifying(err: Error)
    | Cancelling
    | Sleeping
    | Exited
    | Signalled

  /**
   `last` and `initialized` are the manager's fields. The others record what happened: `start` is the offset
   of the initial batch, `chunks` what was pushed for each batch of the log received after that one, and `cut`
   says that the last of these was given up half-way.
   */
  datatype Manager = Manager(
    phase: Phase, last: int, initialized: bool, start: Option<int>, chunks: seq<seq<Notification>>, cut: bool
  )

  datatype Move =
    | Connect
    | ConnectError(cause: Error)
    | Receive(keys: seq<Bytes>)
    | Push
    | Finish
    | CutPush
    | Break(cause: Error)
    | Check
    | Stop
    | Notify
    | CancelAll
    | Wake
    | SleepCancelled
    | Signal

  const NEW_MANAGER := Manager(Idle, -1, false, None, [], false)

  const CONTEXT_CANCELED: Error := "context canceled"

  /** What the server sends next: the dummy batch, or the entry of its log at that offset. */
  function NextBatch(stream: Phase, log: seq<Batch>): (b: Batch)
    requires stream.Streaming?
  {
    if stream.dummy.None? && 0 <= stream.next < |log| then log[stream.next] else map[]
  }

  ghost predicate MoveEnabled(m: Manager, log: seq<Batch>, sh: Shared, i: nat, move: Move) {
    match move
    case Connect => m.phase.Idle?
    case ConnectError(_) => m.phase.Idle?
    case Receive(keys) =>
      && m.phase.Streaming? && (m.phase.dummy.Some? || 0 <= m.phase.next < |log|)
      && IterationOrder(keys, NextBatch(m.phase, log))
    case Push => m.phase.Pushing? && m.phase.rest != [] && (|sh.queue.channel| < CAPACITY || sh.queue.closed)
    case Finish => m.phase.Pushing? && m.phase.rest == []
    case CutPush => m.phase.Pushing? && m.phase.rest != [] && sh.cancelled
    case Break(_) => m.phase.Streaming?
    case Check => m.phase.Failed? && !sh.cancelled
    case Stop => m.phase.Failed? && sh.cancelled
    case Notify => m.phase.Notifying?
    case CancelAll => m.phase.Cancelling? && i < |sh.reports.init.calls| && !sh.reports.init.calls[i].Blocked?
    case Wake => m.phase.Sleeping?
    case SleepCancelled => m.phase.Sleeping? && sh.cancelled
    case Signal => m.phase.Exited? && sh.count < |sh.reports.init.calls|
  }

  /** `GetNotifications` with the last offset, if there is one; without it the server starts with a dummy batch. */
  function Connected(m: Manager, log: seq<Batch>): Phase {
    if m.last >= 0 then Streaming(None, m.last + 1) else Streaming(Some(|log| - 1), |log|)
  }

  /** A batch arrives. The dummy batch has nothing to push, so it only moves the offset. */
  function Received(m: Manager, log: seq<Batch>, keys: seq<Bytes>): Manager
    requires m.phase.Streaming? && forall k :: k in keys ==> k in NextBatch(m.phase, log)
  {
    var offset := if m.phase.dummy.Some? then m.phase.dummy.value else m.phase.next;
    var next := if m.phase.dummy.Some? then m.phase.next else m.phase.next + 1;
    if !m.initialized then
      m.(phase := Streaming(None, next), initialized := true, start := Some(offset), last := offset)
    else if m.phase.dummy.Some? then
      m.(phase := Streaming(None, next), last := offset)
    else
      m.(phase := Pushing(offset, Converted(keys, NextBatch(m.phase, log)), next), chunks := m.chunks + [[]])
  }

  function PushOne(m: Manager): Manager
    requires m.phase.Pushing? && m.phase.rest != []
  {
    var n := |m.chunks|;
    m.(phase := m.phase.(rest := m.phase.rest[1..]),
       chunks := if n > 0 then m.chunks[n - 1 := m.chunks[n - 1] + [m.phase.rest[0]]] else m.chunks)
  }

  ghost function Moved(m: Manager, log: seq<Batch>, sh: Shared, i: nat, move: Move): Manager
    requires MoveEnabled(m, log, sh, i, move)
  {
    match move
    case Connect => m.(phase := Connected(m, log))
    case ConnectError(cause) => m.(phase := Failed(cause))
    case Receive(keys) => Received(m, log, keys)
    case Push => PushOne(m)
    case Finish => m.(phase := Streaming(None, m.phase.next), last := m.phase.offset)
    case CutPush => m.(phase := Failed(CONTEXT_CANCELED), cut := true)
    case Break(cause) => m.(phase := Failed(cause))
    case Check => m.(phase := Notifying(m.phase.err))
    case Stop => m.(phase := Exited)
    case Notify => m.(phase := if m.initialized then Sleeping else Cancelling, initialized := true)
    case CancelAll => m.(phase := Sleeping)
    case Wake => m.(phase := Idle)
    case SleepCancelled => m.(phase := Exited)
    case Signal => m.(phase := Signalled)
  }

  // ---------- What they share ----------

  const CAPACITY := 100

  datatype Sent = Sent(shard: nat, n: Notification)

  /** Where `Close` is. */
  datatype Closing = Open | Waiting | Draining | Done

  /** The wait group of the initialisation; `twice` records that a manager reported a second time. */
  datatype Reports = Reports(init: Barrier.State, twice: bool)

  /**
   The user's channel, with everything ever sent on it, everything taken from it, and what of that the user
   read; the rest was thrown away by `Close`. `panicked` records a send after it was closed.
   */
  datatype Queue = Queue(
    channel: seq<Sent>, sends: seq<Sent>, taken: seq<Sent>, read: seq<Sent>, closed: bool, panicked: bool
  )

  const EMPTY_QUEUE := Queue([], [], [], [], false, false)

  /**
   `cancelled` is the managers' context, `count` the closing goroutine's progress and `signalled` the context
   it cancels at the end.
   */
  datatype Shared = Shared(
    cancelled: bool, reports: Reports, queue: Queue, count: nat, signalled: bool, closing: Closing
  )

  /** One `Done` or `Fail` of manager `i`. */
  function Report(r: Reports, i: nat, err: Option<Error>): Reports {
    if i < |r.init.calls| && r.init.calls[i].Pending? then
      r.(init := Barrier.Next(r.init, if err.None? then Barrier.CallOk(i) else Barrier.CallError(i, err.value)))
    else
      r.(twice := true)
  }

  function Send(q: Queue, x: Sent): Queue {
    if q.closed then q.(panicked := true) else q.(channel := q.channel + [x], sends := q.sends + [x])
  }

  function Taken(q: Queue): Queue
    requires q.channel != []
  {
    q.(channel := q.channel[1..], taken := q.taken + [q.channel[0]])
  }

  /** Creation succeeded, so the user has the subscription. */
  predicate Usable(sh: Shared) {
    sh.reports.init.Outcome() == Some(None)
  }

  /** What a move of manager `i` does to the shared part. */
  ghost function Effect(m: Manager, log: seq<Batch>, sh: Shared, i: nat, move: Move): Shared
    requires MoveEnabled(m, log, sh, i, move)
  {
    match move
    case Receive(_) => if m.initialized then sh else sh.(reports := Report(sh.reports, i, None))
    case Push => sh.(queue := Send(sh.queue, Sent(i, m.phase.rest[0])))
    case Notify => if m.initialized then sh else sh.(reports := Report(sh.reports, i, Some(m.phase.err)))
    case CancelAll => sh.(cancelled := true)
    case Signal => sh.(count := sh.count + 1)
    case _ => sh
  }

  /** Steps of the other goroutines: the closing one, the creating one, the user and the parent context. */
  datatype Action =
    | CloseChannel
    | SignalClosed
    | AwaitInit(step: Barrier.Step)
    | ParentCancel
    | Read
    | Drain
    | BeginClose
    | EndWait
    | EndClose

  ghost predicate ActionEnabled(sh: Shared, act: Action) {
    match act
    case CloseChannel => sh.count == |sh.reports.init.calls| && !sh.queue.closed
    case SignalClosed => sh.queue.closed && !sh.signalled
    case AwaitInit(step) =>
      (step.Receive? || step.Cancel? || step.WaitCancelled?) && Barrier.Enabled(sh.reports.init, step)
    case ParentCancel => true
    case Read => sh.queue.channel != [] && Usable(sh)
    case Drain => sh.queue.channel != [] && sh.closing.Draining?
    case BeginClose => sh.closing.Open? && Usable(sh)
    case EndWait => sh.closing.Waiting? && sh.signalled
    case EndClose => sh.closing.Draining? && sh.queue.channel == [] && sh.queue.closed
  }

  ghost function Acted(sh: Shared, act: Action): Shared
    requires ActionEnabled(sh, act)
  {
    match act
    case CloseChannel => sh.(queue := sh.queue.(closed := true))
    case SignalClosed => sh.(signalled := true)
    case AwaitInit(step) => sh.(reports := sh.reports.(init := Barrier.Next(sh.reports.init, step)))
    case ParentCancel => sh.(cancelled := true)
    case Read => sh.(queue := Taken(sh.queue).(read := sh.queue.read + [sh.queue.channel[0]]))
    case Drain => sh.(queue := Taken(sh.queue))
    case BeginClose => sh.(closing := Waiting, cancelled := true)
    case EndWait => sh.(closing := Draining)
    case EndClose => sh.(closing := Done)
  }

  // ---------- The whole system ----------

  datatype State = State(managers: seq<Manager>, logs: seq<seq<Batch>>, shared: Shared)

  datatype Step = Append(shard: nat, batch: Batch) | Manage(i: nat, move: Move) | Act(action: Action)

  ghost predicate Shaped(s: State) {
    |s.managers| == |s.logs| == |s.shared.reports.init.calls|
  }

  ghost predicate Init(s: State) {
    && Shaped(s) && (forall i :: 0 <= i < |s.managers| ==> s.managers[i] == NEW_MANAGER)
    && Barrier.Init(s.shared.reports.init, |s.managers|)
    && s.shared == Shared(false, Reports(s.shared.reports.init, false), EMPTY_QUEUE, 0, false, Open)
  }

  ghost predicate Enabled(s: State, step: Step) {
    match step
    case Append(i, _) => i < |s.logs|
    case Manage(i, move) => i < |s.managers| && i < |s.logs| && MoveEnabled(s.managers[i], s.logs[i], s.shared, i, move)
    case Act(action) => ActionEnabled(s.shared, action)
  }

  ghost function Next(s: State, step: Step): State
    requires Enabled(s, step)
  {
    match step
    case Append(i, batch) => s.(logs := s.logs[i := s.logs[i] + [batch]])
    case Manage(i, move) =>
      var m, log := s.managers[i], s.logs[i];
      s.(managers := s.managers[i := Moved(m, log, s.shared, i, move)], shared := Effect(m, log, s.shared, i, move))
    case Act(action) => s.(shared := Acted(s.shared, action))
  }

  /** Step `n` leads from state `n` to the next. */
  ghost predicate Follows(states: seq<State>, steps: seq<Step>, n: nat) {
    n < |steps| && n + 1 < |states| && Enabled(states[n], steps[n]) && states[n + 1] == Next(states[n], steps[n])
  }

  /** A system with one shard. */
  function Alone(m: Manager, log: seq<Batch>, sh: Shared): State {
    State([m], [log], sh)
  }

  ghost predicate Run(states: seq<State>, steps: seq<Step>) {
    && |states| == |steps| + 1 && Init(states[0])
    && forall n :: 0 <= n < |steps| ==> Enabled(states[n], steps[n]) && states[n + 1] == Next(states[n], steps[n])
  }
}
