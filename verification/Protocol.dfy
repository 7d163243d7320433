/**
 * The component as a concurrent state machine: any number of client threads, one looper thread with
 * a FIFO mailbox, and the work queue between them.  Every event is one critical section, one message
 * posted or taken, or one report to the listener; between two events of a thread any event of any
 * other thread may happen.  The decoder is not described here: its callbacks and its result are
 * parameters of the events.
 */
module Protocol {
  import opened Codec2
  import opened WorkQueue

  /** The video component holds mProcessQueueLock around processQueue; the audio one has no such lock. */
  datatype Flavor = Video | Audio

  datatype Exec = Uninitialized | Stopped | Running

  datatype Msg =
    | Process
    | Init(caller: nat)
    | Start
    | Stop(caller: nat)
    | Reset(caller: nat)
    | Release(caller: nat)

  /** Where a client thread is inside a call; a thread outside every call is not in the map. */
  datatype Client =
    | Queueing(items: seq<Work>)          // queue_nb has seen RUNNING
    | Draining(mode: DrainMode)           // drain_nb has seen RUNNING
    | Flushing                            // flush_sm has seen RUNNING
    | FlushWaiting(generation: nat)       // flush_sm has emptied the queue
    | Clearing(msg: Msg)                  // stop or reset has set mState
    | Posting(msg: Msg)                   // about to post a message
    | Awaiting                            // waiting for the reply to its message
    | Started                             // start is about to set RUNNING

  /** Where the looper thread is. */
  datatype Handler =
    | Idle
    | Entered                                            // in processQueue, before its first section
    | Popped(f: Flight)                                  // before the pending flush and the pool
    | Processing(f: Flight)                              // in process() or drain()
    | Finishing(f: Flight, held: Work)                   // finish() holds a work it took
    | Reporting(report: seq<Delivery>, hasQueued: bool)  // before onWorkDone_nb
    | Leaving(hasQueued: bool)                           // processQueue has returned

  datatype Sys = Sys(
    flavor: Flavor,
    exec: Exec,
    listener: bool,
    q: QueueState,
    handler: Handler,
    running: bool,                       // WorkHandler::mRunning
    pool: bool,                          // mOutputBlockPool is set
    mailbox: seq<Msg>,
    clients: map<nat, Client>,
    // history
    accepted: seq<Work>,                 // works in the order queue_nb accepted them
    log: seq<Delivery>,                  // what the listener was given
    returned: seq<Work>,                 // works given back by flush_sm
    discarded: seq<Work>,                // works destroyed inside the component
    parkedUnder: map<FrameIndex, nat>,   // the generation each pending work was popped under
    flushedFor: nat)                     // the generation the decoder was last flushed for

  function Init0(flavor: Flavor): Sys {
    Sys(flavor, Uninitialized, false, QueueState(false, 0, [], map[]), Idle, false, false, [], map[],
        [], [], [], [], map[], 0)
  }

  datatype Event =
    | SetListener(present: bool)
    | QueueCheck(c: nat, items: seq<Work>)
    | QueueSection(c: nat)
    | DrainCheck(c: nat, mode: DrainMode)
    | DrainSection(c: nat)
    | FlushCheck(c: nat)
    | FlushSection(c: nat)
    | FlushReturn(c: nat)
    | StartCheck(c: nat)
    | StartDone(c: nat)
    | StopSet(c: nat)
    | ResetSet(c: nat)
    | ReleaseCall(c: nat)
    | ClearSection(c: nat)
    | Post(c: nat)
    | Dispatch(initOk: bool)
    | PopSection
    | Prepare(poolOk: bool)
    | FinishTake(index: FrameIndex)
    | FinishDeliver(filled: Work)
    | CloneSend(index: FrameIndex, filled: Work)
    | CommitSection(processed: Work)
    | DrainDone
    | Report
    | Leave

  predicate HandlerEvent(e: Event) {
    e.Dispatch? || e.PopSection? || e.Prepare? || e.FinishTake? || e.FinishDeliver? || e.CloneSend? ||
    e.CommitSection? || e.DrainDone? || e.Report? || e.Leave?
  }

  /** mProcessQueueLock is free. */
  predicate LockFree(s: Sys) {
    s.handler.Idle? || s.handler.Leaving?
  }

  ghost predicate Enabled(s: Sys, e: Event) {
    match e
    case SetListener(present) => s.exec.Running? ==> !present
    case QueueCheck(c, _) => c !in s.clients && s.exec.Running?
    case QueueSection(c) => c in s.clients && s.clients[c].Queueing?
    case DrainCheck(c, mode) => c !in s.clients && s.exec.Running? && mode != Chain
    case DrainSection(c) => c in s.clients && s.clients[c].Draining?
    case FlushCheck(c) => c !in s.clients && s.exec.Running?
    case FlushSection(c) => c in s.clients && s.clients[c].Flushing?
    case FlushReturn(c) => c in s.clients && s.clients[c].FlushWaiting? && (s.flavor.Video? ==> LockFree(s))
    case StartCheck(c) => c !in s.clients && !s.exec.Running?
    case StartDone(c) => c in s.clients && s.clients[c].Started?
    case StopSet(c) => c !in s.clients && s.exec.Running?
    case ResetSet(c) => c !in s.clients
    case ReleaseCall(c) => c !in s.clients
    case ClearSection(c) => c in s.clients && s.clients[c].Clearing?
    case Post(c) => c in s.clients && s.clients[c].Posting?
    case Dispatch(_) => s.handler.Idle? && s.mailbox != []
    case PopSection => s.handler.Entered?
    case Prepare(_) => s.handler.Popped?
    case FinishTake(_) => s.handler.Processing?
    case FinishDeliver(filled) => s.handler.Finishing? && SameWork(s.handler.held, filled)
                                  && (s.flavor.Audio? ==> s.listener)
    case CloneSend(index, filled) => s.handler.Processing? && s.handler.f.work.Some?
                                     && (index == s.handler.f.work.value.frameIndex || index in s.q.pending)
                                     && filled.frameIndex == index
                                     && (s.flavor.Audio? ==> s.listener)
    case CommitSection(w) => s.handler.Processing? && s.handler.f.work.Some? && SameWork(s.handler.f.work.value, w)
    case DrainDone => s.handler.Processing? && s.handler.f.work.None?
    case Report => s.handler.Reporting? && (s.handler.report != [] ==> s.listener)
    case Leave => s.handler.Leaving?
  }

  function FlightWorks(f: Flight): seq<Work> {
    if f.work.Some? then [f.work.value] else []
  }

  function FrameIndexes(ws: seq<Work>): seq<FrameIndex> {
    seq(|ws|, i requires 0 <= i < |ws| => ws[i].frameIndex)
  }

  /** The works of the pending map in the order in which the hash map happens to list them. */
  ghost function PendingWorks(m: map<FrameIndex, Work>): seq<Work> {
    if m == map[] then [] else
      var k: FrameIndex :| k in m;
      [m[k]] + PendingWorks(m - {k})
  }

  /** queue_nb or drain_nb has left its section: it posts when the queue was empty before. */
  function AfterSection(s: Sys, c: nat): map<nat, Client> {
    if s.q.queue == [] then s.clients[c := Posting(Process)] else s.clients - {c}
  }

  ghost function Dispatched(s: Sys, initOk: bool): Sys
    requires s.handler.Idle? && s.mailbox != []
  {
    var s1 := s.(mailbox := s.mailbox[1..]);
    match s.mailbox[0]
    case Process => if s.running then s1.(handler := Entered) else s1
    case Init(c) => s1.(running := true, clients := if initOk then s.clients[c := Started] else s.clients - {c})
    case Start => s1.(running := true)
    case Stop(c) => s1.(pool := false, clients := s.clients - {c})
    case Reset(c) => s1.(pool := false, running := false, clients := s.clients - {c})
    case Release(c) => s1.(pool := false, running := false, clients := s.clients - {c})
  }

  /** Posting hands the thread on: to its wait for the reply, to the end of start, or out of the call. */
  function Posted(s: Sys, c: nat): Sys
    requires c in s.clients && s.clients[c].Posting?
  {
    var msg := s.clients[c].msg;
    s.(mailbox := s.mailbox + [msg],
       clients := if msg.Process? then s.clients - {c}
                  else if msg.Start? then s.clients[c := Started]
                  else s.clients[c := Awaiting])
  }

  /** After the first section: apply a pending flush to the decoder, then get the block pool. */
  ghost function Prepared(s: Sys, poolOk: bool): Sys
    requires s.handler.Popped?
  {
    var f := s.handler.f;
    var ok := s.pool || poolOk;
    s.(flushedFor := if f.flushPending then f.generation else s.flushedFor,
       pool := ok,
       handler := if ok then Processing(f) else Leaving(f.hasQueued),
       discarded := if ok then s.discarded else s.discarded + FlightWorks(f))
  }

  /** Events of the client threads. */
  ghost function ClientStep(s: Sys, e: Event): Sys
    requires Enabled(s, e) && !HandlerEvent(e)
  {
    match e
    case SetListener(present) => s.(listener := present)
    case QueueCheck(c, items) => s.(clients := s.clients[c := Queueing(items)])
    case QueueSection(c) =>
      s.(q := QueueItems(s.q, s.clients[c].items),
         clients := AfterSection(s, c),
         accepted := s.accepted + s.clients[c].items)
    case DrainCheck(c, mode) => s.(clients := s.clients[c := Draining(mode)])
    case DrainSection(c) => s.(q := AddDrain(s.q, s.clients[c].mode), clients := AfterSection(s, c))
    case FlushCheck(c) => s.(clients := s.clients[c := Flushing])
    case FlushSection(c) =>
      s.(q := FlushQueue(s.q),
         clients := s.clients[c := FlushWaiting(s.q.generation + 1)],
         returned := s.returned + Works(s.q.queue) + PendingWorks(s.q.pending),
         parkedUnder := map[])
    case FlushReturn(c) => s.(clients := s.clients - {c})
    case StartCheck(c) =>
      s.(clients := s.clients[c := Posting(if s.exec.Uninitialized? then Init(c) else Start)])
    case StartDone(c) => s.(exec := Running, clients := s.clients - {c})
    case StopSet(c) => s.(exec := Stopped, clients := s.clients[c := Clearing(Stop(c))])
    case ResetSet(c) => s.(exec := Uninitialized, clients := s.clients[c := Clearing(Reset(c))])
    case ReleaseCall(c) => s.(clients := s.clients[c := Posting(Release(c))])
    case ClearSection(c) =>
      s.(q := ClearQueue(s.q),
         clients := s.clients[c := Posting(s.clients[c].msg)],
         discarded := s.discarded + Works(s.q.queue) + PendingWorks(s.q.pending),
         parkedUnder := map[])
    case Post(c) => Posted(s, c)
  }

  /** Events of the looper thread. */
  ghost function HandlerStep(s: Sys, e: Event): Sys
    requires Enabled(s, e) && HandlerEvent(e)
  {
    match e
    case Dispatch(initOk) => Dispatched(s, initOk)
    case PopSection =>
      if s.q.queue == [] then s.(handler := Leaving(false))
      else s.(q := PopQueue(s.q), handler := Popped(PopFlight(s.q)))
    case Prepare(poolOk) => Prepared(s, poolOk)
    case FinishTake(index) =>
      if index in s.q.pending then
        s.(q := TakePending(s.q, index), handler := Finishing(s.handler.f, s.q.pending[index]),
           parkedUnder := s.parkedUnder - {index})
      else s
    case FinishDeliver(filled) =>
      var s1 := s.(handler := Processing(s.handler.f));
      if s.listener then s1.(log := s.log + [Delivery(filled, false)])
      else s1.(discarded := s.discarded + [filled])
    case CloneSend(index, filled) =>
      if s.listener then s.(log := s.log + [Delivery(filled, true)]) else s
    case CommitSection(w) =>
      var f := s.handler.f;
      s.(q := CommitQueue(s.q, f.generation, w),
         handler := Reporting(WorkQueue.Report(CommitVerdict(s.q, f.generation, w)), f.hasQueued),
         parkedUnder := if CommitVerdict(s.q, f.generation, w).Park?
                        then s.parkedUnder[w.frameIndex := f.generation] else s.parkedUnder)
    case DrainDone => s.(handler := Leaving(s.handler.f.hasQueued))
    case Report => s.(log := s.log + s.handler.report, handler := Leaving(s.handler.hasQueued))
    case Leave => s.(mailbox := if s.handler.hasQueued then s.mailbox + [Process] else s.mailbox, handler := Idle)
  }

  ghost function Apply(s: Sys, e: Event): Sys
    requires Enabled(s, e)
  {
    if HandlerEvent(e) then HandlerStep(s, e) else ClientStep(s, e)
  }

  /** What the client threads leave alone. */
  lemma ClientFrame(s: Sys, e: Event)
    requires Enabled(s, e) && !HandlerEvent(e)
    ensures var s' := Apply(s, e);
      && s'.flavor == s.flavor && s'.handler == s.handler && s'.running == s.running && s'.pool == s.pool
      && s'.log == s.log && s'.flushedFor == s.flushedFor
      && (e.StartDone? || e.StopSet? || e.ResetSet? || s'.exec == s.exec)
      && (e.Post? || s'.mailbox == s.mailbox)
      && (e.QueueSection? || s'.accepted == s.accepted)
      && (QueueEvent(e) || (s'.q == s.q && s'.parkedUnder == s.parkedUnder))
  {
    if QueueEvent(e) {
      QueueEventFrame(s, e);
    } else if e.Post? {
      assert Apply(s, e) == Posted(s, e.c);
    } else {
      CallEventFrame(s, e);
    }
  }

  /** The critical sections of the client threads. */
  predicate QueueEvent(e: Event) {
    e.QueueSection? || e.DrainSection? || e.FlushSection? || e.ClearSection?
  }

  lemma QueueEventFrame(s: Sys, e: Event)
    requires Enabled(s, e) && QueueEvent(e)
    ensures var s' := Apply(s, e);
      && s'.flavor == s.flavor && s'.handler == s.handler && s'.running == s.running && s'.pool == s.pool
      && s'.log == s.log && s'.flushedFor == s.flushedFor && s'.exec == s.exec && s'.mailbox == s.mailbox
      && (e.QueueSection? || s'.accepted == s.accepted)
  {
  }

  lemma CallEventFrame(s: Sys, e: Event)
    requires Enabled(s, e) && !HandlerEvent(e) && !QueueEvent(e) && !e.Post?
    ensures var s' := Apply(s, e);
      && s'.flavor == s.flavor && s'.handler == s.handler && s'.running == s.running && s'.pool == s.pool
      && s'.log == s.log && s'.flushedFor == s.flushedFor && s'.mailbox == s.mailbox
      && s'.accepted == s.accepted && s'.q == s.q && s'.parkedUnder == s.parkedUnder
      && (e.StartDone? || e.StopSet? || e.ResetSet? || s'.exec == s.exec)
  {
  }

  /** What the looper thread leaves alone. */
  lemma HandlerFrame(s: Sys, e: Event)
    requires Enabled(s, e) && HandlerEvent(e)
    ensures var s' := Apply(s, e);
      && s'.flavor == s.flavor && s'.exec == s.exec && s'.listener == s.listener
      && s'.accepted == s.accepted && s'.returned == s.returned
      && (e.Dispatch? || e.Leave? || s'.mailbox == s.mailbox)
      && (e.Dispatch? || (s'.clients == s.clients && s'.running == s.running))
      && (e.Prepare? || s'.flushedFor == s.flushedFor)
      && (e.FinishDeliver? || e.CloneSend? || e.Report? || s'.log == s.log)
      && (e.PopSection? || e.FinishTake? || e.CommitSection? || s'.q == s.q)
      && (e.FinishTake? || e.CommitSection? || s'.parkedUnder == s.parkedUnder)
  {
    if e.Dispatch? {
      assert Apply(s, e) == Dispatched(s, e.initOk);
      DispatchFrame(s, e.initOk);
    } else if e.Prepare? {
      assert Apply(s, e) == Prepared(s, e.poolOk);
    } else if e.PopSection? || e.FinishTake? || e.CommitSection? {
      SectionFrame(s, e);
    }
  }

  lemma SectionFrame(s: Sys, e: Event)
    requires e.PopSection? || e.FinishTake? || e.CommitSection?
    requires Enabled(s, e)
    ensures var s' := Apply(s, e);
      && s'.flavor == s.flavor && s'.exec == s.exec && s'.listener == s.listener && s'.running == s.running
      && s'.accepted == s.accepted && s'.returned == s.returned && s'.discarded == s.discarded && s'.log == s.log
      && s'.mailbox == s.mailbox && s'.clients == s.clients && s'.flushedFor == s.flushedFor
      && s'.q.generation == s.q.generation
      && (e.PopSection? ==> s'.parkedUnder == s.parkedUnder)
  {
    SectionChanges(s, e);
  }

  /** A section of the looper thread touches the queue, its own place, and the history of parking. */
  lemma SectionChanges(s: Sys, e: Event)
    requires e.PopSection? || e.FinishTake? || e.CommitSection?
    requires Enabled(s, e)
    ensures var s' := Apply(s, e);
      s' == s.(q := s'.q, handler := s'.handler, parkedUnder := s'.parkedUnder) && s'.q.generation == s.q.generation
      && (e.PopSection? ==> s'.parkedUnder == s.parkedUnder)
  {
    match e
    case PopSection =>
    case FinishTake(_) =>
    case CommitSection(w) => assert CommitQueue(s.q, s.handler.f.generation, w).generation == s.q.generation;
  }

  lemma DispatchFrame(s: Sys, initOk: bool)
    requires s.handler.Idle? && s.mailbox != []
    ensures var s' := Dispatched(s, initOk);
      && s'.flavor == s.flavor && s'.exec == s.exec && s'.listener == s.listener && s'.q == s.q
      && s'.accepted == s.accepted && s'.returned == s.returned && s'.log == s.log
      && s'.discarded == s.discarded
      && s'.flushedFor == s.flushedFor && s'.parkedUnder == s.parkedUnder
      && s'.mailbox == s.mailbox[1..]
      && s'.handler == (if s.mailbox[0].Process? && s.running then Entered else Idle)
  {
    DispatchChanges(s, initOk);
  }

  /** A message touches the mailbox, the looper thread, and the thread that waits for it. */
  lemma DispatchChanges(s: Sys, initOk: bool)
    requires s.handler.Idle? && s.mailbox != []
    ensures var s' := Dispatched(s, initOk);
      s' == s.(mailbox := s.mailbox[1..], running := s'.running, pool := s'.pool, clients := s'.clients,
               handler := if s.mailbox[0].Process? && s.running then Entered else Idle)
  {
    match s.mailbox[0]
    case Process =>
    case Init(_) =>
    case Start =>
    case Stop(_) =>
    case Reset(_) =>
    case Release(_) =>
  }

  lemma DispatchClients(s: Sys, initOk: bool)
    requires s.handler.Idle? && s.mailbox != []
    ensures var s' := Dispatched(s, initOk);
      forall c :: c in s'.clients ==> s'.clients[c].Started? || (c in s.clients && s'.clients[c] == s.clients[c])
  {
  }

  /** `tr` is a run of the component: it starts fresh and every step is an enabled event. */
  ghost predicate Execution(flavor: Flavor, tr: seq<Sys>, es: seq<Event>) {
    && |tr| == |es| + 1
    && tr[0] == Init0(flavor)
    && forall i {:trigger es[i]} :: 0 <= i < |es| ==> Enabled(tr[i], es[i]) && tr[i + 1] == Apply(tr[i], es[i])
  }
}
