/**
 * The soft video decoder inside its component: executions in which process() is what SoftVdec says, its
 * calls are made one by one, and client threads may do anything between two of them, except stop, reset
 * and release.  Frame indexes are unique.
 */
module SoftVdecRuns {
  import opened Codec2
  import opened WorkQueue
  import opened Protocol
  import opened QueueOrder
  import opened SoftVdec

  /** The component, the decoder's private state, and what is left of the process() now running. */
  datatype Joint = Joint(sys: Sys, dec: Vdec, todo: seq<Call>, done: Option<Work>)

  datatype Move =
    | ByClient(e: Event)
    | ByLooper(e: Event)
    | PrepareMove(poolOk: bool, reloadOk: bool)    // a pending flush reaches the decoder here
    | Begin(input: Input)             // process() decides its calls and its result
    | TakeMove                        // the critical section of the next finish()
    | DeliverMove(pts: int)           // its report to the listener
    | CloneMove(freshId: nat)         // the next cloneAndSend()
    | CommitMove

  /** A work as a client queues it: nothing in its output. */
  predicate NewWork(w: Work) {
    w.buffers == []
  }

  ghost predicate GoodItems(s: Sys, items: seq<Work>) {
    NewIndexes(s, items) && forall i :: 0 <= i < |items| ==> NewWork(items[i])
  }

  ghost predicate Allowed(j: Joint, m: Move) {
    j.sys.flavor.Video? &&
    match m
    case ByClient(e) =>
      && !HandlerEvent(e) && Enabled(j.sys, e)
      && !e.StopSet? && !e.ResetSet? && !e.ReleaseCall? && !e.ClearSection?
      && (e.QueueSection? ==> GoodItems(j.sys, j.sys.clients[e.c].items))
    case ByLooper(e) =>
      (e.Dispatch? || e.PopSection? || e.DrainDone? || e.Report? || e.Leave?) && Enabled(j.sys, e)
    case PrepareMove(poolOk, _) => Enabled(j.sys, Prepare(poolOk))
    case Begin(_) => j.sys.handler.Processing? && j.sys.handler.f.work.Some? && j.done.None?
    case TakeMove => j.sys.handler.Processing? && j.todo != [] && j.todo[0].FinishCall?
    case DeliverMove(_) => j.sys.handler.Finishing? && j.todo != []
    case CloneMove(_) => j.todo != [] && j.todo[0].CloneCall? && j.sys.handler.Processing? && j.sys.handler.f.work.Some?
                         && j.todo[0].index == j.sys.handler.f.work.value.frameIndex
    case CommitMove => j.sys.handler.Processing? && j.sys.handler.f.work.Some? && j.todo == [] && j.done.Some?
                       && SameWork(j.sys.handler.f.work.value, j.done.value)
  }

  function Delivered(j: Joint, pts: int): Work
    requires j.sys.handler.Finishing? && j.todo != []
  {
    FillPicture(j.sys.handler.held.(customOrdinal := pts), j.todo[0].picture)
  }

  function Cloned(j: Joint, freshId: nat): Work
    requires j.sys.handler.Processing? && j.sys.handler.f.work.Some? && j.todo != []
  {
    FillClone(CloneOf(j.sys.handler.f.work.value, freshId), j.todo[0].picture)
  }

  /** The event of the component a move is. */
  ghost function EventOf(j: Joint, m: Move): (e: Event)
    requires Allowed(j, m) && !m.Begin?
    ensures Enabled(j.sys, e)
  {
    match m
    case ByClient(e) => e
    case ByLooper(e) => e
    case PrepareMove(poolOk, _) => Prepare(poolOk)
    case TakeMove => FinishTake(j.todo[0].index)
    case DeliverMove(pts) => FinishDeliver(Delivered(j, pts))
    case CloneMove(freshId) => CloneSend(j.todo[0].index, Cloned(j, freshId))
    case CommitMove => CommitSection(j.done.value)
  }

  ghost function After(j: Joint, m: Move): Joint
    requires Allowed(j, m)
  {
    match m
    case Begin(input) =>
      var o := ProcessStep(j.dec, j.sys.handler.f.work.value, input);
      j.(dec := o.dec, todo := o.calls, done := Some(o.work))
    case PrepareMove(poolOk, reloadOk) =>
      Joint(Apply(j.sys, Prepare(poolOk)), if j.sys.handler.f.flushPending then FlushStep(j.dec, reloadOk) else j.dec,
            j.todo, j.done)
    case TakeMove =>
      var sys := Apply(j.sys, FinishTake(j.todo[0].index));
      j.(sys := sys, todo := if sys.handler.Finishing? then j.todo else j.todo[1..])
    case DeliverMove(_) => j.(sys := Apply(j.sys, EventOf(j, m)), todo := j.todo[1..])
    case CloneMove(_) => j.(sys := Apply(j.sys, EventOf(j, m)), todo := j.todo[1..])
    case CommitMove => j.(sys := Apply(j.sys, EventOf(j, m)), done := None)
    case ByClient(e) => j.(sys := Apply(j.sys, e))
    case ByLooper(e) => j.(sys := Apply(j.sys, e))
  }

  ghost predicate Run(tr: seq<Joint>, ms: seq<Move>) {
    && |tr| == |ms| + 1
    && tr[0].sys == Init0(Video) && tr[0].dec == FRESH && tr[0].todo == [] && tr[0].done == None
    && forall i {:trigger ms[i]} :: 0 <= i < |ms| ==> Allowed(tr[i], ms[i]) && tr[i + 1] == After(tr[i], ms[i])
  }
}
