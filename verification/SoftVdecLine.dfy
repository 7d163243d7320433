/**
 * The delay line in every run: it agrees with the pending map, whatever the frame indexes are.
 */
module SoftVdecLine {
  import opened Codec2
  import opened WorkQueue
  import opened Protocol
  import opened Generation
  import opened QueueOrder
  import opened SoftVdec
  import opened PictureOrder
  import opened SoftVdecRuns

  /** The work the looper thread has taken and process() has not yet seen. */
  function Untouched(j: Joint): seq<FrameIndex> {
    if InFlight(j.sys.handler) && j.done.None? && j.sys.handler.f.work.Some?
    then [j.sys.handler.f.work.value.frameIndex] else []
  }

  /** The works in the delay line, and the one that may yet join it. */
  function Waiting(j: Joint): seq<FrameIndex> {
    j.dec.delayLine + Untouched(j)
  }

  /** Where the looper thread is in process(). */
  ghost predicate ThreadInv(j: Joint) {
    var h := j.sys.handler;
    && (InFlight(h) && h.f.work.Some? ==> NewWork(h.f.work.value))
    && (j.done.None? ==> j.todo == [] && !h.Finishing?)
    && (j.done.Some? ==>
          && (h.Processing? || h.Finishing?) && h.f.work.Some? && WorkKept(h.f.work.value, j.done.value)
          && (j.done.value.frameIndex in j.dec.delayLine ==> j.done.value.processed == 0))
    && (h.Finishing? ==> j.todo != [] && j.todo[0].FinishCall? && h.held.frameIndex == j.todo[0].index)
    && |j.dec.delayLine| <= MAX_WORK_PENDING_COUNT && CallsApart(j.todo, j.dec.delayLine)
  }

  ghost predicate WorksNew(s: Sys) {
    forall i :: 0 <= i < |s.accepted| ==> NewWork(s.accepted[i])
  }

  ghost predicate PendingInv(s: Sys) {
    forall k :: k in s.q.pending ==> s.q.pending[k].frameIndex == k && s.q.pending[k].buffers == []
  }

  ghost predicate OrderInv(j: Joint) {
    && j.sys.flavor.Video?
    && QueueInv(j.sys) && WorksNew(j.sys) && ThreadInv(j) && PendingInv(j.sys)
    && InOrder(Waiting(j), GoneOrder(j.sys))
  }

  /** Every waiting work is pending, or is the work about to be parked. */
  ghost predicate LineInv(j: Joint) {
    Agreed(j.sys) ==> forall x :: x in j.dec.delayLine ==>
      x in j.sys.q.pending || (j.done.Some? && x == j.done.value.frameIndex && j.done.value.processed == 0)
  }

  ghost predicate JointInv(j: Joint) {
    OrderInv(j) && LineInv(j) && GenerationInv(j.sys)
  }

  // ---------------------------------------------------------------- steps of the client threads

  lemma ClientMove(j: Joint, e: Event)
    requires Allowed(j, ByClient(e)) && JointInv(j)
    ensures JointInv(After(j, ByClient(e)))
  {
    var j' := After(j, ByClient(e));
    ClientFrame(j.sys, e);
    GenerationClientStep(j.sys, e);
    QueueInvClient(j.sys, e);
    if e.QueueSection? {
      assert j'.sys.accepted == j.sys.accepted + j.sys.clients[e.c].items;
    }
    assert Waiting(j') == Waiting(j);
    GoneGrows(j.sys, j'.sys, Waiting(j));
    ClientPending(j, e);
  }

  lemma ClientPending(j: Joint, e: Event)
    requires Allowed(j, ByClient(e)) && JointInv(j)
    ensures PendingInv(After(j, ByClient(e)).sys) && LineInv(After(j, ByClient(e)))
  {
    ClientFrame(j.sys, e);
  }

  // ---------------------------------------------------------------- steps of the looper thread

  lemma PopMove(j: Joint)
    requires Allowed(j, ByLooper(PopSection)) && JointInv(j)
    ensures JointInv(After(j, ByLooper(PopSection)))
  {
    GenerationHandlerStep(j.sys, PopSection);
    PopGone(j.sys);
    PopOrder(j);
    PopRest(j);
  }

  lemma PopOrder(j: Joint)
    requires Allowed(j, ByLooper(PopSection)) && OrderInv(j)
    requires QueueInv(Apply(j.sys, PopSection))
    requires GoneOrder(Apply(j.sys, PopSection)) == GoneOrder(j.sys) + FrameIndexes(FrontWork(j.sys.q.queue))
    ensures InOrder(Waiting(After(j, ByLooper(PopSection))), GoneOrder(Apply(j.sys, PopSection)))
  {
    var s, j' := j.sys, After(j, ByLooper(PopSection));
    SectionFrame(s, PopSection);
    PopUntouched(j, j');
    NextInOrder(j.dec.delayLine, FrameIndexes(FrontWork(s.q.queue)), GoneOrder(s));
  }

  lemma PopUntouched(j: Joint, j': Joint)
    requires j.sys.handler.Entered? && j.done.None? && j' == j.(sys := j'.sys)
    requires if j.sys.q.queue == [] then j'.sys.handler.Leaving? else j'.sys.handler == Popped(PopFlight(j.sys.q))
    ensures Untouched(j) == [] && Untouched(j') == FrameIndexes(FrontWork(j.sys.q.queue))
  {
  }

  lemma NextInOrder(front: seq<FrameIndex>, more: seq<FrameIndex>, order: seq<FrameIndex>)
    requires InOrder(front + [], order) && |more| <= 1
    ensures InOrder(front + more, order + more)
  {
    assert front + [] == front;
    if more != [] {
      InOrderAppend(front, order, more[0]);
      assert more == [more[0]];
    } else {
      assert order + more == order;
    }
  }

  lemma PopRest(j: Joint)
    requires Allowed(j, ByLooper(PopSection)) && JointInv(j)
    ensures var j' := After(j, ByLooper(PopSection)); ThreadInv(j') && PendingInv(j'.sys) && LineInv(j')
  {
    PopGone(j.sys);
    if FrontWork(j.sys.q.queue) != [] {
      assert j.sys.q.queue[0].work.value in FrontWork(j.sys.q.queue);
    }
  }

  lemma PrepareStep(j: Joint, poolOk: bool, reloadOk: bool)
    requires Allowed(j, PrepareMove(poolOk, reloadOk)) && JointInv(j)
    ensures JointInv(After(j, PrepareMove(poolOk, reloadOk)))
  {
    GenerationHandlerStep(j.sys, Prepare(poolOk));
    PrepareOrder(j, After(j, PrepareMove(poolOk, reloadOk)), poolOk);
  }

  lemma PrepareOrder(j: Joint, j': Joint, poolOk: bool)
    requires JointInv(j) && j.sys.handler.Popped?
    requires j'.sys == Prepared(j.sys, poolOk) && j'.todo == j.todo && j'.done == j.done
    requires j'.dec.delayLine == if j.sys.handler.f.flushPending then [] else j.dec.delayLine
    ensures OrderInv(j') && LineInv(j')
  {
    assert GoneOrder(j'.sys) == GoneOrder(j.sys);
    KeepPart(j.dec.delayLine, Untouched(j), j'.dec.delayLine, Untouched(j'), GoneOrder(j.sys));
  }

  lemma BeginStep(j: Joint, input: Input)
    requires Allowed(j, Begin(input)) && JointInv(j)
    ensures JointInv(After(j, Begin(input)))
  {
    var w := j.sys.handler.f.work.value;
    CurrentIsNew(j);
    ProcessRoute(j.dec, w, input);
    var o := ProcessStep(j.dec, w, input);
    EndInOrder(j.dec.delayLine, w.frameIndex, o.dec.delayLine, GoneOrder(j.sys));
    BeginLine(j, o, w);
  }

  /** The work process() is about to see is not in the delay line, and nothing in the line is there twice. */
  lemma CurrentIsNew(j: Joint)
    requires OrderInv(j) && j.done.None? && InFlight(j.sys.handler) && j.sys.handler.f.work.Some?
    ensures Routable(j.dec, j.sys.handler.f.work.value)
    ensures Waiting(j) == j.dec.delayLine + [j.sys.handler.f.work.value.frameIndex]
  {
    GoneDistinct(j.sys);
    InOrderDistinct(Waiting(j), GoneOrder(j.sys));
    NewAtTheEnd(j.dec.delayLine, j.sys.handler.f.work.value.frameIndex);
  }

  lemma NewAtTheEnd(line: seq<FrameIndex>, x: FrameIndex)
    requires Distinct(line + [x])
    ensures x !in line && Distinct(line)
  {
    var all := line + [x];
    forall i | 0 <= i < |line| ensures line[i] != x {
      assert all[i] == line[i] && all[|line|] == x;
    }
    forall i, j | 0 <= i < j < |line| ensures line[i] != line[j] {
      assert all[i] == line[i] && all[j] == line[j];
    }
  }

  lemma BeginLine(j: Joint, o: Outcome, w: Work)
    requires JointInv(j) && j.sys.handler.Processing? && j.sys.handler.f.work == Some(w) && j.done.None?
    requires CallsApart(o.calls, o.dec.delayLine) && |o.dec.delayLine| <= MAX_WORK_PENDING_COUNT && WorkKept(w, o.work)
    requires w.frameIndex in o.dec.delayLine ==> o.work.processed == 0
    requires InOrder(o.dec.delayLine, GoneOrder(j.sys))
    requires forall x :: x in o.dec.delayLine ==> x in j.dec.delayLine || x == w.frameIndex
    ensures JointInv(Joint(j.sys, o.dec, o.calls, Some(o.work)))
  {
    assert Waiting(Joint(j.sys, o.dec, o.calls, Some(o.work))) == o.dec.delayLine;
  }

  /** The end of a line that is in order is in order, and brings nothing new. */
  lemma EndInOrder(line: seq<FrameIndex>, fi: FrameIndex, rest: seq<FrameIndex>, order: seq<FrameIndex>)
    requires InOrder(line + [fi], order) && EndOf(rest, line, fi)
    ensures InOrder(rest, order)
    ensures forall x :: x in rest ==> x in line || x == fi
  {
    var all := line + [fi];
    if |rest| <= |line| && rest == line[|line| - |rest|..] {
      assert line + [fi] + [] == all && line + [] == line;
      InOrderCut(line, [fi], [], order);
      TailInOrder(line, |rest|, order);
    } else {
      TailInOrder(all, |rest|, order);
    }
  }

  lemma TailInOrder(s: seq<FrameIndex>, n: nat, order: seq<FrameIndex>)
    requires InOrder(s, order) && n <= |s|
    ensures InOrder(s[|s| - n..], order)
  {
    var k := |s| - n;
    assert [] + s[..k] + s[k..] == s && [] + s[k..] == s[k..];
    InOrderCut([], s[..k], s[k..], order);
  }

  /** finish() asks for an index: found, it leaves the map; the line does not miss it. */
  lemma TakeStep(j: Joint)
    requires Allowed(j, TakeMove) && JointInv(j)
    ensures JointInv(After(j, TakeMove))
  {
    GenerationHandlerStep(j.sys, FinishTake(j.todo[0].index));
    TakeLine(j, After(j, TakeMove));
  }

  lemma TakeLine(j: Joint, j': Joint)
    requires JointInv(j) && j.sys.handler.Processing? && j.todo != [] && j.todo[0].FinishCall?
    requires j'.dec == j.dec && j'.done == j.done
    requires j'.sys == HandlerStep(j.sys, FinishTake(j.todo[0].index))
    requires j'.todo == if j'.sys.handler.Finishing? then j.todo else j.todo[1..]
    ensures OrderInv(j') && LineInv(j')
  {
    assert GoneOrder(j'.sys) == GoneOrder(j.sys) && Waiting(j') == Waiting(j);
  }

  /** The call is made: it leaves the calls to come. */
  lemma CallMade(j: Joint, j': Joint)
    requires JointInv(j) && j.done.Some? && j.todo != [] && InFlight(j.sys.handler)
    requires j'.dec == j.dec && j'.done == j.done && j'.todo == j.todo[1..]
    requires j'.sys == j.sys.(handler := Processing(j.sys.handler.f), log := j'.sys.log, discarded := j'.sys.discarded)
    ensures OrderInv(j') && LineInv(j')
  {
    assert GoneOrder(j'.sys) == GoneOrder(j.sys) && Waiting(j') == Waiting(j);
  }

  lemma DeliverStep(j: Joint, pts: int)
    requires Allowed(j, DeliverMove(pts)) && JointInv(j)
    ensures JointInv(After(j, DeliverMove(pts)))
  {
    GenerationHandlerStep(j.sys, EventOf(j, DeliverMove(pts)));
    CallMade(j, After(j, DeliverMove(pts)));
  }

  lemma CloneStep(j: Joint, freshId: nat)
    requires Allowed(j, CloneMove(freshId)) && JointInv(j)
    ensures JointInv(After(j, CloneMove(freshId)))
  {
    GenerationHandlerStep(j.sys, EventOf(j, CloneMove(freshId)));
    CallMade(j, After(j, CloneMove(freshId)));
  }

  lemma CommitStep(j: Joint)
    requires Allowed(j, CommitMove) && JointInv(j)
    ensures JointInv(After(j, CommitMove))
  {
    GenerationHandlerStep(j.sys, CommitSection(j.done.value));
    SectionFrame(j.sys, CommitSection(j.done.value));
    CommitLine(j, After(j, CommitMove));
  }

  lemma CommitLine(j: Joint, j': Joint)
    requires JointInv(j) && j.sys.handler.Processing? && j.done.Some? && j.todo == []
    requires j'.sys.q == CommitQueue(j.sys.q, j.sys.handler.f.generation, j.done.value) && j'.sys.handler.Reporting?
    requires j'.sys.flavor == j.sys.flavor && j'.sys.accepted == j.sys.accepted
    requires j'.dec == j.dec && j'.todo == [] && j'.done.None?
    ensures OrderInv(j') && LineInv(j')
  {
    assert GoneOrder(j'.sys) == GoneOrder(j.sys) && Waiting(j') == Waiting(j);
  }

  /** The remaining steps of the looper thread. */
  lemma LooperStep(j: Joint, e: Event)
    requires e.Dispatch? || e.DrainDone? || e.Leave? || e.Report?
    requires Allowed(j, ByLooper(e)) && JointInv(j)
    ensures JointInv(After(j, ByLooper(e)))
  {
    GenerationHandlerStep(j.sys, e);
    HandlerFrame(j.sys, e);
    if e.Dispatch? {
      DispatchFrame(j.sys, e.initOk);
    }
    QuietLooperStep(j, After(j, ByLooper(e)));
  }

  /** A step that only moves the looper thread between places outside process(). */
  lemma QuietLooperStep(j: Joint, j': Joint)
    requires JointInv(j) && j'.dec == j.dec && j'.todo == j.todo && j'.done == j.done && GenerationInv(j'.sys)
    requires j'.sys.flavor == j.sys.flavor && j'.sys.accepted == j.sys.accepted && j'.sys.q == j.sys.q
    requires !InFlight(j'.sys.handler) && !j.sys.handler.Popped? && j.done.None? && Untouched(j) == []
    ensures JointInv(j')
  {
    assert GoneOrder(j'.sys) == GoneOrder(j.sys) && Waiting(j') == Waiting(j);
  }

  /** Outside process() the report goes into the log, and nothing else happens. */
  lemma ReportOnly(j: Joint)
    requires JointInv(j) && Allowed(j, ByLooper(Report))
    ensures var j' := After(j, ByLooper(Report));
      && j.done.None? && j.sys.handler.Reporting?
      && j'.done.None? && j'.sys.handler.Leaving? && j'.dec == j.dec && j'.sys.log == j.sys.log + j.sys.handler.report
  {
  }

  lemma StartsInv(j: Joint)
    requires j.sys == Init0(Video) && j.dec == FRESH && j.todo == [] && j.done == None
    ensures JointInv(j)
  {
    assert Waiting(j) == [] && Embeds([], GoneOrder(j.sys), []);
  }

  lemma {:induction false} JointAlways(tr: seq<Joint>, ms: seq<Move>, i: nat)
    requires Run(tr, ms) && i < |tr|
    ensures JointInv(tr[i])
  {
    if i == 0 {
      StartsInv(tr[0]);
    } else {
      JointAlways(tr, ms, i - 1);
      JointStep(tr[i - 1], ms[i - 1]);
    }
  }

  lemma JointStep(j: Joint, m: Move)
    requires Allowed(j, m) && JointInv(j)
    ensures JointInv(After(j, m))
  {
    match m
    case ByClient(e) => ClientMove(j, e);
    case ByLooper(e) =>
      if e.PopSection? {
        PopMove(j);
      } else {
        LooperStep(j, e);
      }
    case PrepareMove(poolOk, reloadOk) => PrepareStep(j, poolOk, reloadOk);
    case Begin(input) => BeginStep(j, input);
    case TakeMove => TakeStep(j);
    case DeliverMove(pts) => DeliverStep(j, pts);
    case CloneMove(freshId) => CloneStep(j, freshId);
    case CommitMove => CommitStep(j);
  }

  /**
   * The delay line agrees with the component, whatever 64-bit frame indexes the client chooses as long as they
   * are unique: in every state in which the looper thread is not between the sections of processQueue, the line
   * holds at most seven works, in queue order, each of them once, and unless a flush is waiting to be applied
   * all of them are keys of the pending map.
   */
  lemma DelayLineAgrees(tr: seq<Joint>, ms: seq<Move>, i: nat)
    requires Run(tr, ms) && i < |tr| && !InFlight(tr[i].sys.handler)
    ensures |tr[i].dec.delayLine| <= 7
    ensures InOrder(tr[i].dec.delayLine, FrameIndexes(tr[i].sys.accepted)) && Distinct(tr[i].dec.delayLine)
    ensures !tr[i].sys.q.flush ==> forall x :: x in tr[i].dec.delayLine ==> x in tr[i].sys.q.pending
  {
    JointAlways(tr, ms, i);
    var j := tr[i];
    assert Waiting(j) == j.dec.delayLine;
    GoneIsPrefix(j.sys, j.dec.delayLine);
    InOrderDistinct(j.dec.delayLine, FrameIndexes(j.sys.accepted));
  }
}
