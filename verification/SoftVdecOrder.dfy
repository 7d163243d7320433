/**
 * Pictures in queue order: in every run, pictures reach the listener in the order in which their works were
 * queued, at most one for a work, as long as no work with an index beyond 32 bits meets an empty delay line.
 */
module SoftVdecOrder {
  import opened Codec2
  import opened WorkQueue
  import opened Protocol
  import opened Generation
  import opened QueueOrder
  import opened SoftVdec
  import opened PictureOrder
  import opened SoftVdecRuns
  import opened SoftVdecLine

  /** The frame indexes of the deliveries that carry a picture, oldest first. */
  function PictureLog(log: seq<Delivery>): seq<FrameIndex> {
    if log == [] then [] else
      (if log[0].work.buffers != [] then [log[0].work.frameIndex] else []) + PictureLog(log[1..])
  }

  lemma {:induction false} PictureLogConcat(a: seq<Delivery>, b: seq<Delivery>)
    ensures PictureLog(a + b) == PictureLog(a) + PictureLog(b)
  {
    if a == [] {
      assert a + b == b;
    } else {
      assert (a + b)[1..] == a[1..] + b;
      PictureLogConcat(a[1..], b);
    }
  }

  /** The works whose pictures are on their way to the listener. */
  function OnTheWay(j: Joint): seq<FrameIndex> {
    if j.done.Some? then Targets(j.todo) + OwnPicture(j.done.value)
    else if j.sys.handler.Reporting? then PictureLog(j.sys.handler.report)
    else []
  }

  /** Everything that has had, is getting or may yet get a picture, before the works still queued. */
  function Front(j: Joint): seq<FrameIndex> {
    PictureLog(j.sys.log) + OnTheWay(j) + j.dec.delayLine + Untouched(j)
  }

  /** The index of a work that process() begins with nobody waiting fits the decoder's 32-bit copy. */
  predicate IndexFits(j: Joint, m: Move) {
    m.Begin? && j.dec.delayLine == [] && j.sys.handler.Processing? && j.sys.handler.f.work.Some? ==>
      j.sys.handler.f.work.value.frameIndex < 0x1_0000_0000
  }

  /** Every frame index so far fits the decoder's 32-bit copy. */
  ghost predicate Narrow(s: Sys) {
    forall i :: 0 <= i < |s.accepted| ==> s.accepted[i].frameIndex < 0x1_0000_0000
  }

  ghost predicate PictureInv(j: Joint) {
    0 <= Gone(j.sys) && InOrder(Front(j), GoneOrder(j.sys))
  }

  lemma ClientPictures(j: Joint, e: Event)
    requires Allowed(j, ByClient(e)) && JointInv(j) && PictureInv(j)
    ensures PictureInv(After(j, ByClient(e)))
  {
    var j' := After(j, ByClient(e));
    ClientFrame(j.sys, e);
    QueueInvClient(j.sys, e);
    assert Front(j') == Front(j);
    GoneGrows(j.sys, j'.sys, Front(j));
  }

  lemma PopPictures(j: Joint)
    requires Allowed(j, ByLooper(PopSection)) && JointInv(j) && PictureInv(j)
    ensures PictureInv(After(j, ByLooper(PopSection)))
  {
    var s, j' := j.sys, After(j, ByLooper(PopSection));
    SectionFrame(s, PopSection);
    PopGone(s);
    PopUntouched(j, j');
    var front := PictureLog(s.log) + [] + j.dec.delayLine;
    NextInOrder(front, FrameIndexes(FrontWork(s.q.queue)), GoneOrder(s));
  }

  lemma PreparePictures(j: Joint, j': Joint, poolOk: bool)
    requires JointInv(j) && PictureInv(j) && j.sys.handler.Popped?
    requires j'.sys == Prepared(j.sys, poolOk) && j'.todo == j.todo && j'.done == j.done
    requires j'.dec.delayLine == if j.sys.handler.f.flushPending then [] else j.dec.delayLine
    ensures PictureInv(j')
  {
    var log := PictureLog(j.sys.log);
    assert log + [] == log;
    KeepParts(log, j.dec.delayLine, Untouched(j), j'.dec.delayLine, Untouched(j'), GoneOrder(j.sys));
    assert GoneOrder(j'.sys) == GoneOrder(j.sys);
  }

  /** Behind the log the line may be emptied and the current work dropped without disturbing the order. */
  lemma KeepParts(log: seq<FrameIndex>, line: seq<FrameIndex>, cur: seq<FrameIndex>,
                  line': seq<FrameIndex>, cur': seq<FrameIndex>, order: seq<FrameIndex>)
    requires InOrder(log + line + cur, order)
    requires (line' == line || line' == []) && (cur' == cur || cur' == [])
    ensures InOrder(log + line' + cur', order)
  {
    if line' != line {
      InOrderCut(log, line, cur, order);
      assert log + [] + cur == log + cur;
    }
    if cur' != cur {
      var kept := log + line';
      assert kept + cur + [] == kept + cur;
      InOrderCut(kept, cur, [], order);
    }
  }

  lemma BeginPictures(j: Joint, input: Input)
    requires Allowed(j, Begin(input)) && JointInv(j) && PictureInv(j) && IndexFits(j, Begin(input))
    ensures PictureInv(After(j, Begin(input)))
  {
    var w := j.sys.handler.f.work.value;
    CurrentIsNew(j);
    ProcessRoute(j.dec, w, input);
    BeginRoute(j, ProcessStep(j.dec, w, input), w);
  }

  lemma BeginRoute(j: Joint, o: Outcome, w: Work)
    requires PictureInv(j) && j.sys.handler.Processing? && j.sys.handler.f.work == Some(w) && j.done.None?
    requires Routed(j.dec, w, o) && (j.dec.delayLine != [] || w.frameIndex < 0x1_0000_0000)
    ensures PictureInv(Joint(j.sys, o.dec, o.calls, Some(o.work)))
  {
    var j' := Joint(j.sys, o.dec, o.calls, Some(o.work));
    var fi, log, line := [w.frameIndex], PictureLog(j.sys.log), j.dec.delayLine;
    assert Front(j) == log + line + fi by { assert log + [] == log; }
    RouteKeepsOrder(log, line, fi, Route(o), GoneOrder(j.sys));
    assert Front(j') == log + Route(o) by {
      RouteInFront(log, Targets(o.calls), OwnPicture(o.work), o.dec.delayLine);
    }
  }

  lemma RouteKeepsOrder(log: seq<FrameIndex>, line: seq<FrameIndex>, fi: seq<FrameIndex>, route: seq<FrameIndex>,
                        order: seq<FrameIndex>)
    requires InOrder(log + line + fi, order) && (route == line || route == line + fi)
    ensures InOrder(log + route, order)
  {
    if route == line {
      KeepParts(log, line, fi, line, [], order);
      assert log + line + [] == log + line;
    } else {
      assert log + (line + fi) == log + line + fi;
    }
  }

  lemma RouteInFront(log: seq<FrameIndex>, targets: seq<FrameIndex>, own: seq<FrameIndex>, line: seq<FrameIndex>)
    ensures log + (targets + own) + line + [] == log + (targets + own + line)
  {
  }

  /** The next picture leaves the calls to come and enters the log. */
  lemma CallMoves(j: Joint)
    requires j.done.Some? && j.todo != []
    ensures Targets(j.todo) == [j.todo[0].index] + Targets(j.todo[1..])
  {
  }

  lemma TakePictures(j: Joint)
    requires Allowed(j, TakeMove) && JointInv(j) && PictureInv(j)
    ensures PictureInv(After(j, TakeMove))
  {
    SectionFrame(j.sys, FinishTake(j.todo[0].index));
    if j.todo[0].index in j.sys.q.pending {
      assert Front(After(j, TakeMove)) == Front(j);
    } else {
      DropFirst(j);
    }
  }

  /** A call whose picture does not reach the listener. */
  lemma DropFirst(j: Joint)
    requires PictureInv(j) && j.done.Some? && j.todo != []
    ensures InOrder(Front(j.(todo := j.todo[1..])), GoneOrder(j.sys))
  {
    CallMoves(j);
    CutFirst(PictureLog(j.sys.log), [j.todo[0].index], Targets(j.todo[1..]), OwnPicture(j.done.value), j.dec.delayLine,
             Untouched(j), GoneOrder(j.sys));
  }

  lemma CutFirst(log: seq<FrameIndex>, x: seq<FrameIndex>, calls: seq<FrameIndex>, own: seq<FrameIndex>,
                 line: seq<FrameIndex>, cur: seq<FrameIndex>, order: seq<FrameIndex>)
    requires InOrder(log + ((x + calls) + own) + line + cur, order)
    ensures InOrder(log + (calls + own) + line + cur, order)
  {
    var rest := (calls + own) + line + cur;
    assert log + ((x + calls) + own) + line + cur == log + x + rest;
    InOrderCut(log, x, rest, order);
    assert log + rest == log + (calls + own) + line + cur;
  }

  /** A call whose picture reaches the listener, as `d`. */
  lemma LogFirst(j: Joint, sys': Sys, d: Delivery)
    requires j.done.Some? && j.todo != []
    requires d.work.frameIndex == j.todo[0].index && d.work.buffers != []
    requires sys'.log == j.sys.log + [d]
    ensures Front(j.(sys := sys', todo := j.todo[1..])) == Front(j)
  {
    CallMoves(j);
    PictureLogConcat(j.sys.log, [d]);
    var x := [j.todo[0].index];
    assert PictureLog([d]) == x + [] == x;
    Regroup(PictureLog(j.sys.log), x, Targets(j.todo[1..]), OwnPicture(j.done.value), j.dec.delayLine, Untouched(j));
  }

  lemma Regroup(log: seq<FrameIndex>, x: seq<FrameIndex>, calls: seq<FrameIndex>, own: seq<FrameIndex>,
                line: seq<FrameIndex>, cur: seq<FrameIndex>)
    ensures log + ((x + calls) + own) + line + cur == (log + x) + (calls + own) + line + cur
  {
  }

  lemma DeliverPictures(j: Joint, pts: int)
    requires Allowed(j, DeliverMove(pts)) && JointInv(j) && PictureInv(j)
    ensures PictureInv(After(j, DeliverMove(pts)))
  {
    var s, s' := j.sys, Apply(j.sys, EventOf(j, DeliverMove(pts)));
    HandlerFrame(s, EventOf(j, DeliverMove(pts)));
    if s.listener {
      LogFirst(j, s', Delivery(Delivered(j, pts), false));
    } else {
      DropFirst(j);
      assert Front(After(j, DeliverMove(pts))) == Front(j.(todo := j.todo[1..]));
    }
  }

  lemma ClonePictures(j: Joint, freshId: nat)
    requires Allowed(j, CloneMove(freshId)) && JointInv(j) && PictureInv(j)
    ensures PictureInv(After(j, CloneMove(freshId)))
  {
    var s, s' := j.sys, Apply(j.sys, EventOf(j, CloneMove(freshId)));
    HandlerFrame(s, EventOf(j, CloneMove(freshId)));
    if s.listener {
      LogFirst(j, s', Delivery(Cloned(j, freshId), true));
    } else {
      DropFirst(j);
    }
  }

  /** What the listener will be told after the last section carries a picture exactly if the work does. */
  lemma ReportPicture(q: QueueState, generation: nat, w: Work)
    requires forall k :: k in q.pending ==> q.pending[k].buffers == []
    requires w.processed == 0 ==> w.buffers == []
    ensures PictureLog(WorkQueue.Report(CommitVerdict(q, generation, w))) == OwnPicture(w)
  {
  }

  lemma CommitPictures(j: Joint)
    requires Allowed(j, CommitMove) && JointInv(j) && PictureInv(j)
    ensures PictureInv(After(j, CommitMove))
  {
    SectionFrame(j.sys, CommitSection(j.done.value));
    CommitOrder(j, After(j, CommitMove));
  }

  lemma CommitOrder(j: Joint, j': Joint)
    requires JointInv(j) && PictureInv(j) && j.sys.handler.Processing? && j.done.Some? && j.todo == []
    requires j'.sys.q == CommitQueue(j.sys.q, j.sys.handler.f.generation, j.done.value)
    requires j'.sys.handler == Reporting(WorkQueue.Report(CommitVerdict(j.sys.q, j.sys.handler.f.generation, j.done.value)),
                                         j.sys.handler.f.hasQueued)
    requires j'.sys.accepted == j.sys.accepted && j'.sys.log == j.sys.log
    requires j'.dec == j.dec && j'.todo == [] && j'.done.None?
    ensures PictureInv(j')
  {
    ReportPicture(j.sys.q, j.sys.handler.f.generation, j.done.value);
    assert OnTheWay(j) == OnTheWay(j');
    assert Front(j') == Front(j) && GoneOrder(j'.sys) == GoneOrder(j.sys);
  }

  lemma ReportOrder(j: Joint, j': Joint)
    requires JointInv(j) && PictureInv(j) && j.sys.handler.Reporting?
    requires j' == j.(sys := j.sys.(log := j.sys.log + j.sys.handler.report, handler := Leaving(j.sys.handler.hasQueued)))
    ensures PictureInv(j')
  {
    PictureLogConcat(j.sys.log, j.sys.handler.report);
    var log, report, line := PictureLog(j.sys.log), PictureLog(j.sys.handler.report), j.dec.delayLine;
    assert Front(j) == log + report + line + [];
    assert Front(j') == (log + report) + [] + line + [];
    assert Front(j') == Front(j);
  }

  lemma LooperPictures(j: Joint, e: Event)
    requires e.Dispatch? || e.DrainDone? || e.Leave?
    requires Allowed(j, ByLooper(e)) && JointInv(j) && PictureInv(j)
    ensures PictureInv(After(j, ByLooper(e)))
  {
    var j' := After(j, ByLooper(e));
    HandlerFrame(j.sys, e);
    if e.Dispatch? {
      DispatchFrame(j.sys, e.initOk);
    }
    assert Front(j') == Front(j) && GoneOrder(j'.sys) == GoneOrder(j.sys);
  }

  lemma PictureStep(j: Joint, m: Move)
    requires Allowed(j, m) && JointInv(j) && PictureInv(j) && IndexFits(j, m)
    ensures PictureInv(After(j, m))
  {
    match m
    case ByClient(e) => ClientPictures(j, e);
    case ByLooper(e) =>
      if e.PopSection? {
        PopPictures(j);
      } else if e.Report? {
        ReportOrder(j, After(j, m));
      } else {
        LooperPictures(j, e);
      }
    case PrepareMove(poolOk, _) => PreparePictures(j, After(j, m), poolOk);
    case Begin(input) => BeginPictures(j, input);
    case TakeMove => TakePictures(j);
    case DeliverMove(pts) => DeliverPictures(j, pts);
    case CloneMove(freshId) => ClonePictures(j, freshId);
    case CommitMove => CommitPictures(j);
  }

  /** The work the looper thread has in hand was accepted. */
  lemma CurrentIsNarrow(j: Joint)
    requires JointInv(j) && Narrow(j.sys) && j.done.None? && InFlight(j.sys.handler) && j.sys.handler.f.work.Some?
    ensures j.sys.handler.f.work.value.frameIndex < 0x1_0000_0000
  {
    CurrentIsNew(j);
    var at: seq<nat> :| Embeds(Waiting(j), GoneOrder(j.sys), at);
    var n := |j.dec.delayLine|;
    assert Waiting(j)[n] == GoneOrder(j.sys)[at[n]] == j.sys.accepted[at[n]].frameIndex;
  }

  /** What was accepted stays accepted. */
  lemma AcceptedGrows(j: Joint, m: Move)
    requires Allowed(j, m) && Narrow(After(j, m).sys)
    ensures Narrow(j.sys)
  {
    var j' := After(j, m);
    if !m.Begin? {
      EventGrows(j.sys, EventOf(j, m));
    }
    assert j.sys.accepted <= j'.sys.accepted;
    forall i | 0 <= i < |j.sys.accepted| ensures j.sys.accepted[i].frameIndex < 0x1_0000_0000 {
      assert j'.sys.accepted[i] == j.sys.accepted[i];
    }
  }

  lemma EventGrows(s: Sys, e: Event)
    requires Enabled(s, e)
    ensures s.accepted <= Apply(s, e).accepted
  {
    if HandlerEvent(e) {
      HandlerFrame(s, e);
    } else {
      ClientFrame(s, e);
    }
  }

  lemma {:induction false} PicturesAlways(tr: seq<Joint>, ms: seq<Move>, i: nat)
    requires Run(tr, ms) && i < |tr|
    requires forall k {:trigger ms[k]} :: 0 <= k < i ==> IndexFits(tr[k], ms[k])
    ensures PictureInv(tr[i])
  {
    if i == 0 {
      NoPicturesYet(tr[0]);
    } else {
      PicturesAlways(tr, ms, i - 1);
      JointAlways(tr, ms, i - 1);
      PictureMove(tr[i - 1], ms[i - 1], tr[i]);
    }
  }

  lemma PictureMove(j: Joint, m: Move, j': Joint)
    requires Allowed(j, m) && j' == After(j, m) && JointInv(j) && PictureInv(j) && IndexFits(j, m)
    ensures PictureInv(j')
  {
    PictureStep(j, m);
  }

  lemma NoPicturesYet(j: Joint)
    requires j.sys == Init0(Video) && j.dec == FRESH && j.todo == [] && j.done == None
    ensures PictureInv(j)
  {
    assert Front(j) == [] && Embeds([], GoneOrder(j.sys), []);
  }

  /**
   * In every run, under every interleaving, with every error: if no work with a frame index beyond 32 bits was
   * begun with an empty delay line, pictures have reached the listener in the order in which their works were
   * queued, and no two of them under the same frame index.
   */
  lemma PicturesInQueueOrder(tr: seq<Joint>, ms: seq<Move>, i: nat)
    requires Run(tr, ms) && i < |tr|
    requires forall k {:trigger ms[k]} :: 0 <= k < i ==> IndexFits(tr[k], ms[k])
    ensures InOrder(PictureLog(tr[i].sys.log), FrameIndexes(tr[i].sys.accepted))
    ensures Distinct(PictureLog(tr[i].sys.log))
  {
    JointAlways(tr, ms, i);
    PicturesAlways(tr, ms, i);
    LogInOrder(tr[i]);
    InOrderDistinct(PictureLog(tr[i].sys.log), FrameIndexes(tr[i].sys.accepted));
  }

  /** A client that queues no index beyond 32 bits need not know where the delay line stands. */
  lemma {:induction false} NarrowIndexesFit(tr: seq<Joint>, ms: seq<Move>, i: nat)
    requires Run(tr, ms) && i < |tr| && Narrow(tr[i].sys)
    ensures forall k {:trigger ms[k]} :: 0 <= k < i ==> IndexFits(tr[k], ms[k])
  {
    if i > 0 {
      NarrowBefore(tr, ms, i);
      NarrowIndexesFit(tr, ms, i - 1);
      NarrowFits(tr, ms, i - 1);
    }
  }

  lemma NarrowBefore(tr: seq<Joint>, ms: seq<Move>, i: nat)
    requires Run(tr, ms) && 0 < i < |tr| && Narrow(tr[i].sys)
    ensures Narrow(tr[i - 1].sys)
  {
    AcceptedGrows(tr[i - 1], ms[i - 1]);
  }

  lemma NarrowFits(tr: seq<Joint>, ms: seq<Move>, i: nat)
    requires Run(tr, ms) && i < |ms| && Narrow(tr[i].sys)
    ensures IndexFits(tr[i], ms[i])
  {
    if ms[i].Begin? {
      JointAlways(tr, ms, i);
      CurrentIsNarrow(tr[i]);
    }
  }

  /** What the listener has of the pictures comes first in the order kept. */
  lemma FrontSplits(j: Joint)
    ensures Front(j) == PictureLog(j.sys.log) + (OnTheWay(j) + j.dec.delayLine + Untouched(j))
  {
  }

  lemma LogInOrder(j: Joint)
    requires QueueInv(j.sys) && PictureInv(j)
    ensures InOrder(PictureLog(j.sys.log), FrameIndexes(j.sys.accepted))
  {
    FrontSplits(j);
    PrefixInOrder(PictureLog(j.sys.log), OnTheWay(j) + j.dec.delayLine + Untouched(j), GoneOrder(j.sys));
    GoneIsPrefix(j.sys, PictureLog(j.sys.log));
  }

  lemma PrefixInOrder(s: seq<FrameIndex>, t: seq<FrameIndex>, all: seq<FrameIndex>)
    requires InOrder(s + t, all)
    ensures InOrder(s, all)
  {
    assert s + t + [] == s + t && s + [] == s;
    InOrderCut(s, t, [], all);
  }
}
