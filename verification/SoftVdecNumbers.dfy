/**
 * The numbers of the pictures: in every run pictures reach the listener in the order in which the decoder gave
 * them.  With the queue order of their works this says which picture is on which work.
 */
module SoftVdecNumbers {
  import opened Codec2
  import opened WorkQueue
  import opened Protocol
  import opened QueueOrder
  import opened SoftVdec
  import opened PictureOrder
  import opened SoftVdecRuns
  import opened SoftVdecLine
  import opened SoftVdecOrder

  /** The number of the picture a work carries, if it carries one. */
  function OwnNumber(w: Work): seq<nat> {
    if w.buffers == [] then [] else [if w.buffers[0].Picture? then w.buffers[0].number else 0]
  }

  function CallNumbers(calls: seq<Call>): seq<nat> {
    seq(|calls|, i requires 0 <= i < |calls| => calls[i].picture)
  }

  /** The numbers of the pictures the listener was given, oldest first. */
  function Numbers(log: seq<Delivery>): (ns: seq<nat>)
    ensures |ns| == |PictureLog(log)|
  {
    if log == [] then [] else OwnNumber(log[0].work) + Numbers(log[1..])
  }

  lemma {:induction false} NumbersConcat(a: seq<Delivery>, b: seq<Delivery>)
    ensures Numbers(a + b) == Numbers(a) + Numbers(b)
  {
    if a == [] {
      assert a + b == b;
    } else {
      assert (a + b)[1..] == a[1..] + b;
      NumbersConcat(a[1..], b);
    }
  }

  lemma NumbersOne(d: Delivery)
    ensures Numbers([d]) == OwnNumber(d.work)
  {
    assert [d][1..] == [] && OwnNumber(d.work) + [] == OwnNumber(d.work);
  }

  /** The numbers of the pictures on their way to the listener. */
  function Coming(j: Joint): seq<nat> {
    if j.done.Some? then CallNumbers(j.todo) + OwnNumber(j.done.value)
    else if j.sys.handler.Reporting? then Numbers(j.sys.handler.report)
    else []
  }

  // ---------------------------------------------------------------- rising sequences

  /** Strictly rising, and below `bound`. */
  predicate Rising(ns: seq<nat>, bound: nat) {
    ns == [] || (ns[|ns| - 1] < bound && Rising(ns[..|ns| - 1], ns[|ns| - 1]))
  }

  function Range(a: nat, b: nat): seq<nat>
    requires a <= b
  {
    seq(b - a, i requires 0 <= i < b - a => a + i)
  }

  lemma RisingPush(ns: seq<nat>, x: nat, bound: nat)
    ensures Rising(ns + [x], bound) <==> x < bound && Rising(ns, x)
  {
    assert (ns + [x])[..|ns|] == ns;
  }

  lemma {:induction false} RisingAppend(ns: seq<nat>, a: nat, b: nat)
    requires Rising(ns, a) && a <= b
    ensures Rising(ns + Range(a, b), b)
    decreases b
  {
    if a == b {
      assert ns + Range(a, b) == ns;
    } else {
      RisingAppend(ns, a, b - 1);
      assert ns + Range(a, b) == (ns + Range(a, b - 1)) + [b - 1];
      RisingPush(ns + Range(a, b - 1), b - 1, b);
    }
  }

  lemma RisingLoosen(ns: seq<nat>, a: nat, b: nat)
    requires Rising(ns, a) && a <= b
    ensures Rising(ns, b)
  {
  }

  /** A number may be left out. */
  lemma {:induction false} RisingDrop(ns: seq<nat>, x: nat, more: seq<nat>, bound: nat)
    requires Rising(ns + ([x] + more), bound)
    ensures Rising(ns + more, bound)
    decreases |more|
  {
    if more == [] {
      assert ns + ([x] + more) == ns + [x] && ns + more == ns;
      RisingPush(ns, x, bound);
      RisingLoosen(ns, x, bound);
    } else {
      var rest, last := more[..|more| - 1], more[|more| - 1];
      SplitLast(ns, x, more);
      RisingPush(ns + ([x] + rest), last, bound);
      RisingDrop(ns, x, rest, last);
      RisingPush(ns + rest, last, bound);
    }
  }

  lemma SplitLast(ns: seq<nat>, x: nat, more: seq<nat>)
    requires more != []
    ensures var rest, last := more[..|more| - 1], more[|more| - 1];
      ns + ([x] + more) == (ns + ([x] + rest)) + [last] && ns + more == (ns + rest) + [last]
  {
  }

  lemma {:induction false} RisingPrefix(ns: seq<nat>, more: seq<nat>, bound: nat)
    requires Rising(ns + more, bound)
    ensures Rising(ns, bound)
    decreases |more|
  {
    if more == [] {
      assert ns + more == ns;
    } else {
      assert ns + more == ns + ([more[0]] + more[1..]);
      RisingDrop(ns, more[0], more[1..], bound);
      RisingPrefix(ns, more[1..], bound);
    }
  }

  lemma {:induction false} RisingIsShort(ns: seq<nat>, bound: nat)
    requires Rising(ns, bound)
    ensures |ns| <= bound
    decreases |ns|
  {
    if ns != [] {
      RisingIsShort(ns[..|ns| - 1], ns[|ns| - 1]);
    }
  }

  /** As many as there is room for: all of them. */
  lemma {:induction false} RisingFull(ns: seq<nat>, bound: nat)
    requires Rising(ns, bound) && |ns| == bound
    ensures forall k :: 0 <= k < |ns| ==> ns[k] == k
    decreases bound
  {
    if ns != [] {
      RisingIsShort(ns[..|ns| - 1], ns[|ns| - 1]);
      RisingFull(ns[..|ns| - 1], bound - 1);
    }
  }

  lemma {:induction false} EmbedsRising(at: seq<nat>, bound: nat)
    requires forall i, j :: 0 <= i < j < |at| ==> at[i] < at[j]
    requires forall i :: 0 <= i < |at| ==> at[i] < bound
    ensures Rising(at, bound)
    decreases |at|
  {
    if at != [] {
      EmbedsRising(at[..|at| - 1], at[|at| - 1]);
    }
  }

  lemma InOrderFull(xs: seq<FrameIndex>, order: seq<FrameIndex>)
    requires InOrder(xs, order) && |xs| == |order|
    ensures xs == order
  {
    var at: seq<nat> :| Embeds(xs, order, at);
    EmbedsRising(at, |order|);
    RisingFull(at, |order|);
  }

  // ---------------------------------------------------------------- one process() call

  /** The numbers one call hands on. */
  function Given(o: Outcome): seq<nat> {
    CallNumbers(o.calls) + OwnNumber(o.work)
  }

  /** Exactly the pictures taken in the call are handed on, in the order in which they came. */
  ghost predicate Counted(dec: Vdec, o: Outcome) {
    dec.pictures <= o.dec.pictures && Given(o) == Range(dec.pictures, o.dec.pictures)
  }

  /** Whatever the input, the errors and the state of the decoder. */
  lemma ProcessCounts(dec: Vdec, work: Work, input: Input)
    requires Routable(dec, work)
    ensures Counted(dec, ProcessStep(dec, work, input))
  {
    if NoDecode(dec, work, input) {
      assert Given(ProcessStep(dec, work, input)) == [];
    } else {
      var flushes := work.input.eos && dec.delayLine != [];
      var start := Outcome(dec, [], SoftVdec.Entry(work));
      LoopAndConclusion(dec, work, input);
      if flushes {
        FlushLoop(start, input.turns, 0);
        FlushCounts(start, DecodeLoop(start, true, input.turns, 0));
      } else {
        SingleLoop(start, input.turns);
        SingleCounts(start, DecodeLoop(start, false, input.turns, 0));
      }
    }
  }

  lemma FlushCounts(o: Outcome, r: LoopResult)
    requires Flushed(o, r.o) && o.calls == [] && o.work.buffers == [] && o.work.input.eos
    ensures Counted(o.dec, if r.aborted then r.o else ConcludeStep(r.o, r.o.dec.pictures > o.dec.pictures))
  {
    var k := |o.dec.delayLine| - |r.o.dec.delayLine|;
    assert CallNumbers(Handed(o.dec.delayLine[..k], o.dec.pictures)) == Range(o.dec.pictures, o.dec.pictures + k);
    ConcludeEos(r.o, r.o.dec.pictures > o.dec.pictures);
  }

  lemma SingleCounts(o: Outcome, r: LoopResult)
    requires SinglePicture(o, r) && o.calls == [] && o.work.buffers == []
    ensures Counted(o.dec, if r.aborted then r.o else ConcludeStep(r.o, r.o.dec.pictures > o.dec.pictures))
  {
    var end := if r.aborted then r.o else ConcludeStep(r.o, r.o.dec.pictures > o.dec.pictures);
    if r.o.dec.pictures == o.dec.pictures {
      assert Given(end) == [];
    } else {
      assert Given(end) == [o.dec.pictures];
    }
  }

  // ---------------------------------------------------------------- every run

  /** The numbers given out and still to come rise, and all come from pictures decoded so far. */
  ghost predicate NumbersRise(j: Joint) {
    Rising(Numbers(j.sys.log) + Coming(j), j.dec.pictures)
  }

  ghost predicate NumberInv(j: Joint) {
    JointInv(j) && NumbersRise(j)
  }

  lemma BeginNumbers(j: Joint, input: Input)
    requires Allowed(j, Begin(input)) && JointInv(j) && NumbersRise(j)
    ensures NumbersRise(After(j, Begin(input)))
  {
    var w := j.sys.handler.f.work.value;
    var o := ProcessStep(j.dec, w, input);
    CurrentIsNew(j);
    ProcessCounts(j.dec, w, input);
    assert Numbers(j.sys.log) + [] == Numbers(j.sys.log);
    RisingAppend(Numbers(j.sys.log), j.dec.pictures, o.dec.pictures);
  }

  /** The next picture leaves the calls to come. */
  lemma NextNumber(j: Joint)
    requires j.done.Some? && j.todo != []
    ensures Coming(j) == [j.todo[0].picture] + Coming(j.(todo := j.todo[1..]))
  {
  }

  lemma DropNumber(j: Joint)
    requires NumbersRise(j) && j.done.Some? && j.todo != []
    ensures NumbersRise(j.(todo := j.todo[1..]))
  {
    NextNumber(j);
    RisingDrop(Numbers(j.sys.log), j.todo[0].picture, Coming(j.(todo := j.todo[1..])), j.dec.pictures);
  }

  /** It reaches the listener as `d`. */
  lemma LogNumber(j: Joint, j': Joint, d: Delivery)
    requires NumbersRise(j) && j.done.Some? && j.todo != []
    requires d.work.buffers == [Buffer.Picture(j.todo[0].picture)]
    requires j'.sys.log == j.sys.log + [d] && j'.dec == j.dec && j'.done == j.done && j'.todo == j.todo[1..]
    ensures NumbersRise(j')
  {
    NextNumber(j);
    NumbersConcat(j.sys.log, [d]);
    NumbersOne(d);
    Shift(Numbers(j.sys.log), j.todo[0].picture, Coming(j'));
  }

  lemma Shift(ns: seq<nat>, x: nat, more: seq<nat>)
    ensures ns + ([x] + more) == (ns + [x]) + more
  {
  }

  lemma TakeNumbers(j: Joint)
    requires Allowed(j, TakeMove) && JointInv(j) && NumbersRise(j)
    ensures NumbersRise(After(j, TakeMove))
  {
    SectionFrame(j.sys, FinishTake(j.todo[0].index));
    if j.todo[0].index !in j.sys.q.pending {
      DropNumber(j);
    }
  }

  lemma CallNumber(j: Joint, m: Move)
    requires (m.DeliverMove? || m.CloneMove?) && Allowed(j, m) && JointInv(j) && NumbersRise(j)
    ensures NumbersRise(After(j, m))
  {
    HandlerFrame(j.sys, EventOf(j, m));
    if j.sys.listener {
      var d := if m.DeliverMove? then Delivery(Delivered(j, m.pts), false) else Delivery(Cloned(j, m.freshId), true);
      LogNumber(j, After(j, m), d);
    } else {
      DropNumber(j);
    }
  }

  lemma ReportNumber(q: QueueState, generation: nat, w: Work)
    requires forall k :: k in q.pending ==> q.pending[k].buffers == []
    requires w.processed == 0 ==> w.buffers == []
    ensures Numbers(WorkQueue.Report(CommitVerdict(q, generation, w))) == OwnNumber(w)
  {
    var report := WorkQueue.Report(CommitVerdict(q, generation, w));
    if report != [] {
      NumbersOne(report[0]);
    }
  }

  lemma CommitNumbers(j: Joint)
    requires Allowed(j, CommitMove) && JointInv(j) && NumbersRise(j)
    ensures NumbersRise(After(j, CommitMove))
  {
    var s, w := j.sys, j.done.value;
    SectionFrame(s, CommitSection(w));
    ReportNumber(s.q, s.handler.f.generation, w);
    assert After(j, CommitMove).sys.handler ==
      Reporting(WorkQueue.Report(CommitVerdict(s.q, s.handler.f.generation, w)), s.handler.f.hasQueued);
    assert CallNumbers([]) + OwnNumber(w) == OwnNumber(w);
  }

  lemma ReportedNumbers(j: Joint, j': Joint)
    requires NumbersRise(j) && j.done.None? && j.sys.handler.Reporting?
    requires j'.done.None? && j'.sys.handler.Leaving? && j'.dec == j.dec && j'.sys.log == j.sys.log + j.sys.handler.report
    ensures NumbersRise(j')
  {
    NumbersConcat(j.sys.log, j.sys.handler.report);
    assert Numbers(j'.sys.log) + [] == Numbers(j'.sys.log);
  }

  /** A move that neither makes calls nor reports. */
  lemma QuietNumbers(j: Joint, m: Move)
    requires m.ByClient? || m.PrepareMove? || (m.ByLooper? && !m.e.Report?)
    requires Allowed(j, m) && JointInv(j) && NumbersRise(j)
    ensures NumbersRise(After(j, m))
  {
    QuietMove(j, m);
    assert Coming(After(j, m)) == Coming(j);
  }

  lemma QuietMove(j: Joint, m: Move)
    requires m.ByClient? || m.PrepareMove? || (m.ByLooper? && !m.e.Report?)
    requires Allowed(j, m) && JointInv(j)
    ensures var j' := After(j, m);
      && j'.sys.log == j.sys.log && j'.dec.pictures == j.dec.pictures && j'.todo == j.todo && j'.done == j.done
      && (j'.sys.handler == j.sys.handler || (!j.sys.handler.Reporting? && !j'.sys.handler.Reporting?))
  {
    if m.ByClient? {
      ClientFrame(j.sys, m.e);
    } else {
      HandlerFrame(j.sys, EventOf(j, m));
      if m.ByLooper? && m.e.Dispatch? {
        DispatchFrame(j.sys, m.e.initOk);
      }
    }
  }

  lemma NumberStep(j: Joint, m: Move)
    requires Allowed(j, m) && JointInv(j) && NumbersRise(j)
    ensures NumbersRise(After(j, m))
  {
    match m
    case Begin(input) => BeginNumbers(j, input);
    case TakeMove => TakeNumbers(j);
    case DeliverMove(_) => CallNumber(j, m);
    case CloneMove(_) => CallNumber(j, m);
    case CommitMove => CommitNumbers(j);
    case ByLooper(Report) =>
      ReportOnly(j);
      ReportedNumbers(j, After(j, m));
    case _ => QuietNumbers(j, m);
  }

  lemma {:induction false} NumbersAlways(tr: seq<Joint>, ms: seq<Move>, i: nat)
    requires Run(tr, ms) && i < |tr|
    ensures NumberInv(tr[i])
  {
    if i == 0 {
      NoNumbersYet(tr[0]);
    } else {
      NumbersAlways(tr, ms, i - 1);
      NumberMove(tr[i - 1], ms[i - 1]);
    }
  }

  lemma NoNumbersYet(j: Joint)
    requires j.sys == Init0(Video) && j.dec == FRESH && j.todo == [] && j.done == None
    ensures NumberInv(j)
  {
    StartsInv(j);
    assert Numbers(j.sys.log) + Coming(j) == [];
  }

  lemma NumberMove(j: Joint, m: Move)
    requires Allowed(j, m) && NumberInv(j)
    ensures NumberInv(After(j, m))
  {
    JointStep(j, m);
    NumberStep(j, m);
  }

  /**
   * In every run, whatever the indexes, the errors and the flushes: the listener is given pictures in the order
   * in which they were decoded, none twice; and if it has been given all, the k-th one it was given is number k.
   */
  lemma PicturesInDecodeOrder(tr: seq<Joint>, ms: seq<Move>, i: nat)
    requires Run(tr, ms) && i < |tr|
    ensures var ns := Numbers(tr[i].sys.log);
      && Rising(ns, tr[i].dec.pictures)
      && (|ns| == tr[i].dec.pictures ==> forall k :: 0 <= k < |ns| ==> ns[k] == k)
  {
    NumbersAlways(tr, ms, i);
    var ns := Numbers(tr[i].sys.log);
    RisingPrefix(ns, Coming(tr[i]), tr[i].dec.pictures);
    if |ns| == tr[i].dec.pictures {
      RisingFull(ns, tr[i].dec.pictures);
    }
  }

  /**
   * Each work its picture.  When the listener has been given as many pictures as works were queued and as
   * pictures were decoded, the k-th picture was on the k-th work, for every k.
   */
  lemma EachWorkItsPicture(tr: seq<Joint>, ms: seq<Move>, i: nat)
    requires Run(tr, ms) && i < |tr|
    requires forall k {:trigger ms[k]} :: 0 <= k < i ==> IndexFits(tr[k], ms[k])
    requires |PictureLog(tr[i].sys.log)| == |tr[i].sys.accepted| == tr[i].dec.pictures
    ensures forall k :: 0 <= k < |tr[i].sys.accepted| ==>
      && PictureLog(tr[i].sys.log)[k] == tr[i].sys.accepted[k].frameIndex
      && Numbers(tr[i].sys.log)[k] == k
  {
    PicturesInQueueOrder(tr, ms, i);
    PicturesInDecodeOrder(tr, ms, i);
    InOrderFull(PictureLog(tr[i].sys.log), FrameIndexes(tr[i].sys.accepted));
  }
}
