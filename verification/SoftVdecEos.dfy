/**
 * End of stream in the soft video decoder: the END_OF_STREAM flag leaves the component only on the work
 * that brought it, and behind it no picture is delivered until the decoder is flushed.
 */
module SoftVdecEos {
  import opened Codec2
  import opened WorkQueue
  import opened Protocol
  import opened SoftVdec
  import opened PictureOrder
  import opened SoftVdecRuns
  import opened SoftVdecLine
  import opened SoftVdecOrder

  /** A delivery that ends the stream: an original EOS work, finished without error, no codec config. */
  predicate EndsStream(d: Delivery) {
    !d.clone && d.work.output.eos && d.work.result == OK && !d.work.input.codecConfig
  }

  /** END_OF_STREAM only where it belongs. */
  predicate FlagFits(d: Delivery) {
    d.work.output.eos ==> !d.clone && d.work.input.eos
  }

  ghost predicate FlagInv(j: Joint) {
    && (forall k :: k in j.sys.q.pending ==> FlagFits(Delivery(j.sys.q.pending[k], false)))
    && (j.sys.handler.Reporting? ==>
          forall i :: 0 <= i < |j.sys.handler.report| ==> FlagFits(j.sys.handler.report[i]))
    && (forall i :: 0 <= i < |j.sys.log| ==> FlagFits(j.sys.log[i]))
  }

  /** A finished EOS work on its way to the listener has shut the decoder, and carries no picture. */
  ghost predicate ShutInv(j: Joint) {
    && (j.done.Some? && EndsStream(Delivery(j.done.value, false)) && j.done.value.processed != 0 ==>
          j.dec.eosDone && j.done.value.buffers == [])
    && (j.sys.handler.Reporting? ==>
          forall i :: 0 <= i < |j.sys.handler.report| ==>
            EndsStream(j.sys.handler.report[i]) ==>
              j.dec.eosDone && j.sys.handler.report == [j.sys.handler.report[i]] && j.sys.handler.report[i].work.buffers == [])
  }

  ghost predicate EosInv(j: Joint) {
    JointInv(j) && FlagInv(j) && ShutInv(j)
  }

  lemma FlagStep(j: Joint, m: Move)
    requires Allowed(j, m) && EosInv(j) && !m.Begin?
    ensures FlagInv(After(j, m))
  {
    match m
    case ByClient(e) => FlagClient(j, e);
    case CommitMove => FlagCommit(j);
    case TakeMove =>
    case DeliverMove(pts) => HandlerFrame(j.sys, EventOf(j, m));
    case CloneMove(freshId) => HandlerFrame(j.sys, EventOf(j, m));
    case PrepareMove(poolOk, _) => assert Apply(j.sys, Prepare(poolOk)) == Prepared(j.sys, poolOk);
    case ByLooper(e) => FlagLooper(j, e);
  }

  lemma FlagClient(j: Joint, e: Event)
    requires Allowed(j, ByClient(e)) && EosInv(j)
    ensures FlagInv(After(j, ByClient(e)))
  {
    ClientFrame(j.sys, e);
    if QueueEvent(e) {
      assert forall k :: k in Apply(j.sys, e).q.pending ==> k in j.sys.q.pending && Apply(j.sys, e).q.pending[k] == j.sys.q.pending[k];
    }
  }

  lemma FlagLooper(j: Joint, e: Event)
    requires Allowed(j, ByLooper(e)) && EosInv(j)
    ensures FlagInv(After(j, ByLooper(e)))
  {
    if e.Dispatch? {
      DispatchFrame(j.sys, e.initOk);
    } else if e.PopSection? {
      SectionFrame(j.sys, e);
    } else {
      HandlerFrame(j.sys, e);
    }
  }

  lemma FlagCommit(j: Joint)
    requires Allowed(j, CommitMove) && EosInv(j)
    ensures FlagInv(After(j, CommitMove))
  {
    SectionFrame(j.sys, CommitSection(j.done.value));
    var s, w := j.sys, j.done.value;
    var verdict := CommitVerdict(s.q, s.handler.f.generation, w);
    assert After(j, CommitMove).sys.handler == Reporting(WorkQueue.Report(verdict), s.handler.f.hasQueued);
  }

  lemma ShutStep(j: Joint, m: Move)
    requires Allowed(j, m) && EosInv(j) && !m.Begin?
    ensures ShutInv(After(j, m))
  {
    var e := EventOf(j, m);
    if !HandlerEvent(e) {
      ClientFrame(j.sys, e);
    } else if m.CommitMove? {
      var s, w := j.sys, j.done.value;
      var verdict := CommitVerdict(s.q, s.handler.f.generation, w);
      assert After(j, m).sys.handler == Reporting(WorkQueue.Report(verdict), s.handler.f.hasQueued);
    } else {
      HandlerFrame(j.sys, e);
      if e.Dispatch? {
        DispatchFrame(j.sys, e.initOk);
      }
    }
  }

  lemma BeginShuts(j: Joint, input: Input)
    requires Allowed(j, Begin(input)) && EosInv(j)
    ensures FlagInv(After(j, Begin(input))) && ShutInv(After(j, Begin(input)))
  {
    var w := j.sys.handler.f.work.value;
    var o := ProcessStep(j.dec, w, input);
    CurrentIsNew(j);
    ProcessRoute(j.dec, w, input);
    if EndsStream(Delivery(o.work, false)) && o.work.processed != 0 {
      FinishedEosShuts(j.dec, w, input);
    }
  }

  lemma {:induction false} EosAlways(tr: seq<Joint>, ms: seq<Move>, i: nat)
    requires Run(tr, ms) && i < |tr|
    ensures EosInv(tr[i])
  {
    JointAlways(tr, ms, i);
    if i > 0 {
      EosAlways(tr, ms, i - 1);
      if ms[i - 1].Begin? {
        BeginShuts(tr[i - 1], ms[i - 1].input);
      } else {
        FlagStep(tr[i - 1], ms[i - 1]);
        ShutStep(tr[i - 1], ms[i - 1]);
      }
    }
  }

  /** The decoder is shut and no picture is on its way. */
  predicate Quiet(j: Joint) {
    j.dec.eosDone && OnTheWay(j) == []
  }

  /** The moves that let a flush reach the decoder. */
  predicate FlushesDecoder(j: Joint, m: Move) {
    m.PrepareMove? && j.sys.handler.Popped? && j.sys.handler.f.flushPending
  }

  lemma QuietStep(j: Joint, m: Move)
    requires Allowed(j, m) && JointInv(j) && Quiet(j) && !FlushesDecoder(j, m)
    ensures Quiet(After(j, m)) && PictureLog(After(j, m).sys.log) == PictureLog(j.sys.log)
  {
    match m
    case ByClient(e) => ClientFrame(j.sys, e);
    case Begin(input) => ShutDecoderIsQuiet(j.dec, j.sys.handler.f.work.value, input);
    case CommitMove =>
      SectionFrame(j.sys, CommitSection(j.done.value));
      ReportPicture(j.sys.q, j.sys.handler.f.generation, j.done.value);
    case ByLooper(e) => QuietLooper(j, e);
    case PrepareMove(poolOk, _) => assert Apply(j.sys, Prepare(poolOk)) == Prepared(j.sys, poolOk);
    case TakeMove => CallMoves(j);
    case DeliverMove(_) => CallMoves(j);
    case CloneMove(_) => CallMoves(j);
  }

  lemma QuietLooper(j: Joint, e: Event)
    requires Allowed(j, ByLooper(e)) && JointInv(j) && Quiet(j)
    ensures var j' := After(j, ByLooper(e)); Quiet(j') && PictureLog(j'.sys.log) == PictureLog(j.sys.log)
  {
    HandlerFrame(j.sys, e);
    if e.Dispatch? {
      DispatchFrame(j.sys, e.initOk);
    } else if e.Report? {
      PictureLogConcat(j.sys.log, j.sys.handler.report);
    }
  }

  lemma NoPictureIn(report: seq<Delivery>, d: Delivery)
    requires report == [d] && d.work.buffers == []
    ensures PictureLog(report) == []
  {
  }

  /** A report that ends the stream is the EOS work alone, with no picture, and the decoder is shut. */
  lemma LastReport(j: Joint, d: Delivery)
    requires ShutInv(j) && j.sys.handler.Reporting? && d in j.sys.handler.report && EndsStream(d)
    ensures PictureLog(j.sys.handler.report) == [] && j.dec.eosDone
  {
    var report := j.sys.handler.report;
    var k :| 0 <= k < |report| && report[k] == d;
    NoPictureIn(report, d);
  }

  lemma StreamEnds(j: Joint)
    requires EosInv(j) && Allowed(j, ByLooper(Report))
    requires exists d :: d in j.sys.handler.report && EndsStream(d)
    ensures var j' := After(j, ByLooper(Report)); Quiet(j') && PictureLog(j'.sys.log) == PictureLog(j.sys.log)
  {
    var d :| d in j.sys.handler.report && EndsStream(d);
    LastReport(j, d);
    PictureLogConcat(j.sys.log, j.sys.handler.report);
    ReportOnly(j);
  }

  /** From `i` until before `j` no flush reaches the decoder. */
  ghost predicate Unflushed(tr: seq<Joint>, ms: seq<Move>, i: nat, j: nat)
    requires j <= |ms| && j <= |tr|
  {
    forall k {:trigger ms[k]} :: i <= k < j ==> !FlushesDecoder(tr[k], ms[k])
  }

  /** Quiet, with `given` for the pictures the listener has. */
  predicate QuietAfter(j: Joint, given: seq<FrameIndex>) {
    Quiet(j) && PictureLog(j.sys.log) == given
  }

  lemma QuietNext(tr: seq<Joint>, ms: seq<Move>, i: nat, j: nat, k: nat, given: seq<FrameIndex>)
    requires Run(tr, ms) && i < k <= j < |tr| && Unflushed(tr, ms, i, j) && QuietAfter(tr[k - 1], given)
    ensures QuietAfter(tr[k], given)
  {
    assert !FlushesDecoder(tr[k - 1], ms[k - 1]);
    JointAlways(tr, ms, k - 1);
    QuietStep(tr[k - 1], ms[k - 1]);
  }

  /** Where the run is quiet. */
  function QuietAt(tr: seq<Joint>, given: seq<FrameIndex>): seq<bool> {
    seq(|tr|, k requires 0 <= k < |tr| => QuietAfter(tr[k], given))
  }

  lemma QuietKept(tr: seq<Joint>, ms: seq<Move>, i: nat, j: nat, given: seq<FrameIndex>)
    requires Run(tr, ms) && i <= j < |tr| && Unflushed(tr, ms, i, j)
    ensures forall k {:trigger QuietAt(tr, given)[k]} :: i < k <= j && QuietAt(tr, given)[k - 1] ==> QuietAt(tr, given)[k]
  {
    forall k | i < k <= j && QuietAt(tr, given)[k - 1] ensures QuietAt(tr, given)[k] {
      QuietNext(tr, ms, i, j, k, given);
    }
  }

  /** While no flush reaches the decoder, a quiet run stays quiet. */
  lemma QuietLasts(tr: seq<Joint>, ms: seq<Move>, i: nat, j: nat, given: seq<FrameIndex>)
    requires Run(tr, ms) && i <= j < |tr| && QuietAfter(tr[i], given) && Unflushed(tr, ms, i, j)
    ensures QuietAfter(tr[j], given)
  {
    QuietKept(tr, ms, i, j, given);
    assert QuietAt(tr, given)[i];
    Persists(QuietAt(tr, given), i, j);
  }

  /** What holds at `i`, and is kept by every step until `j`, holds at `j`. */
  lemma {:induction false} Persists(holds: seq<bool>, i: nat, j: nat)
    requires i <= j < |holds| && holds[i]
    requires forall k {:trigger holds[k]} :: i < k <= j && holds[k - 1] ==> holds[k]
    ensures holds[j]
    decreases j
  {
    if i < j {
      Persists(holds, i, j - 1);
    }
  }

  /**
   * EOS is last.  Once the listener has been given a finished EOS work (move `i`), it is given no picture
   * any more, by no call and no clone, until a flush reaches the decoder.
   */
  lemma EosIsLast(tr: seq<Joint>, ms: seq<Move>, i: nat, j: nat)
    requires Run(tr, ms) && i < j < |tr| && ms[i] == ByLooper(Report)
    requires exists d :: d in tr[i].sys.handler.report && EndsStream(d)
    requires Unflushed(tr, ms, i + 1, j)
    ensures Quiet(tr[j])
    ensures PictureLog(tr[j].sys.log) == PictureLog(tr[i].sys.log)
  {
    StreamEnded(tr, ms, i);
    QuietLasts(tr, ms, i + 1, j, PictureLog(tr[i].sys.log));
  }

  lemma StreamEnded(tr: seq<Joint>, ms: seq<Move>, i: nat)
    requires Run(tr, ms) && i < |ms| && ms[i] == ByLooper(Report)
    requires exists d :: d in tr[i].sys.handler.report && EndsStream(d)
    ensures Quiet(tr[i + 1]) && PictureLog(tr[i + 1].sys.log) == PictureLog(tr[i].sys.log)
  {
    EosAlways(tr, ms, i);
    StreamEnds(tr[i]);
  }

  /** In every run the END_OF_STREAM flag is delivered only on original works that were queued with it. */
  lemma EosFlagOnlyOnEosWorks(tr: seq<Joint>, ms: seq<Move>, i: nat)
    requires Run(tr, ms) && i < |tr|
    ensures forall k :: 0 <= k < |tr[i].sys.log| && tr[i].sys.log[k].work.output.eos ==>
      !tr[i].sys.log[k].clone && tr[i].sys.log[k].work.input.eos
  {
    EosAlways(tr, ms, i);
    forall k | 0 <= k < |tr[i].sys.log| ensures FlagFits(tr[i].sys.log[k]) {}
  }
}
