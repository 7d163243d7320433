/**
 * Generation safety: what a flush separates.  Nothing popped before a flush is parked after it, and
 * the decoder is flushed before it sees anything that was queued after it.
 */
module Generation {
  import opened Codec2
  import opened Protocol
  import opened Conservation

  /** The looper thread is between the first and the last critical section of processQueue. */
  predicate InFlight(h: Handler) {
    h.Popped? || h.Processing? || h.Finishing?
  }

  /** No flush stands between what the decoder keeps and the pending map. */
  predicate Agreed(s: Sys) {
    if InFlight(s.handler) then
      s.handler.f.generation == s.q.generation && !(s.handler.Popped? && s.handler.f.flushPending)
    else
      !s.q.flush
  }

  /** Every pending work was popped under the current generation. */
  ghost predicate PendingCurrent(s: Sys) {
    forall k :: k in s.q.pending ==> k in s.parkedUnder && s.parkedUnder[k] == s.q.generation
  }

  /** A flight a flush has overtaken finds the pending map empty and the flush flag up. */
  ghost predicate FlightInv(s: Sys) {
    InFlight(s.handler) ==>
      && s.handler.f.generation <= s.q.generation
      && (s.handler.f.generation < s.q.generation ==> s.q.flush && s.q.pending == map[])
  }

  /** Which generation the decoder was last flushed for. */
  ghost predicate DecoderInv(s: Sys) {
    var h := s.handler;
    && (h.Popped? ==> h.f.flushPending || s.flushedFor == h.f.generation)
    && (h.Processing? || h.Finishing? ==> s.flushedFor == h.f.generation)
    && (|| s.q.flush
        || s.flushedFor == s.q.generation
        || (h.Popped? && h.f.flushPending && h.f.generation == s.q.generation))
  }

  ghost predicate GenerationInv(s: Sys) {
    PendingCurrent(s) && FlightInv(s) && DecoderInv(s)
  }

  lemma GenerationClientStep(s: Sys, e: Event)
    requires Enabled(s, e) && !HandlerEvent(e) && GenerationInv(s)
    ensures GenerationInv(Apply(s, e))
  {
    var s' := Apply(s, e);
    assert s'.handler == s.handler && s'.flushedFor == s.flushedFor;
    match e {
      case QueueSection(_) =>
      case DrainSection(_) =>
      case FlushSection(_) =>
      case ClearSection(_) =>
      case _ => assert s'.q == s.q && s'.parkedUnder == s.parkedUnder;
    }
  }

  lemma GenerationHandlerStep(s: Sys, e: Event)
    requires Enabled(s, e) && HandlerEvent(e) && GenerationInv(s)
    ensures GenerationInv(Apply(s, e))
  {
    if e.FinishTake? || e.CommitSection? {
      GenerationSectionStep(s, e);
    } else if e.PopSection? || e.Prepare? {
      GenerationFlushStep(s, e);
    } else {
      HandlerFrame(s, e);
      if e.Dispatch? {
        DispatchFrame(s, e.initOk);
      }
      GenerationQuietStep(s, Apply(s, e));
    }
  }

  /** The steps that take the flush flag, and that flush the decoder. */
  lemma GenerationFlushStep(s: Sys, e: Event)
    requires e.PopSection? || e.Prepare?
    requires Enabled(s, e) && GenerationInv(s)
    ensures GenerationInv(Apply(s, e))
  {
    HandlerFrame(s, e);
    if e.Prepare? {
      assert Apply(s, e) == Prepared(s, e.poolOk);
    }
  }

  /** A step that leaves the queue alone, and brings the looper thread no flight it did not have. */
  lemma GenerationQuietStep(s: Sys, s': Sys)
    requires GenerationInv(s) && s'.q == s.q && s'.parkedUnder == s.parkedUnder && s'.flushedFor == s.flushedFor
    requires !s'.handler.Popped? && !s.handler.Popped?
    requires InFlight(s'.handler) ==> InFlight(s.handler) && s'.handler.f == s.handler.f
    ensures GenerationInv(s')
  {
  }

  lemma GenerationSectionStep(s: Sys, e: Event)
    requires e.FinishTake? || e.CommitSection?
    requires Enabled(s, e) && GenerationInv(s)
    ensures GenerationInv(Apply(s, e))
  {
  }

  lemma {:induction false} GenerationAlways(flavor: Flavor, tr: seq<Sys>, es: seq<Event>, i: nat)
    requires Execution(flavor, tr, es) && i < |tr|
    ensures GenerationInv(tr[i])
  {
    if i > 0 {
      GenerationAlways(flavor, tr, es, i - 1);
      if HandlerEvent(es[i - 1]) {
        GenerationHandlerStep(tr[i - 1], es[i - 1]);
      } else {
        GenerationClientStep(tr[i - 1], es[i - 1]);
      }
    }
  }

  /**
   * In every state of every execution: pending works carry the current generation; the decoder works
   * on a flight only after it was flushed for the flight's generation; and a flight that a flush has
   * overtaken can finish nothing any more, whatever index it asks for.
   */
  lemma GenerationSafety(flavor: Flavor, tr: seq<Sys>, es: seq<Event>, i: nat)
    requires Execution(flavor, tr, es) && i < |tr|
    ensures forall k :: k in tr[i].q.pending ==> k in tr[i].parkedUnder && tr[i].parkedUnder[k] == tr[i].q.generation
    ensures tr[i].handler.Processing? ==> tr[i].flushedFor == tr[i].handler.f.generation
    ensures tr[i].handler.Processing? && tr[i].handler.f.generation != tr[i].q.generation ==>
      forall index :: Apply(tr[i], FinishTake(index)) == tr[i]
  {
    GenerationAlways(flavor, tr, es, i);
  }

  // ---------------------------------------------------------------- the flight a flush overtakes

  /** Where the flight was when the flush came: finish() may have held a work it had taken before. */
  datatype Caught = AtPool | InProcess | InFinish(held: Work)

  function Place(h: Handler): Caught
    requires InFlight(h)
  {
    match h
    case Popped(_) => AtPool
    case Processing(_) => InProcess
    case Finishing(_, held) => InFinish(held)
  }

  /** The original works the listener was given after `before`. */
  function Since(s: Sys, before: seq<Work>): seq<Work>
    requires before <= Originals(s.log)
  {
    Originals(s.log)[|before|..]
  }

  ghost predicate Destroyed(s: Sys, w: Work) {
    exists k :: 0 <= k < |s.discarded| && SameWork(w, s.discarded[k])
  }

  /** The work finish() held, if any, was given out; only the video component may find no listener for it. */
  ghost predicate HeldIsOut(s: Sys, caught: Caught, given: seq<Work>) {
    match caught
    case InFinish(held) =>
      || (|given| == 1 && SameWork(held, given[0]))
      || (given == [] && s.flavor.Video? && Destroyed(s, held))
    case _ => given == []
  }

  /** The flight of `w` was overtaken; `before` is what had been given out when the flush came. */
  ghost predicate Overtaken(s: Sys, w: Work, caught: Caught, before: seq<Work>) {
    s.q.pending == map[] && before <= Originals(s.log) &&
    match s.handler
    case Popped(_) => StaleFlight(s, w) && caught.AtPool? && Since(s, before) == []
    case Processing(_) => StaleFlight(s, w) && HeldIsOut(s, caught, Since(s, before))
    case Finishing(_, held) => StaleFlight(s, w) && caught == InFinish(held) && Since(s, before) == []
    case Reporting(report, _) => IsNotFound(report, w) && HeldIsOut(s, caught, Since(s, before))
    case _ => false
  }

  predicate StaleFlight(s: Sys, w: Work)
    requires InFlight(s.handler)
  {
    s.handler.f.work == Some(w) && s.handler.f.generation < s.q.generation
  }

  predicate IsNotFound(report: seq<Delivery>, w: Work) {
    |report| == 1 && !report[0].clone && SameWork(w, report[0].work) && report[0].work.result == NotFound
  }

  /**
   * What became of `w`: it was given out as C2_NOT_FOUND, after the work finish() held and nothing else; or the
   * component found no block pool for it, and destroyed it.
   */
  ghost predicate Settled(s: Sys, w: Work, caught: Caught, before: seq<Work>) {
    && s.handler.Leaving? && s.q.pending == map[] && before <= Originals(s.log)
    && var given := Since(s, before);
       || (given != [] && SameWork(w, given[|given| - 1]) && given[|given| - 1].result == NotFound
           && HeldIsOut(s, caught, given[..|given| - 1]))
       || (caught.AtPool? && given == [] && Destroyed(s, w))
  }

  lemma OvertakenStep(s: Sys, e: Event, w: Work, caught: Caught, before: seq<Work>)
    requires Enabled(s, e) && Overtaken(s, w, caught, before)
    ensures var s' := Apply(s, e); Overtaken(s', w, caught, before) || Settled(s', w, caught, before)
  {
    if !HandlerEvent(e) {
      OvertakenClientStep(s, e, w, caught, before);
    } else if e.CloneSend? {
      OriginalsConcat(s.log, [Delivery(e.filled, true)]);
      assert Originals([Delivery(e.filled, true)]) == [];
    } else if e.Report? {
      OvertakenReport(s, w, caught, before);
    } else if e.FinishDeliver? {
      OvertakenDeliver(s, e.filled, w, caught, before);
    } else if e.Prepare? {
      OvertakenPrepare(s, e.poolOk, w, caught, before);
    } else {
      OvertakenSection(s, e, w, caught, before);
    }
  }

  lemma OvertakenReport(s: Sys, w: Work, caught: Caught, before: seq<Work>)
    requires Enabled(s, Report) && Overtaken(s, w, caught, before)
    ensures Settled(Apply(s, Report), w, caught, before)
  {
    var d, s' := s.handler.report[0], Apply(s, Report);
    assert s.handler.report == [d] && s'.log == s.log + [d];
    SinceGrows(s, s', d, before);
    assert HeldIsOut(s', caught, Since(s, before));
  }

  /** An original work given to the listener. */
  lemma SinceGrows(s: Sys, s': Sys, d: Delivery, before: seq<Work>)
    requires s'.log == s.log + [d] && !d.clone && before <= Originals(s.log)
    ensures before <= Originals(s'.log) && Since(s', before) == Since(s, before) + [d.work]
    ensures Since(s', before)[..|Since(s', before)| - 1] == Since(s, before)
  {
    assert Originals([d]) == [d.work];
    OriginalsConcat(s.log, [d]);
  }

  lemma OvertakenDeliver(s: Sys, filled: Work, w: Work, caught: Caught, before: seq<Work>)
    requires Enabled(s, FinishDeliver(filled)) && Overtaken(s, w, caught, before)
    ensures Overtaken(Apply(s, FinishDeliver(filled)), w, caught, before)
  {
    var s' := Apply(s, FinishDeliver(filled));
    if s.listener {
      SinceGrows(s, s', Delivery(filled, false), before);
    } else {
      assert s'.discarded[|s.discarded|] == filled;
    }
  }

  lemma OvertakenPrepare(s: Sys, poolOk: bool, w: Work, caught: Caught, before: seq<Work>)
    requires Enabled(s, Prepare(poolOk)) && Overtaken(s, w, caught, before)
    ensures var s' := Apply(s, Prepare(poolOk)); Overtaken(s', w, caught, before) || Settled(s', w, caught, before)
  {
    var s' := Prepared(s, poolOk);
    assert Apply(s, Prepare(poolOk)) == s';
    if s'.handler.Leaving? {
      assert s'.discarded[|s.discarded|] == w;
    }
  }

  lemma OvertakenSection(s: Sys, e: Event, w: Work, caught: Caught, before: seq<Work>)
    requires Enabled(s, e) && (e.FinishTake? || e.CommitSection?)
    requires Overtaken(s, w, caught, before)
    ensures Overtaken(Apply(s, e), w, caught, before)
  {
    SectionFrame(s, e);
  }

  lemma OvertakenClientStep(s: Sys, e: Event, w: Work, caught: Caught, before: seq<Work>)
    requires Enabled(s, e) && !HandlerEvent(e) && Overtaken(s, w, caught, before)
    ensures Overtaken(Apply(s, e), w, caught, before)
  {
    var s' := Apply(s, e);
    ClientFrame(s, e);
    assert s.discarded <= s'.discarded;
    assert s'.q.pending == map[] && s.q.generation <= s'.q.generation;
    if k :| caught.InFinish? && 0 <= k < |s.discarded| && SameWork(caught.held, s.discarded[k]) {
      assert s'.discarded[k] == s.discarded[k];
    }
  }

  /** From `i` until before `j` processQueue has not returned. */
  ghost predicate NotReturned(tr: seq<Sys>, i: nat, j: nat)
    requires j <= |tr|
  {
    forall k {:trigger tr[k]} :: i <= k < j ==> !tr[k].handler.Leaving?
  }

  lemma NotReturnedBefore(tr: seq<Sys>, i: nat, j: nat)
    requires i < j <= |tr| && NotReturned(tr, i, j)
    ensures NotReturned(tr, i, j - 1) && !tr[j - 1].handler.Leaving?
  {
  }

  /**
   * The fate of a work in flight across a flush.  Let the flight of `w` be anywhere between the two sections of
   * processQueue, in state `i`, and the generation have moved on; let processQueue return in state `j`.  Then
   * the accepted works given to the listener in between are the one finish() had taken before the flush, if
   * any, and `w` with C2_NOT_FOUND after it, and nothing was parked.  Only a flight caught before it had a
   * block pool may end otherwise: without a pool, `w` is destroyed.
   */
  lemma {:induction false} OvertakenWorkIsReturnedOnce(
    flavor: Flavor, tr: seq<Sys>, es: seq<Event>, i: nat, j: nat, w: Work)
    requires Execution(flavor, tr, es) && i <= j < |tr|
    requires InFlight(tr[i].handler) && tr[i].handler.f.work == Some(w)
    requires tr[i].handler.f.generation != tr[i].q.generation && NotReturned(tr, i, j)
    ensures var caught, before := Place(tr[i].handler), Originals(tr[i].log);
      && (Overtaken(tr[j], w, caught, before) || Settled(tr[j], w, caught, before))
      && (tr[j].handler.Leaving? ==> Settled(tr[j], w, caught, before))
    decreases j - i
  {
    if i == j {
      OvertakenBegins(flavor, tr, es, i, w);
    } else {
      NotReturnedBefore(tr, i, j);
      OvertakenWorkIsReturnedOnce(flavor, tr, es, i, j - 1, w);
      OvertakenMove(flavor, tr, es, j, w, Place(tr[i].handler), Originals(tr[i].log));
    }
  }

  lemma OvertakenMove(flavor: Flavor, tr: seq<Sys>, es: seq<Event>, j: nat, w: Work, caught: Caught, before: seq<Work>)
    requires Execution(flavor, tr, es) && 0 < j < |tr| && Overtaken(tr[j - 1], w, caught, before)
    ensures Overtaken(tr[j], w, caught, before) || Settled(tr[j], w, caught, before)
  {
    OvertakenStep(tr[j - 1], es[j - 1], w, caught, before);
  }

  lemma OvertakenBegins(flavor: Flavor, tr: seq<Sys>, es: seq<Event>, i: nat, w: Work)
    requires Execution(flavor, tr, es) && i < |tr|
    requires InFlight(tr[i].handler) && tr[i].handler.f.work == Some(w)
    requires tr[i].handler.f.generation != tr[i].q.generation
    ensures Overtaken(tr[i], w, Place(tr[i].handler), Originals(tr[i].log))
  {
    GenerationAlways(flavor, tr, es, i);
  }

  /** No flight from before generation `g` is in progress, nor can one begin. */
  ghost predicate NoFlightBefore(s: Sys, g: nat) {
    g <= s.q.generation && (InFlight(s.handler) ==> g <= s.handler.f.generation)
  }

  ghost predicate WaitersInv(s: Sys) {
    forall c :: c in s.clients && s.clients[c].FlushWaiting? ==> s.clients[c].generation <= s.q.generation
  }

  lemma NoFlightBeforeStep(s: Sys, e: Event, g: nat)
    requires Enabled(s, e) && NoFlightBefore(s, g)
    ensures NoFlightBefore(Apply(s, e), g)
  {
    if !HandlerEvent(e) {
      ClientFrame(s, e);
      GenerationGrows(s, e);
    } else if e.Dispatch? {
      DispatchFrame(s, e.initOk);
    } else if e.PopSection? || e.FinishTake? || e.CommitSection? {
      SectionFrame(s, e);
    } else if e.Prepare? {
      assert Apply(s, e) == Prepared(s, e.poolOk);
    } else {
      HandlerFrame(s, e);
    }
  }

  lemma GenerationGrows(s: Sys, e: Event)
    requires Enabled(s, e)
    ensures s.q.generation <= Apply(s, e).q.generation
    ensures e.FlushSection? ==> Apply(s, e).q.generation == s.q.generation + 1
  {
    if !HandlerEvent(e) {
      if !QueueEvent(e) {
        ClientFrame(s, e);
      }
    } else if e.PopSection? || e.FinishTake? || e.CommitSection? {
      SectionFrame(s, e);
    } else {
      HandlerFrame(s, e);
    }
  }

  lemma WaitersStep(s: Sys, e: Event)
    requires Enabled(s, e) && WaitersInv(s)
    ensures WaitersInv(Apply(s, e))
  {
    GenerationGrows(s, e);
    if e.Dispatch? {
      DispatchClients(s, e.initOk);
    } else if HandlerEvent(e) {
      HandlerFrame(s, e);
    } else if e.Post? {
      assert Apply(s, e) == Posted(s, e.c);
    } else {
      WaitersCall(s, e);
    }
  }

  lemma WaitersCall(s: Sys, e: Event)
    requires Enabled(s, e) && !HandlerEvent(e) && !e.Post? && WaitersInv(s)
    ensures forall c :: var s' := Apply(s, e); c in s'.clients && s'.clients[c].FlushWaiting? ==>
      (c in s.clients && s'.clients[c] == s.clients[c]) ||
      (e.FlushSection? && s'.clients[c].generation == s.q.generation + 1)
  {
  }

  lemma {:induction false} WaitersAlways(flavor: Flavor, tr: seq<Sys>, es: seq<Event>, i: nat)
    requires Execution(flavor, tr, es) && i < |tr|
    ensures WaitersInv(tr[i])
  {
    if i > 0 {
      WaitersAlways(flavor, tr, es, i - 1);
      WaitersStep(tr[i - 1], es[i - 1]);
    }
  }

  /**
   * When flush_sm of the video component returns (event `i`), no processQueue that began before the
   * flush is running, and none runs at any later moment `j`.
   */
  lemma {:induction false} FlushWaitsForProcess(tr: seq<Sys>, es: seq<Event>, i: nat, c: nat, j: nat)
    requires Execution(Video, tr, es) && i < j < |tr| && es[i] == FlushReturn(c)
    ensures NoFlightBefore(tr[j], tr[i].clients[c].generation)
    decreases j
  {
    if j == i + 1 {
      FlushReturns(tr, es, i, c);
    } else {
      FlushWaitsForProcess(tr, es, i, c, j - 1);
      NoFlightBeforeStep(tr[j - 1], es[j - 1], tr[i].clients[c].generation);
    }
  }

  /** flush_sm holds mProcessQueueLock when it returns. */
  lemma FlushReturns(tr: seq<Sys>, es: seq<Event>, i: nat, c: nat)
    requires Execution(Video, tr, es) && i < |es| && es[i] == FlushReturn(c)
    ensures NoFlightBefore(tr[i + 1], tr[i].clients[c].generation)
  {
    WaitersAlways(Video, tr, es, i);
    FlavorIsFixed(Video, tr, es, i);
    LockIsFree(tr[i], c);
  }

  lemma LockIsFree(s: Sys, c: nat)
    requires s.flavor.Video? && Enabled(s, FlushReturn(c)) && WaitersInv(s)
    ensures NoFlightBefore(Apply(s, FlushReturn(c)), s.clients[c].generation)
  {
  }

  lemma {:induction false} FlavorIsFixed(flavor: Flavor, tr: seq<Sys>, es: seq<Event>, i: nat)
    requires Execution(flavor, tr, es) && i < |tr|
    ensures tr[i].flavor == flavor
  {
    if i > 0 {
      FlavorIsFixed(flavor, tr, es, i - 1);
      if HandlerEvent(es[i - 1]) {
        HandlerFrame(tr[i - 1], es[i - 1]);
      } else {
        ClientFrame(tr[i - 1], es[i - 1]);
      }
    }
  }
}
