/**
 * Conservation of work: under every interleaving each accepted work is in exactly one place, and it
 * is handed back to the client at most once.
 */
module Conservation {
  import opened Codec2
  import opened WorkQueue
  import opened Protocol

  /** How often the work object `id` occurs in `ws`. */
  function Count(ws: seq<Work>, id: nat): nat {
    if ws == [] then 0 else (if ws[0].id == id then 1 else 0) + Count(ws[1..], id)
  }

  /** The accepted works among the deliveries; clones are not accepted works. */
  function Originals(log: seq<Delivery>): seq<Work> {
    if log == [] then [] else (if log[0].clone then [] else [log[0].work]) + Originals(log[1..])
  }

  /** The works the looper thread holds between two critical sections. */
  function Held(h: Handler): seq<Work> {
    match h
    case Popped(f) => FlightWorks(f)
    case Processing(f) => FlightWorks(f)
    case Finishing(f, held) => FlightWorks(f) + [held]
    case Reporting(report, _) => Originals(report)
    case _ => []
  }

  /** The places a work can be in: queue, looper thread, pending map, listener, client (by flush), nowhere. */
  ghost function Places(s: Sys, id: nat): nat {
    Count(Works(s.q.queue), id) + Count(Held(s.handler), id) + Count(PendingWorks(s.q.pending), id)
    + Count(Originals(s.log), id) + Count(s.returned, id) + Count(s.discarded, id)
  }

  ghost predicate Conserved(s: Sys, id: nat) {
    Count(s.accepted, id) == Places(s, id)
  }

  lemma {:induction false} CountConcat(a: seq<Work>, b: seq<Work>, id: nat)
    ensures Count(a + b, id) == Count(a, id) + Count(b, id)
  {
    if a == [] {
      assert a + b == b;
    } else {
      assert (a + b)[1..] == a[1..] + b;
      CountConcat(a[1..], b, id);
    }
  }

  lemma {:induction false} OriginalsConcat(a: seq<Delivery>, b: seq<Delivery>)
    ensures Originals(a + b) == Originals(a) + Originals(b)
  {
    if a == [] {
      assert a + b == b;
    } else {
      assert (a + b)[1..] == a[1..] + b;
      OriginalsConcat(a[1..], b);
    }
  }

  lemma LogCount(a: seq<Delivery>, b: seq<Delivery>, id: nat)
    ensures Count(Originals(a + b), id) == Count(Originals(a), id) + Count(Originals(b), id)
  {
    OriginalsConcat(a, b);
    CountConcat(Originals(a), Originals(b), id);
  }

  /** Any key of the pending map may be counted first. */
  lemma {:induction false} PendingRemove(m: map<FrameIndex, Work>, k: FrameIndex, id: nat)
    requires k in m
    ensures Count(PendingWorks(m), id) == Count([m[k]], id) + Count(PendingWorks(m - {k}), id)
    decreases m.Keys
  {
    var first: FrameIndex :| first in m && PendingWorks(m) == [m[first]] + PendingWorks(m - {first});
    CountConcat([m[first]], PendingWorks(m - {first}), id);
    if first != k {
      assert (m - {first}) - {k} == (m - {k}) - {first};
      assert (m - {first}).Keys < m.Keys && (m - {k}).Keys < m.Keys;
      PendingRemove(m - {first}, k, id);
      PendingRemove(m - {k}, first, id);
    }
  }

  lemma PendingInsert(m: map<FrameIndex, Work>, k: FrameIndex, w: Work, id: nat)
    ensures Count(PendingWorks(m[k := w]), id) == Count([w], id) + Count(PendingWorks(m - {k}), id)
  {
    assert m[k := w] - {k} == m - {k};
    PendingRemove(m[k := w], k, id);
  }

  lemma QueueConserves(s: Sys, c: nat, id: nat)
    requires Enabled(s, QueueSection(c)) && Conserved(s, id)
    ensures Conserved(Apply(s, QueueSection(c)), id)
  {
    var items := s.clients[c].items;
    WorksConcat(s.q.queue, WorkEntries(items));
    WorksOfItems(items);
    CountConcat(Works(s.q.queue), items, id);
    CountConcat(s.accepted, items, id);
  }

  lemma DrainConserves(s: Sys, c: nat, id: nat)
    requires Enabled(s, DrainSection(c)) && Conserved(s, id)
    ensures Conserved(Apply(s, DrainSection(c)), id)
  {
    var request := [Entry(None, s.clients[c].mode)];
    WorksConcat(s.q.queue, request);
    assert Works(request) == [];
    assert Works(s.q.queue) + [] == Works(s.q.queue);
  }

  lemma PopConserves(s: Sys, id: nat)
    requires Enabled(s, PopSection) && Conserved(s, id)
    ensures Conserved(Apply(s, PopSection), id)
  {
    var q := s.q.queue;
    if q != [] {
      assert Works(q) == FlightWorks(PopFlight(s.q)) + Works(q[1..]);
      CountConcat(FlightWorks(PopFlight(s.q)), Works(q[1..]), id);
    }
  }

  /** The two calls that empty queue and pending map at once. */
  lemma EmptyConserves(s: Sys, e: Event, id: nat)
    requires e.FlushSection? || e.ClearSection?
    requires Enabled(s, e) && Conserved(s, id)
    ensures Conserved(Apply(s, e), id)
  {
    var queued, pending := Works(s.q.queue), PendingWorks(s.q.pending);
    CountConcat(s.returned + queued, pending, id);
    CountConcat(s.returned, queued, id);
    CountConcat(s.discarded + queued, pending, id);
    CountConcat(s.discarded, queued, id);
  }

  lemma TakeConserves(s: Sys, index: FrameIndex, id: nat)
    requires Enabled(s, FinishTake(index)) && Conserved(s, id)
    ensures Conserved(Apply(s, FinishTake(index)), id)
  {
    if index in s.q.pending {
      PendingRemove(s.q.pending, index, id);
      CountConcat(FlightWorks(s.handler.f), [s.q.pending[index]], id);
    }
  }

  lemma DeliverConserves(s: Sys, filled: Work, id: nat)
    requires Enabled(s, FinishDeliver(filled)) && Conserved(s, id)
    ensures Conserved(Apply(s, FinishDeliver(filled)), id)
  {
    CountConcat(FlightWorks(s.handler.f), [s.handler.held], id);
    assert Count([s.handler.held], id) == Count([filled], id);
    DeliveredCount(s.log, filled, id);
    CountConcat(s.discarded, [filled], id);
    var s' := Apply(s, FinishDeliver(filled));
    assert Held(s'.handler) == FlightWorks(s.handler.f);
    DeliverMoves(s, s', id, Count([filled], id));
  }

  lemma DeliverMoves(s: Sys, s': Sys, id: nat, n: nat)
    requires Conserved(s, id) && s'.q == s.q && s'.accepted == s.accepted && s'.returned == s.returned
    requires Count(Held(s.handler), id) == Count(Held(s'.handler), id) + n
    requires Count(Originals(s'.log), id) + Count(s'.discarded, id) == Count(Originals(s.log), id) + Count(s.discarded, id) + n
    ensures Conserved(s', id)
  {
  }

  lemma DeliveredCount(log: seq<Delivery>, w: Work, id: nat)
    ensures Count(Originals(log + [Delivery(w, false)]), id) == Count(Originals(log), id) + Count([w], id)
  {
    LogCount(log, [Delivery(w, false)], id);
    assert Originals([Delivery(w, false)]) == [w];
  }

  /** The work either goes on to the listener, or into the map; what it pushes out goes to the listener. */
  lemma CommitPlaces(q: QueueState, generation: nat, w: Work, id: nat)
    ensures Count(PendingWorks(CommitQueue(q, generation, w).pending), id)
            + Count(Originals(WorkQueue.Report(CommitVerdict(q, generation, w))), id)
            == Count(PendingWorks(q.pending), id) + Count([w], id)
  {
    var k := w.frameIndex;
    if CommitVerdict(q, generation, w).Park? {
      PendingInsert(q.pending, k, w.(hasInput := false), id);
      if k in q.pending {
        PendingRemove(q.pending, k, id);
      } else {
        assert q.pending - {k} == q.pending;
      }
    }
  }

  lemma CommitConserves(s: Sys, w: Work, id: nat)
    requires Enabled(s, CommitSection(w)) && Conserved(s, id)
    ensures Conserved(Apply(s, CommitSection(w)), id)
  {
    CommitPlaces(s.q, s.handler.f.generation, w, id);
    assert Held(s.handler) == [s.handler.f.work.value];
    assert Count([s.handler.f.work.value], id) == Count([w], id);
    SectionFrame(s, CommitSection(w));
    CommitMoves(s, Apply(s, CommitSection(w)), w, id);
  }

  lemma CommitMoves(s: Sys, s': Sys, w: Work, id: nat)
    requires Conserved(s, id) && s.handler.Processing? && Count(Held(s.handler), id) == Count([w], id)
    requires s'.q.queue == s.q.queue && s'.accepted == s.accepted && s'.log == s.log
    requires s'.returned == s.returned && s'.discarded == s.discarded && s'.handler.Reporting?
    requires Count(PendingWorks(s'.q.pending), id) + Count(Originals(s'.handler.report), id)
          == Count(PendingWorks(s.q.pending), id) + Count([w], id)
    ensures Conserved(s', id)
  {
  }

  /** Calls entering, leaving or waiting move no work. */
  lemma CallConserves(s: Sys, e: Event, id: nat)
    requires !HandlerEvent(e) && !e.QueueSection? && !e.DrainSection? && !e.FlushSection? && !e.ClearSection?
    requires Enabled(s, e) && Conserved(s, id)
    ensures Conserved(Apply(s, e), id)
  {
    var s' := Apply(s, e);
    assert s'.q == s.q && s'.handler == s.handler && s'.accepted == s.accepted;
    assert s'.log == s.log && s'.returned == s.returned && s'.discarded == s.discarded;
  }

  /** Nor do the messages the looper thread takes and posts. */
  lemma MessageConserves(s: Sys, e: Event, id: nat)
    requires e.Dispatch? || e.DrainDone? || e.Leave?
    requires Enabled(s, e) && Conserved(s, id)
    ensures Conserved(Apply(s, e), id)
  {
    var s' := Apply(s, e);
    match e {
      case Dispatch(_) => DispatchKeeps(s, e.initOk);
      case DrainDone =>
      case Leave =>
    }
    assert SameWorks(s, s');
  }

  /** `s'` differs from `s` only in who does what next; the looper thread holds no work in either. */
  ghost predicate SameWorks(s: Sys, s': Sys) {
    && s'.q == s.q && s'.accepted == s.accepted && s'.log == s.log
    && s'.returned == s.returned && s'.discarded == s.discarded
    && Held(s.handler) == [] && Held(s'.handler) == []
  }

  lemma DispatchKeeps(s: Sys, initOk: bool)
    requires Enabled(s, Dispatch(initOk))
    ensures SameWorks(s, Apply(s, Dispatch(initOk)))
  {
    var s' := Dispatched(s, initOk);
    assert Apply(s, Dispatch(initOk)) == s';
    match s.mailbox[0] {
      case Process =>
      case Init(_) =>
      case Start =>
      case Stop(_) =>
      case Reset(_) =>
      case Release(_) =>
    }
  }

  lemma CloneConserves(s: Sys, e: Event, id: nat)
    requires e.CloneSend?
    requires Enabled(s, e) && Conserved(s, id)
    ensures Conserved(Apply(s, e), id)
  {
    LogCount(s.log, [Delivery(e.filled, true)], id);
    assert Originals([Delivery(e.filled, true)]) == [];
  }

  lemma ReportConserves(s: Sys, id: nat)
    requires Enabled(s, Report) && Conserved(s, id)
    ensures Conserved(Apply(s, Report), id)
  {
    LogCount(s.log, s.handler.report, id);
  }

  lemma PrepareConserves(s: Sys, poolOk: bool, id: nat)
    requires Enabled(s, Prepare(poolOk)) && Conserved(s, id)
    ensures Conserved(Apply(s, Prepare(poolOk)), id)
  {
    assert Apply(s, Prepare(poolOk)) == Prepared(s, poolOk);
    CountConcat(s.discarded, FlightWorks(s.handler.f), id);
    PrepareMoves(s, Prepared(s, poolOk), id);
  }

  lemma PrepareMoves(s: Sys, s': Sys, id: nat)
    requires Conserved(s, id) && s.handler.Popped? && s'.q == s.q && s'.accepted == s.accepted && s'.log == s.log
    requires s'.returned == s.returned
    requires var works := FlightWorks(s.handler.f);
      || (Held(s'.handler) == works && s'.discarded == s.discarded)
      || (Held(s'.handler) == [] && Count(s'.discarded, id) == Count(s.discarded, id) + Count(works, id))
    ensures Conserved(s', id)
  {
  }

  /** Every single event, by whichever thread, keeps the account of every work balanced. */
  lemma ConservedStep(s: Sys, e: Event, id: nat)
    requires Enabled(s, e) && Conserved(s, id)
    ensures Conserved(Apply(s, e), id)
  {
    match e
    case QueueSection(c) => QueueConserves(s, c, id);
    case DrainSection(c) => DrainConserves(s, c, id);
    case PopSection => PopConserves(s, id);
    case FlushSection(_) => EmptyConserves(s, e, id);
    case ClearSection(_) => EmptyConserves(s, e, id);
    case FinishTake(index) => TakeConserves(s, index, id);
    case FinishDeliver(filled) => DeliverConserves(s, filled, id);
    case CommitSection(w) => CommitConserves(s, w, id);
    case CloneSend(_, _) => CloneConserves(s, e, id);
    case Report => ReportConserves(s, id);
    case Prepare(poolOk) => PrepareConserves(s, poolOk, id);
    case Dispatch(_) => MessageConserves(s, e, id);
    case DrainDone => MessageConserves(s, e, id);
    case Leave => MessageConserves(s, e, id);
    case _ => CallConserves(s, e, id);
  }

  lemma {:induction false} ConservedAlways(flavor: Flavor, tr: seq<Sys>, es: seq<Event>, i: nat, id: nat)
    requires Execution(flavor, tr, es) && i < |tr|
    ensures Conserved(tr[i], id)
  {
    if i == 0 {
      StartConserved(flavor, id);
    } else {
      ConservedAlways(flavor, tr, es, i - 1, id);
      ConservedNext(tr[i - 1], es[i - 1], tr[i], id);
    }
  }

  lemma StartConserved(flavor: Flavor, id: nat)
    ensures Conserved(Init0(flavor), id)
  {
  }

  lemma ConservedNext(s: Sys, e: Event, s': Sys, id: nat)
    requires Enabled(s, e) && s' == Apply(s, e) && Conserved(s, id)
    ensures Conserved(s', id)
  {
    ConservedStep(s, e, id);
  }

  /** Conservation of work, in every state of every execution of either component. */
  lemma ConservationOfWork(flavor: Flavor, tr: seq<Sys>, es: seq<Event>, i: nat, id: nat)
    requires Execution(flavor, tr, es) && i < |tr|
    ensures Count(tr[i].accepted, id) == Places(tr[i], id)
  {
    ConservedAlways(flavor, tr, es, i, id);
  }

  /**
   * A work accepted once is handed back at most once, by the listener or by flush_sm, whatever the
   * frame indexes are; and once handed back it is nowhere in the component any more.
   */
  lemma HandedBackAtMostOnce(flavor: Flavor, tr: seq<Sys>, es: seq<Event>, i: nat, id: nat)
    requires Execution(flavor, tr, es) && i < |tr|
    requires Count(tr[i].accepted, id) == 1
    ensures var s := tr[i];
      var back := Count(Originals(s.log), id) + Count(s.returned, id);
      var inside := Count(Works(s.q.queue), id) + Count(Held(s.handler), id) + Count(PendingWorks(s.q.pending), id);
      back <= 1 && inside + back + Count(s.discarded, id) == 1
  {
    ConservationOfWork(flavor, tr, es, i, id);
  }
}
