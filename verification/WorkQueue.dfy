/**
 * The work queue shared by the client threads and the looper thread, and the critical sections in
 * which they touch it.  The functions describe one critical section each as a step on a value; the
 * classes below are the imperative code and are proved to perform exactly these steps.
 */
module WorkQueue {
  import opened Codec2

  /** A queued work, or (with no work) a drain request. */
  datatype Entry = Entry(work: Option<Work>, drainMode: DrainMode)

  datatype QueueState = QueueState(
    flush: bool,
    generation: nat,
    queue: seq<Entry>,
    pending: map<FrameIndex, Work>)

  function WorkEntries(items: seq<Work>): seq<Entry> {
    seq(|items|, i requires 0 <= i < |items| => Entry(Some(items[i]), NoDrain))
  }

  function QueueItems(q: QueueState, items: seq<Work>): QueueState {
    q.(queue := q.queue + WorkEntries(items))
  }

  function AddDrain(q: QueueState, mode: DrainMode): QueueState {
    q.(queue := q.queue + [Entry(None, mode)])
  }

  /** `flush_sm`: everything goes back to the client, under a new generation. */
  function FlushQueue(q: QueueState): QueueState {
    QueueState(true, q.generation + 1, [], map[])
  }

  /** `stop` and `reset`: everything is dropped; generation and flush flag stay. */
  function ClearQueue(q: QueueState): QueueState {
    q.(queue := [], pending := map[])
  }

  /** What `processQueue` takes with it from the first critical section. */
  datatype Flight = Flight(
    work: Option<Work>,
    generation: nat,
    drainMode: DrainMode,
    flushPending: bool,
    hasQueued: bool)

  function PopQueue(q: QueueState): QueueState
    requires q.queue != []
  {
    q.(flush := false, queue := q.queue[1..])
  }

  function PopFlight(q: QueueState): Flight
    requires q.queue != []
  {
    Flight(q.queue[0].work, q.generation, q.queue[0].drainMode, q.flush, |q.queue| > 1)
  }

  /** The critical section of `finish`. */
  function TakePending(q: QueueState, frameIndex: FrameIndex): QueueState {
    q.(pending := q.pending - {frameIndex})
  }

  /** What the last critical section of `processQueue` decides about the processed work. */
  datatype Verdict =
    | Stale(work: Work)                     // overtaken by a flush: C2_NOT_FOUND
    | Return(work: Work)                    // finished by process()
    | Park(unexpected: Option<Work>)        // kept; an older work under the same index is C2_CORRUPTED

  function CommitVerdict(q: QueueState, generation: nat, work: Work): Verdict {
    if q.generation != generation then
      Stale(work.(result := NotFound))
    else if work.processed != 0 then
      Return(work)
    else if work.frameIndex in q.pending then
      Park(Some(q.pending[work.frameIndex].(result := Corrupted)))
    else
      Park(None)
  }

  function CommitQueue(q: QueueState, generation: nat, work: Work): QueueState {
    if q.generation == generation && work.processed == 0 then
      q.(pending := q.pending[work.frameIndex := work.(hasInput := false)])
    else
      q
  }

  /** `works` are the values of `m`, each once, in the order of the keys `order`. */
  ghost predicate ListsPending(m: map<FrameIndex, Work>, order: seq<FrameIndex>, works: seq<Work>) {
    && |order| == |works|
    && Distinct(order)
    && Elements(order) == m.Keys
    && forall i :: 0 <= i < |order| ==> order[i] in m && works[i] == m[order[i]]
  }

  ghost predicate SplitsInto(all: map<FrameIndex, Work>, done: map<FrameIndex, Work>, rest: map<FrameIndex, Work>) {
    done.Keys !! rest.Keys && all == done + rest
  }

  lemma MoveOne(all: map<FrameIndex, Work>, done: map<FrameIndex, Work>, rest: map<FrameIndex, Work>, k: FrameIndex)
    requires SplitsInto(all, done, rest) && k in rest
    ensures k !in done
    ensures SplitsInto(all, done[k := rest[k]], rest - {k})
    ensures (rest - {k}).Keys < rest.Keys
  {
    var done', rest' := done[k := rest[k]], rest - {k};
    assert rest'.Keys == rest.Keys - {k};
    assert done'.Keys == done.Keys + {k};
    assert (done' + rest').Keys == all.Keys;
    forall x | x in all ensures (done' + rest')[x] == all[x] {}
  }

  lemma ListsOneMore(m: map<FrameIndex, Work>, order: seq<FrameIndex>, works: seq<Work>, k: FrameIndex, w: Work)
    requires ListsPending(m, order, works) && k !in m
    ensures ListsPending(m[k := w], order + [k], works + [w])
  {
    assert Elements(order + [k]) == Elements(order) + {k};
    forall i | 0 <= i < |order| ensures order[i] != k {
      assert order[i] in Elements(order);
    }
  }

  /** The works of a queue, drain requests left out. */
  function Works(entries: seq<Entry>): seq<Work> {
    if entries == [] then [] else
      (if entries[0].work.Some? then [entries[0].work.value] else []) + Works(entries[1..])
  }

  lemma {:induction false} WorksConcat(a: seq<Entry>, b: seq<Entry>)
    ensures Works(a + b) == Works(a) + Works(b)
  {
    if a == [] {
      assert a + b == b;
    } else {
      var head := if a[0].work.Some? then [a[0].work.value] else [];
      assert (a + b)[0] == a[0] && (a + b)[1..] == a[1..] + b;
      WorksConcat(a[1..], b);
      assert Works(a + b) == head + (Works(a[1..]) + Works(b));
    }
  }

  lemma {:induction false} WorksOfItems(items: seq<Work>)
    ensures Works(WorkEntries(items)) == items
  {
    if items != [] {
      assert WorkEntries(items)[1..] == WorkEntries(items[1..]);
      WorksOfItems(items[1..]);
    }
  }

  /** `C2SoftVdecComponent::WorkQueue` (the audio component has the same class). */
  class Queue {
    var mFlush: bool
    var mGeneration: nat
    var mQueue: seq<Entry>
    var mPendingWork: map<FrameIndex, Work>

    ghost function State(): (q: QueueState)
      reads this
    {
      QueueState(mFlush, mGeneration, mQueue, mPendingWork)
    }

    constructor ()
      ensures State() == QueueState(false, 0, [], map[])
    {
      mFlush, mGeneration, mQueue, mPendingWork := false, 0, [], map[];
    }

    method IncGeneration()
      modifies this
      ensures State() == old(State()).(flush := true, generation := old(mGeneration) + 1)
    {
      mGeneration := mGeneration + 1;
      mFlush := true;
    }

    method PopPendingFlush() returns (flush: bool)
      modifies this
      ensures flush == old(mFlush)
      ensures State() == old(State()).(flush := false)
    {
      flush := mFlush;
      mFlush := false;
    }

    method PopFront() returns (work: Option<Work>)
      requires mQueue != []
      modifies this
      ensures work == old(mQueue)[0].work
      ensures State() == old(State()).(queue := old(mQueue)[1..])
    {
      work := mQueue[0].work;
      mQueue := mQueue[1..];
    }

    method PushBack(work: Work)
      modifies this
      ensures State() == QueueItems(old(State()), [work])
    {
      mQueue := mQueue + [Entry(Some(work), NoDrain)];
      assert WorkEntries([work]) == [Entry(Some(work), NoDrain)];
    }

    method Clear()
      modifies this
      ensures State() == old(State()).(queue := [])
    {
      mQueue := [];
    }

    method MarkDrain(mode: DrainMode)
      modifies this
      ensures State() == AddDrain(old(State()), mode)
    {
      mQueue := mQueue + [Entry(None, mode)];
    }
  }

  /** The component around the queue: its critical sections and the listener it reports to. */
  class Component {
    const queue: Queue
    var mListener: bool
    var delivered: seq<Delivery>       // what onWorkDone_nb has been given, oldest first

    constructor ()
      ensures fresh(queue) && queue.State() == QueueState(false, 0, [], map[])
      ensures !mListener && delivered == []
    {
      queue := new Queue();
      mListener, delivered := false, [];
    }

    /** The critical section of `queue_nb`. */
    method Enqueue(items: seq<Work>) returns (queueWasEmpty: bool)
      modifies queue
      ensures queueWasEmpty == (old(queue.mQueue) == [])
      ensures queue.State() == QueueItems(old(queue.State()), items)
    {
      queueWasEmpty := queue.mQueue == [];
      var rest := items;
      assert old(queue.mQueue) + WorkEntries(items[..0]) == old(queue.mQueue);
      while rest != []
        invariant |rest| <= |items| && rest == items[|items| - |rest|..]
        invariant queue.State() == QueueItems(old(queue.State()), items[..|items| - |rest|])
      {
        ghost var n := |items| - |rest|;
        queue.PushBack(rest[0]);
        assert WorkEntries(items[..n]) + WorkEntries([rest[0]]) == WorkEntries(items[..n + 1]);
        rest := rest[1..];
      }
      assert items[..|items|] == items;
    }

    /** The critical section of `flush_sm`: the queued works in order, then the pending ones in some order. */
    method Flush() returns (flushedWork: seq<Work>, ghost order: seq<FrameIndex>)
      modifies queue
      ensures queue.State() == FlushQueue(old(queue.State()))
      ensures var n := |Works(old(queue.mQueue))|;
        n <= |flushedWork| &&
        flushedWork[..n] == Works(old(queue.mQueue)) &&
        ListsPending(old(queue.mPendingWork), order, flushedWork[n..])
    {
      queue.IncGeneration();
      flushedWork := [];
      while queue.mQueue != []
        invariant queue.State() == FlushQueue(old(queue.State())).(queue := queue.mQueue, pending := old(queue.mPendingWork))
        invariant flushedWork + Works(queue.mQueue) == Works(old(queue.mQueue))
        decreases |queue.mQueue|
      {
        var work := queue.PopFront();
        if work.Some? {
          flushedWork := flushedWork + [work.value];
        }
      }
      var parked;
      parked, order := FlushPending();
      flushedWork := flushedWork + parked;
    }

    /** The second loop of `flush_sm`: it empties the pending map in whatever order the hash map has. */
    method FlushPending() returns (parked: seq<Work>, ghost order: seq<FrameIndex>)
      modifies queue
      ensures queue.State() == old(queue.State()).(pending := map[])
      ensures ListsPending(old(queue.mPendingWork), order, parked)
    {
      parked, order := [], [];
      ghost var all, done := queue.mPendingWork, map[];
      while queue.mPendingWork != map[]
        invariant queue.mFlush == old(queue.mFlush) && queue.mGeneration == old(queue.mGeneration)
        invariant queue.mQueue == old(queue.mQueue)
        invariant SplitsInto(all, done, queue.mPendingWork)
        invariant ListsPending(done, order, parked)
        decreases queue.mPendingWork.Keys
      {
        assert queue.mPendingWork.Keys != {};
        var first :| first in queue.mPendingWork.Keys;
        var work := queue.mPendingWork[first];
        MoveOne(all, done, queue.mPendingWork, first);
        ListsOneMore(done, order, parked, first, work);
        parked, order := parked + [work], order + [first];
        done := done[first := work];
        queue.mPendingWork := queue.mPendingWork - {first};
      }
      assert done == all;
    }

    /** The critical section of `stop` and of `reset`: the works are destroyed, nobody is told. */
    method Discard()
      modifies queue
      ensures queue.State() == ClearQueue(old(queue.State()))
    {
      queue.Clear();
      queue.mPendingWork := map[];
    }

    /** The first critical section of `processQueue`. */
    method Pop() returns (flight: Option<Flight>)
      modifies queue
      ensures flight.None? == (old(queue.mQueue) == [])
      ensures flight.None? ==> queue.State() == old(queue.State())
      ensures flight.Some? ==>
        flight.value == PopFlight(old(queue.State())) && queue.State() == PopQueue(old(queue.State()))
    {
      if queue.mQueue == [] {
        return None;
      }
      var generation := queue.mGeneration;
      var drainMode := queue.mQueue[0].drainMode;
      var isFlushPending := queue.PopPendingFlush();
      var work := queue.PopFront();
      var hasQueuedWork := queue.mQueue != [];
      flight := Some(Flight(work, generation, drainMode, isFlushPending, hasQueuedWork));
    }

    /** `finish` of the video component: an unknown index, or a missing listener, delivers nothing. */
    method Finish(frameIndex: FrameIndex, customOrdinal: int, fillWork: Work -> Work)
      modifies queue, this`delivered
      ensures queue.State() == TakePending(old(queue.State()), frameIndex)
      ensures delivered == old(delivered)
          + if frameIndex in old(queue.mPendingWork) && mListener
            then [Delivery(fillWork(old(queue.mPendingWork)[frameIndex].(customOrdinal := customOrdinal)), false)]
            else []
    {
      if frameIndex !in queue.mPendingWork {
        assert queue.mPendingWork - {frameIndex} == queue.mPendingWork;
        return;
      }
      var work := queue.mPendingWork[frameIndex];
      queue.mPendingWork := queue.mPendingWork - {frameIndex};
      work := work.(customOrdinal := customOrdinal);
      work := fillWork(work);
      if mListener {
        delivered := delivered + [Delivery(work, false)];
      }
    }

    /** `cloneAndSend`: a fresh work with the input side of the current or of a pending work. */
    method CloneAndSend(frameIndex: FrameIndex, current: Work, freshId: nat, fillWork: Work -> Work)
      modifies this`delivered
      ensures queue.State() == old(queue.State())
      ensures var known := frameIndex == current.frameIndex || frameIndex in queue.mPendingWork;
        delivered == old(delivered)
          + if known && mListener
            then [Delivery(fillWork(CloneOf(if frameIndex == current.frameIndex then current
                                            else queue.mPendingWork[frameIndex], freshId)), true)]
            else []
    {
      var work;
      if current.frameIndex == frameIndex {
        work := CloneOf(current, freshId);
      } else {
        if frameIndex !in queue.mPendingWork {
          return;
        }
        work := CloneOf(queue.mPendingWork[frameIndex], freshId);
      }
      work := fillWork(work);
      if mListener {
        delivered := delivered + [Delivery(work, true)];
      }
    }

    /** The last critical section of `processQueue`, and the report to the listener that follows it. */
    method Commit(generation: nat, processed: Work)
      requires mListener
      modifies queue, this`delivered
      ensures queue.State() == CommitQueue(old(queue.State()), generation, processed)
      ensures delivered == old(delivered) + Report(CommitVerdict(old(queue.State()), generation, processed))
    {
      var work := processed;
      if queue.mGeneration != generation {
        work := work.(result := NotFound);
        delivered := delivered + [Delivery(work, false)];
        return;
      }
      if work.processed != 0 {
        delivered := delivered + [Delivery(work, false)];
      } else {
        work := work.(hasInput := false);
        var unexpected := None;
        var frameIndex := work.frameIndex;
        if frameIndex in queue.mPendingWork {
          unexpected := Some(queue.mPendingWork[frameIndex]);
          queue.mPendingWork := queue.mPendingWork - {frameIndex};
        }
        queue.mPendingWork := queue.mPendingWork[frameIndex := work];
        if unexpected.Some? {
          delivered := delivered + [Delivery(unexpected.value.(result := Corrupted), false)];
        }
      }
    }
  }

  /** The new work `cloneAndSend` starts from. */
  function CloneOf(w: Work, freshId: nat): Work {
    Work(freshId, w.frameIndex, w.input, false, w.customOrdinal, OK, 0, NO_FLAGS, [])
  }

  /** What the listener is told after the last critical section. */
  function Report(v: Verdict): seq<Delivery> {
    match v
    case Stale(w) => [Delivery(w, false)]
    case Return(w) => [Delivery(w, false)]
    case Park(Some(w)) => [Delivery(w, false)]
    case Park(None) => []
  }
}
