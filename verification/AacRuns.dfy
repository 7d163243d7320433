/**
 * The AAC decoder inside its component: executions in which process() and drain() are what AacDecoder says,
 * their finish() calls are made one by one, and client threads may do anything between two of them, except
 * stop, reset and release.  Frame indexes are unique.
 */
module AacRuns {
  import opened Codec2
  import opened WorkQueue
  import opened Protocol
  import opened Generation
  import opened QueueOrder
  import opened AacDecoder
  import opened AacBooks

  /**
   * The component, the decoder, whether the call now running has decided, and what is left of it.  `lost` is a
   * history: the works stand-alone drains with end of stream have dropped since the last flush.
   */
  datatype Joint = Joint(sys: Sys, dec: Aac, began: bool, todo: seq<Call>, done: Option<Work>, lost: set<FrameIndex>)

  datatype Move =
    | ByClient(e: Event)
    | ByLooper(e: Event)
    | PrepareMove(poolOk: bool, flushes: nat -> FlushDecode)          // a pending flush reaches the decoder here
    | Begin(input: Input)                                             // process() decides
    | BeginDrain(flushes: nat -> FlushDecode, blocks: nat -> bool)    // drain() decides
    | TakeMove                                                        // the critical section of the next finish()
    | DeliverMove                                                     // its report to the listener
    | CommitMove
    | DrainDoneMove

  predicate AtWork(s: Sys, forWork: bool) {
    s.handler.Processing? && s.handler.f.work.Some? == forWork
  }

  ghost predicate Allowed(j: Joint, m: Move) {
    var s := j.sys;
    s.flavor.Audio? &&
    match m
    case ByClient(e) =>
      && !HandlerEvent(e) && Enabled(s, e)
      && !e.StopSet? && !e.ResetSet? && !e.ReleaseCall? && !e.ClearSection?
      && (e.QueueSection? ==> NewIndexes(s, s.clients[e.c].items))
    case ByLooper(e) => (e.Dispatch? || e.PopSection? || e.Report? || e.Leave?) && Enabled(s, e)
    case PrepareMove(poolOk, _) => Enabled(s, Prepare(poolOk))
    case Begin(_) => AtWork(s, true) && !j.began
    case BeginDrain(_, _) => AtWork(s, false) && !j.began
    case TakeMove => s.handler.Processing? && j.todo != []
    case DeliverMove => s.handler.Finishing? && j.todo != [] && s.listener
    case CommitMove => AtWork(s, true) && j.began && j.todo == [] && j.done.Some?
                       && SameWork(s.handler.f.work.value, j.done.value)
    case DrainDoneMove => AtWork(s, false) && j.began && j.todo == []
  }

  /** The event of the component a move is. */
  ghost function EventOf(j: Joint, m: Move): (e: Event)
    requires Allowed(j, m) && !m.Begin? && !m.BeginDrain?
    ensures Enabled(j.sys, e)
  {
    match m
    case ByClient(e) => e
    case ByLooper(e) => e
    case PrepareMove(poolOk, _) => Prepare(poolOk)
    case TakeMove => FinishTake(j.todo[0].index)
    case DeliverMove => FinishDeliver(Filled(j.sys.handler.held, j.todo[0].fill))
    case CommitMove => CommitSection(j.done.value)
    case DrainDoneMove => DrainDone
  }

  /** The calls that go through finish(). */
  function Script(calls: seq<Call>): seq<Call> {
    if calls == [] then [] else (if calls[0].own then [] else [calls[0]]) + Script(calls[1..])
  }

  /** The work a drain drops: with end of stream the last in the list, exactly if the ring cannot fill all of them. */
  function Dropped(dec: Aac, mode: DrainMode, flushes: nat -> FlushDecode, blocks: nat -> bool): set<FrameIndex> {
    var d := DrainDecoder(dec, flushes, 0);
    if mode.WithEos? && dec.infos != [] && !FillsAll(dec.infos, |d.held|, FrameSamples(d.stream), blocks, 0)
    then {dec.infos[|dec.infos| - 1].frameIndex} else {}
  }

  ghost function After(j: Joint, m: Move): Joint
    requires Allowed(j, m)
  {
    match m
    case Begin(input) =>
      var o := ProcessStep(j.dec, j.sys.handler.f.work.value, input);
      Joint(j.sys, o.dec, true, Script(o.calls), o.work, j.lost)
    case BeginDrain(flushes, blocks) =>
      var o := DrainStep(Outcome(j.dec, [], None), j.sys.handler.f.drainMode, flushes, blocks);
      Joint(j.sys, o.dec, true, Script(o.calls), None,
            j.lost + Dropped(j.dec, j.sys.handler.f.drainMode, flushes, blocks))
    case PrepareMove(poolOk, flushes) =>
      Joint(Apply(j.sys, Prepare(poolOk)), if j.sys.handler.f.flushPending then FlushStep(j.dec, flushes) else j.dec,
            j.began, j.todo, j.done, if j.sys.handler.f.flushPending then {} else j.lost)
    case TakeMove =>
      var sys := Apply(j.sys, EventOf(j, m));
      j.(sys := sys, todo := if sys.handler.Finishing? then j.todo else j.todo[1..])
    case DeliverMove => j.(sys := Apply(j.sys, EventOf(j, m)), todo := j.todo[1..])
    case CommitMove => j.(sys := Apply(j.sys, EventOf(j, m)), began := false, done := None)
    case DrainDoneMove => j.(sys := Apply(j.sys, EventOf(j, m)), began := false)
    case ByClient(e) => j.(sys := Apply(j.sys, e))
    case ByLooper(e) => j.(sys := Apply(j.sys, e))
  }

  ghost predicate Run(tr: seq<Joint>, ms: seq<Move>) {
    && |tr| == |ms| + 1
    && tr[0] == Joint(Init0(Audio), FRESH, false, [], None, {})
    && forall i {:trigger ms[i]} :: 0 <= i < |ms| ==> Allowed(tr[i], ms[i]) && tr[i + 1] == After(tr[i], ms[i])
  }

  // ---------------------------------------------------------------- invariants

  /** The calls whose work is still in the pending map. */
  function Outstanding(j: Joint): seq<Call> {
    if j.sys.handler.Finishing? && j.todo != [] then j.todo[1..] else j.todo
  }

  function Untouched(j: Joint): seq<FrameIndex> {
    if InFlight(j.sys.handler) && !j.began && j.sys.handler.f.work.Some?
    then [j.sys.handler.f.work.value.frameIndex] else []
  }

  /** The works to be finished by the running call, those in the list, and the one not yet seen. */
  function Front(j: Joint): seq<FrameIndex> {
    CallIndexes(j.todo) + Indexes(j.dec.infos) + Untouched(j)
  }

  ghost predicate ThreadInv(j: Joint) {
    var h := j.sys.handler;
    && (!j.began ==> j.todo == [] && j.done.None? && !h.Finishing?)
    && (j.began ==> (h.Processing? || h.Finishing?) && h.f.work.Some? == j.done.Some?)
    && (h.Finishing? ==> j.todo != [] && h.held.frameIndex == j.todo[0].index)
    && (j.done.Some? ==>
          && SameWork(h.f.work.value, j.done.value)
          && (j.done.value.processed == 0 ==> j.done.value.frameIndex in Indexes(j.dec.infos)))
  }

  ghost predicate PendingInv(s: Sys) {
    forall k :: k in s.q.pending ==> s.q.pending[k].frameIndex == k
  }

  ghost predicate OrderInv(j: Joint) {
    && j.sys.flavor.Audio?
    && QueueInv(j.sys) && ThreadInv(j) && PendingInv(j.sys)
    && InOrder(Front(j), GoneOrder(j.sys)) && LostInv(j)
  }

  /** A lost work was accepted, and is nowhere before the looper thread any more. */
  ghost predicate LostInv(j: Joint)
    requires 0 <= Gone(j.sys)
  {
    forall x :: x in j.lost ==> x in GoneOrder(j.sys) && x !in Front(j)
  }

  /** A flush on its way to the decoder has left nothing pending. */
  ghost predicate FlushInv(s: Sys) {
    && (s.q.flush ==> s.q.pending == map[])
    && (InFlight(s.handler) && s.q.flush ==> s.handler.f.generation < s.q.generation)
    && (s.handler.Popped? && s.handler.f.flushPending && s.handler.f.generation == s.q.generation ==>
          s.q.pending == map[])
  }

  /** The current work is in the list and will be parked. */
  predicate WillPark(j: Joint, x: FrameIndex) {
    j.done.Some? && j.done.value.processed == 0 && x == j.done.value.frameIndex
  }

  /** What the component has pending: the works the decoder knows and does not yet finish, and the lost ones. */
  ghost predicate BooksInv(j: Joint) {
    Agreed(j.sys) ==> forall x: FrameIndex :: x in j.sys.q.pending <==>
      ((x in CallIndexes(Outstanding(j)) || x in Indexes(j.dec.infos)) && !WillPark(j, x)) || x in j.lost
  }

  ghost predicate JointInv(j: Joint) {
    OrderInv(j) && FlushInv(j.sys) && BooksInv(j) && GenerationInv(j.sys)
  }

  // ---------------------------------------------------------------- client threads

  lemma ClientMove(j: Joint, e: Event)
    requires Allowed(j, ByClient(e)) && JointInv(j)
    ensures JointInv(After(j, ByClient(e)))
  {
    var j' := After(j, ByClient(e));
    ClientFrame(j.sys, e);
    GenerationClientStep(j.sys, e);
    QueueInvClient(j.sys, e);
    assert Front(j') == Front(j);
    GoneGrows(j.sys, j'.sys, Front(j));
    LostKept(j, j');
    ClientBooks(j, e);
  }

  lemma ClientBooks(j: Joint, e: Event)
    requires Allowed(j, ByClient(e)) && JointInv(j)
    ensures var j' := After(j, ByClient(e)); PendingInv(j'.sys) && BooksInv(j') && FlushInv(j'.sys)
  {
    ClientFrame(j.sys, e);
  }

  // ---------------------------------------------------------------- the looper thread

  lemma PopMove(j: Joint)
    requires Allowed(j, ByLooper(PopSection)) && JointInv(j)
    ensures JointInv(After(j, ByLooper(PopSection)))
  {
    GenerationHandlerStep(j.sys, PopSection);
    PopGone(j.sys);
    PopOrder(j);
    PopRest(j);
  }

  lemma PopOrder(j: Joint)
    requires Allowed(j, ByLooper(PopSection)) && OrderInv(j)
    requires QueueInv(Apply(j.sys, PopSection))
    requires GoneOrder(Apply(j.sys, PopSection)) == GoneOrder(j.sys) + FrameIndexes(FrontWork(j.sys.q.queue))
    ensures InOrder(Front(After(j, ByLooper(PopSection))), GoneOrder(Apply(j.sys, PopSection)))
    ensures LostInv(After(j, ByLooper(PopSection)))
  {
    var s, j' := j.sys, After(j, ByLooper(PopSection));
    SectionFrame(s, PopSection);
    PopUntouched(j, j');
    GoneDistinct(j'.sys);
    NextInOrder(CallIndexes(j.todo) + Indexes(j.dec.infos), FrameIndexes(FrontWork(s.q.queue)), GoneOrder(s), j.lost);
  }

  lemma PopUntouched(j: Joint, j': Joint)
    requires j.sys.handler.Entered? && !j.began && j' == j.(sys := j'.sys)
    requires if j.sys.q.queue == [] then j'.sys.handler.Leaving? else j'.sys.handler == Popped(PopFlight(j.sys.q))
    ensures Untouched(j) == [] && Untouched(j') == FrameIndexes(FrontWork(j.sys.q.queue))
  {
  }

  lemma NextInOrder(front: seq<FrameIndex>, more: seq<FrameIndex>, order: seq<FrameIndex>, lost: set<FrameIndex>)
    requires InOrder(front + [], order) && |more| <= 1 && Distinct(order + more)
    requires forall x :: x in lost ==> x in order && x !in front + []
    ensures InOrder(front + more, order + more)
    ensures forall x :: x in lost ==> x in order + more && x !in front + more
  {
    assert front + [] == front;
    if more != [] {
      InOrderAppend(front, order, more[0]);
      assert more == [more[0]];
      LastIsNew(order, more[0]);
    } else {
      assert order + more == order;
    }
  }

  lemma LastIsNew(order: seq<FrameIndex>, x: FrameIndex)
    requires Distinct(order + [x])
    ensures x !in order
  {
    forall i | 0 <= i < |order| ensures order[i] != x {
      assert (order + [x])[i] == order[i] && (order + [x])[|order|] == x;
    }
  }

  lemma PopRest(j: Joint)
    requires Allowed(j, ByLooper(PopSection)) && JointInv(j)
    ensures var j' := After(j, ByLooper(PopSection));
      ThreadInv(j') && PendingInv(j'.sys) && BooksInv(j') && FlushInv(j'.sys)
  {
  }

  lemma PrepareStep(j: Joint, poolOk: bool, flushes: nat -> FlushDecode)
    requires Allowed(j, PrepareMove(poolOk, flushes)) && JointInv(j)
    ensures JointInv(After(j, PrepareMove(poolOk, flushes)))
  {
    GenerationHandlerStep(j.sys, Prepare(poolOk));
    PrepareOrder(j, After(j, PrepareMove(poolOk, flushes)), poolOk);
  }

  lemma PrepareOrder(j: Joint, j': Joint, poolOk: bool)
    requires JointInv(j) && j.sys.handler.Popped?
    requires j'.sys == Prepared(j.sys, poolOk) && j'.began == j.began && j'.todo == j.todo && j'.done == j.done
    requires j'.dec.infos == if j.sys.handler.f.flushPending then [] else j.dec.infos
    requires j'.lost == if j.sys.handler.f.flushPending then {} else j.lost
    ensures OrderInv(j') && BooksInv(j') && FlushInv(j'.sys)
  {
    var line, line' := Indexes(j.dec.infos), Indexes(j'.dec.infos);
    assert Front(j) == line + Untouched(j) && Front(j') == line' + Untouched(j');
    assert line' == [] || line' == line;
    KeepPart(line, Untouched(j), line', Untouched(j'), GoneOrder(j.sys));
    assert GoneOrder(j'.sys) == GoneOrder(j.sys);
  }

  /** The works the looper thread has before it are all different. */
  lemma FrontDistinct(j: Joint)
    requires OrderInv(j)
    ensures Distinct(Front(j))
  {
    GoneDistinct(j.sys);
    InOrderDistinct(Front(j), GoneOrder(j.sys));
  }

  lemma CurrentIsNew(j: Joint)
    requires OrderInv(j) && AtWork(j.sys, true) && !j.began
    ensures j.sys.handler.f.work.value.frameIndex !in Indexes(j.dec.infos)
    ensures Front(j) == Indexes(j.dec.infos) + [j.sys.handler.f.work.value.frameIndex]
  {
    FrontDistinct(j);
    var line, fi := Indexes(j.dec.infos), j.sys.handler.f.work.value.frameIndex;
    assert Front(j) == line + [fi];
    forall i | 0 <= i < |line| ensures line[i] != fi {
      assert Front(j)[i] == line[i] && Front(j)[|line|] == fi;
    }
  }

  lemma BeginStep(j: Joint, input: Input)
    requires Allowed(j, Begin(input)) && JointInv(j)
    ensures JointInv(After(j, Begin(input)))
  {
    var w := j.sys.handler.f.work.value;
    CurrentIsNew(j);
    ProcessBooks(j.dec, w, input);
    var o := ProcessStep(j.dec, w, input);
    if Enlists(j.dec, w, input) {
      BegunBooks(j, w, o, Joint(j.sys, o.dec, true, Script(o.calls), o.work, j.lost));
    } else {
      BegunEarly(j, w, o);
    }
  }

  lemma BegunEarly(j: Joint, w: Work, o: Outcome)
    requires JointInv(j) && AtWork(j.sys, true) && !j.began && j.sys.handler.f.work == Some(w)
    requires Bookkept(Indexes(j.dec.infos), w, false, o)
    ensures JointInv(Joint(j.sys, o.dec, true, Script(o.calls), o.work, j.lost))
  {
    var j' := Joint(j.sys, o.dec, true, [], o.work, j.lost);
    assert Script(o.calls) == [];
    assert Front(j) == Indexes(j.dec.infos) + Untouched(j);
    KeepPart(Indexes(j.dec.infos), Untouched(j), Indexes(o.dec.infos), [], GoneOrder(j.sys));
    assert Front(j') == Indexes(o.dec.infos) + [];
  }

  /** Of the calls that fill `filled`, the script leaves out the one for `fi`, which is the last if any. */
  lemma {:induction false} ScriptIndexes(calls: seq<Call>, fi: FrameIndex)
    requires forall k :: 0 <= k < |calls| ==> (calls[k].own <==> calls[k].index == fi)
    requires forall k :: 0 <= k < |calls| - 1 ==> calls[k].index != fi
    ensures fi in CallIndexes(calls) ==> CallIndexes(Script(calls)) + [fi] == CallIndexes(calls)
    ensures fi !in CallIndexes(calls) ==> Script(calls) == calls
  {
    if calls != [] {
      ScriptIndexes(calls[1..], fi);
      assert CallIndexes(calls) == [calls[0].index] + CallIndexes(calls[1..]);
      if |calls| == 1 {
        assert calls[1..] == [];
      } else {
        assert CallIndexes(Script(calls)) == [calls[0].index] + CallIndexes(Script(calls[1..]));
        assert calls == [calls[0]] + calls[1..];
      }
    }
  }

  lemma {:induction false} ScriptOfOthers(calls: seq<Call>)
    requires forall k :: 0 <= k < |calls| ==> !calls[k].own
    ensures Script(calls) == calls
  {
    if calls != [] {
      ScriptOfOthers(calls[1..]);
    }
  }

  /** The script, the list and the current work after process() has decided. */
  lemma BookedScript(o: Outcome, before: seq<FrameIndex>, fi: FrameIndex)
    requires o.work.Some? && o.work.value.frameIndex == fi && fi !in before
    requires Booked(o, before + [fi])
    ensures var todo, list := CallIndexes(Script(o.calls)), Indexes(o.dec.infos);
      if o.work.value.processed == 0
      then todo + list == before + [fi] && fi !in todo && fi in list
      else todo == before && list == []
  {
    var filled, list := CallIndexes(o.calls), Indexes(o.dec.infos);
    SplitAtEnd(before, fi, filled, list);
    forall k | 0 <= k < |o.calls| - 1 ensures o.calls[k].index != fi {
      assert o.calls[k].index == filled[k] == (before + [fi])[k] == before[k];
    }
    ScriptIndexes(o.calls, fi);
    if list == [] {
      SameFront(CallIndexes(Script(o.calls)), before, fi);
    } else {
      assert list[|list| - 1] == fi;
    }
  }

  lemma SameFront(a: seq<FrameIndex>, b: seq<FrameIndex>, fi: FrameIndex)
    requires a + [fi] == b + [fi]
    ensures a == b
  {
    assert a == (a + [fi])[..|a|] && b == (b + [fi])[..|b|] && |a| == |b|;
  }

  lemma BegunBooks(j: Joint, w: Work, o: Outcome, j': Joint)
    requires JointInv(j) && AtWork(j.sys, true) && !j.began && j.sys.handler.f.work == Some(w)
    requires w.frameIndex !in Indexes(j.dec.infos) && Front(j) == Indexes(j.dec.infos) + [w.frameIndex]
    requires Bookkept(Indexes(j.dec.infos), w, true, o)
    requires j' == Joint(j.sys, o.dec, true, Script(o.calls), o.work, j.lost)
    ensures JointInv(j')
  {
    var before, fi := Indexes(j.dec.infos), w.frameIndex;
    BookedScript(o, before, fi);
    var todo, list := CallIndexes(j'.todo), Indexes(j'.dec.infos);
    assert Front(j') == todo + list + [] == todo + list;
    KeepPart(before, [fi], before, if o.work.value.processed == 0 then [fi] else [], GoneOrder(j.sys));
    assert before + [] == before && todo + [] == todo;
    BegunKeys(before, fi, todo, list, o.work.value.processed == 0);
    assert forall x :: x in Front(j') ==> x in Front(j);
  }

  lemma BegunKeys(before: seq<FrameIndex>, fi: FrameIndex, todo: seq<FrameIndex>, list: seq<FrameIndex>, parks: bool)
    requires fi !in before
    requires if parks then todo + list == before + [fi] else todo == before && list == []
    ensures forall x: FrameIndex :: x in before <==> (x in todo || x in list) && !(parks && x == fi)
  {
    forall x: FrameIndex ensures x in before <==> (x in todo || x in list) && !(parks && x == fi) {
      if parks {
        assert x in todo + list <==> x in before + [fi];
      }
    }
  }

  lemma BeginDrainStep(j: Joint, flushes: nat -> FlushDecode, blocks: nat -> bool)
    requires Allowed(j, BeginDrain(flushes, blocks)) && JointInv(j)
    ensures JointInv(After(j, BeginDrain(flushes, blocks)))
  {
    var mode := j.sys.handler.f.drainMode;
    var o := DrainStep(Outcome(j.dec, [], None), mode, flushes, blocks);
    if mode.WithEos? {
      StandAloneEosDropsTheLast(j.dec, flushes, blocks);
      BegunEosDrain(j, o, Dropped(j.dec, mode, flushes, blocks));
    } else {
      DrainBooks(j.dec, flushes, blocks);
      assert CallIndexes([]) + Indexes(j.dec.infos) == Indexes(j.dec.infos);
      BegunDrain(j, o);
    }
    assert j.lost + {} == j.lost;
  }

  /** A drain with end of stream: the list is empty, and all its works but the dropped one are to be finished. */
  lemma BegunEosDrain(j: Joint, o: Outcome, dropped: set<FrameIndex>)
    requires JointInv(j) && AtWork(j.sys, false) && !j.began && o.work.None? && o.dec.infos == []
    requires Booked(o, CallIndexes(o.calls))
    requires dropped == {} ==> CallIndexes(o.calls) == Indexes(j.dec.infos)
    requires dropped != {} ==>
      j.dec.infos != [] && dropped == {j.dec.infos[|j.dec.infos| - 1].frameIndex}
      && CallIndexes(o.calls) == Indexes(j.dec.infos)[..|j.dec.infos| - 1]
    ensures JointInv(Joint(j.sys, o.dec, true, Script(o.calls), None, j.lost + dropped))
  {
    var j' := Joint(j.sys, o.dec, true, Script(o.calls), None, j.lost + dropped);
    var line := Indexes(j.dec.infos);
    ScriptOfOthers(o.calls);
    assert Front(j) == line && Front(j') == CallIndexes(o.calls);
    FrontDistinct(j);
    if dropped != {} {
      DropLastOfLine(line, GoneOrder(j.sys));
    }
  }

  lemma DropLastOfLine(line: seq<FrameIndex>, order: seq<FrameIndex>)
    requires line != [] && InOrder(line, order) && Distinct(line)
    ensures var rest, last := line[..|line| - 1], line[|line| - 1];
      InOrder(rest, order) && last in order && last !in rest
      && forall x: FrameIndex :: x in line <==> x in rest || x == last
  {
    var rest, last := line[..|line| - 1], line[|line| - 1];
    assert line == rest + [last] + [];
    InOrderCut(rest, [last], [], order);
    assert rest + [] == rest;
    InOrderMembers(line, order);
    assert forall x: FrameIndex :: x in line <==> x in rest + [last];
    forall i | 0 <= i < |rest| ensures rest[i] != last {
      assert line[i] == rest[i];
    }
  }

  /** A step that brings no lost work back. */
  lemma LostKept(j: Joint, j': Joint)
    requires QueueInv(j.sys) && QueueInv(j'.sys) && LostInv(j) && j'.lost == j.lost
    requires forall x :: x in GoneOrder(j.sys) ==> x in GoneOrder(j'.sys)
    requires forall x :: x in Front(j') ==> x in Front(j)
    ensures LostInv(j')
  {
  }

  lemma BegunDrain(j: Joint, o: Outcome)
    requires JointInv(j) && AtWork(j.sys, false) && !j.began
    requires Booked(o, Indexes(j.dec.infos)) && o.work.None?
    ensures JointInv(Joint(j.sys, o.dec, true, Script(o.calls), None, j.lost))
  {
    var j' := Joint(j.sys, o.dec, true, Script(o.calls), None, j.lost);
    ScriptOfOthers(o.calls);
    assert Front(j') == CallIndexes(o.calls) + Indexes(o.dec.infos) + [] == Indexes(j.dec.infos);
    assert Front(j) == Indexes(j.dec.infos) + [] == Indexes(j.dec.infos);
    forall x: FrameIndex ensures x in Indexes(j.dec.infos) <==> x in CallIndexes(o.calls) || x in Indexes(o.dec.infos) {
      assert x in Indexes(j.dec.infos) <==> x in CallIndexes(o.calls) + Indexes(o.dec.infos);
    }
  }

  /** The first call to come is for a work that is nowhere else. */
  lemma FirstCall(j: Joint)
    requires OrderInv(j) && j.todo != []
    ensures var x := j.todo[0].index;
      && x !in CallIndexes(j.todo[1..]) && x !in Indexes(j.dec.infos)
      && CallIndexes(j.todo) == [x] + CallIndexes(j.todo[1..])
      && InOrder(CallIndexes(j.todo[1..]) + Indexes(j.dec.infos) + Untouched(j), GoneOrder(j.sys))
  {
    FrontDistinct(j);
    assert CallIndexes(j.todo) == [j.todo[0].index] + CallIndexes(j.todo[1..]);
    CutFirst(j.todo[0].index, CallIndexes(j.todo[1..]), Indexes(j.dec.infos), Untouched(j), GoneOrder(j.sys));
  }

  lemma CutFirst(x: FrameIndex, calls: seq<FrameIndex>, list: seq<FrameIndex>, cur: seq<FrameIndex>, order: seq<FrameIndex>)
    requires var front := ([x] + calls) + list + cur; InOrder(front, order) && Distinct(front)
    ensures x !in calls && x !in list && InOrder(calls + list + cur, order)
  {
    var front, rest := ([x] + calls) + list + cur, calls + list + cur;
    assert front == [] + [x] + rest;
    InOrderCut([], [x], rest, order);
    assert [] + rest == rest;
    assert front == [x] + rest;
    FirstIsAlone(x, rest);
    assert x in calls ==> x in calls + list;
    assert x in list ==> x in calls + list;
  }

  lemma FirstIsAlone(x: FrameIndex, rest: seq<FrameIndex>)
    requires Distinct([x] + rest)
    ensures x !in rest
  {
    forall i | 0 <= i < |rest| ensures rest[i] != x {
      assert ([x] + rest)[0] == x && ([x] + rest)[i + 1] == rest[i];
    }
  }

  lemma TakeStep(j: Joint)
    requires Allowed(j, TakeMove) && JointInv(j)
    ensures JointInv(After(j, TakeMove))
  {
    var index := j.todo[0].index;
    GenerationHandlerStep(j.sys, FinishTake(index));
    FirstCall(j);
    TakeBooks(j, After(j, TakeMove));
  }

  lemma TakeBooks(j: Joint, j': Joint)
    requires JointInv(j) && j.sys.handler.Processing? && j.todo != []
    requires j.todo[0].index !in CallIndexes(j.todo[1..]) && j.todo[0].index !in Indexes(j.dec.infos)
    requires CallIndexes(j.todo) == [j.todo[0].index] + CallIndexes(j.todo[1..])
    requires InOrder(CallIndexes(j.todo[1..]) + Indexes(j.dec.infos) + Untouched(j), GoneOrder(j.sys))
    requires j'.dec == j.dec && j'.began == j.began && j'.done == j.done && j'.lost == j.lost
    requires j'.sys == HandlerStep(j.sys, FinishTake(j.todo[0].index))
    requires j'.todo == if j'.sys.handler.Finishing? then j.todo else j.todo[1..]
    ensures OrderInv(j') && BooksInv(j') && FlushInv(j'.sys)
  {
    if j.todo[0].index in j.sys.q.pending {
      TakeFound(j, j');
    } else {
      TakeUnknown(j, j');
    }
  }

  lemma TakeFound(j: Joint, j': Joint)
    requires JointInv(j) && j.sys.handler.Processing? && j.todo != [] && j.todo[0].index in j.sys.q.pending
    requires j.todo[0].index !in CallIndexes(j.todo[1..]) && j.todo[0].index !in Indexes(j.dec.infos)
    requires CallIndexes(j.todo) == [j.todo[0].index] + CallIndexes(j.todo[1..])
    requires j'.dec == j.dec && j'.began == j.began && j'.done == j.done && j'.lost == j.lost && j'.todo == j.todo
    requires j'.sys == HandlerStep(j.sys, FinishTake(j.todo[0].index))
    ensures OrderInv(j') && BooksInv(j') && FlushInv(j'.sys)
  {
    assert GoneOrder(j'.sys) == GoneOrder(j.sys) && Front(j') == Front(j);
    TakeLost(j, j');
  }

  lemma TakeUnknown(j: Joint, j': Joint)
    requires JointInv(j) && j.sys.handler.Processing? && j.todo != [] && j.todo[0].index !in j.sys.q.pending
    requires j.todo[0].index !in CallIndexes(j.todo[1..]) && j.todo[0].index !in Indexes(j.dec.infos)
    requires CallIndexes(j.todo) == [j.todo[0].index] + CallIndexes(j.todo[1..])
    requires InOrder(CallIndexes(j.todo[1..]) + Indexes(j.dec.infos) + Untouched(j), GoneOrder(j.sys))
    requires j'.dec == j.dec && j'.began == j.began && j'.done == j.done && j'.lost == j.lost && j'.todo == j.todo[1..]
    requires j'.sys == j.sys
    ensures OrderInv(j') && BooksInv(j') && FlushInv(j'.sys)
  {
    TakeLost(j, j');
  }

  lemma TakeLost(j: Joint, j': Joint)
    requires OrderInv(j) && QueueInv(j'.sys) && j.todo != [] && j'.dec == j.dec && j'.lost == j.lost
    requires GoneOrder(j'.sys) == GoneOrder(j.sys) && Untouched(j') == Untouched(j)
    requires j'.todo == j.todo || j'.todo == j.todo[1..]
    ensures LostInv(j') && j.todo[0].index !in j.lost
  {
    assert CallIndexes(j.todo) == [j.todo[0].index] + CallIndexes(j.todo[1..]);
    assert j.todo[0].index in Front(j);
    assert forall x :: x in Front(j') ==> x in Front(j);
  }

  lemma DeliverStep(j: Joint)
    requires Allowed(j, DeliverMove) && JointInv(j)
    ensures JointInv(After(j, DeliverMove))
  {
    GenerationHandlerStep(j.sys, EventOf(j, DeliverMove));
    FirstCall(j);
    DeliverBooks(j, After(j, DeliverMove));
  }

  lemma DeliverBooks(j: Joint, j': Joint)
    requires JointInv(j) && j.sys.handler.Finishing? && j.todo != []
    requires InOrder(CallIndexes(j.todo[1..]) + Indexes(j.dec.infos) + Untouched(j), GoneOrder(j.sys))
    requires j'.dec == j.dec && j'.began == j.began && j'.done == j.done && j'.todo == j.todo[1..] && j'.lost == j.lost
    requires j'.sys == j.sys.(handler := Processing(j.sys.handler.f), log := j'.sys.log)
    ensures OrderInv(j') && BooksInv(j') && FlushInv(j'.sys)
  {
    assert Untouched(j) == Untouched(j') == [];
    assert Front(j') == CallIndexes(j.todo[1..]) + Indexes(j.dec.infos) + Untouched(j);
    TakeLost(j, j');
  }

  lemma CommitStep(j: Joint)
    requires Allowed(j, CommitMove) && JointInv(j)
    ensures JointInv(After(j, CommitMove))
  {
    var w := j.done.value;
    GenerationHandlerStep(j.sys, CommitSection(w));
    SectionFrame(j.sys, CommitSection(w));
    CommitBooks(j, After(j, CommitMove));
  }

  lemma CommitBooks(j: Joint, j': Joint)
    requires JointInv(j) && AtWork(j.sys, true) && j.began && j.todo == [] && j.done.Some?
    requires j'.sys.q == CommitQueue(j.sys.q, j.sys.handler.f.generation, j.done.value)
    requires j'.sys.flavor == j.sys.flavor && j'.sys.accepted == j.sys.accepted && j'.sys.handler.Reporting?
    requires j'.dec == j.dec && !j'.began && j'.done.None? && j'.todo == [] && j'.lost == j.lost
    ensures OrderInv(j') && BooksInv(j') && FlushInv(j'.sys)
  {
    assert Front(j') == Front(j);
    assert GoneOrder(j'.sys) == GoneOrder(j.sys);
  }

  /** A step that only moves the looper thread between places outside process(). */
  lemma QuietStep(j: Joint, j': Joint)
    requires JointInv(j) && j'.dec == j.dec && j'.todo == [] && j'.done == j.done && !j'.began && GenerationInv(j'.sys)
    requires j'.lost == j.lost
    requires j'.sys.flavor == j.sys.flavor && j'.sys.accepted == j.sys.accepted && j'.sys.q == j.sys.q
    requires !InFlight(j'.sys.handler) && j.todo == [] && j.done.None? && Untouched(j) == []
    requires InFlight(j.sys.handler) && j.sys.q.flush ==> j.sys.handler.f.generation < j.sys.q.generation
    requires InFlight(j.sys.handler) ==> AtWork(j.sys, false)
    ensures JointInv(j')
  {
    assert Front(j') == Front(j);
  }

  lemma LooperStep(j: Joint, e: Event)
    requires e.Dispatch? || e.Report? || e.Leave?
    requires Allowed(j, ByLooper(e)) && JointInv(j)
    ensures JointInv(After(j, ByLooper(e)))
  {
    GenerationHandlerStep(j.sys, e);
    HandlerFrame(j.sys, e);
    if e.Dispatch? {
      DispatchFrame(j.sys, e.initOk);
    }
    QuietStep(j, After(j, ByLooper(e)));
  }

  lemma DrainDoneStep(j: Joint)
    requires Allowed(j, DrainDoneMove) && JointInv(j)
    ensures JointInv(After(j, DrainDoneMove))
  {
    GenerationHandlerStep(j.sys, DrainDone);
    QuietStep(j, After(j, DrainDoneMove));
  }

  lemma JointStep(j: Joint, m: Move)
    requires Allowed(j, m) && JointInv(j)
    ensures JointInv(After(j, m))
  {
    match m
    case ByClient(e) => ClientMove(j, e);
    case ByLooper(e) =>
      if e.PopSection? {
        PopMove(j);
      } else {
        LooperStep(j, e);
      }
    case PrepareMove(poolOk, flushes) => PrepareStep(j, poolOk, flushes);
    case Begin(input) => BeginStep(j, input);
    case BeginDrain(flushes, blocks) => BeginDrainStep(j, flushes, blocks);
    case TakeMove => TakeStep(j);
    case DeliverMove => DeliverStep(j);
    case CommitMove => CommitStep(j);
    case DrainDoneMove => DrainDoneStep(j);
  }

  lemma StartsInv(j: Joint)
    requires j == Joint(Init0(Audio), FRESH, false, [], None, {})
    ensures JointInv(j)
  {
    assert Front(j) == [] && Embeds([], GoneOrder(j.sys), []);
  }

  lemma {:induction false} JointAlways(tr: seq<Joint>, ms: seq<Move>, i: nat)
    requires Run(tr, ms) && i < |tr|
    ensures JointInv(tr[i])
  {
    if i == 0 {
      StartsInv(tr[0]);
    } else {
      JointAlways(tr, ms, i - 1);
      JointStep(tr[i - 1], ms[i - 1]);
    }
  }

  /**
   * The decoder's list agrees with the component: whenever the looper thread is not between the sections of
   * processQueue and no flush waits to be applied, the keys of the pending map are exactly the frame indexes in
   * the list, each once and in queue order, and those that stand-alone drains with end of stream have dropped.
   */
  lemma ListAgreesWithPending(tr: seq<Joint>, ms: seq<Move>, i: nat)
    requires Run(tr, ms) && i < |tr| && !InFlight(tr[i].sys.handler)
    ensures InOrder(Indexes(tr[i].dec.infos), FrameIndexes(tr[i].sys.accepted)) && Distinct(Indexes(tr[i].dec.infos))
    ensures Elements(Indexes(tr[i].dec.infos)) !! tr[i].lost
    ensures !tr[i].sys.q.flush ==> tr[i].sys.q.pending.Keys == Elements(Indexes(tr[i].dec.infos)) + tr[i].lost
  {
    JointAlways(tr, ms, i);
    assert Front(tr[i]) == Indexes(tr[i].dec.infos);
    FrontDistinct(tr[i]);
    GoneIsPrefix(tr[i].sys, Indexes(tr[i].dec.infos));
  }
}
