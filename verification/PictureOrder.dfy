/**
 * Where the pictures of the soft video decoder go: what one process() call does to the delay line and to the
 * works waiting in it.
 */
module PictureOrder {
  import opened Codec2
  import opened SoftVdec

  /** The works the calls ask for, in call order. */
  function Targets(calls: seq<Call>): seq<FrameIndex> {
    seq(|calls|, i requires 0 <= i < |calls| => calls[i].index)
  }

  /** The work itself, if it carries a picture. */
  function OwnPicture(w: Work): seq<FrameIndex> {
    if w.buffers != [] then [w.frameIndex] else []
  }

  /** Who gets the pictures now on their way, and who waits for the next ones, in this order. */
  function Route(o: Outcome): seq<FrameIndex> {
    Targets(o.calls) + OwnPicture(o.work) + o.dec.delayLine
  }

  /** What process() guarantees about the work it is given. */
  predicate WorkKept(work: Work, work': Work) {
    && SameWork(work, work')
    && (work'.processed == 0 ==> work'.buffers == [])
    && (work'.output.eos ==> work'.input.eos)
  }

  /** The calls that hand the pictures from number `n` on to the works `line`. */
  function Handed(line: seq<FrameIndex>, n: nat): seq<Call> {
    seq(|line|, i requires 0 <= i < |line| => FinishCall(line[i], n + i))
  }

  /** Rounds of the EOS flush loop between `o` and `o'`: each picture went to the next work in line. */
  ghost predicate Flushed(o: Outcome, o': Outcome) {
    var line, rest := o.dec.delayLine, o'.dec.delayLine;
    && |rest| <= |line| && rest == line[|line| - |rest|..]
    && o'.calls == o.calls + Handed(line[..|line| - |rest|], o.dec.pictures)
    && o'.dec.pictures == o.dec.pictures + |line| - |rest|
    && o'.dec.eosDone == o.dec.eosDone
    && o'.work.buffers == [] && SameWork(o.work, o'.work) && o'.work.output == o.work.output
  }

  predicate FlushReady(o: Outcome) {
    && o.dec.delayLine != [] && o.work.frameIndex !in o.dec.delayLine
    && o.work.buffers == [] && o.work.input.eos && o.work.processed == 0
  }

  lemma FlushTake(o: Outcome)
    requires FlushReady(o)
    ensures Flushed(o, TakePictureStep(o, true)) && TakePictureStep(o, true).work == o.work
  {
    var front := o.dec.delayLine[0];
    assert front in o.dec.delayLine;
    assert Handed(o.dec.delayLine[..1], o.dec.pictures) == [FinishCall(front, o.dec.pictures)];
  }

  /** No picture was taken: the round found none, or it was left with an error. */
  predicate NoneTaken(o: Outcome, o': Outcome) {
    && o'.dec.delayLine == o.dec.delayLine && o'.calls == o.calls && o'.dec.pictures == o.dec.pictures
    && o'.dec.eosDone == o.dec.eosDone
    && o'.work.buffers == o.work.buffers && SameWork(o.work, o'.work) && o'.work.output == o.work.output
  }

  /** A round of the flush loop takes no picture, or the next one. */
  lemma RoundTakes(o: Outcome, t: Turn)
    requires FlushReady(o)
    ensures var (o', next) := RoundStep(o, true, t);
      && (!next.Abort? && o'.dec.pictures == o.dec.pictures ==> o'.work == o.work)
      && (|| NoneTaken(o, o')
          || o' == TakePictureStep(o, true)
          || o' == TakePictureStep(o.(dec := o.dec.(decInit := true)), true))
  {
  }

  lemma FlushRound(o: Outcome, o': Outcome)
    requires FlushReady(o)
    requires NoneTaken(o, o') || o' == TakePictureStep(o, true) || o' == TakePictureStep(o.(dec := o.dec.(decInit := true)), true)
    ensures Flushed(o, o') && (o'.dec.pictures != o.dec.pictures ==> o'.work == o.work)
  {
    if NoneTaken(o, o') {
      assert Handed(o.dec.delayLine[..0], o.dec.pictures) == [];
      assert o.calls + [] == o.calls;
    } else {
      FlushTake(o);
      FlushTake(o.(dec := o.dec.(decInit := true)));
    }
  }

  lemma FlushedTrans(a: Outcome, b: Outcome, c: Outcome)
    requires Flushed(a, b) && Flushed(b, c)
    ensures Flushed(a, c)
  {
    var line, n := a.dec.delayLine, a.dec.pictures;
    var j, k := |line| - |b.dec.delayLine|, |b.dec.delayLine| - |c.dec.delayLine|;
    HandedInTwo(a.calls, line, n, j, k);
  }

  lemma HandedInTwo(calls: seq<Call>, line: seq<FrameIndex>, n: nat, j: nat, k: nat)
    requires j + k <= |line|
    ensures (calls + Handed(line[..j], n)) + Handed(line[j..][..k], n + j) == calls + Handed(line[..j + k], n)
    ensures line[j..][k..] == line[j + k..]
  {
    var first, second, all := Handed(line[..j], n), Handed(line[j..][..k], n + j), Handed(line[..j + k], n);
    assert first + second == all;
  }

  lemma AgainMeansWaiting(o: Outcome, t: Turn)
    requires FlushReady(o)
    ensures var (o', next) := RoundStep(o, true, t); next.Again? ==> o'.dec.delayLine != []
  {
  }

  lemma StillReady(o: Outcome, o': Outcome)
    requires FlushReady(o) && Flushed(o, o') && o'.work == o.work
    ensures o'.dec.delayLine != [] ==> FlushReady(o')
  {
    assert forall x :: x in o'.dec.delayLine ==> x in o.dec.delayLine;
  }

  /** One round of the flush loop: pictures went to the front of the line, and another round is ready to run. */
  lemma FlushOneRound(o: Outcome, t: Turn)
    requires FlushReady(o)
    ensures var (o', next) := RoundStep(o, true, t);
      && Flushed(o, o') && (!next.Abort? ==> o'.work == o.work)
      && (next.Again? ==> FlushReady(o'))
  {
    var (o', next) := RoundStep(o, true, t);
    RoundTakes(o, t);
    FlushRound(o, o');
    if next.Again? {
      AgainMeansWaiting(o, t);
      StillReady(o, o');
    }
  }

  /** The loop runs one round, and goes on from there or ends; the rounds left get fewer. */
  lemma LoopUnfold(o: Outcome, turns: nat -> Turn, i: nat)
    requires o.dec.delayLine != []
    ensures var (o', next) := RoundStep(o, true, turns(i));
      if next.Again? then
        && o'.dec.delayLine != [] && DecodeLoop(o, true, turns, i) == DecodeLoop(o', true, turns, i + 1)
        && (|o'.dec.delayLine| < |o.dec.delayLine|
            || (|o'.dec.delayLine| == |o.dec.delayLine| && o'.dec.pic && !o.dec.pic))
      else
        DecodeLoop(o, true, turns, i) == LoopResult(o', next.Abort?)
  {
  }

  lemma {:induction false} FlushLoop(o: Outcome, turns: nat -> Turn, i: nat)
    requires FlushReady(o)
    ensures var r := DecodeLoop(o, true, turns, i);
      Flushed(o, r.o) && (!r.aborted ==> r.o.work == o.work)
    decreases |o.dec.delayLine|, if o.dec.pic then 0 else 1
  {
    var (o', next) := RoundStep(o, true, turns(i));
    FlushOneRound(o, turns(i));
    LoopUnfold(o, turns, i);
    if next.Again? {
      FlushLoop(o', turns, i + 1);
      FlushedTrans(o, o', DecodeLoop(o', true, turns, i + 1).o);
    }
  }

  lemma FlushedRoute(o: Outcome, o': Outcome)
    requires Flushed(o, o') && o.calls == [] && o.work.buffers == []
    ensures Route(o') == o.dec.delayLine
    ensures forall x :: x in o'.dec.delayLine ==> x in o.dec.delayLine
  {
    var k := |o.dec.delayLine| - |o'.dec.delayLine|;
    assert Targets(o'.calls) == o.dec.delayLine[..k];
  }

  predicate SingleReady(o: Outcome) {
    && o.calls == [] && o.work.buffers == [] && o.work.processed == 0
    && o.work.frameIndex !in o.dec.delayLine
    && (o.work.input.eos ==> o.dec.delayLine == [])
  }

  lemma SingleRound(o: Outcome, t: Turn)
    requires SingleReady(o)
    ensures var (o', next) := RoundStep(o, false, t);
      if next.Again? then o' == o.(dec := o.dec.(decInit := true, pic := true)) && !o.dec.pic
      else SinglePicture(o, LoopResult(o', next.Abort?))
  {
    if o.dec.delayLine != [] {
      assert (o.dec.delayLine + [o.work.frameIndex])[1..] == o.dec.delayLine[1..] + [o.work.frameIndex];
      assert o.dec.delayLine[0] in o.dec.delayLine;
    }
  }

  /** A loop that does not flush: at most one picture, after at most one change of size. */
  lemma SingleLoop(o: Outcome, turns: nat -> Turn)
    requires SingleReady(o)
    ensures SinglePicture(o, DecodeLoop(o, false, turns, 0))
  {
    var (o1, next1) := RoundStep(o, false, turns(0));
    SingleRound(o, turns(0));
    if next1.Again? {
      SingleRound(o1, turns(1));
      var (o2, next2) := RoundStep(o1, false, turns(1));
      assert DecodeLoop(o1, false, turns, 1) == LoopResult(o2, next2.Abort?);
    }
  }

  /** Either no picture was taken, or one was, and the work stands where the delay line puts it. */
  ghost predicate SinglePicture(o: Outcome, r: LoopResult) {
    var line, fi := o.dec.delayLine, o.work.frameIndex;
    SameWork(o.work, r.o.work) && r.o.dec.eosDone == o.dec.eosDone &&
    (r.o.work.output == o.work.output || r.o.work.output == NO_FLAGS) &&
    if r.o.dec.pictures == o.dec.pictures then
      && r.o.calls == [] && r.o.work.buffers == [] && r.o.dec.delayLine == line
      && (!r.aborted ==> r.o.work.processed == 0 && r.o.dec.first == o.dec.first)
    else
      && r.o.dec.pictures == o.dec.pictures + 1 && !r.aborted && r.o.dec.first
      && if line != [] then
           && r.o.calls == [FinishCall(line[0], o.dec.pictures)] && r.o.dec.delayLine == line[1..] + [fi]
           && r.o.work.buffers == [] && r.o.work.processed == 0
         else if fi >= 0x1_0000_0000 then
           && r.o.calls == [FinishCall(WorkIndex(fi), o.dec.pictures)] && r.o.dec.delayLine == []
           && r.o.work.buffers == [] && r.o.work.processed == 0
         else if o.work.input.eos then
           && r.o.calls == [CloneCall(fi, o.dec.pictures)] && r.o.dec.delayLine == []
           && r.o.work.buffers == [] && r.o.work.processed == 0
         else
           && r.o.calls == [] && r.o.dec.delayLine == []
           && r.o.work == FillPicture(r.o.work, o.dec.pictures)
  }

  /** The line `rest` is the end of `line`, or of `line` with `fi` behind it. */
  predicate EndOf(rest: seq<FrameIndex>, line: seq<FrameIndex>, fi: FrameIndex) {
    || (|rest| <= |line| && rest == line[|line| - |rest|..])
    || (|rest| <= |line| + 1 && rest == (line + [fi])[|line| + 1 - |rest|..])
  }

  /** No call is for a work that stays in the line. */
  ghost predicate CallsApart(calls: seq<Call>, line: seq<FrameIndex>) {
    forall k :: 0 <= k < |calls| ==> calls[k].index !in line
  }

  /**
   * What process() does, for whatever input and decoder state, to a work that is not already in line.  Unless
   * the line is empty and the frame index does not fit 32 bits, every picture has its place in the route.
   */
  ghost predicate Routed(dec: Vdec, work: Work, o: Outcome) {
    && (dec.delayLine != [] || work.frameIndex < 0x1_0000_0000 ==>
          Route(o) == dec.delayLine || Route(o) == dec.delayLine + [work.frameIndex])
    && EndOf(o.dec.delayLine, dec.delayLine, work.frameIndex) && CallsApart(o.calls, o.dec.delayLine)
    && |o.dec.delayLine| <= MAX_WORK_PENDING_COUNT
    && (work.frameIndex in o.dec.delayLine ==> o.work.processed == 0)
    && WorkKept(work, o.work)
    && (forall k :: 0 <= k < |o.calls| && o.calls[k].CloneCall? ==> o.calls[k].index == work.frameIndex)
  }

  /** A work as it comes, with an index that is not in line, to a line without doubles. */
  ghost predicate Routable(dec: Vdec, work: Work) {
    && work.buffers == [] && work.frameIndex !in dec.delayLine
    && |dec.delayLine| <= MAX_WORK_PENDING_COUNT && Distinct(dec.delayLine)
  }

  /** Nothing is decoded: errors, codec config, empty input. */
  predicate NoDecode(dec: Vdec, work: Work, input: Input) {
    || dec.error || dec.eosDone || (input.size > 0 && input.readError) || work.input.codecConfig
    || (input.size == 0 && !(work.input.eos && dec.delayLine != []))
  }

  lemma IdleRoute(dec: Vdec, work: Work, input: Input)
    requires Routable(dec, work) && NoDecode(dec, work, input)
    ensures Routed(dec, work, ProcessStep(dec, work, input))
  {
    NoCallRouted(dec, work, ProcessStep(dec, work, input));
  }

  /** Without a picture the work may join the line, and nothing else happens. */
  lemma NoCallRouted(dec: Vdec, work: Work, o: Outcome)
    requires Routable(dec, work) && o.calls == [] && o.work.buffers == [] && WorkKept(work, o.work)
    requires o.dec.delayLine == dec.delayLine
          || (o.dec.delayLine == dec.delayLine + [work.frameIndex] && |o.dec.delayLine| <= MAX_WORK_PENDING_COUNT && o.work.processed == 0)
    ensures Routed(dec, work, o)
  {
    WholeLine(dec.delayLine, work.frameIndex);
    RouteWithoutCalls(o);
  }

  lemma WholeLine(line: seq<FrameIndex>, fi: FrameIndex)
    ensures EndOf(line, line, fi) && EndOf(line + [fi], line, fi)
  {
    var more := line + [fi];
    assert line[0..] == line && more[0..] == more && |more| == |line| + 1;
  }

  lemma RouteWithoutCalls(o: Outcome)
    requires o.calls == [] && o.work.buffers == []
    ensures Route(o) == o.dec.delayLine
  {
    assert Targets([]) == [];
  }

  /** A call that decodes is its loop and what follows it. */
  lemma LoopAndConclusion(dec: Vdec, work: Work, input: Input)
    requires !NoDecode(dec, work, input)
    ensures var flushes := work.input.eos && dec.delayLine != [];
      var r := DecodeLoop(Outcome(dec, [], Entry(work)), flushes, input.turns, 0);
      ProcessStep(dec, work, input) == if r.aborted then r.o else ConcludeStep(r.o, r.o.dec.pictures > dec.pictures)
  {
  }

  lemma FlushRoute(dec: Vdec, work: Work, turns: nat -> Turn, r: LoopResult, hasPicture: bool)
    requires Routable(dec, work) && work.input.eos && dec.delayLine != []
    requires r == DecodeLoop(Outcome(dec, [], Entry(work)), true, turns, 0)
    ensures Routed(dec, work, if r.aborted then r.o else ConcludeStep(r.o, hasPicture))
  {
    FlushLoop(Outcome(dec, [], Entry(work)), turns, 0);
    FlushRouted(dec, work, r, hasPicture);
  }

  lemma FlushRouted(dec: Vdec, work: Work, r: LoopResult, hasPicture: bool)
    requires Routable(dec, work) && work.input.eos && Flushed(Outcome(dec, [], Entry(work)), r.o)
    ensures Routed(dec, work, if r.aborted then r.o else ConcludeStep(r.o, hasPicture))
  {
    var start := Outcome(dec, [], Entry(work));
    FlushedRoute(start, r.o);
    FlushedApart(start, r.o);
    ConcludeEos(r.o, hasPicture);
  }

  lemma FlushedApart(o: Outcome, o': Outcome)
    requires Flushed(o, o') && o.calls == [] && Distinct(o.dec.delayLine)
    ensures CallsApart(o'.calls, o'.dec.delayLine) && EndOf(o'.dec.delayLine, o.dec.delayLine, o.work.frameIndex)
    ensures forall k :: 0 <= k < |o'.calls| ==> o'.calls[k].FinishCall?
  {
    var line := o.dec.delayLine;
    HandedApart(line, o.dec.pictures, |line| - |o'.dec.delayLine|);
  }

  lemma HandedApart(line: seq<FrameIndex>, n: nat, k: nat)
    requires Distinct(line) && k <= |line|
    ensures CallsApart(Handed(line[..k], n), line[k..])
  {
  }

  /** What follows the loop leaves calls, line and pictures of an EOS work alone. */
  lemma ConcludeEos(o: Outcome, hasPicture: bool)
    requires o.work.input.eos && o.work.buffers == []
    ensures var o' := ConcludeStep(o, hasPicture);
      && o'.calls == o.calls && o'.dec == o.dec.(eosDone := true) && Route(o') == Route(o)
      && WorkKept(o.work, o'.work)
  {
  }

  lemma SingleRoute(dec: Vdec, work: Work, input: Input)
    requires Routable(dec, work) && !NoDecode(dec, work, input) && !(work.input.eos && dec.delayLine != [])
    ensures Routed(dec, work, ProcessStep(dec, work, input))
  {
    var start := Outcome(dec, [], Entry(work));
    SingleLoop(start, input.turns);
    LoopAndConclusion(dec, work, input);
    var r := DecodeLoop(start, false, input.turns, 0);
    if r.o.dec.pictures == dec.pictures {
      NoPictureRouted(dec, work, r);
    } else {
      OnePictureRouted(dec, work, r);
    }
  }

  lemma NoPictureRouted(dec: Vdec, work: Work, r: LoopResult)
    requires Routable(dec, work) && SinglePicture(Outcome(dec, [], Entry(work)), r) && r.o.dec.pictures == dec.pictures
    ensures Routed(dec, work, if r.aborted then r.o else ConcludeStep(r.o, false))
  {
    NoCallRouted(dec, work, if r.aborted then r.o else ConcludeStep(r.o, false));
  }

  lemma OnePictureRouted(dec: Vdec, work: Work, r: LoopResult)
    requires Routable(dec, work) && SinglePicture(Outcome(dec, [], Entry(work)), r) && r.o.dec.pictures > dec.pictures
    requires work.input.eos ==> dec.delayLine == []
    ensures Routed(dec, work, if r.aborted then r.o else ConcludeStep(r.o, true))
  {
    if dec.delayLine != [] {
      FirstServed(dec.delayLine, work.frameIndex, r.o.dec.pictures - 1);
    } else {
      EmptyLineRouted(dec, work, r);
    }
  }

  lemma EmptyLineRouted(dec: Vdec, work: Work, r: LoopResult)
    requires Routable(dec, work) && SinglePicture(Outcome(dec, [], Entry(work)), r) && r.o.dec.pictures > dec.pictures
    requires dec.delayLine == []
    ensures Routed(dec, work, if r.aborted then r.o else ConcludeStep(r.o, true))
  {
    if work.frameIndex < 0x1_0000_0000 {
      assert Targets(r.o.calls) == if work.input.eos then [work.frameIndex] else [];
    }
  }

  /** The first of the line is served, the current work joins. */
  lemma FirstServed(line: seq<FrameIndex>, fi: FrameIndex, n: nat)
    requires line != [] && Distinct(line) && fi !in line
    ensures var calls, rest := [FinishCall(line[0], n)], line[1..] + [fi];
      && Targets(calls) + [] + rest == line + [fi] && CallsApart(calls, rest) && EndOf(rest, line, fi) && |rest| == |line|
  {
    assert Targets([FinishCall(line[0], n)]) == [line[0]];
    assert line + [fi] == [line[0]] + (line[1..] + [fi]);
    assert line[0] !in line[1..] && line[0] != fi;
  }

  /**
   * One process() call, whatever its input, its errors and the state of the decoder: pictures go to the
   * works of the delay line from its front, the work itself comes after all of them and at most once (with
   * an empty line only if its index fits 32 bits), the line never holds more than seven, no call is for a
   * work that stays in the line, and a work left in the line is not finished.
   */
  lemma ProcessRoute(dec: Vdec, work: Work, input: Input)
    requires Routable(dec, work)
    ensures Routed(dec, work, ProcessStep(dec, work, input))
  {
    if NoDecode(dec, work, input) {
      IdleRoute(dec, work, input);
    } else if work.input.eos && dec.delayLine != [] {
      var r := DecodeLoop(Outcome(dec, [], Entry(work)), true, input.turns, 0);
      LoopAndConclusion(dec, work, input);
      FlushRoute(dec, work, input.turns, r, r.o.dec.pictures > dec.pictures);
    } else {
      SingleRoute(dec, work, input);
    }
  }

  // ---------------------------------------------------------------- wide frame indexes

  /** A round that meets no error. */
  predicate TurnFine(t: Turn) {
    t.blockOk && t.viewOk && t.initOk && t.allocOk && (t.decode.NewSize? ==> t.decode.configOk)
  }

  /** A decoder without errors, between two calls. */
  predicate Healthy(dec: Vdec) {
    !dec.error && !dec.eosDone
  }

  /**
   * With no work waiting, a work that gives a picture takes it, an EOS work through its clone, if and only if
   * its frame index fits 32 bits: process() compares a truncated copy of the index with the full one.  Else
   * the picture is offered to the work with the truncated index; an EOS work is finished all the same.
   */
  lemma OwnPictureNeedsNarrowIndex(dec: Vdec, work: Work, input: Input)
    requires Healthy(dec) && !dec.pic && dec.delayLine == [] && !work.input.codecConfig
    requires input.size > 0 && !input.readError && TurnFine(input.turns(0)) && input.turns(0).decode.Picture?
    requires work.buffers == []
    ensures var o := ProcessStep(dec, work, input);
      && (Targets(o.calls) + OwnPicture(o.work) == [work.frameIndex] <==> work.frameIndex < 0x1_0000_0000)
      && (work.input.eos ==> (o.calls == [CloneCall(work.frameIndex, dec.pictures)] <==> work.frameIndex < 0x1_0000_0000))
      && (work.frameIndex >= 0x1_0000_0000 ==>
            o.calls == [FinishCall(work.frameIndex % 0x1_0000_0000, dec.pictures)] && OwnPicture(o.work) == []
            && (o.work.processed != 0 <==> work.input.eos))
  {
    var o := ProcessStep(dec, work, input);
    assert Targets(o.calls) + OwnPicture(o.work) == [if work.frameIndex < 0x1_0000_0000 then work.frameIndex else WorkIndex(work.frameIndex)];
  }

  /** With works waiting no index loses a picture: all go to the line and to the work behind it, in this order. */
  lemma WaitingWorksLoseNothing(dec: Vdec, work: Work, input: Input)
    requires Routable(dec, work) && dec.delayLine != []
    ensures var o := ProcessStep(dec, work, input);
      Targets(o.calls) + o.dec.delayLine == dec.delayLine || Targets(o.calls) + o.dec.delayLine == dec.delayLine + [work.frameIndex]
    ensures OwnPicture(ProcessStep(dec, work, input).work) == []
  {
    ProcessRoute(dec, work, input);
    OwnNeedsEmptyLine(dec, work, input);
    var o := ProcessStep(dec, work, input);
    assert Targets(o.calls) + [] + o.dec.delayLine == Targets(o.calls) + o.dec.delayLine;
  }

  lemma OwnNeedsEmptyLine(dec: Vdec, work: Work, input: Input)
    requires Routable(dec, work) && dec.delayLine != []
    ensures ProcessStep(dec, work, input).work.buffers == []
  {
    if !NoDecode(dec, work, input) {
      var start := Outcome(dec, [], Entry(work));
      if work.input.eos {
        FlushLoop(start, input.turns, 0);
      } else {
        SingleLoop(start, input.turns);
      }
    }
  }

  /** The first work of a stream may carry the index 2^32; its picture is offered to the work with index 0. */
  lemma WideIndexLosesItsPicture(work: Work)
    requires work.frameIndex == 0x1_0000_0000 && work.input == NO_FLAGS && work.buffers == []
    ensures var o := ProcessStep(FRESH, work, Input(1, false, true, i => Turn(true, true, true, true, Decode.Picture)));
      o.work.processed == 0 && o.work.buffers == [] && o.calls == [FinishCall(0, 0)]
  {
  }

  // ---------------------------------------------------------------- end of stream

  /** The call that hands on the picture of an EOS work nobody waits in front of. */
  function LastCall(work: Work, picture: nat): Call {
    if work.frameIndex < 0x1_0000_0000 then CloneCall(work.frameIndex, picture)
    else FinishCall(WorkIndex(work.frameIndex), picture)
  }

  /**
   * An EOS work that is not codec config and meets no error: its waiting predecessors get the remaining
   * pictures in line order, or, with nobody waiting, at most one picture leaves through its own
   * INCOMPLETE clone (if its index fits 32 bits); the work itself is finished empty with END_OF_STREAM, and
   * the decoder shuts.
   */
  lemma EosOutcome(dec: Vdec, work: Work, input: Input)
    requires Routable(dec, work) && work.input.eos && !work.input.codecConfig
    requires ProcessStep(dec, work, input).work.result == OK
    ensures var o := ProcessStep(dec, work, input);
      && o.dec.eosDone
      && o.work.processed == 1 && o.work.buffers == [] && o.work.output == NO_FLAGS.(eos := true)
      && var k := |dec.delayLine| - |o.dec.delayLine|;
         if dec.delayLine != [] then
           0 <= k && o.calls == Handed(dec.delayLine[..k], dec.pictures) && o.dec.delayLine == dec.delayLine[k..]
         else
           o.dec.delayLine == [] && (o.calls == [] || o.calls == [LastCall(work, dec.pictures)])
  {
    if dec.delayLine != [] {
      EosFlushes(dec, work, input);
    } else if input.size > 0 {
      EosSingle(dec, work, input);
    }
  }

  lemma EosFlushes(dec: Vdec, work: Work, input: Input)
    requires Routable(dec, work) && !NoDecode(dec, work, input) && work.input.eos && dec.delayLine != []
    requires ProcessStep(dec, work, input).work.result == OK
    ensures var o := ProcessStep(dec, work, input);
      var k := |dec.delayLine| - |o.dec.delayLine|;
      && o.dec.eosDone && o.work == FillEmptyWork(Entry(work))
      && 0 <= k && o.calls == Handed(dec.delayLine[..k], dec.pictures) && o.dec.delayLine == dec.delayLine[k..]
  {
    var start := Outcome(dec, [], Entry(work));
    var r := DecodeLoop(start, true, input.turns, 0);
    FlushLoop(start, input.turns, 0);
    EosLoopAborts(start, true, input.turns, 0);
    assert !r.aborted;
    var k := |dec.delayLine| - |r.o.dec.delayLine|;
    assert [] + Handed(dec.delayLine[..k], dec.pictures) == Handed(dec.delayLine[..k], dec.pictures);
  }

  lemma EosSingle(dec: Vdec, work: Work, input: Input)
    requires Routable(dec, work) && !NoDecode(dec, work, input) && work.input.eos && dec.delayLine == []
    requires ProcessStep(dec, work, input).work.result == OK
    ensures var o := ProcessStep(dec, work, input);
      && o.dec.eosDone && o.dec.delayLine == []
      && o.work.processed == 1 && o.work.buffers == [] && o.work.output == NO_FLAGS.(eos := true)
      && (o.calls == [] || o.calls == [LastCall(work, dec.pictures)])
  {
    var start := Outcome(dec, [], Entry(work));
    var r := DecodeLoop(start, false, input.turns, 0);
    SingleLoop(start, input.turns);
    EosLoopAborts(start, false, input.turns, 0);
    assert !r.aborted;
  }

  /** A loop that is left early leaves an error in the work. */
  lemma {:induction false} EosLoopAborts(o: Outcome, flushPending: bool, turns: nat -> Turn, i: nat)
    requires flushPending ==> o.dec.delayLine != []
    ensures var r := DecodeLoop(o, flushPending, turns, i);
      r.aborted ==> r.o.work.result != OK
    decreases |o.dec.delayLine|, if o.dec.pic then 0 else 1
  {
    var (o', next) := RoundStep(o, flushPending, turns(i));
    if next.Again? {
      EosLoopAborts(o', flushPending, turns, i + 1);
    }
  }

  /** A work that leaves process() finished, without error and with END_OF_STREAM has shut the decoder. */
  lemma FinishedEosShuts(dec: Vdec, work: Work, input: Input)
    requires Routable(dec, work) && !work.input.codecConfig
    requires var w := ProcessStep(dec, work, input).work; w.result == OK && w.output.eos && w.processed != 0
    ensures ProcessStep(dec, work, input).dec.eosDone && ProcessStep(dec, work, input).work.buffers == []
  {
    ProcessRoute(dec, work, input);
    if !NoDecode(dec, work, input) {
      var start := Outcome(dec, [], Entry(work));
      var flushes := work.input.eos && dec.delayLine != [];
      EosLoopAborts(start, flushes, input.turns, 0);
      if flushes {
        FlushLoop(start, input.turns, 0);
      } else {
        SingleLoop(start, input.turns);
      }
    }
  }

  /** After the end of stream, or after an error, process() touches nothing and hands out nothing. */
  lemma ShutDecoderIsQuiet(dec: Vdec, work: Work, input: Input)
    requires dec.eosDone || dec.error
    ensures ProcessStep(dec, work, input).dec == dec && ProcessStep(dec, work, input).calls == []
    ensures ProcessStep(dec, work, input).work.buffers == work.buffers
    ensures ProcessStep(dec, work, input).work.processed == 0
  {
  }
}
