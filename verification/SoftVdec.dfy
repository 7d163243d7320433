/**
 * `C2SoftVdec`: one call of process() as a step of the decoder's private state.  What the foreign
 * decoder and the allocators answer is an oracle, `turns`, asked once per round of the decode loop.
 * What process() does to the component is the list of finish() and cloneAndSend() calls it makes.
 */
module SoftVdec {
  import opened Codec2

  const MAX_WORK_PENDING_COUNT := 7

  datatype Decode = Picture | NewSize(configOk: bool) | Failed

  /** The answers one round of the loop may get. */
  datatype Turn = Turn(blockOk: bool, viewOk: bool, initOk: bool, allocOk: bool, decode: Decode)

  /** The input buffer of a work, and the answers its processing will meet. */
  datatype Input = Input(size: nat, readError: bool, csdOk: bool, turns: nat -> Turn)

  datatype Vdec = Vdec(
    delayLine: seq<FrameIndex>,     // mPendingWorkFrameIndexes
    first: bool,                    // mFirstPictureReviced
    eosDone: bool,                  // mSignalledOutputEos
    error: bool,                    // mSignalledError
    pic: bool,                      // mPic != NULL
    decInit: bool,                  // mDecInit
    pictures: nat)                  // pictures converted so far

  /** A call process() makes: finish(index) or cloneAndSend(index), with the picture it hands on. */
  datatype Call = FinishCall(index: FrameIndex, picture: nat) | CloneCall(index: FrameIndex, picture: nat)

  datatype Outcome = Outcome(dec: Vdec, calls: seq<Call>, work: Work)

  function FillEmptyWork(w: Work): Work {
    w.(output := NO_FLAGS.(eos := w.input.eos), buffers := [], processed := 1)
  }

  function FillPicture(w: Work, picture: nat): Work {
    w.(output := NO_FLAGS, buffers := [Buffer.Picture(picture)], processed := 1)
  }

  function FillClone(w: Work, picture: nat): Work {
    w.(output := NO_FLAGS.(incomplete := true), buffers := [Buffer.Picture(picture)], processed := 1, result := OK)
  }

  /** `finishWork`: the current work takes the picture itself (an EOS work through a clone), or finish() does. */
  function FinishWorkStep(o: Outcome, index: FrameIndex, picture: nat): Outcome {
    if index != o.work.frameIndex then o.(calls := o.calls + [FinishCall(index, picture)])
    else if o.work.input.eos then o.(calls := o.calls + [CloneCall(index, picture)])
    else o.(work := FillPicture(o.work, picture))
  }

  function WorkIndex(frameIndex: FrameIndex): FrameIndex {
    frameIndex % 0x1_0000_0000
  }

  /** A picture is there: the oldest waiting work gets it, and the current one joins the line behind. */
  function TakePictureStep(o: Outcome, flushPending: bool): Outcome {
    var n := o.dec.pictures;
    var dec := o.dec.(first := true, pic := false, pictures := n + 1);
    if dec.delayLine != [] then
      var line := if flushPending then dec.delayLine else dec.delayLine + [o.work.frameIndex];
      FinishWorkStep(o.(dec := dec.(delayLine := line[1..])), line[0], n)
    else
      FinishWorkStep(o.(dec := dec), WorkIndex(o.work.frameIndex), n)
  }

  datatype Next = Again | Break | Abort

  /** One round of the decode loop. */
  function RoundStep(o: Outcome, flushPending: bool, t: Turn): (Outcome, Next) {
    if !t.blockOk then
      (o.(dec := o.dec.(error := true), work := o.work.(processed := 1, result := Corrupted)), Abort)
    else if !t.viewOk then
      (o.(work := o.work.(result := Corrupted)), Abort)
    else if o.dec.pic then
      Taken(o, flushPending)
    else if !o.dec.decInit && !t.initOk then
      (o.(dec := o.dec.(error := true), work := o.work.(processed := 1, result := Corrupted)), Abort)
    else if !t.allocOk then
      (o.(dec := o.dec.(decInit := true, error := true), work := o.work.(processed := 1, result := NoMemory)), Abort)
    else
      var ready := o.(dec := o.dec.(decInit := true));
      match t.decode
      case Failed => (ready, Break)
      case Picture => Taken(ready, flushPending)
      case NewSize(configOk) =>
        if configOk then
          (ready.(dec := ready.dec.(pic := true), work := o.work.(processed := 0)), Again)
        else
          (ready.(dec := ready.dec.(error := true), work := o.work.(processed := 1, result := Corrupted)), Abort)
  }

  function Taken(o: Outcome, flushPending: bool): (Outcome, Next) {
    var taken := TakePictureStep(o, flushPending);
    (taken, if flushPending && taken.dec.delayLine != [] then Again else Break)
  }

  datatype LoopResult = LoopResult(o: Outcome, aborted: bool)

  function DecodeLoop(o: Outcome, flushPending: bool, turns: nat -> Turn, i: nat): LoopResult
    requires flushPending ==> o.dec.delayLine != []
    decreases |o.dec.delayLine|, if o.dec.pic then 0 else 1
  {
    var (o', next) := RoundStep(o, flushPending, turns(i));
    if next.Again? then DecodeLoop(o', flushPending, turns, i + 1) else LoopResult(o', next.Abort?)
  }

  /** After the loop. */
  function ConcludeStep(o: Outcome, hasPicture: bool): Outcome {
    if o.work.input.eos then
      o.(dec := o.dec.(eosDone := true),
         work := if o.work.processed == 0 then FillEmptyWork(o.work) else o.work)
    else if hasPicture then
      o
    else if !o.dec.first && |o.dec.delayLine| < MAX_WORK_PENDING_COUNT then
      o.(dec := o.dec.(delayLine := o.dec.delayLine + [o.work.frameIndex]))
    else
      o.(work := FillEmptyWork(o.work))
  }

  function Entry(w: Work): Work {
    w.(result := OK, processed := 0, output := w.input)
  }

  function ProcessStep(dec: Vdec, work: Work, input: Input): Outcome {
    var w := Entry(work);
    var flushPending := work.input.eos && dec.delayLine != [];
    if dec.error || dec.eosDone then
      Outcome(dec, [], w.(result := BadValue))
    else if input.size > 0 && input.readError then
      Outcome(dec, [], w.(result := Corrupted))
    else if work.input.codecConfig then
      Outcome(dec, [], if input.size > 0 && !input.csdOk then w.(result := NoMemory) else FillEmptyWork(w))
    else if input.size > 0 || flushPending then
      var r := DecodeLoop(Outcome(dec, [], w), flushPending, input.turns, 0);
      if r.aborted then r.o else ConcludeStep(r.o, r.o.dec.pictures > dec.pictures)
    else
      ConcludeStep(Outcome(dec, [], w), false)
  }

  /** `onFlush_sm`: the error flag survives if the decoder library cannot be loaded again, and mPic always. */
  function FlushStep(dec: Vdec, reloadOk: bool): Vdec {
    dec.(delayLine := [], first := false, eosDone := false, error := dec.error && !reloadOk, decInit := false)
  }

  const FRESH := Vdec([], false, false, false, false, false, 0)

  class C2SoftVdec {
    var mPendingWorkFrameIndexes: seq<FrameIndex>
    var mFirstPictureReviced: bool
    var mSignalledOutputEos: bool
    var mSignalledError: bool
    var mPic: bool
    var mDecInit: bool
    var pictures: nat
    var calls: seq<Call>             // the calls on the component, by the process() running

    ghost function State(): Vdec
      reads this
    {
      Vdec(mPendingWorkFrameIndexes, mFirstPictureReviced, mSignalledOutputEos, mSignalledError,
           mPic, mDecInit, pictures)
    }

    constructor ()
      ensures State() == FRESH && calls == []
    {
      mPendingWorkFrameIndexes, mFirstPictureReviced, mSignalledOutputEos := [], false, false;
      mSignalledError, mPic, mDecInit, pictures, calls := false, false, false, 0, [];
    }

    method OnFlush(reloadOk: bool)
      modifies this
      ensures State() == FlushStep(old(State()), reloadOk) && calls == old(calls)
    {
      mDecInit := false;
      if reloadOk {
        mSignalledError := false;
      }
      mSignalledOutputEos := false;
      mFirstPictureReviced := false;
      mPendingWorkFrameIndexes := [];
    }

    method FinishWork(index: FrameIndex, work: Work, picture: nat) returns (work': Work)
      modifies this`calls
      ensures State() == old(State())
      ensures Outcome(State(), calls, work') == FinishWorkStep(Outcome(State(), old(calls), work), index, picture)
    {
      work' := work;
      if index == work.frameIndex {
        if work.input.eos {
          calls := calls + [CloneCall(index, picture)];
        } else {
          work' := FillPicture(work', picture);
        }
      } else {
        calls := calls + [FinishCall(index, picture)];
      }
    }

    /** The body of the decode loop: `Again` is its `continue` or end of round, `Abort` its `return`. */
    method DecodeRound(work: Work, flushPendingWork: bool, t: Turn) returns (work': Work, next: Next)
      modifies this
      ensures (Outcome(State(), calls, work'), next) == RoundStep(Outcome(old(State()), old(calls), work), flushPendingWork, t)
    {
      work' := work;
      if !t.blockOk {
        mSignalledError := true;
        work' := work'.(processed := 1, result := Corrupted);
        return work', Abort;
      }
      if !t.viewOk {
        work' := work'.(result := Corrupted);
        return work', Abort;
      }
      if !mPic {
        if !mDecInit {
          if !t.initOk {
            mSignalledError := true;
            work' := work'.(processed := 1, result := Corrupted);
            return work', Abort;
          }
          mDecInit := true;
        }
        if !t.allocOk {
          mSignalledError := true;
          work' := work'.(processed := 1, result := NoMemory);
          return work', Abort;
        }
        match t.decode {
          case NewSize(configOk) =>
            work' := work'.(processed := 0);
            if configOk {
              mPic := true;
              return work', Again;
            }
            mSignalledError := true;
            work' := work'.(processed := 1, result := Corrupted);
            return work', Abort;
          case Failed =>
            return work', Break;
          case Picture =>
        }
      }
      work' := TakePicture(work', flushPendingWork);
      next := if !flushPendingWork || mPendingWorkFrameIndexes == [] then Break else Again;
    }

    method TakePicture(work: Work, flushPendingWork: bool) returns (work': Work)
      modifies this
      ensures Outcome(State(), calls, work') == TakePictureStep(Outcome(old(State()), old(calls), work), flushPendingWork)
    {
      var number := pictures;
      mFirstPictureReviced := true;
      mPic := false;
      pictures := pictures + 1;
      if mPendingWorkFrameIndexes != [] {
        if !flushPendingWork {
          mPendingWorkFrameIndexes := mPendingWorkFrameIndexes + [work.frameIndex];
        }
        var front := mPendingWorkFrameIndexes[0];
        mPendingWorkFrameIndexes := mPendingWorkFrameIndexes[1..];
        work' := FinishWork(front, work, number);
      } else {
        var workIndex := work.frameIndex % 0x1_0000_0000;
        work' := FinishWork(workIndex, work, number);
      }
    }

    /** What Process() does after its loop. */
    method Conclude(work: Work, hasPicture: bool) returns (work': Work)
      modifies this
      ensures Outcome(State(), calls, work') == ConcludeStep(Outcome(old(State()), old(calls), work), hasPicture)
    {
      work' := work;
      if work.input.eos {
        if work'.processed == 0 {
          work' := FillEmptyWork(work');
        }
        mSignalledOutputEos := true;
      } else if !hasPicture {
        if !mFirstPictureReviced && |mPendingWorkFrameIndexes| < MAX_WORK_PENDING_COUNT {
          mPendingWorkFrameIndexes := mPendingWorkFrameIndexes + [work.frameIndex];
        } else {
          work' := FillEmptyWork(work');
        }
      }
    }

    method Process(work: Work, input: Input) returns (work': Work)
      modifies this
      ensures Outcome(State(), calls, work') == ProcessStep(old(State()), work, input)
    {
      calls := [];
      work' := work.(result := OK, processed := 0, output := work.input);
      var frameHasData := input.size > 0;
      var flushPendingWork := work.input.eos && mPendingWorkFrameIndexes != [];
      if mSignalledError || mSignalledOutputEos {
        work' := work'.(result := BadValue);
        return;
      }
      if frameHasData && input.readError {
        work' := work'.(result := Corrupted);
        return;
      }
      if work.input.codecConfig {
        if frameHasData && !input.csdOk {
          work' := work'.(result := NoMemory);
          return;
        }
        work' := FillEmptyWork(work');
        return;
      }
      var before := pictures;
      if frameHasData || flushPendingWork {
        var aborted;
        work', aborted := DecodeAll(work', flushPendingWork, input.turns);
        if aborted {
          return;
        }
      }
      work' := Conclude(work', pictures > before);
    }

    /** The decode loop. */
    method DecodeAll(work: Work, flushPendingWork: bool, turns: nat -> Turn) returns (work': Work, aborted: bool)
      requires flushPendingWork ==> mPendingWorkFrameIndexes != []
      modifies this
      ensures LoopResult(Outcome(State(), calls, work'), aborted)
           == DecodeLoop(Outcome(old(State()), old(calls), work), flushPendingWork, turns, 0)
    {
      work' := work;
      var i, next := 0, Again;
      ghost var whole := DecodeLoop(Outcome(State(), calls, work'), flushPendingWork, turns, 0);
      while next.Again?
        invariant flushPendingWork && next.Again? ==> mPendingWorkFrameIndexes != []
        invariant whole == if next.Again? then DecodeLoop(Outcome(State(), calls, work'), flushPendingWork, turns, i)
                           else LoopResult(Outcome(State(), calls, work'), next.Abort?)
        decreases next.Again?, |mPendingWorkFrameIndexes|, if mPic then 0 else 1
      {
        work', next := DecodeRound(work', flushPendingWork, turns(i));
        i := i + 1;
      }
      aborted := next.Abort?;
    }
  }
}
