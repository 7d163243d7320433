/**
 * Which work gets the j-th picture: the account of a stream of works from a fresh start or a flush on.
 */
module PictureAssignment {
  import opened Codec2
  import opened SoftVdec
  import opened PictureOrder

  /** One work as process() meets it. */
  datatype Job = Job(work: Work, input: Input)

  /** A picture and the work it goes to. */
  datatype Gift = Gift(index: FrameIndex, picture: nat)

  /** A job without errors, with a frame index the decoder's 32-bit copy can hold. */
  ghost predicate Clean(job: Job) {
    && job.work.buffers == [] && job.work.frameIndex < 0x1_0000_0000
    && !job.input.readError && job.input.csdOk
    && forall i :: TurnFine(job.input.turns(i))
  }

  /** The job has something to decode. */
  predicate HasData(job: Job) {
    !job.work.input.codecConfig && job.input.size > 0
  }

  /** The job gives a picture: one `left` over from before, or one it decodes. */
  predicate GivesPicture(left: bool, job: Job) {
    HasData(job) && (left || !job.input.turns(0).decode.Failed?)
  }

  function DecAfter(dec: Vdec, jobs: seq<Job>): Vdec {
    if jobs == [] then dec else
      var n := |jobs| - 1;
      ProcessStep(DecAfter(dec, jobs[..n]), jobs[n].work, jobs[n].input).dec
  }

  /** The pictures one call hands on, with their numbers. */
  function Gifts(o: Outcome): seq<Gift> {
    seq(|o.calls|, i requires 0 <= i < |o.calls| => Gift(o.calls[i].index, o.calls[i].picture)) + OwnGift(o.work)
  }

  function OwnGift(w: Work): seq<Gift> {
    if w.buffers == [] then [] else [Gift(w.frameIndex, if w.buffers[0].Picture? then w.buffers[0].number else 0)]
  }

  function Receivers(gifts: seq<Gift>): seq<FrameIndex> {
    seq(|gifts|, i requires 0 <= i < |gifts| => gifts[i].index)
  }

  /** The pictures handed on, oldest first, and who got them. */
  function Assigned(dec: Vdec, jobs: seq<Job>): seq<Gift> {
    if jobs == [] then [] else
      var n := |jobs| - 1;
      Assigned(dec, jobs[..n]) + Gifts(ProcessStep(DecAfter(dec, jobs[..n]), jobs[n].work, jobs[n].input))
  }

  /** The works whose process() call returned a picture; only the first of them can be given one left over. */
  function Givers(left: bool, jobs: seq<Job>): seq<FrameIndex> {
    if jobs == [] then [] else
      var n := |jobs| - 1;
      var before := Givers(left, jobs[..n]);
      before + if GivesPicture(left && before == [], jobs[n]) then [jobs[n].work.frameIndex] else []
  }

  /** How many jobs come before the first picture. */
  function FirstGiver(left: bool, jobs: seq<Job>): (n: nat)
    ensures n <= |jobs|
  {
    if jobs == [] || GivesPicture(left, jobs[0]) then 0 else 1 + FirstGiver(left, jobs[1..])
  }

  /** The works that are not codec config. */
  function DataWorks(jobs: seq<Job>): seq<FrameIndex> {
    if jobs == [] then [] else
      (if jobs[0].work.input.codecConfig then [] else [jobs[0].work.frameIndex]) + DataWorks(jobs[1..])
  }

  /** The works held before the first picture: the first seven data works. */
  function HeldWorks(left: bool, jobs: seq<Job>): seq<FrameIndex> {
    AtMostSeven(DataWorks(jobs[..FirstGiver(left, jobs)]))
  }

  lemma {:induction false} DataWorksConcat(a: seq<Job>, b: seq<Job>)
    ensures DataWorks(a + b) == DataWorks(a) + DataWorks(b)
  {
    if a == [] {
      assert a + b == b;
    } else {
      assert (a + b)[1..] == a[1..] + b;
      DataWorksConcat(a[1..], b);
    }
  }

  lemma {:induction false} FirstGiverAppend(left: bool, jobs: seq<Job>, job: Job)
    ensures var n := FirstGiver(left, jobs);
      FirstGiver(left, jobs + [job]) == if n < |jobs| then n else if GivesPicture(left, job) then n else n + 1
  {
    if jobs == [] {
      assert [job][1..] == [];
      assert jobs + [job] == [job];
    } else {
      assert (jobs + [job])[1..] == jobs[1..] + [job];
      FirstGiverAppend(left, jobs[1..], job);
    }
  }

  lemma {:induction false} NoGiverBefore(left: bool, jobs: seq<Job>)
    ensures FirstGiver(left, jobs) == |jobs| <==> Givers(left, jobs) == []
  {
    if jobs != [] {
      var n := |jobs| - 1;
      NoGiverBefore(left, jobs[..n]);
      FirstGiverAppend(left, jobs[..n], jobs[n]);
      assert jobs[..n] + [jobs[n]] == jobs;
    }
  }

  /** How one more job changes the held works. */
  lemma HeldAppend(left: bool, jobs: seq<Job>, job: Job)
    ensures HeldWorks(left, jobs + [job]) ==
      if Givers(left, jobs) == [] && !GivesPicture(left, job) && !job.work.input.codecConfig
         && |HeldWorks(left, jobs)| < MAX_WORK_PENDING_COUNT
      then HeldWorks(left, jobs) + [job.work.frameIndex] else HeldWorks(left, jobs)
  {
    FirstGiverAppend(left, jobs, job);
    NoGiverBefore(left, jobs);
    var n := FirstGiver(left, jobs);
    if Givers(left, jobs) == [] && !GivesPicture(left, job) {
      assert jobs[..n] == jobs && (jobs + [job])[..n + 1] == jobs + [job];
      DataWorksConcat(jobs, [job]);
      assert DataWorks([job]) == (if job.work.input.codecConfig then [] else [job.work.frameIndex]) by {
        assert [job][1..] == [];
      }
      FirstSeven(DataWorks(jobs), job.work.frameIndex);
      assert DataWorks(jobs) + [] == DataWorks(jobs);
    } else {
      assert (jobs + [job])[..n] == jobs[..n];
    }
  }

  function AtMostSeven(xs: seq<FrameIndex>): seq<FrameIndex> {
    if |xs| <= MAX_WORK_PENDING_COUNT then xs else xs[..MAX_WORK_PENDING_COUNT]
  }

  lemma FirstSeven(xs: seq<FrameIndex>, x: FrameIndex)
    ensures AtMostSeven(xs + [x]) ==
      if |AtMostSeven(xs)| < MAX_WORK_PENDING_COUNT then AtMostSeven(xs) + [x] else AtMostSeven(xs)
  {
  }

  /** A clean decode loop finds a picture exactly when one is left over or the decoder answers the first round with one. */
  lemma CleanDecode(dec: Vdec, job: Job)
    requires Clean(job) && HasData(job) && SingleReady(Outcome(dec, [], Entry(job.work)))
    ensures var r := DecodeLoop(Outcome(dec, [], Entry(job.work)), false, job.input.turns, 0);
      && !r.aborted && !r.o.dec.pic && r.o.dec.error == dec.error
      && r.o.dec.pictures == dec.pictures + (if GivesPicture(dec.pic, job) then 1 else 0)
      && r.o.work.result == OK
  {
    assert TurnFine(job.input.turns(0)) && TurnFine(job.input.turns(1));
    var o := Outcome(dec, [], Entry(job.work));
    var (o1, next1) := RoundStep(o, false, job.input.turns(0));
    SingleRound(o, job.input.turns(0));
    FineRound(o, job.input.turns(0));
    if next1.Again? {
      var (o2, next2) := RoundStep(o1, false, job.input.turns(1));
      FineRound(o1, job.input.turns(1));
      assert DecodeLoop(o1, false, job.input.turns, 1) == LoopResult(o2, next2.Abort?);
    }
  }

  lemma FineRound(o: Outcome, t: Turn)
    requires TurnFine(t) && SingleReady(o) && o.work.result == OK
    ensures var (o', next) := RoundStep(o, false, t);
      && !next.Abort? && o'.dec.error == o.dec.error && o'.work.result == OK
      && (next.Again? <==> !o.dec.pic && t.decode.NewSize?)
      && (next.Break? ==> !o'.dec.pic)
      && (next.Break? ==> o'.dec.pictures == o.dec.pictures + (if o.dec.pic || t.decode.Picture? then 1 else 0))
  {
  }

  /** One clean job that is not the last of its stream. */
  lemma CleanStep(dec: Vdec, job: Job)
    requires Clean(job) && !job.work.input.eos && Healthy(dec) && Routable(dec, job.work)
    ensures CleanMove(dec, job, ProcessStep(dec, job.work, job.input))
  {
    if HasData(job) {
      var start := Outcome(dec, [], Entry(job.work));
      CleanDecode(dec, job);
      SingleLoop(start, job.input.turns);
      LoopAndConclusion(dec, job.work, job.input);
      CleanLoopMove(dec, job, DecodeLoop(start, false, job.input.turns, 0));
    }
  }

  lemma CleanLoopMove(dec: Vdec, job: Job, r: LoopResult)
    requires Clean(job) && HasData(job) && !job.work.input.eos && Healthy(dec) && Routable(dec, job.work)
    requires SinglePicture(Outcome(dec, [], Entry(job.work)), r) && !r.aborted && !r.o.dec.pic && !r.o.dec.error
    requires r.o.dec.pictures == dec.pictures + (if GivesPicture(dec.pic, job) then 1 else 0)
    ensures CleanMove(dec, job, ConcludeStep(r.o, r.o.dec.pictures > dec.pictures))
  {
    var line, fi := dec.delayLine, job.work.frameIndex;
    if GivesPicture(dec.pic, job) && line != [] {
      assert Receivers([Gift(line[0], dec.pictures)]) == [line[0]];
      assert [line[0]] + (line[1..] + [fi]) == line + [fi];
    }
  }

  /** What one clean job may do, as CleanStep describes it. */
  ghost predicate CleanMove(dec: Vdec, job: Job, o: Outcome) {
    Healthy(o.dec) && Distinct(o.dec.delayLine) &&
    if GivesPicture(dec.pic, job) then
      && o.dec.first && !o.dec.pic && o.dec.pictures == dec.pictures + 1
      && |Gifts(o)| == 1 && Gifts(o)[0].picture == dec.pictures
      && Receivers(Gifts(o)) + o.dec.delayLine == dec.delayLine + [job.work.frameIndex]
    else
      && o.dec.first == dec.first && o.dec.pictures == dec.pictures && o.dec.pic == dec.pic
      && Gifts(o) == []
      && o.dec.delayLine == dec.delayLine
         + if !job.work.input.codecConfig && !dec.first && |dec.delayLine| < MAX_WORK_PENDING_COUNT
           then [job.work.frameIndex] else []
  }

  /** As after a flush, or at the start; a picture may be left over. */
  predicate Fresh(dec: Vdec) {
    Healthy(dec) && dec.delayLine == [] && !dec.first
  }

  lemma FlushedIsFresh(dec: Vdec, reloadOk: bool)
    ensures Fresh(FlushStep(dec, reloadOk)) <==> reloadOk || !dec.error
    ensures FlushStep(dec, reloadOk).pic == dec.pic && Fresh(FRESH) && !FRESH.pic
  {
  }

  ghost predicate Stream(jobs: seq<Job>) {
    && (forall i :: 0 <= i < |jobs| ==> Clean(jobs[i]) && !jobs[i].work.input.eos)
    && (forall i, j :: 0 <= i < j < |jobs| ==> jobs[i].work.frameIndex != jobs[j].work.frameIndex)
  }

  lemma {:induction false} CandidatesComeFromJobs(left: bool, jobs: seq<Job>, x: FrameIndex)
    requires x in HeldWorks(left, jobs) || x in Givers(left, jobs)
    ensures exists i :: 0 <= i < |jobs| && jobs[i].work.frameIndex == x
  {
    if jobs != [] {
      var n := |jobs| - 1;
      assert jobs[..n] + [jobs[n]] == jobs;
      HeldAppend(left, jobs[..n], jobs[n]);
      if x != jobs[n].work.frameIndex {
        CandidatesComeFromJobs(left, jobs[..n], x);
      }
    }
  }

  /** The account of a stream: `given` works have pictures, the others of `held + givers` wait in line. */
  ghost predicate Tally(dec: Vdec, after: Vdec, given: seq<Gift>, held: seq<FrameIndex>, givers: seq<FrameIndex>) {
    && Healthy(after) && Distinct(after.delayLine)
    && after.first == (givers != [])
    && after.pic == (dec.pic && givers == [])
    && Receivers(given) + after.delayLine == held + givers
    && |given| == |givers|
    && (forall j :: 0 <= j < |given| ==> given[j].picture == dec.pictures + j)
    && after.pictures == dec.pictures + |givers|
    && |after.delayLine| == |held| <= MAX_WORK_PENDING_COUNT
  }

  ghost predicate AssignedInOrder(dec: Vdec, jobs: seq<Job>) {
    Tally(dec, DecAfter(dec, jobs), Assigned(dec, jobs), HeldWorks(dec.pic, jobs), Givers(dec.pic, jobs))
  }

  /**
   * Picture assignment.  From a fresh start or a flush, for any stream without errors, the works that got
   * pictures followed by the works still waiting are: the at most seven works held before the first picture,
   * then every work whose process() call returned one.  So picture number j after `dec` goes to the j-th of
   * these, and from the first picture on the delay line keeps its length.  A picture left over from before the
   * flush counts as the first one.
   */
  lemma {:induction false} PicturesAssigned(dec: Vdec, jobs: seq<Job>)
    requires Fresh(dec) && Stream(jobs)
    ensures AssignedInOrder(dec, jobs)
  {
    if jobs == [] {
      assert DataWorks([]) == [];
    } else {
      var n := |jobs| - 1;
      var prefix, job := jobs[..n], jobs[n];
      assert prefix + [job] == jobs;
      PicturesAssigned(dec, prefix);
      NotYetWaiting(dec, jobs);
      AssignmentStep(dec, prefix, job);
    }
  }

  lemma NotYetWaiting(dec: Vdec, jobs: seq<Job>)
    requires jobs != [] && Stream(jobs) && AssignedInOrder(dec, jobs[..|jobs| - 1])
    ensures jobs[|jobs| - 1].work.frameIndex !in DecAfter(dec, jobs[..|jobs| - 1]).delayLine
  {
    var n := |jobs| - 1;
    var prefix, x := jobs[..n], jobs[n].work.frameIndex;
    if x in DecAfter(dec, prefix).delayLine {
      assert x in Receivers(Assigned(dec, prefix)) + DecAfter(dec, prefix).delayLine;
      CandidatesComeFromJobs(dec.pic, prefix, x);
    }
  }

  /** What the definitions say about one more job. */
  lemma OneMoreJob(dec: Vdec, prefix: seq<Job>, job: Job)
    ensures var jobs, o := prefix + [job], ProcessStep(DecAfter(dec, prefix), job.work, job.input);
      && DecAfter(dec, jobs) == o.dec
      && Assigned(dec, jobs) == Assigned(dec, prefix) + Gifts(o)
      && Givers(dec.pic, jobs) == Givers(dec.pic, prefix)
         + (if GivesPicture(dec.pic && Givers(dec.pic, prefix) == [], job) then [job.work.frameIndex] else [])
  {
    var jobs := prefix + [job];
    assert jobs[..|prefix|] == prefix && jobs[|prefix|] == job;
  }

  lemma AssignmentStep(dec: Vdec, prefix: seq<Job>, job: Job)
    requires AssignedInOrder(dec, prefix) && Clean(job) && !job.work.input.eos
    requires job.work.frameIndex !in DecAfter(dec, prefix).delayLine
    ensures AssignedInOrder(dec, prefix + [job])
  {
    var mid := DecAfter(dec, prefix);
    var o := ProcessStep(mid, job.work, job.input);
    OneMoreJob(dec, prefix, job);
    HeldAppend(dec.pic, prefix, job);
    CleanStep(mid, job);
    TallyStep(dec, mid, Assigned(dec, prefix), HeldWorks(dec.pic, prefix), Givers(dec.pic, prefix), job, o);
  }

  lemma TallyStep(dec: Vdec, mid: Vdec, a: seq<Gift>, held: seq<FrameIndex>, givers: seq<FrameIndex>, job: Job, o: Outcome)
    requires Tally(dec, mid, a, held, givers) && CleanMove(mid, job, o)
    ensures var fi := [job.work.frameIndex];
      var gives := GivesPicture(dec.pic && givers == [], job);
      var grows := givers == [] && !gives && !job.work.input.codecConfig && |held| < MAX_WORK_PENDING_COUNT;
      Tally(dec, o.dec, a + Gifts(o), if grows then held + fi else held, givers + (if gives then fi else []))
  {
    var fi := [job.work.frameIndex];
    ReceiversConcat(a, Gifts(o));
    if GivesPicture(mid.pic, job) {
      PictureMoves(Receivers(a), Receivers(Gifts(o)), mid.delayLine, o.dec.delayLine, fi, held, givers);
    } else {
      assert a + [] == a && givers + [] == givers;
      LineGrows(Receivers(a), mid.delayLine, held, givers, fi);
    }
  }

  lemma ReceiversConcat(a: seq<Gift>, b: seq<Gift>)
    ensures Receivers(a + b) == Receivers(a) + Receivers(b)
  {
  }

  lemma PictureMoves(a: seq<FrameIndex>, t: seq<FrameIndex>, line: seq<FrameIndex>, line': seq<FrameIndex>,
                     fi: seq<FrameIndex>, held: seq<FrameIndex>, givers: seq<FrameIndex>)
    requires a + line == held + givers && t + line' == line + fi
    ensures (a + t) + line' == held + (givers + fi)
  {
    assert (a + t) + line' == a + (t + line');
    assert a + (line + fi) == (a + line) + fi;
    assert (held + givers) + fi == held + (givers + fi);
  }

  lemma LineGrows(a: seq<FrameIndex>, line: seq<FrameIndex>, held: seq<FrameIndex>, givers: seq<FrameIndex>, fi: seq<FrameIndex>)
    requires a + line == held + givers
    ensures givers == [] ==> a + (line + fi) == (held + fi) + givers
  {
    assert a + (line + fi) == (a + line) + fi;
    assert givers == [] ==> held + givers == held && (held + fi) + givers == held + fi;
  }

  /**
   * A flush leaves mPic alone.  So the first work after it that has data, and for which the decoder finds no
   * picture, returns one all the same exactly if mPic was set: one decoded before the flush, whatever the
   * decoder would have answered.
   */
  lemma LeftoverSurvivesTheFlush(dec: Vdec, reloadOk: bool, job: Job, turns: nat -> Turn)
    requires Fresh(FlushStep(dec, reloadOk)) && Clean(job) && HasData(job) && !job.work.input.eos
    requires job.input.turns(0).decode.Failed? && forall i :: TurnFine(turns(i))
    ensures var flushed := FlushStep(dec, reloadOk);
      var o := ProcessStep(flushed, job.work, job.input);
      && (Gifts(o) != [] <==> dec.pic)
      && (dec.pic ==>
            Gifts(o) == [Gift(job.work.frameIndex, dec.pictures)]
            && o == ProcessStep(flushed, job.work, job.input.(turns := turns)))
  {
    var flushed := FlushStep(dec, reloadOk);
    CleanStep(flushed, job);
    if dec.pic {
      assert TurnFine(job.input.turns(0)) && TurnFine(turns(0));
      LeftoverRound(Outcome(flushed, [], Entry(job.work)), job.input.turns(0), turns(0));
    }
  }

  /** A turn that changes the size with a picture at hand, and after it turns without an output block. */
  const SIZE_THEN_NO_BLOCK: nat -> Turn := i => Turn(i == 0, true, true, true, NewSize(true))

  /**
   * Such a decoder is reachable: a first work that changes the size and then gets no output block is given up
   * with mPic set, and the flush that follows leaves a decoder that is fresh but for mPic.  So the work after
   * it returns the picture of the work that was given up.
   */
  lemma ALeftoverPicture(work: Work, next: Job)
    requires work.input == NO_FLAGS
    requires Clean(next) && HasData(next) && !next.work.input.eos && next.input.turns(0).decode.Failed?
    ensures var given := ProcessStep(FRESH, work, Input(1, false, true, SIZE_THEN_NO_BLOCK));
      var flushed := FlushStep(given.dec, true);
      && given.work.result == Corrupted && given.calls == [] && given.dec.pic
      && Fresh(flushed) && flushed.pic
      && Gifts(ProcessStep(flushed, next.work, next.input)) == [Gift(next.work.frameIndex, 0)]
  {
    var o := Outcome(FRESH, [], Entry(work));
    var again := RoundStep(o, false, SIZE_THEN_NO_BLOCK(0)).0;
    assert DecodeLoop(again, false, SIZE_THEN_NO_BLOCK, 1).aborted;
    var given := ProcessStep(FRESH, work, Input(1, false, true, SIZE_THEN_NO_BLOCK));
    FlushedIsFresh(given.dec, true);
    LeftoverSurvivesTheFlush(given.dec, true, next, next.input.turns);
  }

  /** With mPic set a round asks the decoder nothing. */
  lemma LeftoverRound(o: Outcome, t: Turn, t': Turn)
    requires o.dec.pic && TurnFine(t) && TurnFine(t')
    ensures RoundStep(o, false, t) == RoundStep(o, false, t') && RoundStep(o, false, t).1.Break?
  {
  }
}
