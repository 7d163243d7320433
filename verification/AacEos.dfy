/**
 * End of stream in the AAC decoder: an EOS work completes every work in the list, once, in queue order; a
 * stand-alone drain with end of stream does the same but for the one it drops.
 */
module AacEos {
  import opened Codec2
  import opened WorkQueue
  import opened Protocol
  import opened Generation
  import opened AacDecoder
  import opened AacBooks
  import opened AacRuns

  /** The frame indexes of what the listener was given. */
  function LogIndexes(log: seq<Delivery>): seq<FrameIndex> {
    seq(|log|, i requires 0 <= i < |log| => log[i].work.frameIndex)
  }

  function OwnIndex(done: Option<Work>): seq<FrameIndex> {
    if done.Some? then [done.value.frameIndex] else []
  }

  /** The EOS work or the drain has decided; `all` is what the listener will have been given when it is done. */
  ghost predicate Finishing(j: Joint, all: seq<FrameIndex>) {
    && j.began && InFlight(j.sys.handler) && Agreed(j.sys)
    && (j.done.Some? ==> j.done.value.processed != 0) && j.dec.infos == []
    && LogIndexes(j.sys.log) + CallIndexes(j.todo) + OwnIndex(j.done) == all
  }

  ghost predicate Returning(j: Joint, all: seq<FrameIndex>) {
    && j.sys.handler.Reporting? && j.dec.infos == [] && j.sys.q.pending.Keys == j.lost
    && LogIndexes(j.sys.log) + LogIndexes(j.sys.handler.report) == all
  }

  ghost predicate Completed(j: Joint, all: seq<FrameIndex>) {
    && j.sys.handler.Leaving? && j.dec.infos == [] && j.sys.q.pending.Keys == j.lost
    && LogIndexes(j.sys.log) == all
  }

  predicate Flushes(m: Move) {
    m.ByClient? && m.e.FlushSection?
  }

  lemma ClientKeeps(j: Joint, e: Event, all: seq<FrameIndex>)
    requires Allowed(j, ByClient(e)) && !e.FlushSection? && JointInv(j)
    ensures var j' := After(j, ByClient(e));
      && (Finishing(j, all) ==> Finishing(j', all)) && (Returning(j, all) ==> Returning(j', all))
  {
    ClientFrame(j.sys, e);
    ClientKeepsPending(j.sys, e);
  }

  lemma ClientKeepsPending(s: Sys, e: Event)
    requires Enabled(s, e) && !HandlerEvent(e) && !e.FlushSection? && !e.ClearSection?
    ensures var s' := Apply(s, e);
      s'.q.pending == s.q.pending && s'.q.generation == s.q.generation && s'.q.flush == s.q.flush
  {
    ClientFrame(s, e);
  }

  lemma TakeProgress(j: Joint, all: seq<FrameIndex>)
    requires Allowed(j, TakeMove) && JointInv(j) && Finishing(j, all)
    ensures Finishing(After(j, TakeMove), all)
  {
    assert j.todo[0].index in CallIndexes(j.todo) by { assert CallIndexes(j.todo)[0] == j.todo[0].index; }
    assert j.todo[0].index in j.sys.q.pending;
  }

  lemma DeliverProgress(j: Joint, all: seq<FrameIndex>)
    requires Allowed(j, DeliverMove) && JointInv(j) && Finishing(j, all)
    ensures Finishing(After(j, DeliverMove), all)
  {
    var j', x := After(j, DeliverMove), j.todo[0].index;
    assert j'.sys.log == j.sys.log + [Delivery(Filled(j.sys.handler.held, j.todo[0].fill), false)];
    assert LogIndexes(j'.sys.log) == LogIndexes(j.sys.log) + [x];
    assert CallIndexes(j.todo) == [x] + CallIndexes(j'.todo);
    Regroup(LogIndexes(j.sys.log), x, CallIndexes(j'.todo), OwnIndex(j.done));
  }

  lemma Regroup(a: seq<FrameIndex>, x: FrameIndex, b: seq<FrameIndex>, c: seq<FrameIndex>)
    ensures a + ([x] + b) + c == (a + [x]) + b + c
  {
  }

  lemma CommitProgress(j: Joint, all: seq<FrameIndex>)
    requires Allowed(j, CommitMove) && JointInv(j) && Finishing(j, all)
    ensures Returning(After(j, CommitMove), all)
  {
    var s, w := j.sys, j.done.value;
    var j' := After(j, CommitMove);
    SectionFrame(s, CommitSection(w));
    assert j'.sys.q == CommitQueue(s.q, s.handler.f.generation, w) == s.q;
    assert j'.sys.handler.report == [Delivery(w, false)];
    OnlyLostPending(j);
    assert CallIndexes(j.todo) == [] && LogIndexes(s.log) + [] == LogIndexes(s.log);
    assert LogIndexes([Delivery(w, false)]) == [w.frameIndex];
  }

  lemma DrainDoneProgress(j: Joint, all: seq<FrameIndex>)
    requires Allowed(j, DrainDoneMove) && JointInv(j) && Finishing(j, all)
    ensures Completed(After(j, DrainDoneMove), all)
  {
    OnlyLostPending(j);
    assert CallIndexes(j.todo) == [] && LogIndexes(j.sys.log) + [] + [] == LogIndexes(j.sys.log);
  }

  lemma OnlyLostPending(j: Joint)
    requires JointInv(j) && j.todo == [] && j.dec.infos == [] && Agreed(j.sys)
    ensures j.sys.q.pending.Keys == j.lost
  {
    assert CallIndexes(Outstanding(j)) == [] && Indexes(j.dec.infos) == [];
    assert forall x: FrameIndex :: x in j.sys.q.pending <==> x in j.lost;
  }

  lemma ReportProgress(j: Joint, all: seq<FrameIndex>)
    requires Allowed(j, ByLooper(Report)) && JointInv(j) && Returning(j, all)
    ensures Completed(After(j, ByLooper(Report)), all)
  {
    LogIndexesConcat(j.sys.log, j.sys.handler.report);
    ReportCompletes(j.sys);
  }

  lemma ReportCompletes(s: Sys)
    requires Enabled(s, Report)
    ensures var s' := Apply(s, Report); s'.handler.Leaving? && s'.q == s.q && s'.log == s.log + s.handler.report
  {
  }

  lemma LogIndexesConcat(a: seq<Delivery>, b: seq<Delivery>)
    ensures LogIndexes(a + b) == LogIndexes(a) + LogIndexes(b)
  {
  }

  lemma Progress(j: Joint, m: Move, all: seq<FrameIndex>)
    requires Allowed(j, m) && JointInv(j) && !Flushes(m)
    requires Finishing(j, all) || Returning(j, all)
    ensures var j' := After(j, m);
      (Finishing(j', all) || Returning(j', all) || Completed(j', all)) && j'.lost == j.lost
  {
    if m.ByClient? {
      ClientKeeps(j, m.e, all);
    } else if m.TakeMove? {
      TakeProgress(j, all);
    } else if m.DeliverMove? {
      DeliverProgress(j, all);
    } else if m.CommitMove? {
      CommitProgress(j, all);
    } else if m.DrainDoneMove? {
      DrainDoneProgress(j, all);
    } else if Returning(j, all) {
      ReportProgress(j, all);
    } else {
      assert false;
    }
  }

  /** An EOS work that gets into the list is about to complete everything. */
  lemma EosBegins(j: Joint, input: Input)
    requires Allowed(j, Begin(input)) && JointInv(j) && Agreed(j.sys)
    requires j.sys.handler.f.work.value.input.eos && Enlists(j.dec, j.sys.handler.f.work.value, input)
    ensures Finishing(After(j, Begin(input)),
      LogIndexes(j.sys.log) + Indexes(j.dec.infos) + [j.sys.handler.f.work.value.frameIndex])
    ensures Elements(Indexes(j.dec.infos)) + j.lost == j.sys.q.pending.Keys
  {
    var w := j.sys.handler.f.work.value;
    CurrentIsNew(j);
    ProcessBooks(j.dec, w, input);
    BookedScript(ProcessStep(j.dec, w, input), Indexes(j.dec.infos), w.frameIndex);
  }

  /** On the way, or done. */
  ghost predicate UnderWay(j: Joint, all: seq<FrameIndex>) {
    Finishing(j, all) || Returning(j, all)
  }

  /** From `i` until before `j` no flush comes, and the looper thread is not yet done. */
  ghost predicate Undisturbed(tr: seq<Joint>, ms: seq<Move>, i: nat, j: nat)
    requires j <= |ms| && j <= |tr|
  {
    && (forall k {:trigger ms[k]} :: i <= k < j ==> !Flushes(ms[k]))
    && (forall k {:trigger tr[k]} :: i <= k < j ==> !tr[k].sys.handler.Leaving?)
  }

  /** Under way or complete; at move `j` the looper thread is still busy, so the work is not complete yet. */
  lemma EosNext(tr: seq<Joint>, ms: seq<Move>, i: nat, j: nat, all: seq<FrameIndex>)
    requires Run(tr, ms) && i <= j < |ms| && Undisturbed(tr, ms, i, j + 1)
    requires UnderWay(tr[j], all) || Completed(tr[j], all)
    ensures (UnderWay(tr[j + 1], all) || Completed(tr[j + 1], all)) && tr[j + 1].lost == tr[j].lost
  {
    JointAlways(tr, ms, j);
    assert !tr[j].sys.handler.Leaving? && !Flushes(ms[j]);
    Progress(tr[j], ms[j], all);
  }

  lemma UndisturbedBefore(tr: seq<Joint>, ms: seq<Move>, i: nat, j: nat)
    requires i < j <= |ms| && j <= |tr| && Undisturbed(tr, ms, i, j)
    ensures Undisturbed(tr, ms, i, j - 1)
  {
  }

  lemma {:induction false} EosProgress(tr: seq<Joint>, ms: seq<Move>, i: nat, j: nat, all: seq<FrameIndex>)
    requires Run(tr, ms) && i <= j < |tr| && UnderWay(tr[i], all)
    requires Undisturbed(tr, ms, i, j)
    ensures (UnderWay(tr[j], all) || Completed(tr[j], all)) && tr[j].lost == tr[i].lost
    decreases j
  {
    if i < j {
      UndisturbedBefore(tr, ms, i, j);
      EosProgress(tr, ms, i, j - 1, all);
      EosNext(tr, ms, i, j - 1, all);
    }
  }

  /**
   * An EOS work completes every outstanding work exactly once.  Its process() begins at move `i`, meets no
   * error before it enters the list, and no flush comes until the looper thread has done with it at `j`.
   * Then the listener has been given, after what it had before, exactly the works that were in the list, each
   * once and in queue order, and last the EOS work.  The list is empty, and nothing is pending any more but
   * what stand-alone drains with end of stream had dropped before.
   */
  lemma EosCompletesEverything(tr: seq<Joint>, ms: seq<Move>, i: nat, j: nat)
    requires Run(tr, ms) && i < j < |tr| && ms[i].Begin? && AtWork(tr[i].sys, true)
    requires tr[i].sys.handler.f.work.value.input.eos && Enlists(tr[i].dec, tr[i].sys.handler.f.work.value, ms[i].input)
    requires tr[i].sys.handler.f.generation == tr[i].sys.q.generation
    requires Undisturbed(tr, ms, i + 1, j) && tr[j].sys.handler.Leaving?
    ensures var before := Indexes(tr[i].dec.infos);
      && Elements(before) + tr[i].lost == tr[i].sys.q.pending.Keys && Distinct(before)
      && LogIndexes(tr[j].sys.log) == LogIndexes(tr[i].sys.log) + before + [tr[i].sys.handler.f.work.value.frameIndex]
      && tr[j].dec.infos == [] && tr[j].sys.q.pending.Keys == tr[i].lost
  {
    EosBegun(tr, ms, i);
    EosProgress(tr, ms, i + 1, j, LogIndexes(tr[i].sys.log) + Indexes(tr[i].dec.infos) + [tr[i].sys.handler.f.work.value.frameIndex]);
  }

  lemma EosBegun(tr: seq<Joint>, ms: seq<Move>, i: nat)
    requires Run(tr, ms) && i < |ms| && ms[i].Begin? && AtWork(tr[i].sys, true)
    requires tr[i].sys.handler.f.work.value.input.eos && Enlists(tr[i].dec, tr[i].sys.handler.f.work.value, ms[i].input)
    requires tr[i].sys.handler.f.generation == tr[i].sys.q.generation
    ensures var before, fi := Indexes(tr[i].dec.infos), tr[i].sys.handler.f.work.value.frameIndex;
      && Elements(before) + tr[i].lost == tr[i].sys.q.pending.Keys && Distinct(before)
      && UnderWay(tr[i + 1], LogIndexes(tr[i].sys.log) + before + [fi]) && tr[i + 1].lost == tr[i].lost
  {
    JointAlways(tr, ms, i);
    EosBegins(tr[i], ms[i].input);
    CurrentIsNew(tr[i]);
    FrontDistinct(tr[i]);
    PrefixDistinct(Indexes(tr[i].dec.infos), tr[i].sys.handler.f.work.value.frameIndex);
  }

  lemma EosDrainBegins(j: Joint, flushes: nat -> FlushDecode, blocks: nat -> bool)
    requires Allowed(j, BeginDrain(flushes, blocks)) && JointInv(j) && Agreed(j.sys) && j.sys.handler.f.drainMode.WithEos?
    ensures var line := Indexes(j.dec.infos);
      var kept := if Dropped(j.dec, WithEos, flushes, blocks) == {} then line else line[..|line| - 1];
      && (Dropped(j.dec, WithEos, flushes, blocks) != {} ==> line != [])
      && Finishing(After(j, BeginDrain(flushes, blocks)), LogIndexes(j.sys.log) + kept)
    ensures Elements(Indexes(j.dec.infos)) + j.lost == j.sys.q.pending.Keys
  {
    var o := DrainStep(Outcome(j.dec, [], None), WithEos, flushes, blocks);
    StandAloneEosDropsTheLast(j.dec, flushes, blocks);
    ScriptOfOthers(o.calls);
    assert LogIndexes(j.sys.log) + CallIndexes(o.calls) + [] == LogIndexes(j.sys.log) + CallIndexes(o.calls);
    assert CallIndexes(Outstanding(j)) == [];
  }

  /**
   * A stand-alone drain with end of stream, from its begin at move `i` until the looper thread has done with it
   * at `j`, no flush coming in between.  If the ring holds what it takes to fill all entries of the list, all
   * their works have been given to the listener, once and in order.  If not, all but the last: its work stays
   * in the pending map, and is in no list any more.
   */
  lemma StandAloneEosLeavesTheLastPending(tr: seq<Joint>, ms: seq<Move>, i: nat, j: nat)
    requires Run(tr, ms) && i < j < |tr| && ms[i].BeginDrain? && AtWork(tr[i].sys, false)
    requires tr[i].sys.handler.f.drainMode.WithEos? && tr[i].sys.handler.f.generation == tr[i].sys.q.generation
    requires Undisturbed(tr, ms, i + 1, j) && tr[j].sys.handler.Leaving?
    ensures var line, d := tr[i].dec.infos, DrainDecoder(tr[i].dec, ms[i].flushes, 0);
      var before, fills := Indexes(line), FillsAll(line, |d.held|, FrameSamples(d.stream), ms[i].blocks, 0);
      && Elements(before) + tr[i].lost == tr[i].sys.q.pending.Keys && tr[j].dec.infos == []
      && (fills ==> LogIndexes(tr[j].sys.log) == LogIndexes(tr[i].sys.log) + before
                    && tr[j].sys.q.pending.Keys == tr[i].lost)
      && (!fills ==> before != [] && LogIndexes(tr[j].sys.log) == LogIndexes(tr[i].sys.log) + before[..|before| - 1]
                     && tr[j].sys.q.pending.Keys == tr[i].lost + {before[|before| - 1]})
  {
    EosDrainBegun(tr, ms, i);
    EosProgress(tr, ms, i + 1, j, AfterEosDrain(tr[i], ms[i].flushes, ms[i].blocks));
  }

  /** What the listener will have been given after a stand-alone drain with end of stream. */
  function AfterEosDrain(j: Joint, flushes: nat -> FlushDecode, blocks: nat -> bool): seq<FrameIndex> {
    var line := Indexes(j.dec.infos);
    LogIndexes(j.sys.log)
    + if Dropped(j.dec, WithEos, flushes, blocks) == {} || line == [] then line else line[..|line| - 1]
  }

  lemma EosDrainBegun(tr: seq<Joint>, ms: seq<Move>, i: nat)
    requires Run(tr, ms) && i < |ms| && ms[i].BeginDrain? && AtWork(tr[i].sys, false)
    requires tr[i].sys.handler.f.drainMode.WithEos? && tr[i].sys.handler.f.generation == tr[i].sys.q.generation
    ensures Elements(Indexes(tr[i].dec.infos)) + tr[i].lost == tr[i].sys.q.pending.Keys
    ensures UnderWay(tr[i + 1], AfterEosDrain(tr[i], ms[i].flushes, ms[i].blocks))
    ensures tr[i + 1].lost == tr[i].lost + Dropped(tr[i].dec, WithEos, ms[i].flushes, ms[i].blocks)
  {
    JointAlways(tr, ms, i);
    EosDrainBegins(tr[i], ms[i].flushes, ms[i].blocks);
  }

  lemma PrefixDistinct(a: seq<FrameIndex>, x: FrameIndex)
    requires Distinct(a + [x])
    ensures Distinct(a)
  {
    forall i, j | 0 <= i < j < |a| ensures a[i] != a[j] {
      assert (a + [x])[i] != (a + [x])[j];
    }
  }
}
