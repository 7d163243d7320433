/**
 * The AAC decoder's own list of works: which entries leave it, which works are filled for that, and how many
 * samples each of them gets.
 */
module AacBooks {
  import opened Codec2
  import opened Adts
  import opened AacDecoder

  function Indexes(infos: seq<Info>): seq<FrameIndex> {
    seq(|infos|, i requires 0 <= i < |infos| => infos[i].frameIndex)
  }

  function CallIndexes(calls: seq<Call>): seq<FrameIndex> {
    seq(|calls|, i requires 0 <= i < |calls| => calls[i].index)
  }

  /**
   * Every work of `all` was filled, in that order, or is still in the list; the current work is filled
   * directly, the others through finish(); and the current work counts as processed exactly if it was filled.
   */
  ghost predicate Booked(o: Outcome, all: seq<FrameIndex>) {
    && CallIndexes(o.calls) + Indexes(o.dec.infos) == all
    && (forall k :: 0 <= k < |o.calls| ==>
          (o.calls[k].own <==> o.work.Some? && o.calls[k].index == o.work.value.frameIndex))
    && (o.work.Some? ==> (o.work.value.processed != 0 <==> o.work.value.frameIndex in CallIndexes(o.calls)))
  }

  lemma FillFrontBooked(o: Outcome, n: nat, blockOk: bool, all: seq<FrameIndex>)
    requires o.dec.infos != [] && n <= |o.dec.held| && Booked(o, all)
    ensures Booked(FillFront(o, n, blockOk), all)
  {
    var o' := FillFront(o, n, blockOk);
    var index := o.dec.infos[0].frameIndex;
    MoveOver(CallIndexes(o.calls), Indexes(o.dec.infos));
    assert Indexes(o.dec.infos)[1..] == Indexes(o'.dec.infos);
    assert CallIndexes(o'.calls) == CallIndexes(o.calls) + [index];
  }

  lemma MoveOver(a: seq<FrameIndex>, b: seq<FrameIndex>)
    requires b != []
    ensures (a + [b[0]]) + b[1..] == a + b
  {
  }

  lemma {:induction false} DrainRingBooked(o: Outcome, blocks: nat -> bool, eos: bool, i: nat, all: seq<FrameIndex>)
    requires Booked(o, all)
    ensures Booked(DrainRing(o, blocks, eos, i), all)
    decreases |o.dec.infos|
  {
    if !RingStops(o.dec, eos) {
      var n := if |o.dec.held| < Wanted(o.dec) then |o.dec.held| else Wanted(o.dec);
      FillFrontBooked(o, n, blocks(i), all);
      DrainRingBooked(FillFront(o, n, blocks(i)), blocks, eos, i + 1, all);
    }
  }

  lemma {:induction false} LeftoversAreFront(infos: seq<Info>)
    requires infos != []
    ensures CallIndexes(Leftovers(infos)) == Indexes(infos)[..|infos| - 1]
    ensures forall k :: 0 <= k < |Leftovers(infos)| ==> !Leftovers(infos)[k].own
    decreases |infos|
  {
    if |infos| > 1 {
      LeftoversAreFront(infos[1..]);
      FirstIndex(infos);
      FirstCallIndex(Call(infos[0].frameIndex, false, Ended), Leftovers(infos[1..]));
    }
  }

  lemma FirstIndex(infos: seq<Info>)
    requires |infos| > 1
    ensures Indexes(infos)[..|infos| - 1] == [infos[0].frameIndex] + Indexes(infos[1..])[..|infos| - 2]
  {
  }

  lemma FirstCallIndex(call: Call, rest: seq<Call>)
    ensures CallIndexes([call] + rest) == [call.index] + CallIndexes(rest)
  {
  }

  /** At end of stream everything is filled, if the current work is the last in the list. */
  lemma EndStreamBooked(o: Outcome, before: seq<FrameIndex>)
    requires o.work.Some? && o.work.value.frameIndex !in before
    requires Booked(o, before + [o.work.value.frameIndex])
    ensures Booked(EndStream(o), before + [o.work.value.frameIndex]) && EndStream(o).dec.infos == []
    ensures EndStream(o).work.Some? && SameWork(o.work.value, EndStream(o).work.value)
    ensures EndStream(o).work.value.processed != 0
  {
    var fi, filled, left := o.work.value.frameIndex, CallIndexes(o.calls), Indexes(o.dec.infos);
    var all := before + [fi];
    SplitAtEnd(before, fi, filled, left);
    if left == [] {
      assert Leftovers(o.dec.infos) == [] && o.calls + [] == o.calls;
      assert filled + [] == filled;
    } else {
      LeftoversAreFront(o.dec.infos);
      forall k | 0 <= k < |o.calls| ensures !o.calls[k].own {
        assert filled[k] == o.calls[k].index;
      }
      EndStreamCalls(o, before);
    }
  }

  lemma SplitAtEnd(before: seq<FrameIndex>, fi: FrameIndex, filled: seq<FrameIndex>, left: seq<FrameIndex>)
    requires filled + left == before + [fi] && fi !in before
    ensures left == [] ==> filled == before + [fi] && fi in filled
    ensures left != [] ==> fi !in filled && left[|left| - 1] == fi && filled + left[..|left| - 1] == before
  {
    if left != [] {
      assert (filled + left)[|before|] == fi;
      assert filled + left[..|left| - 1] == (filled + left)[..|before|];
      assert (before + [fi])[..|before|] == before;
      forall k | 0 <= k < |filled| ensures filled[k] != fi {
        assert filled[k] == (filled + left)[k] == before[k];
      }
    } else {
      assert filled + [] == filled;
    }
  }

  lemma EndStreamCalls(o: Outcome, before: seq<FrameIndex>)
    requires o.work.Some? && o.work.value.processed == 0 && o.dec.infos != []
    requires forall k :: 0 <= k < |o.calls| ==> !o.calls[k].own
    requires forall k :: 0 <= k < |Leftovers(o.dec.infos)| ==> !Leftovers(o.dec.infos)[k].own
    requires CallIndexes(o.calls) + CallIndexes(Leftovers(o.dec.infos)) == before
    requires o.work.value.frameIndex !in before
    ensures Booked(EndStream(o), before + [o.work.value.frameIndex])
  {
    var fi, o' := o.work.value.frameIndex, EndStream(o);
    var calls := o.calls + Leftovers(o.dec.infos);
    assert CallIndexes(calls) == before;
    assert CallIndexes(o'.calls) == before + [fi];
    assert Indexes([]) == [] && before + [fi] + [] == before + [fi];
    forall k | 0 <= k < |calls| ensures calls[k].index != fi {
      assert calls[k].index == before[k];
    }
  }

  lemma DrainDecoderKeepsInfos(dec: Aac, flushes: nat -> FlushDecode, i: nat)
    ensures DrainDecoder(dec, flushes, i).infos == dec.infos
    decreases dec.compensated
  {
  }

  lemma {:induction false} InputKeepsInfos(r: Rounds, rest: Bytes, adts: bool, feeds: nat -> Feed, i: nat)
    ensures InputLoop(r, rest, adts, feeds, i).0.dec.infos == r.dec.infos
    decreases |rest|
  {
    if rest != [] {
      var (r', end, used) := InputRound(r, rest, adts, feeds(i));
      RoundKeepsInfos(r, rest, adts, feeds(i));
      if end.None? {
        InputKeepsInfos(r', rest[used..], adts, feeds, i + 1);
      }
    }
  }

  lemma RoundKeepsInfos(r: Rounds, rest: Bytes, adts: bool, feed: Feed)
    requires rest != []
    ensures InputRound(r, rest, adts, feed).0.dec.infos == r.dec.infos
  {
    var header := NextHeader(rest, adts);
    if header.Good? {
      RoundsKeepInfos(r, r.dec.stream, BytesLeft(feed.left, header.frameLength - header.headerSize, adts), feed.decodes);
    }
  }

  lemma RoundsKeepInfos(r: Rounds, prev: StreamInfo, left: nat, ds: seq<Decode>)
    ensures DecodeRounds(r, prev, left, ds).dec.infos == r.dec.infos
    decreases ds
  {
  }

  /** process() gets as far as entering the work into the list. */
  predicate Enlists(dec: Aac, work: Work, input: Input) {
    var (fed, _, end) := Fed(InputLoop(Rounds(dec, [], false, false), input.view, input.adts, input.feeds, 0));
    && !dec.error && !(work.input.codecConfig && input.view != [])
    && !end.BadFraming? && !end.DecoderFailed?
    && !(PortDelay(fed) > fed.portDelay && !input.portConfigOk)
  }

  /** The decoder's bookkeeping of one process(): `o` is what it did to the list `infos` and the work. */
  ghost predicate Bookkept(infos: seq<FrameIndex>, w: Work, enlisted: bool, o: Outcome) {
    && o.work.Some? && SameWork(w, o.work.value)
    && (if enlisted then
          Booked(o, infos + [w.frameIndex]) && (w.input.eos ==> o.dec.infos == [] && o.work.value.processed != 0)
        else
          Indexes(o.dec.infos) == infos && o.calls == [] && o.work.value.processed != 0)
  }

  /**
   * A work that gets as far joins the list behind the others; works leave the list only from its front, each
   * by being filled; and the work is returned at once exactly if it is among those.  An EOS work leaves an
   * empty list.  A work that does not get as far is returned and changes nothing.
   */
  lemma ProcessBooks(dec: Aac, w: Work, input: Input)
    requires w.frameIndex !in Indexes(dec.infos)
    ensures Bookkept(Indexes(dec.infos), w, Enlists(dec, w, input), ProcessStep(dec, w, input))
  {
    var (fed, sizes, end) := Fed(InputLoop(Rounds(dec, [], false, false), input.view, input.adts, input.feeds, 0));
    InputKeepsInfos(Rounds(dec, [], false, false), input.view, input.adts, input.feeds, 0);
    if Enlists(dec, w, input) {
      var ready := fed.(portDelay := PortDelay(fed));
      HandOnBooks(ready, Entry(w).(processed := 0), sizes, input);
    }
  }

  lemma HandOnBooks(dec: Aac, w: Work, sizes: seq<int>, input: Input)
    requires w.processed == 0 && w.frameIndex !in Indexes(dec.infos)
    ensures Bookkept(Indexes(dec.infos), w, true, HandOn(dec.(infos := dec.infos + [Info(w.frameIndex, sizes)]), w, input))
  {
    var all := Indexes(dec.infos) + [w.frameIndex];
    var start := dec.(infos := dec.infos + [Info(w.frameIndex, sizes)]);
    var o := Outcome(start, [], Some(w));
    assert Indexes(start.infos) == all && CallIndexes([]) + all == all;
    assert Booked(o, all);
    if w.input.eos {
      EosBooks(o, Indexes(dec.infos), input);
    } else if start.compensated >= DelaySamples(start.stream) {
      DrainRingBooked(o, input.blocks, false, 0, all);
      RingKeepsWork(o, input.blocks, false, 0);
    }
  }

  lemma EosBooks(o: Outcome, before: seq<FrameIndex>, input: Input)
    requires o.work.Some? && o.work.value.frameIndex !in before && Booked(o, before + [o.work.value.frameIndex])
    ensures var o' := DrainStep(o, WithEos, input.flushes, input.blocks);
      && Booked(o', before + [o.work.value.frameIndex]) && o'.dec.infos == []
      && o'.work.Some? && SameWork(o.work.value, o'.work.value) && o'.work.value.processed != 0
  {
    var all := before + [o.work.value.frameIndex];
    var o1 := o.(dec := DrainDecoder(o.dec, input.flushes, 0));
    DrainDecoderKeepsInfos(o.dec, input.flushes, 0);
    DrainRingBooked(o1, input.blocks, true, 0, all);
    RingKeepsWork(o1, input.blocks, true, 0);
    EndStreamBooked(DrainRing(o1, input.blocks, true, 0), before);
  }

  /** A drain request without end of stream fills works from the front of the list. */
  lemma DrainBooks(dec: Aac, flushes: nat -> FlushDecode, blocks: nat -> bool)
    ensures var o := DrainStep(Outcome(dec, [], None), NoEos, flushes, blocks);
      Booked(o, Indexes(dec.infos)) && o.work.None?
  {
    var o := Outcome(dec, [], None);
    var o1 := o.(dec := DrainDecoder(dec, flushes, 0));
    DrainDecoderKeepsInfos(dec, flushes, 0);
    assert CallIndexes([]) + Indexes(dec.infos) == Indexes(dec.infos);
    DrainRingBooked(o1, blocks, false, 0, Indexes(dec.infos));
    RingKeepsWork(o1, blocks, false, 0);
  }

  /** How many samples the ring has to hold so that every entry is filled: the last one needs a frame to be there. */
  function Need(infos: seq<Info>, frame: nat, blocks: nat -> bool, i: nat): nat
    decreases |infos|
  {
    if |infos| <= 1 then frame
    else (if blocks(i) then |infos[0].decodedSizes| * frame else 0) + Need(infos[1..], frame, blocks, i + 1)
  }

  /** A drain with end of stream fills all entries, with `held` samples in the ring and `frame` of them to a frame. */
  predicate FillsAll(infos: seq<Info>, held: nat, frame: nat, blocks: nat -> bool, i: nat) {
    infos == [] || frame == 0 || held >= Need(infos, frame, blocks, i)
  }

  lemma NeedsAFrame(infos: seq<Info>, frame: nat, blocks: nat -> bool, i: nat)
    ensures Need(infos, frame, blocks, i) >= frame
    decreases |infos|
  {
    if |infos| > 1 {
      NeedsAFrame(infos[1..], frame, blocks, i + 1);
    }
  }

  /** drainRingBuffer at end of stream leaves no entry exactly if the ring holds what it takes. */
  lemma {:induction false} RingFillsAll(o: Outcome, blocks: nat -> bool, i: nat)
    ensures DrainRing(o, blocks, true, i).dec.infos == []
       <==> FillsAll(o.dec.infos, |o.dec.held|, FrameSamples(o.dec.stream), blocks, i)
    decreases |o.dec.infos|
  {
    NeedsAFrame(o.dec.infos, FrameSamples(o.dec.stream), blocks, i);
    if !RingStops(o.dec, true) {
      var n := if |o.dec.held| < Wanted(o.dec) then |o.dec.held| else Wanted(o.dec);
      RingFillsAll(FillFront(o, n, blocks(i)), blocks, i + 1);
      NeedsAFrame(o.dec.infos[1..], FrameSamples(o.dec.stream), blocks, i + 1);
    }
  }

  /**
   * A stand-alone drain with end of stream empties the list as well, but without a current work: every work is
   * finished if the ring, once the decoder is drained, holds what it takes to fill all entries; if not, the last
   * entry is dropped, and its work is the one that is not finished.
   */
  lemma StandAloneEosDropsTheLast(dec: Aac, flushes: nat -> FlushDecode, blocks: nat -> bool)
    ensures var o := DrainStep(Outcome(dec, [], None), WithEos, flushes, blocks);
      var d := DrainDecoder(dec, flushes, 0);
      && o.dec.infos == [] && o.work.None? && Booked(o, CallIndexes(o.calls))
      && (dec.infos == [] ==> o.calls == [])
      && (dec.infos != [] ==>
            CallIndexes(o.calls) == if FillsAll(dec.infos, |d.held|, FrameSamples(d.stream), blocks, 0)
                                    then Indexes(dec.infos) else Indexes(dec.infos)[..|dec.infos| - 1])
  {
    var all := Indexes(dec.infos);
    var o1 := Outcome(DrainDecoder(dec, flushes, 0), [], None);
    DrainDecoderKeepsInfos(dec, flushes, 0);
    assert CallIndexes([]) + all == all;
    DrainRingBooked(o1, blocks, true, 0, all);
    RingKeepsWork(o1, blocks, true, 0);
    RingFillsAll(o1, blocks, 0);
    EndWithoutWork(DrainRing(o1, blocks, true, 0), all);
  }

  const ONE_FRAME: Decode := DecodeAnswer(true, 100, StreamInfo(2048, 1, 44100, 0), (i: nat) => 0, true)

  /** A raw buffer of one byte that libAACdec takes, and in which it finds the frames `ds`. */
  function OneByte(ds: seq<Decode>): Input {
    Input([0], false, true, (i: nat) => Feed(0, ds), true, (i: nat) => ONE_FRAME, (i: nat) => true)
  }

  /**
   * An input for which the last work is dropped: after a buffer with one frame of 2048 samples, and one in which
   * no frame was complete, the second work waits with an empty ring.
   */
  lemma AStandAloneEosThatDrops(first: Work, second: Work, flushes: nat -> FlushDecode, blocks: nat -> bool)
    requires first.input == NO_FLAGS && second.input == NO_FLAGS && first.frameIndex != second.frameIndex
    ensures var dec := ProcessStep(ProcessStep(FRESH, first, OneByte([ONE_FRAME])).dec, second, OneByte([])).dec;
      && Indexes(dec.infos) == [second.frameIndex] && dec.held == [] && dec.compensated == 0
      && DrainStep(Outcome(dec, [], None), WithEos, flushes, blocks).calls == []
      && DrainStep(Outcome(dec, [], None), WithEos, flushes, blocks).dec.infos == []
  {
    var one := ProcessStep(FRESH, first, OneByte([ONE_FRAME])).dec;
    FirstBuffer(first);
    SecondBuffer(one, second);
    var dec := ProcessStep(one, second, OneByte([])).dec;
    StandAloneEosDropsTheLast(dec, flushes, blocks);
    assert |dec.infos| == |Indexes(dec.infos)| == 1;
    assert CallIndexes(DrainStep(Outcome(dec, [], None), WithEos, flushes, blocks).calls) == [];
  }

  lemma FirstBuffer(work: Work)
    requires work.input == NO_FLAGS
    ensures var dec := ProcessStep(FRESH, work, OneByte([ONE_FRAME])).dec;
      dec.infos == [] && dec.held == [] && dec.compensated == 0 && !dec.error && dec.stream == ONE_FRAME.info && dec.portDelay == 2
  {
    var r := Rounds(FRESH, [], false, false);
    var once := DecodeOnce(r, FRESH.stream, 0, ONE_FRAME);
    assert DecodeRounds(once, FRESH.stream, 0, []) == once;
    assert [ONE_FRAME][1..] == [];
    var input := OneByte([ONE_FRAME]);
    assert input.feeds(0) == Feed(0, [ONE_FRAME]) && input.view[1..] == [];
    assert InputRound(r, input.view, false, input.feeds(0)) == (once, None, 1);
    assert InputLoop(once, [], false, input.feeds, 1) == (once, Accepted);
    assert InputLoop(r, input.view, false, input.feeds, 0) == (once, Accepted);
    assert PortDelay(once.dec) == 2 && once.dec.(portDelay := 2) == once.dec;
    assert once.sizes == [100] && once.dec.infos + [Info(work.frameIndex, [100])] == [Info(work.frameIndex, [100])];
    FirstIsServed(once.dec, Entry(work).(processed := 0), input);
  }

  lemma FirstIsServed(dec: Aac, w: Work, input: Input)
    requires dec.infos == [] && |dec.held| == 2048 && dec.compensated == 0 && dec.stream == ONE_FRAME.info
    requires !w.input.eos && input.blocks(0)
    ensures var dec' := HandOn(dec.(infos := [Info(w.frameIndex, [100])]), w, input).dec;
      dec'.infos == [] && dec'.held == [] && dec'.compensated == 0 && dec'.error == dec.error && dec'.stream == dec.stream
      && dec'.portDelay == dec.portDelay
  {
    var o := Outcome(dec.(infos := [Info(w.frameIndex, [100])]), [], Some(w));
    assert Wanted(o.dec) == 2048;
    var next := FillFront(o, 2048, true);
    assert next.dec.infos == [] && next.dec.held == [];
    assert DrainRing(next, input.blocks, false, 1) == next;
    assert DrainRing(o, input.blocks, false, 0) == next;
  }

  lemma SecondBuffer(dec: Aac, work: Work)
    requires work.input == NO_FLAGS && dec.infos == [] && dec.held == [] && dec.compensated == 0 && !dec.error
    requires dec.stream == ONE_FRAME.info && dec.portDelay == 2
    ensures var dec' := ProcessStep(dec, work, OneByte([])).dec;
      Indexes(dec'.infos) == [work.frameIndex] && dec'.held == [] && dec'.compensated == 0 && dec'.stream == dec.stream
  {
    var r := Rounds(dec, [], false, false);
    assert InputRound(r, [0], false, Feed(0, [])) == (r, None, 1);
    assert InputLoop(r, [], false, OneByte([]).feeds, 1) == (r, Accepted);
  }

  /** What the drained decoder of the condition is: with nothing owed, the decoder itself. */
  lemma DrainedRing(dec: Aac, flushes: nat -> FlushDecode)
    ensures dec.compensated == 0 ==> DrainDecoder(dec, flushes, 0) == dec
    ensures |dec.held| + dec.compensated <= RING_SAMPLES ==>
      |DrainDecoder(dec, flushes, 0).held| == |dec.held| + dec.compensated
  {
    if |dec.held| + dec.compensated <= RING_SAMPLES {
      DrainedSize(dec, flushes, 0);
    }
  }

  lemma {:induction false} DrainedSize(dec: Aac, flushes: nat -> FlushDecode, i: nat)
    requires |dec.held| + dec.compensated <= RING_SAMPLES
    ensures |DrainDecoder(dec, flushes, i).held| == |dec.held| + dec.compensated
    decreases dec.compensated
  {
    if dec.compensated > 0 {
      var d := flushes(i);
      var n := if FrameSamples(d.info) > dec.compensated then dec.compensated else FrameSamples(d.info);
      DrainedSize(dec.(stream := d.info, held := dec.held + Tape(d.pcm, n), compensated := dec.compensated - n), flushes, i + 1);
    }
  }

  lemma EndWithoutWork(o: Outcome, all: seq<FrameIndex>)
    requires o.work.None? && Booked(o, all)
    ensures EndStream(o).dec.infos == [] && EndStream(o).work.None?
    ensures Booked(EndStream(o), CallIndexes(EndStream(o).calls))
    ensures o.dec.infos == [] ==> CallIndexes(EndStream(o).calls) == all
    ensures o.dec.infos != [] ==> all != [] && CallIndexes(EndStream(o).calls) == all[..|all| - 1]
  {
    if o.dec.infos == [] {
      assert Leftovers([]) == [] && o.calls + [] == o.calls;
      assert CallIndexes(o.calls) + [] == CallIndexes(o.calls);
    } else {
      LeftoversAreFront(o.dec.infos);
      DropLast(CallIndexes(o.calls), Indexes(o.dec.infos));
      assert CallIndexes(o.calls + Leftovers(o.dec.infos)) == CallIndexes(o.calls) + CallIndexes(Leftovers(o.dec.infos));
    }
  }

  lemma DropLast(a: seq<FrameIndex>, b: seq<FrameIndex>)
    requires b != []
    ensures a + b[..|b| - 1] == (a + b)[..|a + b| - 1]
  {
  }

  /**
   * Before the end of the stream a work is filled with all the frames decoded from it, or empty-handed if it
   * had none or no buffer can be had; the first work left behind would have wanted more than there is.
   */
  lemma {:induction false} SharesAreWhole(o: Outcome, blocks: nat -> bool, i: nat)
    ensures var o' := DrainRing(o, blocks, false, i);
      && o.calls <= o'.calls && RingStops(o'.dec, false)
      && AllShares(o.dec.infos, o'.calls[|o.calls|..], FrameSamples(o.dec.stream), blocks, i)
    decreases |o.dec.infos|
  {
    if !RingStops(o.dec, false) {
      var next := FillFront(o, Wanted(o.dec), blocks(i));
      SharesAreWhole(next, blocks, i + 1);
      ShareFirst(o.calls, next.calls, DrainRing(next, blocks, false, i + 1).calls);
    }
  }

  lemma ShareFirst(calls: seq<Call>, next: seq<Call>, last: seq<Call>)
    requires |next| == |calls| + 1 && calls <= next <= last
    ensures calls <= last && last[|calls|..] == [next[|calls|]] + last[|next|..]
  {
  }

  /** The calls give the first entries of `infos` their shares. */
  predicate AllShares(infos: seq<Info>, calls: seq<Call>, n: nat, blocks: nat -> bool, i: nat)
    decreases |calls|
  {
    calls == [] || (infos != [] && IsShare(infos[0], n, blocks(i), calls[0]) && AllShares(infos[1..], calls[1..], n, blocks, i + 1))
  }

  /** `call` gives the work of `info` the frames decoded from it, `n` samples each. */
  predicate IsShare(info: Info, n: nat, blockOk: bool, call: Call) {
    var wanted := |info.decodedSizes| * n;
    && call.index == info.frameIndex
    && (if wanted == 0 then call.fill == Empty(OK)
        else if !blockOk then call.fill == Empty(NoMemory)
        else call.fill.Pcm? && |call.fill.samples| == wanted)
  }
}
