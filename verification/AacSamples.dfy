/**
 * What the AAC decoder does with bytes and samples: it takes exactly the framed ADTS buffers, hands samples
 * on in the order in which they were decoded, and loses none.
 */
module AacSamples {
  import opened Codec2
  import opened Adts
  import opened AacDecoder
  import opened AacBooks

  // ---------------------------------------------------------------- ADTS

  /** libAACdec takes every payload it is given. */
  ghost predicate TakesPayloads(feeds: nat -> Feed) {
    forall i :: feeds(i).left == 0
  }

  /**
   * With a decoder that takes each whole payload and meets no error of its own, the loop accepts a buffer
   * exactly if it is a concatenation of frames.
   */
  lemma {:induction false} AdtsFraming(r: Rounds, rest: Bytes, feeds: nat -> Feed, i: nat)
    requires TakesPayloads(feeds)
    ensures var end := InputLoop(r, rest, true, feeds, i).1;
      && (end.Accepted? ==> IsFramed(rest))
      && (end.BadFraming? ==> !IsFramed(rest))
    decreases |rest|
  {
    if rest == [] {
      EmptyIsFramed();
    } else {
      FramedUnfold(rest);
      var (r', end, used) := InputRound(r, rest, true, feeds(i));
      if end.None? {
        assert used == ReadHeader(rest).frameLength;
        AdtsFraming(r', rest[used..], feeds, i + 1);
      }
    }
  }

  // ---------------------------------------------------------------- order of the samples

  /** The samples handed on by `calls`, oldest first. */
  function Handed(calls: seq<Call>): seq<int> {
    if calls == [] then [] else
      (if calls[0].fill.Pcm? then calls[0].fill.samples else []) + Handed(calls[1..])
  }

  lemma {:induction false} HandedConcat(a: seq<Call>, b: seq<Call>)
    ensures Handed(a + b) == Handed(a) + Handed(b)
  {
    if a == [] {
      assert a + b == b;
    } else {
      assert (a + b)[1..] == a[1..] + b;
      HandedConcat(a[1..], b);
    }
  }

  /** `n` samples of `o` have been handed on, the oldest first, and the rest is held. */
  ghost predicate HandsOn(o: Outcome, o': Outcome) {
    && Handed(o'.calls) + o'.dec.held == Handed(o.calls) + o.dec.held
    && o'.dec.handedOn + |o'.dec.held| == o.dec.handedOn + |o.dec.held|
    && |o'.dec.held| <= |o.dec.held|
    && o'.dec.compensated == o.dec.compensated && o'.dec.decoded == o.dec.decoded && o'.dec.flushed == o.dec.flushed
    && o'.dec.error == o.dec.error && o'.dec.stream == o.dec.stream
  }

  lemma FillFrontHandsOn(o: Outcome, n: nat, blockOk: bool)
    requires o.dec.infos != [] && n <= |o.dec.held|
    ensures HandsOn(o, FillFront(o, n, blockOk))
  {
    var o' := FillFront(o, n, blockOk);
    var call := o'.calls[|o.calls|];
    HandedConcat(o.calls, [call]);
    assert o'.calls == o.calls + [call];
    Rejoin(Handed(o.calls), o.dec.held, n);
    if call.fill.Pcm? {
      assert Handed([call]) == o.dec.held[..n] + [] == o.dec.held[..n];
    } else {
      assert Handed([call]) == [];
    }
  }

  lemma Rejoin(a: seq<int>, b: seq<int>, n: nat)
    requires n <= |b|
    ensures (a + b[..n]) + b[n..] == a + b && a + [] == a
  {
    assert b[..n] + b[n..] == b;
  }

  lemma {:induction false} DrainRingHandsOn(o: Outcome, blocks: nat -> bool, eos: bool, i: nat)
    ensures HandsOn(o, DrainRing(o, blocks, eos, i))
    decreases |o.dec.infos|
  {
    if !RingStops(o.dec, eos) {
      var n := if |o.dec.held| < Wanted(o.dec) then |o.dec.held| else Wanted(o.dec);
      FillFrontHandsOn(o, n, blocks(i));
      DrainRingHandsOn(FillFront(o, n, blocks(i)), blocks, eos, i + 1);
    }
  }

  lemma {:induction false} LeftoversAreEmpty(infos: seq<Info>)
    ensures Handed(Leftovers(infos)) == []
    decreases |infos|
  {
    if |infos| > 1 {
      LeftoversAreEmpty(infos[1..]);
      assert Leftovers(infos)[1..] == Leftovers(infos[1..]);
    }
  }

  lemma EndStreamHandsOn(o: Outcome)
    ensures HandsOn(o, EndStream(o))
  {
    LeftoversAreEmpty(o.dec.infos);
    HandedConcat(o.calls, Leftovers(o.dec.infos));
    assert Handed(o.calls) + [] == Handed(o.calls);
    if o.work.Some? && o.work.value.processed == 0 {
      var last := [Call(o.work.value.frameIndex, true, Ended)];
      assert Handed(last) == [];
      HandedConcat(o.calls + Leftovers(o.dec.infos), last);
    }
  }

  // ---------------------------------------------------------------- accounting

  /** Every decoded sample was handed on, was flushed, is held, or is owed by the decoder. */
  predicate Accounts(dec: Aac) {
    dec.decoded == dec.handedOn + dec.flushed + |dec.held| + dec.compensated && |dec.held| <= RING_SAMPLES
  }

  lemma HandsOnAccounts(o: Outcome, o': Outcome)
    requires HandsOn(o, o') && Accounts(o.dec)
    ensures Accounts(o'.dec)
  {
    assert |Handed(o'.calls) + o'.dec.held| == |Handed(o.calls) + o.dec.held|;
  }

  lemma DecodeOnceAccounts(r: Rounds, prev: StreamInfo, left: nat, d: Decode)
    requires Accounts(r.dec)
    ensures Accounts(DecodeOnce(r, prev, left, d).dec)
  {
  }

  lemma {:induction false} DecodeRoundsAccount(r: Rounds, prev: StreamInfo, left: nat, ds: seq<Decode>)
    requires Accounts(r.dec)
    ensures Accounts(DecodeRounds(r, prev, left, ds).dec)
    decreases ds
  {
    if SpaceLeft(r.dec) >= FrameSamples(r.dec.stream) && ds != [] {
      DecodeOnceAccounts(r, prev, left, ds[0]);
      DecodeRoundsAccount(DecodeOnce(r, prev, left, ds[0]), prev, left, ds[1..]);
    }
  }

  lemma InputRoundAccounts(r: Rounds, rest: Bytes, adts: bool, feed: Feed)
    requires rest != [] && Accounts(r.dec)
    ensures Accounts(InputRound(r, rest, adts, feed).0.dec)
  {
    var header := NextHeader(rest, adts);
    if header.Good? {
      DecodeRoundsAccount(r, r.dec.stream, BytesLeft(feed.left, header.frameLength - header.headerSize, adts), feed.decodes);
    }
  }

  lemma {:induction false} InputLoopAccounts(r: Rounds, rest: Bytes, adts: bool, feeds: nat -> Feed, i: nat)
    requires Accounts(r.dec)
    ensures Accounts(InputLoop(r, rest, adts, feeds, i).0.dec)
    decreases |rest|
  {
    if rest != [] {
      InputRoundAccounts(r, rest, adts, feeds(i));
      var (r', end, used) := InputRound(r, rest, adts, feeds(i));
      if end.None? {
        InputLoopAccounts(r', rest[used..], adts, feeds, i + 1);
      }
    }
  }

  /** What was discarded at the beginning is added back; if the ring has the room, all of it. */
  lemma {:induction false} DrainDecoderAddsBack(dec: Aac, flushes: nat -> FlushDecode, i: nat)
    requires Accounts(dec)
    ensures var dec' := DrainDecoder(dec, flushes, i);
      && Accounts(dec') && (dec.error ==> dec'.error)
      && |dec'.held| + dec'.compensated == |dec.held| + dec.compensated && dec.held <= dec'.held
      && (!dec'.error ==> dec'.compensated == 0)
      && (!dec.error && |dec.held| + dec.compensated <= RING_SAMPLES ==> !dec'.error)
      && (dec'.infos, dec'.decoded, dec'.handedOn) == (dec.infos, dec.decoded, dec.handedOn)
    decreases dec.compensated
  {
    if dec.compensated > 0 {
      var d := flushes(i);
      var n := if FrameSamples(d.info) > dec.compensated then dec.compensated else FrameSamples(d.info);
      if SpaceLeft(dec) >= n {
        var next := dec.(stream := d.info, held := dec.held + Tape(d.pcm, n), compensated := dec.compensated - n);
        DrainDecoderAddsBack(next, flushes, i + 1);
      }
    }
  }

  lemma DrainStepAccounts(o: Outcome, mode: DrainMode, flushes: nat -> FlushDecode, blocks: nat -> bool)
    requires Accounts(o.dec)
    ensures Accounts(DrainStep(o, mode, flushes, blocks).dec)
  {
    DrainDecoderAddsBack(o.dec, flushes, 0);
    var o1 := o.(dec := DrainDecoder(o.dec, flushes, 0));
    var o2 := DrainRing(o1, blocks, mode.WithEos?, 0);
    DrainRingHandsOn(o1, blocks, mode.WithEos?, 0);
    HandsOnAccounts(o1, o2);
    EndStreamHandsOn(o2);
    HandsOnAccounts(o2, EndStream(o2));
  }

  lemma HandOnAccounts(dec: Aac, w: Work, input: Input)
    requires Accounts(dec)
    ensures Accounts(HandOn(dec, w, input).dec)
  {
    var o := Outcome(dec, [], Some(w));
    DrainRingHandsOn(o, input.blocks, false, 0);
    HandsOnAccounts(o, DrainRing(o, input.blocks, false, 0));
    DrainStepAccounts(o, WithEos, input.flushes, input.blocks);
  }

  lemma ProcessAccounts(dec: Aac, w: Work, input: Input)
    requires Accounts(dec)
    ensures Accounts(ProcessStep(dec, w, input).dec)
  {
    InputLoopAccounts(Rounds(dec, [], false, false), input.view, input.adts, input.feeds, 0);
    var (fed, sizes, end) := Fed(InputLoop(Rounds(dec, [], false, false), input.view, input.adts, input.feeds, 0));
    HandOnAccounts(fed.(portDelay := PortDelay(fed), infos := fed.infos + [Info(w.frameIndex, sizes)]),
                   Entry(w).(processed := 0), input);
  }

  lemma FlushAccounts(dec: Aac, flushes: nat -> FlushDecode)
    requires Accounts(dec)
    ensures Accounts(FlushStep(dec, flushes))
  {
    DrainDecoderAddsBack(dec, flushes, 0);
  }

  /** What the component asks of the decoder, one request after the other. */
  datatype Job =
    | Frame(work: Work, input: Input)
    | DrainRequest(mode: DrainMode, flushes: nat -> FlushDecode, blocks: nat -> bool)
    | Flush(flushes: nat -> FlushDecode)

  function Done(dec: Aac, job: Job): Outcome {
    match job
    case Frame(w, input) => ProcessStep(dec, w, input)
    case DrainRequest(mode, flushes, blocks) => DrainStep(Outcome(dec, [], None), mode, flushes, blocks)
    case Flush(flushes) => Outcome(FlushStep(dec, flushes), [], None)
  }

  function AfterJobs(jobs: seq<Job>): Aac {
    if jobs == [] then FRESH else Done(AfterJobs(jobs[..|jobs| - 1]), jobs[|jobs| - 1]).dec
  }

  /**
   * Sample accounting: after any requests to a fresh decoder, the samples process() decoded are those handed
   * on in output buffers, those thrown away by a flush, those in the ring, and those the delay compensation
   * still owes.  The ring never holds more than its capacity.
   */
  lemma {:induction false} SampleAccounting(jobs: seq<Job>)
    ensures var dec := AfterJobs(jobs);
      dec.decoded == dec.handedOn + dec.flushed + |dec.held| + dec.compensated && |dec.held| <= RING_SAMPLES
  {
    if jobs != [] {
      var before, job := AfterJobs(jobs[..|jobs| - 1]), jobs[|jobs| - 1];
      SampleAccounting(jobs[..|jobs| - 1]);
      match job
      case Frame(w, input) => ProcessAccounts(before, w, input);
      case DrainRequest(mode, flushes, blocks) => DrainStepAccounts(Outcome(before, [], None), mode, flushes, blocks);
      case Flush(flushes) => FlushAccounts(before, flushes);
    }
  }

  /**
   * After a drain that completes nothing is owed any more: what was discarded at the beginning has been added
   * back, so every decoded sample was handed on, was flushed or is in the ring.  The drain completes exactly
   * if the ring has room for what is owed.
   */
  lemma DrainSettlesAccounts(dec: Aac, flushes: nat -> FlushDecode)
    requires Accounts(dec) && !dec.error
    ensures !DrainDecoder(dec, flushes, 0).error <==> |dec.held| + dec.compensated <= RING_SAMPLES
    ensures !DrainDecoder(dec, flushes, 0).error ==>
      var dec' := DrainDecoder(dec, flushes, 0);
      dec'.compensated == 0 && dec'.decoded == dec'.handedOn + dec'.flushed + |dec'.held|
  {
    DrainDecoderAddsBack(dec, flushes, 0);
  }

  /**
   * The decoder's own delay is discarded first: while it is not yet compensated no work is given a sample;
   * the oldest samples go, as many as are missing or as there are; so either the delay is compensated then,
   * or the ring is empty.
   */
  lemma DelayIsDiscardedFirst(dec: Aac, w: Work, input: Input)
    requires !w.input.eos && dec.compensated < DelaySamples(dec.stream)
    ensures var dec', n := HandOn(dec, w, input).dec, HandOn(dec, w, input).dec.compensated - dec.compensated;
      && HandOn(dec, w, input).calls == []
      && 0 <= n <= |dec.held| && dec'.held == dec.held[n..]
      && dec'.compensated <= DelaySamples(dec.stream)
      && (dec'.compensated == DelaySamples(dec.stream) || dec'.held == [])
      && dec' == dec.(held := dec'.held, compensated := dec'.compensated)
  {
  }

  /** The port delay is the least number of frames, no smaller than before, that holds the decoder's delay. */
  lemma PortDelayCovers(dec: Aac)
    requires FrameSamples(dec.stream) > 0
    ensures var n, p := FrameSamples(dec.stream), PortDelay(dec);
      && dec.portDelay <= p && DelaySamples(dec.stream) <= p * n
      && (p == dec.portDelay || (p - 1) * n < DelaySamples(dec.stream))
  {
    var n, d := FrameSamples(dec.stream), DelaySamples(dec.stream);
    var needed := (d + n - 1) / n;
    RoundsUp(d, n, needed);
    if needed < dec.portDelay {
      TimesGrows(needed, dec.portDelay, n);
    }
  }

  lemma RoundsUp(d: nat, n: nat, q: nat)
    requires n > 0 && q == (d + n - 1) / n
    ensures (q - 1) * n < d <= q * n
  {
    var r := (d + n - 1) % n;
    assert d + n - 1 == q * n + r && 0 <= r < n;
    assert (q - 1) * n == q * n - n;
  }

  lemma TimesGrows(a: nat, b: nat, n: nat)
    requires a <= b
    ensures a * n <= b * n
  {
    assert b * n == a * n + (b - a) * n;
  }

  /**
   * A work that meets no delay to compensate, or ends the stream, passes on the oldest samples: what the calls
   * carry, followed by what the ring holds afterwards, is what the ring held before, followed by what a drain
   * adds back.  Only whole entries leave the list, from its front.
   */
  lemma SamplesInOrder(dec: Aac, w: Work, input: Input)
    requires Accounts(dec) && (w.input.eos || dec.compensated >= DelaySamples(dec.stream))
    ensures var o := HandOn(dec, w, input);
      var all := if w.input.eos then DrainDecoder(dec, input.flushes, 0).held else dec.held;
      && Handed(o.calls) + o.dec.held == all && dec.held <= all
  {
    assert Handed([]) == [];
    if w.input.eos {
      EosInOrder(dec, w, input);
    } else {
      DrainRingHandsOn(Outcome(dec, [], Some(w)), input.blocks, false, 0);
    }
  }

  lemma EosInOrder(dec: Aac, w: Work, input: Input)
    requires Accounts(dec)
    ensures var o := DrainStep(Outcome(dec, [], Some(w)), WithEos, input.flushes, input.blocks);
      var all := DrainDecoder(dec, input.flushes, 0).held;
      Handed(o.calls) + o.dec.held == all && dec.held <= all
  {
    var start := Outcome(DrainDecoder(dec, input.flushes, 0), [], Some(w));
    DrainDecoderAddsBack(dec, input.flushes, 0);
    DrainedHandsOn(start, input.blocks, true);
    assert Handed([]) + start.dec.held == start.dec.held;
  }

  // ---------------------------------------------------------------- the tape

  /** What one answer of the decoder puts on the tape: its samples, or as much silence after an error. */
  function FrameTape(d: Decode): seq<int> {
    Tape(if d.ok then d.pcm else (i: nat) => 0, FrameSamples(d.info))
  }

  /**
   * The answers of one round that get on the tape, with `held` samples in the ring and `stream` in force: in
   * order, until one finds no room, is an error, or changes the stream and is refused.
   */
  function RoundTape(held: nat, stream: StreamInfo, prev: StreamInfo, ds: seq<Decode>): seq<int>
    decreases ds
  {
    if ds == [] || held + FrameSamples(stream) > RING_SAMPLES || held + FrameSamples(ds[0].info) > RING_SAMPLES then []
    else
      var more := ds[0].ok && (Reconfigures(prev, ds[0].info) ==> ds[0].configOk);
      FrameTape(ds[0]) + if more then RoundTape(held + FrameSamples(ds[0].info), ds[0].info, prev, ds[1..]) else []
  }

  /** One round over the input: a header that can be read, and a payload the decoder takes whole. */
  function InputTape(dec: Aac, rest: Bytes, adts: bool, feed: Feed): seq<int>
    requires rest != []
  {
    var header := NextHeader(rest, adts);
    if header.Bad? || BytesLeft(feed.left, header.frameLength - header.headerSize, adts) != 0 then []
    else RoundTape(|dec.held|, dec.stream, dec.stream, feed.decodes)
  }

  /** All rounds over the input. */
  function LoopTape(r: Rounds, rest: Bytes, adts: bool, feeds: nat -> Feed, i: nat): seq<int>
    decreases |rest|
  {
    if rest == [] then [] else
      var (r', end, used) := InputRound(r, rest, adts, feeds(i));
      InputTape(r.dec, rest, adts, feeds(i)) + if end.None? then LoopTape(r', rest[used..], adts, feeds, i + 1) else []
  }

  /** The answers of a decoder that is flushed: `owed` samples, frame by frame, the last one cut, while there is room. */
  function FlushTape(owed: nat, room: int, flushes: nat -> FlushDecode, i: nat): seq<int>
    decreases owed
  {
    if owed == 0 then [] else
      var d := flushes(i);
      var n := if FrameSamples(d.info) > owed then owed else FrameSamples(d.info);
      if room < n then [] else Tape(d.pcm, n) + FlushTape(owed - n, room - n, flushes, i + 1)
  }

  lemma {:induction false} RoundsPlay(r: Rounds, prev: StreamInfo, ds: seq<Decode>)
    ensures DecodeRounds(r, prev, 0, ds).dec.held == r.dec.held + RoundTape(|r.dec.held|, r.dec.stream, prev, ds)
    decreases ds
  {
    if SpaceLeft(r.dec) >= FrameSamples(r.dec.stream) && ds != [] {
      var r' := DecodeOnce(r, prev, 0, ds[0]);
      if r'.failed || !ds[0].ok {
        assert FrameTape(ds[0]) + [] == FrameTape(ds[0]);
      } else {
        RoundsPlay(r', prev, ds[1..]);
        Associate(r.dec.held, FrameTape(ds[0]), RoundTape(|r'.dec.held|, r'.dec.stream, prev, ds[1..]));
      }
    }
  }

  lemma InputRoundPlays(r: Rounds, rest: Bytes, adts: bool, feed: Feed)
    requires rest != []
    ensures InputRound(r, rest, adts, feed).0.dec.held == r.dec.held + InputTape(r.dec, rest, adts, feed)
  {
    var header := NextHeader(rest, adts);
    if header.Good? && BytesLeft(feed.left, header.frameLength - header.headerSize, adts) == 0 {
      RoundsPlay(r, r.dec.stream, feed.decodes);
    }
  }

  lemma {:induction false} LoopPlays(r: Rounds, rest: Bytes, adts: bool, feeds: nat -> Feed, i: nat)
    ensures InputLoop(r, rest, adts, feeds, i).0.dec.held == r.dec.held + LoopTape(r, rest, adts, feeds, i)
    decreases |rest|
  {
    if rest != [] {
      var (r', end, used) := InputRound(r, rest, adts, feeds(i));
      InputRoundPlays(r, rest, adts, feeds(i));
      if end.None? {
        LoopPlays(r', rest[used..], adts, feeds, i + 1);
        Associate(r.dec.held, InputTape(r.dec, rest, adts, feeds(i)), LoopTape(r', rest[used..], adts, feeds, i + 1));
      }
    }
  }

  lemma {:induction false} DrainDecoderPlays(dec: Aac, flushes: nat -> FlushDecode, i: nat)
    ensures DrainDecoder(dec, flushes, i).held == dec.held + FlushTape(dec.compensated, SpaceLeft(dec), flushes, i)
    decreases dec.compensated
  {
    if dec.compensated > 0 {
      var d := flushes(i);
      var n := if FrameSamples(d.info) > dec.compensated then dec.compensated else FrameSamples(d.info);
      if SpaceLeft(dec) >= n {
        var next := dec.(stream := d.info, held := dec.held + Tape(d.pcm, n), compensated := dec.compensated - n);
        DrainDecoderPlays(next, flushes, i + 1);
        Associate(dec.held, Tape(d.pcm, n), FlushTape(next.compensated, SpaceLeft(next), flushes, i + 1));
      }
    }
  }

  /** The decoder after the input loop of a work, before it is entered into the list. */
  function AfterInput(dec: Aac, input: Input): Aac {
    InputLoop(Rounds(dec, [], false, false), input.view, input.adts, input.feeds, 0).0.dec
  }

  /** The samples a flush of the decoder gives. */
  function Added(dec: Aac, flushes: nat -> FlushDecode): seq<int> {
    FlushTape(dec.compensated, SpaceLeft(dec), flushes, 0)
  }

  /** The samples `input` gives. */
  function Decoded(dec: Aac, input: Input): seq<int> {
    LoopTape(Rounds(dec, [], false, false), input.view, input.adts, input.feeds, 0)
  }

  /** The samples the decoder gives for a request, in order. */
  function Entered(dec: Aac, job: Job): seq<int> {
    match job
    case Flush(flushes) => Added(dec, flushes)
    case DrainRequest(mode, flushes, _) => if mode.NoDrain? || mode.Chain? then [] else Added(dec, flushes)
    case Frame(w, input) =>
      if dec.error || (w.input.codecConfig && input.view != []) then []
      else Decoded(dec, input) + if w.input.eos && Enlists(dec, w, input) then Added(AfterInput(dec, input), input.flushes) else []
  }

  /** What becomes of samples that leave the ring. */
  datatype Exit = HandedOn(samples: seq<int>) | Discarded(samples: seq<int>) | Flushed(samples: seq<int>)

  /** The work makes up for the decoder's delay. */
  predicate MakesUp(dec: Aac, w: Work, input: Input) {
    var fed := AfterInput(dec, input);
    Enlists(dec, w, input) && !w.input.eos && fed.compensated < DelaySamples(fed.stream)
  }

  /** The samples a request takes out of the ring, in order: what the works are given, or what is thrown away. */
  function Left(dec: Aac, job: Job): Exit {
    match job
    case Flush(flushes) => Flushed(DrainDecoder(dec, flushes, 0).held)
    case DrainRequest(_, _, _) => HandedOn(Handed(Done(dec, job).calls))
    case Frame(w, input) =>
      if MakesUp(dec, w, input) then
        var missing := DelaySamples(AfterInput(dec, input).stream) - AfterInput(dec, input).compensated;
        Exit.Discarded(AtMost(AfterInput(dec, input).held, missing))
      else HandedOn(Handed(Done(dec, job).calls))
  }

  function AtMost(s: seq<int>, n: nat): seq<int> {
    if |s| > n then s[..n] else s
  }

  function EnteredAll(jobs: seq<Job>): seq<int> {
    if jobs == [] then [] else
      var n := |jobs| - 1;
      EnteredAll(jobs[..n]) + Entered(AfterJobs(jobs[..n]), jobs[n])
  }

  function LeftAll(jobs: seq<Job>): seq<int> {
    if jobs == [] then [] else
      var n := |jobs| - 1;
      LeftAll(jobs[..n]) + Left(AfterJobs(jobs[..n]), jobs[n]).samples
  }

  lemma DrainJobMoves(dec: Aac, mode: DrainMode, flushes: nat -> FlushDecode, blocks: nat -> bool)
    requires Accounts(dec) && !mode.NoDrain? && !mode.Chain?
    ensures var o := DrainStep(Outcome(dec, [], None), mode, flushes, blocks);
      dec.held + Added(dec, flushes) == Handed(o.calls) + o.dec.held
  {
    var o1 := Outcome(DrainDecoder(dec, flushes, 0), [], None);
    DrainDecoderPlays(dec, flushes, 0);
    DrainedHandsOn(o1, blocks, mode.WithEos?);
    assert Outcome(dec, [], None).(dec := o1.dec) == o1;
    assert Handed([]) + o1.dec.held == o1.dec.held;
  }

  lemma DrainedHandsOn(o: Outcome, blocks: nat -> bool, eos: bool)
    ensures var o' := DrainRing(o, blocks, eos, 0); HandsOn(o, if eos then EndStream(o') else o')
  {
    DrainRingHandsOn(o, blocks, eos, 0);
    EndStreamHandsOn(DrainRing(o, blocks, eos, 0));
  }

  /** The decoder when it comes to hand samples on to a work that is in its list now. */
  function Ready(dec: Aac, w: Work, input: Input): Aac {
    var (fed, sizes, end) := Fed(InputLoop(Rounds(dec, [], false, false), input.view, input.adts, input.feeds, 0));
    fed.(portDelay := PortDelay(fed), infos := fed.infos + [Info(w.frameIndex, sizes)])
  }

  lemma EnlistedStep(dec: Aac, w: Work, input: Input)
    requires Enlists(dec, w, input)
    ensures ProcessStep(dec, w, input) == HandOn(Ready(dec, w, input), Entry(w).(processed := 0), input)
    ensures var ready, fed := Ready(dec, w, input), AfterInput(dec, input);
      ready == fed.(portDelay := ready.portDelay, infos := ready.infos)
  {
  }

  /** Handing on keeps the tape. */
  lemma HandOnMoves(dec: Aac, w: Work, input: Input)
    requires Accounts(dec)
    ensures var o, missing := HandOn(dec, w, input), DelaySamples(dec.stream) - dec.compensated;
      dec.held + (if w.input.eos then Added(dec, input.flushes) else [])
      == (if !w.input.eos && missing > 0 then AtMost(dec.held, missing) else Handed(o.calls)) + o.dec.held
  {
    assert dec.held + [] == dec.held;
    if !w.input.eos && dec.compensated < DelaySamples(dec.stream) {
      DelayIsDiscardedFirst(dec, w, input);
    } else {
      SamplesInOrder(dec, w, input);
      DrainDecoderPlays(dec, input.flushes, 0);
    }
  }

  lemma EnlistedMoves(dec: Aac, w: Work, input: Input)
    requires Accounts(dec) && Enlists(dec, w, input)
    ensures var fed := AfterInput(dec, input);
      fed.held + (if w.input.eos then Added(fed, input.flushes) else [])
      == Left(dec, Frame(w, input)).samples + ProcessStep(dec, w, input).dec.held
  {
    InputLoopAccounts(Rounds(dec, [], false, false), input.view, input.adts, input.feeds, 0);
    EnlistedStep(dec, w, input);
    HandOnMoves(Ready(dec, w, input), Entry(w).(processed := 0), input);
  }

  lemma RefusedMoves(dec: Aac, w: Work, input: Input)
    requires !Enlists(dec, w, input)
    ensures Left(dec, Frame(w, input)).samples == []
    ensures ProcessStep(dec, w, input).dec.held
         == if dec.error || (w.input.codecConfig && input.view != []) then dec.held else AfterInput(dec, input).held
  {
  }

  lemma FrameMoves(dec: Aac, w: Work, input: Input)
    requires Accounts(dec)
    ensures dec.held + Entered(dec, Frame(w, input)) == Left(dec, Frame(w, input)).samples + ProcessStep(dec, w, input).dec.held
  {
    LoopPlays(Rounds(dec, [], false, false), input.view, input.adts, input.feeds, 0);
    if Enlists(dec, w, input) {
      EnlistedMoves(dec, w, input);
      Associate(dec.held, Decoded(dec, input), if w.input.eos then Added(AfterInput(dec, input), input.flushes) else []);
    } else {
      RefusedMoves(dec, w, input);
      Neutral(dec.held, Decoded(dec, input));
      Neutral(ProcessStep(dec, w, input).dec.held, []);
    }
  }

  lemma Neutral(a: seq<int>, b: seq<int>)
    ensures a + [] == a && [] + a == a && b + [] == b
  {
  }

  /** Every request keeps the tape: what was held, and what the decoder gives, is what is taken out, and what is held then. */
  lemma JobMoves(dec: Aac, job: Job)
    requires Accounts(dec)
    ensures dec.held + Entered(dec, job) == Left(dec, job).samples + Done(dec, job).dec.held
  {
    match job
    case Flush(flushes) => DrainDecoderPlays(dec, flushes, 0);
    case DrainRequest(mode, flushes, blocks) =>
      if !mode.NoDrain? && !mode.Chain? {
        DrainJobMoves(dec, mode, flushes, blocks);
      }
    case Frame(w, input) => FrameMoves(dec, w, input);
  }

  lemma Associate(a: seq<int>, b: seq<int>, c: seq<int>)
    ensures (a + b) + c == a + (b + c)
  {
  }

  /**
   * The tape: after any requests to a fresh decoder, all samples the decoder ever gave, in order and with
   * silence for its errors, are all that left the ring (each stretch handed on to works, discarded for the
   * decoder's delay, or flushed), in order, followed by those it holds.
   */
  lemma {:induction false} SampleTape(jobs: seq<Job>)
    ensures EnteredAll(jobs) == LeftAll(jobs) + AfterJobs(jobs).held
  {
    if jobs != [] {
      var n := |jobs| - 1;
      var before, job := AfterJobs(jobs[..n]), jobs[n];
      SampleTape(jobs[..n]);
      SampleAccounting(jobs[..n]);
      JobMoves(before, job);
      Associate(LeftAll(jobs[..n]), before.held, Entered(before, job));
      Associate(LeftAll(jobs[..n]), Left(before, job).samples, AfterJobs(jobs).held);
    }
  }
}
