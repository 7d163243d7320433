/**
 * `C2AudioAacDecoder`: ADTS loop, ring buffer, delay compensation and the list of works that wait for
 * their samples.  The functions describe process(), drain() and onFlush_sm() as steps of the decoder's
 * private state; the class is the imperative code and performs exactly these steps.  What libAACdec, the
 * block pool and the configuration answer is an oracle.
 */
module AacDecoder {
  import opened Codec2
  import opened Adts
  import opened RingBuffer

  const TMP_SAMPLES := 2048 * 8                  // tmpOutBuffer
  const RING_SAMPLES := 2048 * 8 * 8             // the ring: kNumDelayBlocksMax such blocks
  const DEFAULT_OUTPUT_PORT_DELAY := 2

  /** What aacDecoder_GetStreamInfo shows. */
  datatype StreamInfo = StreamInfo(frameSize: nat, numChannels: nat, sampleRate: nat, outputDelay: nat)

  function FrameSamples(s: StreamInfo): nat {
    s.frameSize * s.numChannels
  }

  function DelaySamples(s: StreamInfo): nat {
    s.outputDelay * s.numChannels
  }

  /** One answer of aacDecoder_DecodeFrame; `configOk` is what a reconfiguration it causes would meet. */
  datatype DecodeAnswer = DecodeAnswer(ok: bool, consumed: int, info: StreamInfo, pcm: nat -> int, configOk: bool)

  /** The decoder is told the size of tmpOutBuffer. */
  type Decode = d: DecodeAnswer | FrameSamples(d.info) <= TMP_SAMPLES
    witness DecodeAnswer(true, 0, StreamInfo(0, 0, 0, 0), (i: nat) => 0, true)

  /** A decoder that is being flushed has samples to give. */
  type FlushDecode = d: DecodeAnswer | 0 < FrameSamples(d.info) <= TMP_SAMPLES
    witness DecodeAnswer(true, 0, StreamInfo(1, 1, 0, 0), (i: nat) => 0, true)

  /** How many bytes aacDecoder_Fill leaves, and the frames decoded until it wants more bits. */
  datatype Feed = Feed(left: nat, decodes: seq<Decode>)

  /** The input buffer of a work, and the answers its processing will meet. */
  datatype Input = Input(
    view: Bytes,
    adts: bool,
    csdOk: bool,
    feeds: nat -> Feed,
    portConfigOk: bool,
    flushes: nat -> FlushDecode,
    blocks: nat -> bool)

  datatype Info = Info(frameIndex: FrameIndex, decodedSizes: seq<int>)

  datatype Aac = Aac(
    infos: seq<Info>,               // mBuffersInfo
    held: seq<int>,                 // what the ring holds
    compensated: nat,               // mOutputDelayCompensated
    portDelay: nat,                 // mOutputPortDelay
    error: bool,                    // mSignalledError
    stream: StreamInfo,             // *mStreamInfo
    decoded: nat,                   // samples process() has put into the ring
    handedOn: nat,                  // samples handed on in output buffers
    flushed: nat)                   // samples thrown away by onFlush_sm

  const FRESH := Aac([], [], 0, DEFAULT_OUTPUT_PORT_DELAY, false, StreamInfo(0, 0, 0, 0), 0, 0, 0)

  /** What a fillWork function does to a work. */
  datatype Fill = Pcm(samples: seq<int>) | Empty(err: Status) | Ended

  /** One use of a fillWork function: on the current work itself, or through finish(). */
  datatype Call = Call(index: FrameIndex, own: bool, fill: Fill)

  datatype Outcome = Outcome(dec: Aac, calls: seq<Call>, work: Option<Work>)

  function Filled(w: Work, fill: Fill): Work {
    match fill
    case Pcm(samples) => w.(result := OK, output := w.input, buffers := [Samples(samples)], processed := 1)
    case Empty(err) => w.(result := err, output := w.input, buffers := [], processed := 1)
    case Ended => w.(output := w.input, buffers := [], processed := 1)
  }

  function SpaceLeft(dec: Aac): int {
    RING_SAMPLES - |dec.held|
  }

  function Tape(pcm: nat -> int, n: nat): (s: seq<int>)
    ensures |s| == n
  {
    seq(n, i requires 0 <= i < n => pcm(i))
  }

  // ---------------------------------------------------------------- decoding

  datatype Rounds = Rounds(dec: Aac, sizes: seq<int>, discard: bool, failed: bool)

  predicate Reconfigures(prev: StreamInfo, info: StreamInfo) {
    info.sampleRate != 0 && info.numChannels != 0
    && (info.sampleRate != prev.sampleRate || info.numChannels != prev.numChannels)
  }

  /** One frame from the decoder; on a decoding error silence takes its place. */
  function DecodeOnce(r: Rounds, prev: StreamInfo, left: nat, d: Decode): Rounds {
    var n := FrameSamples(d.info);
    var dec := r.dec.(stream := d.info);
    var sizes := r.sizes + [d.consumed];
    if left != 0 || SpaceLeft(dec) < n then
      Rounds(dec.(error := true), sizes, false, true)
    else
      var refused := Reconfigures(prev, d.info) && !d.configOk;
      var put := dec.(held := dec.held + Tape(if d.ok then d.pcm else (i: nat) => 0, n), decoded := dec.decoded + n);
      Rounds(put.(error := refused || dec.error), sizes, !d.ok, refused)
  }

  /** Decode until the decoder wants more bits, or the ring is full. */
  function DecodeRounds(r: Rounds, prev: StreamInfo, left: nat, ds: seq<Decode>): Rounds
    decreases ds
  {
    if SpaceLeft(r.dec) < FrameSamples(r.dec.stream) then r.(discard := true)
    else if ds == [] then r
    else
      var r' := DecodeOnce(r, prev, left, ds[0]);
      if r'.failed || !ds[0].ok then r' else DecodeRounds(r', prev, left, ds[1..])
  }

  /** How the loop over the input ends. */
  datatype End = Accepted | BadFraming | Discarded | DecoderFailed

  /** aacDecoder_Fill leaves at most what it got; of a raw buffer it takes something. */
  function BytesLeft(left: nat, length: nat, adts: bool): (l: nat)
    requires adts || length > 0
    ensures l <= length && (adts || l < length)
  {
    if left < length then left else if adts then length else length - 1
  }

  /** What is skipped and what is fed next. */
  function NextHeader(rest: Bytes, adts: bool): Header {
    if adts then ReadHeader(rest) else Good(0, |rest|)
  }

  /** One round of the loop over the input: how it ends the loop, or how many bytes it consumes. */
  function InputRound(r: Rounds, rest: Bytes, adts: bool, feed: Feed): (q: (Rounds, Option<End>, nat))
    requires rest != []
    ensures q.1.None? ==> 0 < q.2 <= |rest| && (adts ==> q.2 >= 7)
  {
    var header := NextHeader(rest, adts);
    if header.Bad? then (r.(dec := r.dec.(error := true)), Some(BadFraming), 0)
    else
      var left := BytesLeft(feed.left, header.frameLength - header.headerSize, adts);
      var r' := DecodeRounds(r, r.dec.stream, left, feed.decodes);
      if r'.failed then (r', Some(DecoderFailed), 0)
      else if r'.discard then (r', Some(Discarded), 0)
      else (r', None, header.frameLength - left)
  }

  function InputLoop(r: Rounds, rest: Bytes, adts: bool, feeds: nat -> Feed, i: nat): (Rounds, End)
    decreases |rest|
  {
    if rest == [] then (r, Accepted)
    else
      var (r', end, used) := InputRound(r, rest, adts, feeds(i));
      if end.Some? then (r', end.value) else InputLoop(r', rest[used..], adts, feeds, i + 1)
  }

  /** What matters of the loop's end: the state, the sizes of the frames, and why it ended. */
  function Fed(result: (Rounds, End)): (Aac, seq<int>, End) {
    (result.0.dec, result.0.sizes, result.1)
  }

  // ---------------------------------------------------------------- handing samples on

  /** The front entry of the list gets `n` samples, and leaves. */
  function FillFront(o: Outcome, n: nat, blockOk: bool): Outcome
    requires o.dec.infos != [] && n <= |o.dec.held|
  {
    var index := o.dec.infos[0].frameIndex;
    var own := o.work.Some? && o.work.value.frameIndex == index;
    var dec := o.dec.(infos := o.dec.infos[1..]);
    var fill := if n == 0 then Empty(OK) else if !blockOk then Empty(NoMemory) else Pcm(dec.held[..n]);
    Outcome(if fill.Pcm? then dec.(held := dec.held[n..], handedOn := dec.handedOn + n) else dec,
            o.calls + [Call(index, own, fill)],
            if own then Some(Filled(o.work.value, fill)) else o.work)
  }

  function Wanted(dec: Aac): nat
    requires dec.infos != []
  {
    |dec.infos[0].decodedSizes| * FrameSamples(dec.stream)
  }

  /** The loop condition of `drainRingBuffer`, and its `break`. */
  predicate RingStops(dec: Aac, eos: bool) {
    dec.infos == [] || |dec.held| < FrameSamples(dec.stream) || (|dec.held| < Wanted(dec) && !eos)
  }

  function DrainRing(o: Outcome, blocks: nat -> bool, eos: bool, i: nat): Outcome
    decreases |o.dec.infos|
  {
    if RingStops(o.dec, eos) then o
    else
      var n := if |o.dec.held| < Wanted(o.dec) then |o.dec.held| else Wanted(o.dec);
      DrainRing(FillFront(o, n, blocks(i)), blocks, eos, i + 1)
  }

  /** `drainDecoder`: the samples discarded at the start are added back. */
  function DrainDecoder(dec: Aac, flushes: nat -> FlushDecode, i: nat): Aac
    decreases dec.compensated
  {
    if dec.compensated == 0 then dec
    else
      var d := flushes(i);
      var n := if FrameSamples(d.info) > dec.compensated then dec.compensated else FrameSamples(d.info);
      if SpaceLeft(dec) < n then dec.(stream := d.info, error := true)
      else
        DrainDecoder(dec.(stream := d.info, held := dec.held + Tape(d.pcm, n), compensated := dec.compensated - n),
                     flushes, i + 1)
  }

  /** The entries in front of the last one leave empty-handed, through finish(). */
  function Leftovers(infos: seq<Info>): seq<Call> {
    if |infos| <= 1 then [] else [Call(infos[0].frameIndex, false, Ended)] + Leftovers(infos[1..])
  }

  /** The end of `drainInternal` at end of stream. */
  function EndStream(o: Outcome): Outcome {
    var calls := o.calls + Leftovers(o.dec.infos);
    var dec := o.dec.(infos := []);
    if o.work.Some? && o.work.value.processed == 0 then
      Outcome(dec, calls + [Call(o.work.value.frameIndex, true, Ended)], Some(Filled(o.work.value, Ended)))
    else
      Outcome(dec, calls, o.work)
  }

  function DrainStep(o: Outcome, mode: DrainMode, flushes: nat -> FlushDecode, blocks: nat -> bool): Outcome {
    if mode.NoDrain? || mode.Chain? then o
    else
      var o' := DrainRing(o.(dec := DrainDecoder(o.dec, flushes, 0)), blocks, mode.WithEos?, 0);
      if mode.WithEos? then EndStream(o') else o'
  }

  // ---------------------------------------------------------------- process

  function PortDelay(dec: Aac): nat {
    var n := FrameSamples(dec.stream);
    var needed := if n > 0 then (DelaySamples(dec.stream) + n - 1) / n else 0;
    if needed > dec.portDelay then needed else dec.portDelay
  }

  /** Samples of the decoder's own delay are discarded at the beginning. */
  function Compensate(dec: Aac): Aac
    requires dec.compensated < DelaySamples(dec.stream)
  {
    var missing := DelaySamples(dec.stream) - dec.compensated;
    var n := if |dec.held| > missing then missing else |dec.held|;
    dec.(held := dec.held[n..], compensated := dec.compensated + n)
  }

  function Entry(w: Work): Work {
    w.(result := OK, processed := 1, output := w.input)
  }

  /** After the input loop: `dec` waits for the works in its list, `w` is one of them now. */
  function HandOn(dec: Aac, w: Work, input: Input): Outcome {
    if !w.input.eos && dec.compensated < DelaySamples(dec.stream) then
      Outcome(Compensate(dec), [], Some(w))
    else if w.input.eos then
      DrainStep(Outcome(dec, [], Some(w)), WithEos, input.flushes, input.blocks)
    else
      DrainRing(Outcome(dec, [], Some(w)), input.blocks, false, 0)
  }

  function ProcessStep(dec: Aac, work: Work, input: Input): Outcome {
    var w := Entry(work);
    if dec.error then
      Outcome(dec, [], Some(w))
    else if w.input.codecConfig && input.view != [] then
      if input.csdOk then Outcome(dec, [], Some(w.(buffers := [])))
      else Outcome(dec.(error := true), [], Some(w.(result := Corrupted)))
    else
      var (fed, sizes, end) := Fed(InputLoop(Rounds(dec, [], false, false), input.view, input.adts, input.feeds, 0));
      var refused := PortDelay(fed) > fed.portDelay && !input.portConfigOk;
      var ready := fed.(portDelay := PortDelay(fed));
      if end.BadFraming? || end.DecoderFailed? then
        Outcome(fed, [], Some(w.(result := Corrupted)))
      else if refused then
        Outcome(ready.(error := true), [], Some(w.(result := Corrupted)))
      else
        HandOn(ready.(infos := ready.infos + [Info(w.frameIndex, sizes)]), w.(processed := 0), input)
  }

  /** `onFlush_sm`. */
  function FlushStep(dec: Aac, flushes: nat -> FlushDecode): Aac {
    var drained := DrainDecoder(dec, flushes, 0);
    drained.(infos := [], held := [], flushed := drained.flushed + |drained.held|)
  }

  class C2AudioAacDecoder {
    const ring: Ring
    var mBuffersInfo: seq<Info>
    var mOutputDelayCompensated: nat
    var mOutputPortDelay: nat
    var mSignalledError: bool
    var mStreamInfo: StreamInfo
    var calls: seq<Call>              // the works filled by the call now running
    ghost var decoded: nat
    ghost var handedOn: nat
    ghost var flushed: nat

    ghost predicate Valid()
      reads this, ring, ring.buffer
    {
      ring.Valid() && ring.buffer.Length == RING_SAMPLES && FrameSamples(mStreamInfo) <= TMP_SAMPLES
    }

    ghost function State(): (s: Aac)
      requires Valid()
      reads this, ring, ring.buffer
      ensures |s.held| == ring.filled <= RING_SAMPLES
    {
      Aac(mBuffersInfo, ring.Contents(), mOutputDelayCompensated, mOutputPortDelay, mSignalledError, mStreamInfo,
          decoded, handedOn, flushed)
    }

    constructor ()
      ensures Valid() && fresh(ring) && fresh(ring.buffer) && State() == FRESH && calls == []
    {
      ring := new Ring(RING_SAMPLES);
      mBuffersInfo, mOutputDelayCompensated, mOutputPortDelay := [], 0, DEFAULT_OUTPUT_PORT_DELAY;
      mSignalledError, mStreamInfo, calls := false, StreamInfo(0, 0, 0, 0), [];
      decoded, handedOn, flushed := 0, 0, 0;
    }

    /** tmpOutBuffer after aacDecoder_DecodeFrame, into the ring. */
    method PutFrame(pcm: nat -> int, numSamples: nat) returns (ok: bool)
      requires Valid() && numSamples <= TMP_SAMPLES
      modifies ring, ring.buffer
      ensures Valid() && ok == (numSamples <= SpaceLeft(old(State())))
      ensures State() == if ok then old(State()).(held := old(State().held) + Tape(pcm, numSamples)) else old(State())
    {
      var tmpOutBuffer := new int[TMP_SAMPLES](i requires 0 <= i => pcm(i));
      assert tmpOutBuffer[..numSamples] == Tape(pcm, numSamples);
      ok := ring.PutSamples(tmpOutBuffer, numSamples);
    }

    /** The body of the decoding loop, from aacDecoder_DecodeFrame on. */
    method DecodeRound(sizes: seq<int>, prev: StreamInfo, left: nat, d: Decode)
        returns (sizes': seq<int>, discard: bool, failed: bool)
      requires Valid()
      modifies this, ring, ring.buffer
      ensures Valid() && calls == old(calls)
      ensures Rounds(State(), sizes', discard, failed) == DecodeOnce(Rounds(old(State()), sizes, false, false), prev, left, d)
    {
      mStreamInfo := d.info;
      sizes', discard, failed := sizes + [d.consumed], false, false;
      if left != 0 {
        mSignalledError := true;
        return sizes', false, true;
      }
      var numSamples := mStreamInfo.frameSize * mStreamInfo.numChannels;
      var ok;
      if d.ok {
        ok := PutFrame(d.pcm, numSamples);
      } else {
        ok := PutFrame((i: nat) => 0, numSamples);
      }
      if !ok {
        mSignalledError := true;
        return sizes', false, true;
      }
      decoded := decoded + numSamples;
      discard := !d.ok;
      if mStreamInfo.sampleRate == 0 || mStreamInfo.numChannels == 0 {
        // an invalid AAC stream: nothing is reported
      } else if mStreamInfo.sampleRate != prev.sampleRate || mStreamInfo.numChannels != prev.numChannels {
        if !d.configOk {
          mSignalledError := true;
          failed := true;
        }
      }
    }

    method DecodeAll(sizes: seq<int>, prev: StreamInfo, left: nat, ds: seq<Decode>)
        returns (sizes': seq<int>, discard: bool, failed: bool)
      requires Valid()
      modifies this, ring, ring.buffer
      ensures Valid() && calls == old(calls)
      ensures Rounds(State(), sizes', discard, failed) == DecodeRounds(Rounds(old(State()), sizes, false, false), prev, left, ds)
    {
      sizes', discard, failed := sizes, false, false;
      var i, decoderOk := 0, true;
      ghost var whole := DecodeRounds(Rounds(State(), sizes, false, false), prev, left, ds);
      while decoderOk
        invariant i <= |ds| && Valid() && calls == old(calls)
        invariant decoderOk ==> !discard && !failed
        invariant whole == if decoderOk then DecodeRounds(Rounds(State(), sizes', false, false), prev, left, ds[i..])
                           else Rounds(State(), sizes', discard, failed)
        decreases decoderOk, |ds| - i
      {
        var spaceLeft := ring.SpaceLeft();
        if spaceLeft < mStreamInfo.frameSize * mStreamInfo.numChannels {
          discard := true;
          break;
        }
        if i == |ds| {
          break;
        }
        sizes', discard, failed := DecodeRound(sizes', prev, left, ds[i]);
        decoderOk := ds[i].ok && !failed;
        i := i + 1;
      }
    }

    /** The header of the next frame is stepped over; a raw buffer is taken as it is. */
    method StepOverHeader(view: Bytes, offset: nat, size: nat, adts: bool)
        returns (bad: bool, offset': nat, size': nat, length: nat)
      requires size > 0 && offset + size == |view|
      ensures var header := NextHeader(view[offset..], adts);
        bad == header.Bad? &&
        (!bad ==> offset' == offset + header.headerSize && length == header.frameLength - header.headerSize
                  && offset' + size' == |view| && length <= size')
    {
      bad, offset', size', length := false, offset, size, size;
      if adts {
        var header := ReadHeader(view[offset..]);
        if header.Bad? {
          return true, offset, size, 0;
        }
        offset' := offset' + header.headerSize;
        size' := size' - header.headerSize;
        length := header.frameLength - header.headerSize;
      }
    }

    /** One round of the loop over the input buffer. */
    method FeedNext(view: Bytes, offset: nat, size: nat, adts: bool, feed: Feed, sizes: seq<int>)
        returns (offset': nat, size': nat, sizes': seq<int>, end: Option<End>)
      requires Valid() && size > 0 && offset + size == |view|
      modifies this, ring, ring.buffer
      ensures Valid() && calls == old(calls)
      ensures var (r, e, used) := InputRound(Rounds(old(State()), sizes, false, false), view[offset..], adts, feed);
        && State() == r.dec && sizes' == r.sizes && end == e
        && (end.None? ==> !r.discard && !r.failed && offset' == offset + used && offset' + size' == |view|)
    {
      var bad, length;
      end, sizes' := None, sizes;
      bad, offset', size', length := StepOverHeader(view, offset, size, adts);
      if bad {
        mSignalledError := true;
        end := Some(BadFraming);
        return;
      }
      var left := BytesLeft(feed.left, length, adts);
      size' := size' - (length - left);
      offset' := offset' + (length - left);
      var discard, failed;
      sizes', discard, failed := DecodeAll(sizes, mStreamInfo, left, feed.decodes);
      if failed {
        end := Some(DecoderFailed);
      } else if discard {
        end := Some(Discarded);
      }
    }

    /** The loop over the input buffer: what is not yet consumed is always its end. */
    method DecodeInput(view: Bytes, adts: bool, feeds: nat -> Feed) returns (sizes: seq<int>, end: End)
      requires Valid()
      modifies this, ring, ring.buffer
      ensures Valid() && calls == old(calls)
      ensures (State(), sizes, end) == Fed(InputLoop(Rounds(old(State()), [], false, false), view, adts, feeds, 0))
    {
      var offset: nat, size: nat, i := 0, |view|, 0;
      sizes, end := [], Accepted;
      ghost var whole := InputLoop(Rounds(State(), [], false, false), view, adts, feeds, 0);
      assert view[0..] == view;
      while size > 0
        invariant Valid() && calls == old(calls) && offset + size == |view|
        invariant whole == InputLoop(Rounds(State(), sizes, false, false), view[offset..], adts, feeds, i)
        decreases size
      {
        ghost var start := offset;
        var ended;
        offset, size, sizes, ended := FeedNext(view, offset, size, adts, feeds(i), sizes);
        if ended.Some? {
          return sizes, ended.value;
        }
        EndOfEnd(view, start, offset);
        i := i + 1;
      }
    }

    /** The works that have their samples, or at end of stream what is left of them, are filled. */
    method DrainRingBuffer(work: Option<Work>, blocks: nat -> bool, eos: bool) returns (work': Option<Work>)
      requires Valid()
      modifies this, ring, ring.buffer
      ensures Valid()
      ensures Outcome(State(), calls, work') == DrainRing(Outcome(old(State()), old(calls), work), blocks, eos, 0)
    {
      work' := work;
      var i, stop := 0, false;
      ghost var whole := DrainRing(Outcome(State(), calls, work'), blocks, eos, 0);
      while !stop && mBuffersInfo != [] && ring.filled >= mStreamInfo.frameSize * mStreamInfo.numChannels
        invariant Valid() && whole == DrainRing(Outcome(State(), calls, work'), blocks, eos, i)
        invariant stop ==> RingStops(State(), eos)
        decreases |mBuffersInfo|, !stop
      {
        var available := ring.SamplesAvailable();
        var numFrames := |mBuffersInfo[0].decodedSizes|;
        var numSamples := numFrames * (mStreamInfo.frameSize * mStreamInfo.numChannels);
        assert numSamples == Wanted(State());
        if available < numSamples {
          if eos {
            numSamples := available;
          } else {
            stop := true;
          }
        }
        if !stop {
          work' := FillNext(work', numSamples, blocks(i));
          i := i + 1;
        }
      }
    }

    /** One round of drainRingBuffer. */
    method FillNext(work: Option<Work>, numSamples: nat, blockOk: bool) returns (work': Option<Work>)
      requires Valid() && mBuffersInfo != [] && numSamples <= ring.filled
      modifies this, ring, ring.buffer
      ensures Valid()
      ensures Outcome(State(), calls, work') == FillFront(Outcome(old(State()), old(calls), work), numSamples, blockOk)
    {
      var index := mBuffersInfo[0].frameIndex;
      var fill := TakeBlock(numSamples, blockOk);
      var own := work.Some? && work.value.frameIndex == index;
      calls := calls + [Call(index, own, fill)];
      work' := if own then Some(Filled(work.value, fill)) else work;
      mBuffersInfo := mBuffersInfo[1..];
    }

    method TakeBlock(numSamples: nat, blockOk: bool) returns (fill: Fill)
      requires Valid() && numSamples <= ring.filled
      modifies this`handedOn, ring
      ensures Valid()
      ensures fill == if numSamples == 0 then Empty(OK) else if !blockOk then Empty(NoMemory)
                      else Pcm(old(State().held)[..numSamples])
      ensures State() == if fill.Pcm? then old(State()).(held := old(State().held)[numSamples..],
                                                         handedOn := old(handedOn) + numSamples)
                         else old(State())
    {
      if numSamples == 0 {
        return Empty(OK);
      }
      if !blockOk {
        return Empty(NoMemory);
      }
      var block := new int[numSamples];
      var ns := ring.GetSamples(block, numSamples);
      assert ns == numSamples;
      assert block[..] == old(State().held)[..numSamples];
      handedOn := handedOn + numSamples;
      fill := Pcm(block[..]);
    }

    /** The decoder is flushed until what was discarded at the beginning has been added back. */
    method DrainDecoderLoop(flushes: nat -> FlushDecode)
      requires Valid()
      modifies this, ring, ring.buffer
      ensures Valid() && calls == old(calls)
      ensures State() == DrainDecoder(old(State()), flushes, 0)
    {
      var i := 0;
      ghost var whole := DrainDecoder(State(), flushes, 0);
      while mOutputDelayCompensated > 0
        invariant Valid() && calls == old(calls)
        invariant whole == DrainDecoder(State(), flushes, i)
        decreases mOutputDelayCompensated
      {
        var ok := AddBack(flushes(i));
        if !ok {
          return;
        }
        i := i + 1;
      }
    }

    /** One round of drainDecoder. */
    method AddBack(d: FlushDecode) returns (ok: bool)
      requires Valid() && mOutputDelayCompensated > 0
      modifies this, ring, ring.buffer
      ensures Valid() && calls == old(calls)
      ensures var dec := old(State());
        var n := if FrameSamples(d.info) > dec.compensated then dec.compensated else FrameSamples(d.info);
        && ok == (SpaceLeft(dec) >= n)
        && State() == if ok then dec.(stream := d.info, held := dec.held + Tape(d.pcm, n), compensated := dec.compensated - n)
                      else dec.(stream := d.info, error := true)
    {
      mStreamInfo := d.info;
      var tmpOutBufferSamples := mStreamInfo.frameSize * mStreamInfo.numChannels;
      if tmpOutBufferSamples > mOutputDelayCompensated {
        tmpOutBufferSamples := mOutputDelayCompensated;
      }
      ok := PutFrame(d.pcm, tmpOutBufferSamples);
      if ok {
        mOutputDelayCompensated := mOutputDelayCompensated - tmpOutBufferSamples;
      } else {
        mSignalledError := true;
      }
    }

    method DrainInternal(mode: DrainMode, work: Option<Work>, flushes: nat -> FlushDecode, blocks: nat -> bool)
        returns (work': Option<Work>)
      requires Valid()
      modifies this, ring, ring.buffer
      ensures Valid()
      ensures Outcome(State(), calls, work') == DrainStep(Outcome(old(State()), old(calls), work), mode, flushes, blocks)
    {
      if mode.NoDrain? || mode.Chain? {
        return work;
      }
      DrainDecoderLoop(flushes);
      work' := DrainRingBuffer(work, blocks, mode.WithEos?);
      if mode.WithEos? {
        ghost var whole := EndStream(Outcome(State(), calls, work'));
        while |mBuffersInfo| > 1
          invariant Valid() && whole == EndStream(Outcome(State(), calls, work'))
          decreases |mBuffersInfo|
        {
          LeftoversOneLess(calls, mBuffersInfo);
          calls := calls + [Call(mBuffersInfo[0].frameIndex, false, Ended)];
          mBuffersInfo := mBuffersInfo[1..];
        }
        if work'.Some? && work'.value.processed == 0 {
          calls := calls + [Call(work'.value.frameIndex, true, Ended)];
          work' := Some(Filled(work'.value, Ended));
        }
        mBuffersInfo := [];
      }
    }

    method Drain(mode: DrainMode, flushes: nat -> FlushDecode, blocks: nat -> bool)
      requires Valid()
      modifies this, ring, ring.buffer
      ensures Valid()
      ensures Outcome(State(), calls, None) == DrainStep(Outcome(old(State()), [], None), mode, flushes, blocks)
    {
      calls := [];
      var none := DrainInternal(mode, None, flushes, blocks);
      DrainWithoutWork(Outcome(old(State()), [], None), mode, flushes, blocks);
    }

    method Process(work: Work, input: Input) returns (work': Work)
      requires Valid()
      modifies this, ring, ring.buffer
      ensures Valid()
      ensures Outcome(State(), calls, Some(work')) == ProcessStep(old(State()), work, input)
    {
      calls := [];
      work' := work.(result := OK, processed := 1, output := work.input);
      if mSignalledError {
        return;
      }
      if work.input.codecConfig && |input.view| > 0 {
        if !input.csdOk {
          mSignalledError := true;
          work' := work'.(result := Corrupted);
          return;
        }
        work' := work'.(buffers := []);
        return;
      }
      var sizes, end := DecodeInput(input.view, input.adts, input.feeds);
      if end.BadFraming? || end.DecoderFailed? {
        work' := work'.(result := Corrupted);
        return;
      }
      var ok := RaisePortDelay(input.portConfigOk);
      if !ok {
        work' := work'.(processed := 1, result := Corrupted);
        return;
      }
      mBuffersInfo := mBuffersInfo + [Info(work.frameIndex, sizes)];
      work' := work'.(processed := 0);
      work' := HandOnSamples(work', input);
    }

    /** The output port delay grows with the decoder's own; the interface may refuse it. */
    method RaisePortDelay(configOk: bool) returns (ok: bool)
      requires Valid()
      modifies this
      ensures Valid() && calls == old(calls)
      ensures var old' := old(State()); var needed := PortDelay(old');
        ok == !(needed > old'.portDelay && !configOk) &&
        State() == old'.(portDelay := needed, error := old'.error || !ok)
    {
      ok := true;
      var outputDelay := mStreamInfo.outputDelay * mStreamInfo.numChannels;
      var numSamplesInOutput := mStreamInfo.frameSize * mStreamInfo.numChannels;
      if numSamplesInOutput > 0 {
        var actualOutputPortDelay := (outputDelay + numSamplesInOutput - 1) / numSamplesInOutput;
        if actualOutputPortDelay > mOutputPortDelay {
          mOutputPortDelay := actualOutputPortDelay;
          if !configOk {
            mSignalledError := true;
            ok := false;
          }
        }
      }
    }

    method HandOnSamples(work: Work, input: Input) returns (work': Work)
      requires Valid() && calls == []
      modifies this, ring, ring.buffer
      ensures Valid()
      ensures Outcome(State(), calls, Some(work')) == HandOn(old(State()), work, input)
    {
      var outputDelay := mStreamInfo.outputDelay * mStreamInfo.numChannels;
      if !work.input.eos && mOutputDelayCompensated < outputDelay {
        var toCompensate := outputDelay - mOutputDelayCompensated;
        var discard := ring.SamplesAvailable();
        if discard > toCompensate {
          discard := toCompensate;
        }
        var discarded := ring.GetSamples(null, discard);
        mOutputDelayCompensated := mOutputDelayCompensated + discarded;
        return work;
      }
      var filled: Option<Work>;
      if work.input.eos {
        filled := DrainInternal(WithEos, Some(work), input.flushes, input.blocks);
        DrainKeepsWork(Outcome(old(State()), [], Some(work)), WithEos, input.flushes, input.blocks);
      } else {
        filled := DrainRingBuffer(Some(work), input.blocks, false);
        RingKeepsWork(Outcome(old(State()), [], Some(work)), input.blocks, false, 0);
      }
      work' := filled.value;
    }

    /** The ring is emptied frame by frame; the positions meet. */
    method OnFlush(flushes: nat -> FlushDecode)
      requires Valid() && (mOutputDelayCompensated == 0 && ring.filled > 0 ==> FrameSamples(mStreamInfo) > 0)
      modifies this, ring, ring.buffer
      ensures Valid() && calls == old(calls)
      ensures State() == FlushStep(old(State()), flushes)
      ensures ring.readPos == ring.writePos && ring.filled == 0
    {
      DrainDecoderLoop(flushes);
      DrainedStream(old(State()), flushes, 0);
      mBuffersInfo := [];
      ghost var drained := State();
      var avail := ring.SamplesAvailable();
      while avail > 0
        invariant Valid() && calls == old(calls) && avail == ring.filled
        invariant State() == drained.(held := ring.Contents(), flushed := flushed)
        invariant flushed + ring.filled == drained.flushed + |drained.held|
        decreases avail
      {
        if avail > mStreamInfo.frameSize * mStreamInfo.numChannels {
          avail := mStreamInfo.frameSize * mStreamInfo.numChannels;
        }
        var ns := ring.GetSamples(null, avail);
        assert ns == avail;
        flushed := flushed + avail;
        avail := ring.SamplesAvailable();
      }
      ring.readPos := ring.writePos;
    }
  }

  lemma EndOfEnd(view: Bytes, from: nat, to: nat)
    requires from <= to <= |view|
    ensures view[from..][to - from..] == view[to..]
  {
  }

  lemma LeftoversOneLess(calls: seq<Call>, infos: seq<Info>)
    requires |infos| > 1
    ensures (calls + [Call(infos[0].frameIndex, false, Ended)]) + Leftovers(infos[1..]) == calls + Leftovers(infos)
  {
  }

  /** drainRingBuffer leaves a current work a current work, and makes none. */
  lemma {:induction false} RingKeepsWork(o: Outcome, blocks: nat -> bool, eos: bool, i: nat)
    ensures var o' := DrainRing(o, blocks, eos, i);
      && o'.work.Some? == o.work.Some?
      && (o.work.Some? ==> SameWork(o.work.value, o'.work.value))
    decreases |o.dec.infos|
  {
    if !RingStops(o.dec, eos) {
      var n := if |o.dec.held| < Wanted(o.dec) then |o.dec.held| else Wanted(o.dec);
      RingKeepsWork(FillFront(o, n, blocks(i)), blocks, eos, i + 1);
    }
  }

  lemma DrainKeepsWork(o: Outcome, mode: DrainMode, flushes: nat -> FlushDecode, blocks: nat -> bool)
    ensures var o' := DrainStep(o, mode, flushes, blocks);
      && o'.work.Some? == o.work.Some?
      && (o.work.Some? ==> SameWork(o.work.value, o'.work.value))
  {
    RingKeepsWork(o.(dec := DrainDecoder(o.dec, flushes, 0)), blocks, mode.WithEos?, 0);
  }

  lemma DrainWithoutWork(o: Outcome, mode: DrainMode, flushes: nat -> FlushDecode, blocks: nat -> bool)
    requires o.work.None?
    ensures DrainStep(o, mode, flushes, blocks).work.None?
  {
    DrainKeepsWork(o, mode, flushes, blocks);
  }

  /** A decoder that had something to add back has shown its frame size. */
  lemma {:induction false} DrainedStream(dec: Aac, flushes: nat -> FlushDecode, i: nat)
    ensures dec.compensated > 0 ==> FrameSamples(DrainDecoder(dec, flushes, i).stream) > 0
    decreases dec.compensated
  {
    if dec.compensated > 0 {
      var d := flushes(i);
      var n := if FrameSamples(d.info) > dec.compensated then dec.compensated else FrameSamples(d.info);
      if SpaceLeft(dec) >= n {
        var next := dec.(stream := d.info, held := dec.held + Tape(d.pcm, n), compensated := dec.compensated - n);
        DrainedStream(next, flushes, i + 1);
      }
    }
  }
}
