/** ADTS framing of an AAC buffer: section 6.2 of ISO/IEC 13818-7. */
module Adts {

  type Bytes = seq<bv8>

  /** What the code makes of the bytes in front of it. */
  datatype Header = Bad | Good(headerSize: nat, frameLength: nat)

  /** aac_frame_length: 13 bits, from bit 30 of the header on. */
  function LengthField(h3: bv8, h4: bv8, h5: bv8): bv16 {
    (((h3 & 3) as bv16) << 11) | ((h4 as bv16) << 3) | ((h5 >> 5) as bv16)
  }

  function FrameLength(h: Bytes): nat
    requires |h| >= 7
  {
    LengthField(h[3], h[4], h[5]) as nat
  }

  /** Without protection_absent two CRC bytes follow the header. */
  function HeaderSize(h: Bytes): nat
    requires |h| >= 7
  {
    if h[1] & 1 != 0 then 7 else 9
  }

  function ReadHeader(rest: Bytes): (r: Header)
    ensures r.Good? ==> 7 <= r.headerSize <= r.frameLength <= |rest|
  {
    if |rest| < 7 then Bad
    else if |rest| < FrameLength(rest) then Bad
    else if FrameLength(rest) < HeaderSize(rest) then Bad
    else Good(HeaderSize(rest), FrameLength(rest))
  }

  /** The length a writer stores comes back, whatever else is in the three bytes. */
  lemma LengthFieldReadsBack(n: bv16, upper: bv8, lower: bv8)
    requires n < 0x2000
    ensures LengthField((upper & 0xFC) | ((n >> 11) as bv8), ((n >> 3) & 0xFF) as bv8, (((n & 7) as bv8) << 5) | (lower & 0x1F)) == n
  {
  }

  /** A frame: its header states its own length, and the header fits. */
  predicate IsFrame(f: Bytes) {
    |f| >= 7 && FrameLength(f) == |f| && HeaderSize(f) <= |f|
  }

  function Flatten(frames: seq<Bytes>): Bytes {
    if frames == [] then [] else frames[0] + Flatten(frames[1..])
  }

  ghost predicate FramedBy(buffer: Bytes, frames: seq<Bytes>) {
    Flatten(frames) == buffer && forall i :: 0 <= i < |frames| ==> IsFrame(frames[i])
  }

  /** The buffer is a concatenation of frames. */
  ghost predicate IsFramed(buffer: Bytes) {
    exists frames :: FramedBy(buffer, frames)
  }

  lemma EmptyIsFramed()
    ensures IsFramed([])
  {
    assert FramedBy([], []);
  }

  /** A buffer is framed exactly if a header can be read and what follows its frame is framed. */
  lemma FramedUnfold(buffer: Bytes)
    requires buffer != []
    ensures IsFramed(buffer) <==>
      ReadHeader(buffer).Good? && IsFramed(buffer[ReadHeader(buffer).frameLength..])
  {
    if IsFramed(buffer) {
      var frames :| FramedBy(buffer, frames);
      FrameOff(buffer, frames);
    }
    if ReadHeader(buffer).Good? && IsFramed(buffer[ReadHeader(buffer).frameLength..]) {
      var n := ReadHeader(buffer).frameLength;
      var rest :| FramedBy(buffer[n..], rest);
      FrameOn(buffer, n, rest);
    }
  }

  lemma FrameOff(buffer: Bytes, frames: seq<Bytes>)
    requires buffer != [] && FramedBy(buffer, frames)
    ensures ReadHeader(buffer).Good? && FramedBy(buffer[ReadHeader(buffer).frameLength..], frames[1..])
  {
    var n := |frames[0]|;
    assert IsFrame(frames[0]) && buffer[..n] == frames[0];
    HeaderOfFrame(buffer, n);
    assert buffer[n..] == Flatten(frames[1..]);
  }

  lemma FrameOn(buffer: Bytes, n: nat, rest: seq<Bytes>)
    requires n <= |buffer| && IsFrame(buffer[..n]) && FramedBy(buffer[n..], rest)
    ensures FramedBy(buffer, [buffer[..n]] + rest)
  {
    var frames := [buffer[..n]] + rest;
    assert frames[1..] == rest;
    assert buffer == buffer[..n] + buffer[n..];
  }

  lemma HeaderOfFrame(buffer: Bytes, n: nat)
    requires n <= |buffer| && IsFrame(buffer[..n])
    ensures ReadHeader(buffer) == Good(HeaderSize(buffer), n)
  {
    var f := buffer[..n];
    assert f[1] == buffer[1] && f[3] == buffer[3] && f[4] == buffer[4] && f[5] == buffer[5];
  }
}
