/**
 * The AC-3 / E-AC-3 header scanner: sync search, byte order, and the frame size, after section 5.4.1.4 and
 * Annex E, section 2.3.1.3, of ATSC A/52.
 */
module Ac3Header {

  type Bytes = seq<bv8>

  const HEADER_BYTES := 12

  /** `aml_ac3_frame_size_tab`: 16-bit words per frame, by frame size code and sample rate code. */
  const FRAME_SIZE_TAB: seq<(nat, nat, nat)> := [
    (64, 69, 96), (64, 70, 96), (80, 87, 120), (80, 88, 120), (96, 104, 144), (96, 105, 144),
    (112, 121, 168), (112, 122, 168), (128, 139, 192), (128, 140, 192), (160, 174, 240), (160, 175, 240),
    (192, 208, 288), (192, 209, 288), (224, 243, 336), (224, 244, 336), (256, 278, 384), (256, 279, 384),
    (320, 348, 480), (320, 349, 480), (384, 417, 576), (384, 418, 576), (448, 487, 672), (448, 488, 672),
    (512, 557, 768), (512, 558, 768), (640, 696, 960), (640, 697, 960), (768, 835, 1152), (768, 836, 1152),
    (896, 975, 1344), (896, 976, 1344), (1024, 1114, 1536), (1024, 1115, 1536), (1152, 1253, 1728),
    (1152, 1254, 1728), (1280, 1393, 1920), (1280, 1394, 1920)]

  function FrameWords(code: nat, rate: nat): nat
    requires code < |FRAME_SIZE_TAB| && rate < 3
  {
    match rate
    case 0 => FRAME_SIZE_TAB[code].0
    case 1 => FRAME_SIZE_TAB[code].1
    case 2 => FRAME_SIZE_TAB[code].2
  }

  /**
   * The table follows from the bit rates: the words at 32 kHz are one and a half times those at 48 kHz, and
   * at 44.1 kHz they are 160/147 of them, rounded down for even codes and one more for odd ones.
   */
  lemma TableFollowsRates(code: nat)
    requires code < |FRAME_SIZE_TAB|
    ensures |FRAME_SIZE_TAB| == 38
    ensures 2 * FrameWords(code, 2) == 3 * FrameWords(code, 0)
    ensures FrameWords(code, 1) == FrameWords(code, 0) * 160 / 147 + code % 2
  {
  }

  /** `check_ac3_syncword` at `buf[i]`: 0 for none, 1 in order, 2 with swapped bytes. */
  function CheckSyncword(buf: Bytes, i: nat): nat
    requires i <= |buf|
  {
    if |buf| - i < 2 then 0
    else if buf[i] == 0x0b && buf[i + 1] == 0x77 then 1
    else if buf[i] == 0x77 && buf[i + 1] == 0x0b then 2
    else 0
  }

  /** The least position from `i` on that holds a sync word of either order, or the end. */
  function FirstSync(buf: Bytes, i: nat): (k: nat)
    requires i <= |buf|
    ensures i <= k <= |buf|
    ensures k < |buf| ==> CheckSyncword(buf, k) > 0
    ensures forall j :: i <= j < k ==> CheckSyncword(buf, j) == 0
    decreases |buf| - i
  {
    if i == |buf| || CheckSyncword(buf, i) > 0 then i else FirstSync(buf, i + 1)
  }

  /** Every 16-bit word with its two bytes exchanged; an odd last byte stays. */
  function Swapped(s: Bytes): (t: Bytes)
    ensures |t| == |s|
  {
    seq(|s|, k requires 0 <= k < |s| => if k % 2 == 1 then s[k - 1] else if k + 1 < |s| then s[k + 1] else s[k])
  }

  /** What the twelve header bytes say; `isEc3` is missing if the bit stream id is refused. */
  datatype Verdict = BadId | BadCode(isEc3: bool) | Frame(isEc3: bool, size: nat)

  function BitStreamId(h: Bytes): nat
    requires |h| == HEADER_BYTES
  {
    ((h[5] >> 3) & 0x1f) as nat
  }

  function RateCode(h: Bytes): nat
    requires |h| == HEADER_BYTES
  {
    (h[4] >> 6) as nat
  }

  function SizeCode(h: Bytes): nat
    requires |h| == HEADER_BYTES
  {
    (h[4] & 0x3F) as nat
  }

  /** `frmsiz`: eleven bits. */
  function FrameSizeField(h: Bytes): (n: nat)
    requires |h| == HEADER_BYTES
    ensures n < 0x800
  {
    (h[2] & 7) as nat * 0x100 + h[3] as nat
  }

  function ReadHeader(h: Bytes): Verdict
    requires |h| == HEADER_BYTES
  {
    var bsid := BitStreamId(h);
    if bsid > 16 then BadId
    else if bsid > 10 then Frame(true, (FrameSizeField(h) + 1) * 2)
    else if RateCode(h) == 3 || SizeCode(h) > 37 then BadCode(false)
    else Frame(false, FrameWords(SizeCode(h), RateCode(h)) * 2)
  }

  /** The header that starts at `k`, in order. */
  function HeaderAt(buf: Bytes, k: nat): (h: Bytes)
    requires k + HEADER_BYTES <= |buf|
    ensures |h| == HEADER_BYTES
  {
    var h := buf[k..k + HEADER_BYTES];
    if CheckSyncword(buf, k) == 2 then Swapped(h) else h
  }

  /** The results a caller sees; what an error leaves untouched keeps its value. */
  datatype Outputs = Outputs(frameSize: int, offset: int, isEc3: bool)

  /** The whole scan: whether it fails, and the outputs. */
  function Scan(buf: Bytes, before: Outputs): (bool, Outputs) {
    var k := FirstSync(buf, 0);
    if k == |buf| then (true, before)
    else
      var found := before.(offset := k);
      if k + HEADER_BYTES > |buf| then (true, found)
      else
        match ReadHeader(HeaderAt(buf, k))
        case BadId => (true, found)
        case BadCode(isEc3) => (true, found.(isEc3 := isEc3))
        case Frame(isEc3, size) => (false, Outputs(size, k, isEc3))
  }

  method SwapBytes(a: array<bv8>)
    requires a.Length % 2 == 0
    modifies a
    ensures a[..] == Swapped(old(a[..]))
  {
    ghost var was := a[..];
    for idx := 0 to a.Length / 2
      invariant a[..] == Swapped(was[..2 * idx]) + was[2 * idx..]
    {
      SwapNext(was, idx, a[..]);
      a[2 * idx], a[2 * idx + 1] := a[2 * idx + 1], a[2 * idx];
    }
    assert was[..a.Length] == was;
  }

  lemma SwapNext(was: Bytes, idx: nat, now: Bytes)
    requires 2 * idx + 2 <= |was| && now == Swapped(was[..2 * idx]) + was[2 * idx..]
    ensures now[2 * idx] == was[2 * idx] && now[2 * idx + 1] == was[2 * idx + 1]
    ensures now[2 * idx := was[2 * idx + 1]][2 * idx + 1 := was[2 * idx]] == Swapped(was[..2 * idx + 2]) + was[2 * idx + 2..]
  {
    var n := 2 * idx;
    var done, more := Swapped(was[..n]), Swapped(was[..n + 2]);
    assert more == done + [was[n + 1], was[n]];
  }

  /** `parse_frame_header`. */
  method ParseFrameHeader(buf: Bytes, before: Outputs) returns (failed: bool, out: Outputs)
    ensures (failed, out) == Scan(buf, before)
  {
    out := before;
    var header, i := 0, 0;
    while i < |buf|
      invariant i <= |buf| && header == 0 && out == before
      invariant FirstSync(buf, 0) == FirstSync(buf, i)
    {
      header := CheckSyncword(buf, i);
      if header > 0 {
        out := out.(offset := i);
        break;
      }
      i := i + 1;
    }
    if header == 0 {
      return true, out;
    }
    if |buf| - out.offset < 12 {
      return true, out;
    }
    var inheader := new bv8[12](k requires 0 <= k < 12 => buf[i + k]);
    assert inheader[..] == buf[i..i + 12];
    if header == 2 {
      SwapBytes(inheader);
    }
    assert inheader[..] == HeaderAt(buf, i);
    failed, out := ReadFields(inheader[..], out);
  }

  /** From the bit stream id on. */
  method ReadFields(h: Bytes, before: Outputs) returns (failed: bool, out: Outputs)
    requires |h| == HEADER_BYTES
    ensures match ReadHeader(h)
      case BadId => failed && out == before
      case BadCode(isEc3) => failed && out == before.(isEc3 := isEc3)
      case Frame(isEc3, size) => !failed && out == before.(isEc3 := isEc3, frameSize := size)
  {
    out := before;
    var nIsEc3 := false;
    var bsid := BitStreamId(h);
    if bsid > 16 {
      return true, out;
    }
    if bsid <= 8 {
      nIsEc3 := false;
    } else if bsid <= 16 && bsid > 10 {
      nIsEc3 := true;
    }
    out := out.(isEc3 := nIsEc3);
    if !nIsEc3 {
      var srCode := RateCode(h);
      if srCode == 3 {
        return true, out;
      }
      var frameSizeCode := SizeCode(h);
      if frameSizeCode > 37 {
        return true, out;
      }
      RateCodeIsSmall(h);
      out := out.(frameSize := FrameWords(frameSizeCode, srCode) * 2);
    } else {
      out := out.(frameSize := (FrameSizeField(h) + 1) * 2);
    }
    return false, out;
  }

  lemma RateCodeIsSmall(h: Bytes)
    requires |h| == HEADER_BYTES
    ensures RateCode(h) < 4 && SizeCode(h) < 64 && BitStreamId(h) < 32
  {
    assert h[4] >> 6 < 4 && h[4] & 0x3F < 64 && (h[5] >> 3) & 0x1f < 32;
  }

  /** Position `k` begins with a sync word, in one byte order or the other. */
  predicate SyncAt(buf: Bytes, k: nat) {
    k + 2 <= |buf| && ((buf[k] == 0x0b && buf[k + 1] == 0x77) || (buf[k] == 0x77 && buf[k + 1] == 0x0b))
  }

  /**
   * The scan succeeds exactly if there is a sync word, twelve bytes follow from the first one on, and those
   * name a valid bit stream id and, for AC-3, a valid rate and size.  The offset is then the least position
   * that holds either sync word.
   */
  lemma ScanSucceeds(buf: Bytes, before: Outputs)
    ensures var (failed, out) := Scan(buf, before);
      var k := FirstSync(buf, 0);
      && (!failed <==> SyncAt(buf, k) && k + 12 <= |buf| && ReadHeader(HeaderAt(buf, k)).Frame?)
      && (!failed ==> out.offset == k && forall j :: 0 <= j < k ==> !SyncAt(buf, j))
      && (failed && SyncAt(buf, k) ==> out.offset == k && out.frameSize == before.frameSize)
      && ((forall j :: 0 <= j <= |buf| ==> !SyncAt(buf, j)) ==> failed && out == before)
  {
    var k := FirstSync(buf, 0);
    assert forall j :: 0 <= j <= |buf| ==> (SyncAt(buf, j) <==> CheckSyncword(buf, j) > 0);
    assert k == |buf| ==> !SyncAt(buf, k);
  }

  /**
   * The frame size: twice the table's words up to bit stream id 10, so between 128 and 3840 bytes; two bytes
   * more than twice the field from 11 to 16, so an even number between 2 and 4096.
   */
  lemma FrameSizes(h: Bytes)
    requires |h| == HEADER_BYTES && ReadHeader(h).Frame?
    ensures BitStreamId(h) <= 16 && (ReadHeader(h).isEc3 <==> BitStreamId(h) > 10)
    ensures BitStreamId(h) <= 10 ==>
      RateCode(h) < 3 && SizeCode(h) < 38 && ReadHeader(h).size == 2 * FrameWords(SizeCode(h), RateCode(h))
      && 128 <= ReadHeader(h).size <= 3840
    ensures BitStreamId(h) > 10 ==>
      ReadHeader(h).size == 2 * (FrameSizeField(h) + 1) && 2 <= ReadHeader(h).size <= 4096
  {
    RateCodeIsSmall(h);
    if BitStreamId(h) <= 10 {
      TableRange(SizeCode(h), RateCode(h));
    }
  }

  lemma TableRange(code: nat, rate: nat)
    requires code < |FRAME_SIZE_TAB| && rate < 3
    ensures 64 <= FrameWords(code, rate) <= 1920
  {
  }

  /** Every frame size field a writer can store is read back, whatever is in the other bits of its first byte. */
  lemma FrameSizeReadsBack(h: Bytes, n: nat)
    requires |h| == HEADER_BYTES && n < 0x800 && 10 < BitStreamId(h) <= 16
    requires (h[2] & 7) as nat == n / 0x100 && h[3] as nat == n % 0x100
    ensures ReadHeader(h) == Frame(true, 2 * (n + 1))
  {
    assert n == n / 0x100 * 0x100 + n % 0x100;
  }

  /** Exchanging the bytes of every word twice gives the bytes back. */
  lemma SwappedTwice(s: Bytes)
    ensures Swapped(Swapped(s)) == s
  {
  }

  /**
   * Byte order does not matter: a buffer of whole words that begins with a frame, in either order, and the
   * same buffer with all words swapped give the same answer.
   */
  lemma ByteOrderDoesNotMatter(buf: Bytes, before: Outputs)
    requires |buf| % 2 == 0 && SyncAt(buf, 0)
    ensures Scan(Swapped(buf), before) == Scan(buf, before)
    ensures Scan(buf, before).1.offset == 0
  {
    var swapped := Swapped(buf);
    assert CheckSyncword(buf, 0) > 0 && CheckSyncword(swapped, 0) == 3 - CheckSyncword(buf, 0);
    assert FirstSync(buf, 0) == 0 && FirstSync(swapped, 0) == 0;
    if |buf| >= HEADER_BYTES {
      var h := buf[..HEADER_BYTES];
      assert buf[0..HEADER_BYTES] == h;
      SwappedPrefix(buf, HEADER_BYTES);
      assert swapped[0..HEADER_BYTES] == Swapped(h);
      SwappedTwice(h);
      assert HeaderAt(swapped, 0) == HeaderAt(buf, 0);
    }
  }

  lemma SwappedPrefix(s: Bytes, n: nat)
    requires n % 2 == 0 && n <= |s|
    ensures Swapped(s)[..n] == Swapped(s[..n])
  {
  }
}
