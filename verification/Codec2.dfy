/** Works and the flags and statuses they carry, as a Codec2 component sees them. */
module Codec2 {

  datatype Option<+T> = None | Some(value: T)

  /** `c2_cntr64_t::peeku()`: a frame index is an unsigned 64-bit counter. */
  type FrameIndex = i: int | 0 <= i < 0x1_0000_0000_0000_0000

  datatype Status = OK | BadValue | Corrupted | NoMemory | NotFound

  datatype Flags = Flags(eos: bool, codecConfig: bool, incomplete: bool)

  const NO_FLAGS := Flags(false, false, false)

  /** What an output buffer holds: the n-th picture of the video decoder, or PCM samples. */
  datatype Buffer = Picture(number: nat) | Samples(pcm: seq<int>)

  /**
   * One `C2Work` with its single worklet.  `id` names the object a `unique_ptr` points to; it never
   * changes.  `processed` is `workletsProcessed`, `output` and `buffers` are the worklet's output.
   */
  datatype Work = Work(
    id: nat,
    frameIndex: FrameIndex,
    input: Flags,
    hasInput: bool,
    customOrdinal: int,
    result: Status,
    processed: nat,
    output: Flags,
    buffers: seq<Buffer>)

  /** `w` and `w'` are the same C2Work before and after a decoder filled its output side. */
  predicate SameWork(w: Work, w': Work) {
    w'.id == w.id && w'.frameIndex == w.frameIndex && w'.input == w.input
  }

  datatype DrainMode = NoDrain | WithEos | NoEos | Chain

  /** One work handed to `onWorkDone_nb`: an accepted work, or the clone made by `cloneAndSend`. */
  datatype Delivery = Delivery(work: Work, clone: bool)

  /** No two positions of `s` hold the same value. */
  ghost predicate Distinct<T>(s: seq<T>) {
    forall i, j :: 0 <= i < j < |s| ==> s[i] != s[j]
  }

  ghost function Elements<T>(s: seq<T>): set<T> {
    set x | x in s
  }
}
