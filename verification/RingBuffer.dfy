/**
 * The output delay ring buffer of the AAC decoder: an array with a read position, a write position and a
 * fill count, written and read by a fast loop when the stretch is contiguous and by a slow one otherwise.
 * It is a FIFO.
 */
module RingBuffer {

  /** Where position `p` of the endless tape lies in a ring of `size` slots, for p < 2 * size. */
  function Slot(p: nat, size: nat): nat {
    if p < size then p else if p - size < size then p - size else 0
  }

  lemma SlotIsModulo(p: nat, size: nat)
    requires p < 2 * size
    ensures Slot(p, size) == p % size
  {
  }

  /** The `n` samples from slot `start` on, around the end if need be. */
  function Window(ring: seq<int>, start: nat, n: nat): (w: seq<int>)
    requires start < |ring| && n <= |ring|
    ensures |w| == n
  {
    seq(n, i requires 0 <= i < n => ring[Slot(start + i, |ring|)])
  }

  lemma SlotStep(p: nat, i: nat, size: nat)
    requires p + i < 2 * size
    ensures Slot(Slot(p, size) + i, size) == Slot(p + i, size)
  {
  }

  lemma WindowAt(ring: seq<int>, start: nat, n: nat, i: nat)
    requires start < |ring| && i < n <= |ring|
    ensures Window(ring, start, n)[i] == ring[Slot(start + i, |ring|)]
  {
  }

  /** Skipping `k` samples moves the start. */
  lemma WindowSkip(ring: seq<int>, start: nat, n: nat, k: nat)
    requires start < |ring| && k <= n <= |ring|
    ensures Window(ring, Slot(start + k, |ring|), n - k) == Window(ring, start, n)[k..]
  {
    var skipped, all := Window(ring, Slot(start + k, |ring|), n - k), Window(ring, start, n);
    forall i | 0 <= i < n - k ensures skipped[i] == all[k..][i] {
      SlotStep(start + k, i, |ring|);
      WindowAt(ring, Slot(start + k, |ring|), n - k, i);
      WindowAt(ring, start, n, k + i);
    }
  }

  /** The ring after `xs` were written from slot `p` on, one by one, going round at the end. */
  function Written(ring: seq<int>, p: nat, xs: seq<int>): (r: seq<int>)
    requires p < |ring|
    ensures |r| == |ring|
  {
    if xs == [] then ring else
      var n := |xs| - 1;
      Written(ring, p, xs[..n])[Slot(p + n, |ring|) := xs[n]]
  }

  lemma WrittenOneMore(ring: seq<int>, p: nat, xs: seq<int>, x: int)
    requires p < |ring|
    ensures Written(ring, p, xs + [x]) == Written(ring, p, xs)[Slot(p + |xs|, |ring|) := x]
  {
    assert (xs + [x])[..|xs|] == xs;
  }

  /** Writing behind the `filled` samples appends to them, as long as the ring has the room. */
  lemma {:induction false} WindowWritten(ring: seq<int>, start: nat, filled: nat, xs: seq<int>)
    requires start < |ring| && filled + |xs| <= |ring| && (xs != [] ==> filled < |ring|)
    ensures Window(Written(ring, Slot(start + filled, |ring|), xs), start, filled + |xs|)
         == Window(ring, start, filled) + xs
  {
    if xs != [] {
      var n, p := |xs| - 1, Slot(start + filled, |ring|);
      WindowWritten(ring, start, filled, xs[..n]);
      var before := Written(ring, p, xs[..n]);
      var now := Written(ring, p, xs);
      assert Slot(p + n, |ring|) == Slot(start + (filled + n), |ring|);
      var w, w' := Window(before, start, filled + n), Window(now, start, filled + n + 1);
      forall i | 0 <= i < filled + n ensures w'[i] == w[i] {
        assert Slot(start + i, |ring|) != Slot(start + (filled + n), |ring|);
      }
      assert w' == w + [xs[n]];
      assert xs[..n] + [xs[n]] == xs;
    }
  }

  class Ring {
    const buffer: array<int>
    var readPos: nat
    var writePos: nat
    var filled: nat
    ghost var accepted: seq<int>     // every sample ever put
    ghost var taken: seq<int>        // every sample ever taken or skipped

    ghost predicate Valid()
      reads this, buffer
    {
      && 0 < buffer.Length < 0x4000_0000
      && readPos < buffer.Length && filled <= buffer.Length
      && writePos == Slot(readPos + filled, buffer.Length)
      && accepted == taken + Contents()
    }

    /** What the ring holds, oldest sample first. */
    ghost function Contents(): seq<int>
      requires readPos < buffer.Length && filled <= buffer.Length
      reads this, buffer
    {
      Window(buffer[..], readPos, filled)
    }

    constructor (size: nat)
      requires 0 < size < 0x4000_0000
      ensures Valid() && fresh(buffer) && buffer.Length == size
      ensures Contents() == [] && accepted == []
    {
      buffer := new int[size];
      readPos, writePos, filled := 0, 0, 0;
      accepted, taken := [], [];
    }

    method SamplesAvailable() returns (n: nat)
      ensures n == filled
    {
      n := filled;
    }

    method SpaceLeft() returns (n: int)
      ensures n == buffer.Length - filled
    {
      n := buffer.Length - filled;
    }

    /** The write position is where the held samples end, modulo the size of the ring. */
    lemma WritePosition()
      requires Valid()
      ensures writePos == (readPos + filled) % buffer.Length
    {
      SlotIsModulo(readPos + filled, buffer.Length);
    }

    /** `outputDelayRingBufferPutSamples`: all the samples, or none if they do not fit. */
    method PutSamples(samples: array<int>, numSamples: nat) returns (ok: bool)
      requires Valid() && samples != buffer && numSamples <= samples.Length
      modifies this, buffer
      ensures Valid()
      ensures ok == (numSamples <= buffer.Length - old(filled))
      ensures Contents() == old(Contents()) + if ok then samples[..numSamples] else []
      ensures taken == old(taken) && filled == old(filled) + if ok then numSamples else 0
    {
      if numSamples == 0 {
        assert samples[..0] == [];
        return true;
      }
      var spaceLeft := SpaceLeft();
      if spaceLeft < numSamples {
        return false;
      }
      PutLemma(samples[..numSamples]);
      if writePos + numSamples <= buffer.Length
         && (readPos <= writePos || readPos > writePos + numSamples) {
        PutFast(samples, numSamples);
        if writePos >= buffer.Length {
          writePos := writePos - buffer.Length;
        }
      } else {
        PutSlow(samples, numSamples);
      }
      filled := filled + numSamples;
      accepted := accepted + samples[..numSamples];
      return true;
    }

    /** Writing `xs` from the write position on appends it to the contents and moves the write position on. */
    lemma PutLemma(xs: seq<int>)
      requires Valid() && filled + |xs| <= buffer.Length && (xs != [] ==> filled < buffer.Length)
      ensures Window(Written(buffer[..], writePos, xs), readPos, filled + |xs|) == Contents() + xs
      ensures Slot(writePos + |xs|, buffer.Length) == Slot(readPos + (filled + |xs|), buffer.Length)
      ensures accepted + xs == taken + (Contents() + xs)
    {
      WindowWritten(buffer[..], readPos, filled, xs);
      PutPosition(|xs|);
      AppendAssociates(taken, Contents(), xs);
    }

    lemma PutPosition(n: nat)
      requires Valid() && filled + n <= buffer.Length
      ensures Slot(writePos + n, buffer.Length) == Slot(readPos + (filled + n), buffer.Length)
    {
      SlotStep(readPos + filled, n, buffer.Length);
    }

    /** Dropping the oldest `n` samples. */
    lemma GetLemma(n: nat)
      requires Valid() && n <= filled
      ensures Window(buffer[..], Slot(readPos + n, buffer.Length), filled - n) == Contents()[n..]
      ensures Window(buffer[..], readPos, n) == Contents()[..n]
      ensures writePos == Slot(Slot(readPos + n, buffer.Length) + (filled - n), buffer.Length)
      ensures accepted == (taken + Contents()[..n]) + Contents()[n..]
    {
      SlotStep(readPos + n, filled - n, buffer.Length);
      WindowSkip(buffer[..], readPos, filled, n);
      assert Contents()[..n] + Contents()[n..] == Contents();
    }

    /** The memcopy loop without checks. */
    method PutFast(samples: array<int>, numSamples: nat)
      requires samples != buffer && numSamples <= samples.Length
      requires writePos < buffer.Length && writePos + numSamples <= buffer.Length
      modifies this`writePos, buffer
      ensures buffer[..] == Written(old(buffer[..]), old(writePos), samples[..numSamples])
      ensures writePos == old(writePos) + numSamples
    {
      var i := 0;
      while i < numSamples
        invariant i <= numSamples && writePos == old(writePos) + i
        invariant buffer[..] == Written(old(buffer[..]), old(writePos), samples[..i])
      {
        WrittenOneMore(old(buffer[..]), old(writePos), samples[..i], samples[i]);
        assert samples[..i] + [samples[i]] == samples[..i + 1];
        buffer[writePos] := samples[i];
        writePos := writePos + 1;
        i := i + 1;
      }
    }

    method PutSlow(samples: array<int>, numSamples: nat)
      requires samples != buffer && numSamples <= samples.Length
      requires writePos < buffer.Length && numSamples <= buffer.Length
      modifies this`writePos, buffer
      ensures buffer[..] == Written(old(buffer[..]), old(writePos), samples[..numSamples])
      ensures writePos == Slot(old(writePos) + numSamples, buffer.Length)
    {
      var i := 0;
      while i < numSamples
        invariant i <= numSamples && writePos == Slot(old(writePos) + i, buffer.Length)
        invariant buffer[..] == Written(old(buffer[..]), old(writePos), samples[..i])
      {
        WrittenOneMore(old(buffer[..]), old(writePos), samples[..i], samples[i]);
        assert samples[..i] + [samples[i]] == samples[..i + 1];
        buffer[writePos] := samples[i];
        writePos := writePos + 1;
        if writePos >= buffer.Length {
          writePos := writePos - buffer.Length;
        }
        i := i + 1;
      }
    }

    /** `outputDelayRingBufferGetSamples`: the oldest samples, copied out, or skipped if `samples` is null. */
    method GetSamples(samples: array?<int>, numSamples: nat) returns (got: int)
      requires Valid() && (samples != null ==> samples != buffer && numSamples <= samples.Length)
      modifies this, if samples != null then {samples} else {}
      ensures Valid() && accepted == old(accepted) && buffer[..] == old(buffer[..])
      ensures got == if numSamples > old(filled) then -1 else numSamples
      ensures got < 0 ==> Contents() == old(Contents()) && taken == old(taken) && filled == old(filled)
      ensures got >= 0 ==> Contents() == old(Contents())[numSamples..] && filled == old(filled) - numSamples
      ensures got >= 0 ==> taken == old(taken) + old(Contents())[..numSamples]
      ensures samples != null ==> Copied(old(samples[..]), samples[..], if got < 0 then [] else old(Contents())[..numSamples])
    {
      if numSamples > filled {
        return -1;
      }
      ghost var held := Contents();
      GetLemma(numSamples);
      MoveOn(samples, numSamples);
      filled := filled - numSamples;
      taken := taken + held[..numSamples];
      got := numSamples;
    }

    /** The two branches: the samples are copied, and the read position moves on. */
    method MoveOn(samples: array?<int>, numSamples: nat)
      requires samples != null ==> samples != buffer && numSamples <= samples.Length
      requires readPos < buffer.Length && numSamples <= buffer.Length
      modifies this`readPos, if samples != null then {samples} else {}
      ensures readPos == Slot(old(readPos) + numSamples, buffer.Length) && buffer[..] == old(buffer[..])
      ensures samples != null ==> Copied(old(samples[..]), samples[..], Window(buffer[..], old(readPos), numSamples))
    {
      if readPos + numSamples <= buffer.Length
         && (writePos < readPos || writePos >= readPos + numSamples) {
        GetFast(samples, numSamples);
        if readPos >= buffer.Length {
          readPos := readPos - buffer.Length;
        }
      } else {
        GetSlow(samples, numSamples);
      }
    }

    method GetFast(samples: array?<int>, numSamples: nat)
      requires samples != null ==> samples != buffer && numSamples <= samples.Length
      requires readPos < buffer.Length && readPos + numSamples <= buffer.Length
      modifies this`readPos, if samples != null then {samples} else {}
      ensures readPos == old(readPos) + numSamples && buffer[..] == old(buffer[..])
      ensures samples != null ==> Copied(old(samples[..]), samples[..], Window(buffer[..], old(readPos), numSamples))
    {
      if samples != null {
        var i := 0;
        while i < numSamples
          invariant i <= numSamples && readPos == old(readPos) + i
          invariant forall k :: 0 <= k < i ==> samples[k] == buffer[Slot(old(readPos) + k, buffer.Length)]
          invariant forall k :: i <= k < samples.Length ==> samples[k] == old(samples[k])
        {
          samples[i] := buffer[readPos];
          readPos := readPos + 1;
          i := i + 1;
        }
      } else {
        readPos := readPos + numSamples;
      }
    }

    method GetSlow(samples: array?<int>, numSamples: nat)
      requires samples != null ==> samples != buffer && numSamples <= samples.Length
      requires readPos < buffer.Length && numSamples <= buffer.Length
      modifies this`readPos, if samples != null then {samples} else {}
      ensures readPos == Slot(old(readPos) + numSamples, buffer.Length) && buffer[..] == old(buffer[..])
      ensures samples != null ==> Copied(old(samples[..]), samples[..], Window(buffer[..], old(readPos), numSamples))
    {
      var i := 0;
      while i < numSamples
        invariant i <= numSamples && readPos == Slot(old(readPos) + i, buffer.Length)
        invariant samples != null ==> forall k :: 0 <= k < i ==> samples[k] == buffer[Slot(old(readPos) + k, buffer.Length)]
        invariant samples != null ==> forall k :: i <= k < samples.Length ==> samples[k] == old(samples[k])
      {
        if samples != null {
          samples[i] := buffer[readPos];
        }
        readPos := readPos + 1;
        if readPos >= buffer.Length {
          readPos := readPos - buffer.Length;
        }
        i := i + 1;
      }
    }
  }

  lemma AppendAssociates(a: seq<int>, b: seq<int>, c: seq<int>)
    ensures (a + b) + c == a + (b + c)
  {
  }

  /** `now` is `was` with its beginning overwritten by `xs`. */
  ghost predicate Copied(was: seq<int>, now: seq<int>, xs: seq<int>) {
    && |xs| <= |was| == |now|
    && (forall k :: 0 <= k < |xs| ==> now[k] == xs[k])
    && (forall k :: |xs| <= k < |was| ==> now[k] == was[k])
  }
}
