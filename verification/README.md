# Codec2 components: a verified model

A Dafny model of the Amlogic Codec2 components and proofs about it. `dafny verify dfyconfig.toml` checks all of it.

**The component protocol.** A decoder component is a set of client threads, one looper thread with a FIFO mailbox,
and a work queue with a generation counter between them. `WorkQueue` holds the queue and the critical sections as
imperative code, proved against one function per section. `Protocol` is the state machine of all threads: every
critical section, posted message and report is one event, and any event of another thread may come between two.
`Conservation`, `Generation` and `WakeUp` prove what every execution keeps: each work is in exactly one place; a flush
separates generations; the wake-up is not lost and the queue is emptied in the end. `LostWakeUp` gives the runs that
show why the last one needs its condition. `QueueOrder` is about which works have left the queue.

**The soft video decoder.** `SoftVdec` is process() as imperative code, with the delay line of at most seven frame
indexes. `PictureOrder` says what one call does to the line, `PictureAssignment` which work gets which picture.
`SoftVdecRuns` puts the decoder into the component; `SoftVdecLine`, `SoftVdecOrder`, `SoftVdecNumbers` and `SoftVdecEos`
prove, for all interleavings, that delay line and pending map agree, that pictures arrive in queue order and in decoding
order, and that nothing follows the end of the stream.

**The AAC decoder.** `RingBuffer` is the sample ring over an array, a FIFO on every branch. `Adts` defines framing.
`AacDecoder` is the decoder as imperative code; `AacSamples` proves the framing loop, the order of the samples and
their accounting; `AacBooks`, `AacRuns` and `AacEos` prove that its list of works agrees with the component's pending
map in every run, and that an EOS work completes everything once, in order.

**Pixel converters.** `Planes` says what it means to paint a rectangle in a flat buffer with a stride.
`PlanarConverters`, `Y410Converter` and `Rgba1010102Converter` are the loops, proved against one formula per pixel.

**Encoder parameters and AC-3 headers.** `Levels`, `Quantization` and `Ac3Header`.

What foreign code answers (ffmpeg, libAACdec, allocators, block pools, parameter configuration) is an oracle: a
function from the number of the call to any answer its interface allows.

The model follows the code where a comment or a reader would expect something else:

- `HevcProfileLevelSetter` falls back to level 5.2 as "the highest supported level"; the table goes up to 6.2.
- `process` of the soft video decoder cuts the frame index to 32 bits when the delay line is empty. A work with a wider
  index then loses its picture; `PictureOrder.OwnPictureNeedsNarrowIndex` gives the exact condition. Delay line and end
  of stream are not affected.
- onFlush_sm of the soft video decoder keeps a picture that a resolution change has left over;
  `PictureAssignment.LeftoverSurvivesTheFlush` says where it goes, `PictureAssignment.ALeftoverPicture` how it comes about.
- A stand-alone drain with end of stream in the AAC decoder clears its list with the last work still pending, exactly
  if the ring cannot fill all entries (`AacBooks.StandAloneEosDropsTheLast`).
- The tail of the Y410 loop leaves alpha 0, where the unrolled part sets 3.
- reset is the one call that has to be kept apart from queue_nb, drain_nb and start, and nothing may be queued after
  release: else a queued work can be left without a message (`LostWakeUp`). stop and start need no such care.


## Model

| member | source | states |
|---|---|---|
| WorkQueue.Queue.constructor | vendorcomponents/softvideodecoder/include/C2SoftVdecComponent.h:229 | a fresh queue: no flush, generation 0, nothing queued or pending |
| WorkQueue.Queue.IncGeneration | vendorcomponents/softvideodecoder/include/C2SoftVdecComponent.h:232 | a new generation, and the flush flag is up |
| WorkQueue.Queue.PopPendingFlush | vendorcomponents/softvideodecoder/include/C2SoftVdecComponent.h:239-243 | the flush flag is read and cleared, nothing else changes |
| WorkQueue.Queue.PopFront | vendorcomponents/softvideodecoder/C2SoftVdecComponent.cpp:418-422 | the oldest entry leaves, the others keep their order |
| WorkQueue.Queue.PushBack | vendorcomponents/softvideodecoder/C2SoftVdecComponent.cpp:424-426 | the work goes behind all others, with no drain request |
| WorkQueue.Queue.MarkDrain | vendorcomponents/softvideodecoder/C2SoftVdecComponent.cpp:440-442 | a drain request goes behind all works |
| WorkQueue.Queue.Clear | vendorcomponents/softvideodecoder/C2SoftVdecComponent.cpp:432-434 | nothing is queued any more; generation, flush flag and pending works stay |
| WorkQueue.Component.Discard | vendorcomponents/softvideodecoder/C2SoftVdecComponent.cpp:742-746 | stop and reset drop queued and pending works and leave generation and flush flag as they are |
| WorkQueue.Component.Enqueue | vendorcomponents/softvideodecoder/C2SoftVdecComponent.cpp:629-637 | the works are appended in the order given; the answer says whether the queue was empty before |
| WorkQueue.Component.Flush | vendorcomponents/softvideodecoder/C2SoftVdecComponent.cpp:661-675 | queued works come back in order, then every pending one once, under a new generation; nothing is left, and drain requests are dropped |
| WorkQueue.Component.FlushPending | vendorcomponents/softvideodecoder/C2SoftVdecComponent.cpp:671-674 | every pending work is handed back exactly once, in whatever order the hash map has |
| WorkQueue.Component.Pop | vendorcomponents/softvideodecoder/C2SoftVdecComponent.cpp:858-869 | the first section of processQueue: entry, generation, drain mode, flush flag and whether more is queued belong together |
| WorkQueue.Component.Finish | vendorcomponents/softvideodecoder/C2SoftVdecComponent.cpp:797-821 | a pending work is taken out, filled and delivered; an unknown index or a missing listener delivers nothing |
| WorkQueue.Component.CloneAndSend | vendorcomponents/softvideodecoder/C2SoftVdecComponent.cpp:823-849 | a clone of the current or of a pending work is delivered; the queue is untouched |
| WorkQueue.Component.Commit | vendorcomponents/softvideodecoder/C2SoftVdecComponent.cpp:967-1010 | the last section and its report: C2_NOT_FOUND after a flush, delivered if processed, parked otherwise, C2_CORRUPTED for an older work of the same index |
| Conservation.ConservedStep | vendorcomponents/softvideodecoder/C2SoftVdecComponent.cpp:463-522 | every event of every thread keeps each work in exactly one place |
| Conservation.ConservationOfWork | vendorcomponents/softvideodecoder/C2SoftVdecComponent.cpp:620-679 | in every state of every execution of either component, with stop, reset and release and with duplicate frame indexes: each accepted work is in exactly one of queue, looper thread, pending map, listener, returned by flush, discarded |
| Conservation.HandedBackAtMostOnce | vendorcomponents/softvideodecoder/C2SoftVdecComponent.cpp:797-822 | a work accepted once is given to the listener or returned by a flush at most once in all |
| Conservation.CommitPlaces | vendorcomponents/softvideodecoder/C2SoftVdecComponent.cpp:980-1008 | parking, returning and displacing an older work neither lose nor double a work |
| Generation.GenerationSafety | vendorcomponents/softvideodecoder/C2SoftVdecComponent.cpp:857-876 | pending works carry the current generation; process() and drain() run only after the decoder was flushed for the flight's generation; after a flush no finish() of the old flight has an effect |
| Generation.OvertakenWorkIsReturnedOnce | vendorcomponents/softvideodecoder/C2SoftVdecComponent.cpp:797-979 | a flush that meets a work anywhere between the two sections, in the pool code, in process() or in finish(): the work is delivered once, as C2_NOT_FOUND, or destroyed if there is no block pool; before it the listener gets the work finish() had already taken, and no other; nothing is parked |
| Generation.FlushWaitsForProcess | vendorcomponents/softvideodecoder/C2SoftVdecComponent.cpp:676-678 | when the video component's flush_sm returns, no flight from before the flush is left |
| WakeUp.NoLostWakeUp | vendorcomponents/audiodecoder/C2AudioDecComponent.cpp:238-260 | if reset overlaps none of queue_nb, drain_nb and start, and release is not called (start, stop and flush_sm may overlap everything): a non-empty queue of an initialized component has a process message in the mailbox, a client about to post one, or a looper thread that will look or post again, and every process message is served |
| WakeUp.HandlerEmptiesTheQueue | vendorcomponents/audiodecoder/C2AudioDecComponent.cpp:94-114 | from such a state the looper thread alone empties the queue, whatever order its steps come in |
| WakeUp.QueueIsEmptiedInTheEnd | vendorcomponents/audiodecoder/C2AudioDecComponent.cpp:459-477 | the same for every state a disciplined execution reaches |
| LostWakeUp.ResetDuringQueueLosesTheWakeUp | vendorcomponents/audiodecoder/C2AudioDecComponent.cpp:238-260 | a run in which reset overtakes queue_nb, and that ends RUNNING with a work queued, an empty mailbox and every thread at rest |
| LostWakeUp.ResetDuringStartLosesTheWakeUp | vendorcomponents/audiodecoder/C2AudioDecComponent.cpp:321-345 | the same for a reset that overtakes start |
| LostWakeUp.ReleaseLosesTheWakeUp | vendorcomponents/audiodecoder/C2AudioDecComponent.cpp:389-395 | the same for a work queued after release, which leaves the state RUNNING |
| SoftVdec.C2SoftVdec.OnFlush | vendorcomponents/softvideodecoder/C2SoftVdec.cpp:162-170 | the delay line, the flags and the decoder instance are reset; a picture left over stays, and so does the error flag if the library cannot be loaded again |
| SoftVdec.C2SoftVdec.FinishWork | vendorcomponents/softvideodecoder/C2SoftVdec.cpp:262-323 | the current work takes the picture itself, an EOS work through a clone, any other work through finish() |
| SoftVdec.C2SoftVdec.DecodeRound | vendorcomponents/softvideodecoder/C2SoftVdec.cpp:412-511 | one round of the decode loop: each error return, the resolution change that asks again, the failed decode that ends a flush |
| SoftVdec.C2SoftVdec.TakePicture | vendorcomponents/softvideodecoder/C2SoftVdec.cpp:512-564 | the oldest waiting work gets the picture and the current one joins the line, except while an EOS work flushes it |
| SoftVdec.C2SoftVdec.Conclude | vendorcomponents/softvideodecoder/C2SoftVdec.cpp:572-586 | EOS shuts the decoder; a work without a picture waits while none has come and fewer than seven wait, else it is returned empty |
| SoftVdec.C2SoftVdec.DecodeAll | vendorcomponents/softvideodecoder/C2SoftVdec.cpp:411-570 | the decode loop, for any answers of the decoder and the allocators |
| SoftVdec.C2SoftVdec.Process | vendorcomponents/softvideodecoder/C2SoftVdec.cpp:356-587 | the whole of process() is ProcessStep on the private state, for any answers of the decoder and the allocators |
| PictureOrder.FlushLoop | vendorcomponents/softvideodecoder/C2SoftVdec.cpp:412-570 | the EOS loop hands its pictures, in order, to the works of the line, from its front |
| PictureOrder.ProcessRoute | vendorcomponents/softvideodecoder/C2SoftVdec.cpp:411-586 | every process(), errors and 64-bit indexes included: the line is then the end of the old one or of the old one and the current work, at most seven long; no call is for a work that stays in it; and unless the line is empty and the index does not fit 32 bits, pictures go to the front of the line, the rest keeps its place, and the current work comes last |
| PictureAssignment.PicturesAssigned | vendorcomponents/softvideodecoder/C2SoftVdec.cpp:556-586 | from a fresh or flushed decoder, for any sequence of works with distinct indexes that fit 32 bits and no error: the j-th picture, by its number, goes to the j-th of the at most seven works held before the first picture followed by the works that returned a picture, and those not yet served are the delay line; a picture left over from before the flush is the first |
| PictureAssignment.FlushedIsFresh | vendorcomponents/softvideodecoder/C2SoftVdec.cpp:162-170 | a flush makes the decoder fresh unless an error stays because the library cannot be loaded again |
| PictureAssignment.LeftoverSurvivesTheFlush | vendorcomponents/softvideodecoder/C2SoftVdec.cpp:507-510 | the first work after a flush for which the decoder finds no picture is given one all the same exactly if mPic was set before the flush, whatever the decoder would have answered |
| PictureAssignment.ALeftoverPicture | vendorcomponents/softvideodecoder/C2SoftVdec.cpp:470-510 | such a decoder is reachable: size change with a picture, then no output block, then a flush; the next work returns the old picture |
| PictureOrder.OwnPictureNeedsNarrowIndex | vendorcomponents/softvideodecoder/C2SoftVdec.cpp:371-371 | with an empty line a work gets its own picture, an EOS work through its clone, exactly if its frame index fits 32 bits; else the picture is offered under the truncated index, and an EOS work is finished all the same |
| PictureOrder.WaitingWorksLoseNothing | vendorcomponents/softvideodecoder/C2SoftVdec.cpp:556-561 | with works waiting no index loses a picture |
| PictureOrder.WideIndexLosesItsPicture | vendorcomponents/softvideodecoder/C2SoftVdec.cpp:562-564 | a concrete work whose index does not fit, and whose picture goes to another index |
| PictureOrder.EosOutcome | vendorcomponents/softvideodecoder/C2SoftVdec.cpp:572-574 | what an EOS work that meets no error leaves, whatever its index: a shut decoder, all pictures of its loop handed on, its own one through a clone if the index fits 32 bits, itself returned last with the EOS flag and no buffer |
| PictureOrder.FinishedEosShuts | vendorcomponents/softvideodecoder/C2SoftVdec.cpp:365-368 | an EOS work that is returned without error, and is no codec configuration, has shut the decoder |
| PictureOrder.ShutDecoderIsQuiet | vendorcomponents/softvideodecoder/C2SoftVdec.cpp:365-368 | a shut decoder makes no call and hands on no picture |
| SoftVdecOrder.PicturesInQueueOrder | vendorcomponents/softvideodecoder/C2SoftVdec.cpp:556-564 | in every run of decoder and component, with flushes at any moment and every error, in which no work with an index beyond 32 bits meets an empty line: pictures reach the listener in queue order, at most one per frame index |
| SoftVdecOrder.NarrowIndexesFit | vendorcomponents/softvideodecoder/C2SoftVdec.cpp:556-566 | a client that queues no index beyond 32 bits meets that condition |
| SoftVdecNumbers.ProcessCounts | vendorcomponents/softvideodecoder/C2SoftVdec.cpp:412-586 | one call, whatever its input and errors, hands on exactly the pictures taken in it, in the order in which they came |
| SoftVdecNumbers.PicturesInDecodeOrder | vendorcomponents/softvideodecoder/C2SoftVdec.cpp:554-568 | in every run, for all indexes: the listener is given pictures in decoding order, none twice, and if it was given all, the k-th is number k |
| SoftVdecNumbers.EachWorkItsPicture | vendorcomponents/softvideodecoder/C2SoftVdec.cpp:556-568 | as many pictures delivered as works queued and as pictures decoded: the k-th picture was on the k-th work |
| SoftVdecLine.DelayLineAgrees | vendorcomponents/softvideodecoder/C2SoftVdec.cpp:556-586 | for all unique 64-bit indexes, whenever the looper thread is outside the sections of processQueue: at most seven entries, distinct, in queue order, and keys of the pending map unless a flush waits to be applied |
| SoftVdecEos.EosIsLast | vendorcomponents/softvideodecoder/C2SoftVdec.cpp:589-608 | once the listener has a finished EOS work it gets no picture, by no call and no clone, until a flush reaches the decoder |
| SoftVdecEos.EosFlagOnlyOnEosWorks | vendorcomponents/softvideodecoder/C2SoftVdec.cpp:250-260 | END_OF_STREAM is delivered only on originals that were queued with it |
| RingBuffer.Ring.constructor | vendorcomponents/audiodecoder/C2AudioAacDecoder.cpp:355-360 | an empty ring |
| RingBuffer.Ring.PutSamples | vendorcomponents/audiodecoder/C2AudioAacDecoder.cpp:374-406 | both branches append exactly the samples if they fit, and change nothing if not; so what was ever accepted is what was taken followed by the contents |
| RingBuffer.Ring.PutFast | vendorcomponents/audiodecoder/C2AudioAacDecoder.cpp:385-392 | the loop without checks writes like the one with checks |
| RingBuffer.Ring.PutSlow | vendorcomponents/audiodecoder/C2AudioAacDecoder.cpp:393-403 | the slow loop goes round at the end of the array |
| RingBuffer.Ring.GetSamples | vendorcomponents/audiodecoder/C2AudioAacDecoder.cpp:408-443 | both branches return, or with a null buffer skip, exactly the oldest samples, or refuse and change nothing |
| RingBuffer.Ring.WritePosition | vendorcomponents/audiodecoder/C2AudioAacDecoder.cpp:396-402 | the write position is the read position plus the fill count, modulo the size |
| RingBuffer.Ring.MoveOn | vendorcomponents/audiodecoder/C2AudioAacDecoder.cpp:414-440 | whichever branch is taken, the oldest samples are copied and the read position moves on |
| RingBuffer.Ring.GetFast | vendorcomponents/audiodecoder/C2AudioAacDecoder.cpp:414-427 | the contiguous copy |
| RingBuffer.Ring.GetSlow | vendorcomponents/audiodecoder/C2AudioAacDecoder.cpp:428-440 | the copy that goes round |
| RingBuffer.WindowWritten | vendorcomponents/audiodecoder/C2AudioAacDecoder.cpp:396-402 | writing behind the held samples appends to them, wherever the end of the array lies |
| RingBuffer.WindowSkip | vendorcomponents/audiodecoder/C2AudioAacDecoder.cpp:431-439 | moving the read position drops the oldest samples |
| Adts.LengthFieldReadsBack | vendorcomponents/audiodecoder/C2AudioAacDecoder.cpp:617-620 | every 13-bit frame length a writer stores is read back, whatever the neighbouring bits |
| Adts.FramedUnfold | vendorcomponents/audiodecoder/C2AudioAacDecoder.cpp:609-642 | a buffer is a concatenation of frames exactly if its first header is accepted and the rest behind that frame is one |
| AacSamples.AdtsFraming | vendorcomponents/audiodecoder/C2AudioAacDecoder.cpp:600-654 | with a decoder that takes whole payloads without error the loop accepts a buffer exactly if it is a concatenation of well-formed frames |
| AacDecoder.C2AudioAacDecoder.constructor | vendorcomponents/audiodecoder/C2AudioAacDecoder.cpp:344-372 | a fresh decoder, nothing owed and an empty ring |
| AacDecoder.C2AudioAacDecoder.DecodeRound | vendorcomponents/audiodecoder/C2AudioAacDecoder.cpp:686-794 | one decoded frame: the unused-bytes error, the refused put, silence after a decoding error, a refused reconfiguration |
| AacDecoder.C2AudioAacDecoder.DecodeAll | vendorcomponents/audiodecoder/C2AudioAacDecoder.cpp:676-795 | frames are decoded until the decoder wants more bits, fails, or the ring lacks room |
| AacDecoder.C2AudioAacDecoder.StepOverHeader | vendorcomponents/audiodecoder/C2AudioAacDecoder.cpp:602-653 | a bad ADTS header is refused, a good one stepped over; the rest stays the end of the buffer |
| AacDecoder.C2AudioAacDecoder.FeedNext | vendorcomponents/audiodecoder/C2AudioAacDecoder.cpp:600-674 | one round of the input loop consumes a header and what the decoder takes of the payload; offset plus size stays the capacity |
| AacDecoder.C2AudioAacDecoder.DecodeInput | vendorcomponents/audiodecoder/C2AudioAacDecoder.cpp:600-796 | the whole loop, and how it ends |
| AacDecoder.InputRound | vendorcomponents/audiodecoder/C2AudioAacDecoder.cpp:600-674 | a round that goes on consumes at least one byte, with ADTS at least seven |
| AacDecoder.C2AudioAacDecoder.TakeBlock | vendorcomponents/audiodecoder/C2AudioAacDecoder.cpp:493-523 | the oldest samples, an empty result, or C2_NO_MEMORY with the samples left in the ring |
| AacDecoder.C2AudioAacDecoder.FillNext | vendorcomponents/audiodecoder/C2AudioAacDecoder.cpp:459-533 | the front entry leaves and its work is filled, directly if it is the current one, else through finish() |
| AacDecoder.C2AudioAacDecoder.DrainRingBuffer | vendorcomponents/audiodecoder/C2AudioAacDecoder.cpp:453-535 | the loop over the waiting works |
| AacDecoder.C2AudioAacDecoder.AddBack | vendorcomponents/audiodecoder/C2AudioAacDecoder.cpp:910-934 | one flushing decode: at most what is owed goes into the ring |
| AacDecoder.C2AudioAacDecoder.DrainDecoderLoop | vendorcomponents/audiodecoder/C2AudioAacDecoder.cpp:908-936 | drainDecoder: until nothing is owed, or the ring refuses |
| AacDecoder.C2AudioAacDecoder.DrainInternal | vendorcomponents/audiodecoder/C2AudioAacDecoder.cpp:844-880 | the three drain modes; at end of stream whatever is left is finished empty-handed |
| AacDecoder.C2AudioAacDecoder.Drain | vendorcomponents/audiodecoder/C2AudioAacDecoder.cpp:882-886 | the same without a current work |
| AacDecoder.C2AudioAacDecoder.RaisePortDelay | vendorcomponents/audiodecoder/C2AudioAacDecoder.cpp:798-822 | the port delay only grows, by rounding up; a refusal is an error |
| AacDecoder.C2AudioAacDecoder.HandOnSamples | vendorcomponents/audiodecoder/C2AudioAacDecoder.cpp:824-841 | compensation at the beginning, drain at end of stream, else the waiting works |
| AacDecoder.C2AudioAacDecoder.Process | vendorcomponents/audiodecoder/C2AudioAacDecoder.cpp:537-842 | the whole of process() is ProcessStep on the private state, for any answers of libAACdec |
| AacDecoder.C2AudioAacDecoder.OnFlush | vendorcomponents/audiodecoder/C2AudioAacDecoder.cpp:888-906 | the loop ends if a frame has samples; list and ring are empty and the positions equal |
| AacSamples.SampleAccounting | vendorcomponents/audiodecoder/C2AudioAacDecoder.cpp:713-730 | after any sequence of works, drains and flushes: decoded samples = handed on + flushed + in the ring + owed by the compensation; the ring never overflows |
| AacSamples.DrainSettlesAccounts | vendorcomponents/audiodecoder/C2AudioAacDecoder.cpp:908-936 | a drain completes exactly if the ring has room for what is owed, and then nothing is owed: what was discarded at the start has been added back |
| AacSamples.JobMoves | vendorcomponents/audiodecoder/C2AudioAacDecoder.cpp:453-535 | every request: what was held and what the decoder answers to it is what is taken out (handed on, discarded or flushed) and what is held then, in order |
| AacSamples.LoopPlays | vendorcomponents/audiodecoder/C2AudioAacDecoder.cpp:600-796 | the input loop puts the answers of the decoder on the tape, in order, until one finds no room, fails or is refused |
| AacSamples.DrainDecoderPlays | vendorcomponents/audiodecoder/C2AudioAacDecoder.cpp:908-936 | drainDecoder puts the flushed frames on the tape, in order, the last one cut |
| AacSamples.SampleTape | vendorcomponents/audiodecoder/C2AudioAacDecoder.cpp:374-451 | over any sequence of requests the samples of the decoder's answers, in order, with silence for errors and flushed frames cut to what is owed, are all that left the ring, in order, followed by those it holds |
| AacSamples.DelayIsDiscardedFirst | vendorcomponents/audiodecoder/C2AudioAacDecoder.cpp:825-835 | until the decoder's delay is compensated no work gets a sample; the oldest samples go until the delay is made up or the ring is empty |
| AacSamples.PortDelayCovers | vendorcomponents/audiodecoder/C2AudioAacDecoder.cpp:800-806 | the port delay is the least number of frames, no smaller than before, that holds the decoder's delay |
| AacSamples.DrainRingHandsOn | vendorcomponents/audiodecoder/C2AudioAacDecoder.cpp:457-534 | what the works are given, one after the other, is the oldest samples of the ring, none lost or doubled |
| AacSamples.SamplesInOrder | vendorcomponents/audiodecoder/C2AudioAacDecoder.cpp:825-841 | the same for a whole work, end of stream included |
| AacBooks.SharesAreWhole | vendorcomponents/audiodecoder/C2AudioAacDecoder.cpp:464-476 | before the end of the stream a work gets all frames decoded from it, or nothing; the loop stops only at a work that wants more than there is |
| AacBooks.ProcessBooks | vendorcomponents/audiodecoder/C2AudioAacDecoder.cpp:823-841 | a work that meets no error joins the list; works leave it only from the front, each by being filled, and the current one is returned exactly if it is among them; an EOS work empties the list; a work that meets an error changes nothing |
| AacBooks.DrainBooks | vendorcomponents/audiodecoder/C2AudioAacDecoder.cpp:882-886 | a drain without end of stream fills works from the front of the list |
| AacBooks.RingFillsAll | vendorcomponents/audiodecoder/C2AudioAacDecoder.cpp:457-534 | at end of stream the ring fills every entry exactly if it holds Need samples, a sum over the list |
| AacBooks.StandAloneEosDropsTheLast | vendorcomponents/audiodecoder/C2AudioAacDecoder.cpp:862-877 | a stand-alone drain with end of stream finishes all works of the list exactly if the ring, once the decoder is drained, holds Need samples; else it drops the last entry and finishes the others |
| AacBooks.DrainedRing | vendorcomponents/audiodecoder/C2AudioAacDecoder.cpp:908-936 | that drained ring is the ring itself if nothing is owed, and holds what is owed in addition if there is room |
| AacBooks.AStandAloneEosThatDrops | vendorcomponents/audiodecoder/C2AudioAacDecoder.cpp:862-877 | an input for which it does: a buffer with one frame, then one with none |
| AacRuns.ListAgreesWithPending | vendorcomponents/audiodecoder/C2AudioAacDecoder.cpp:453-535 | in every run of decoder and component, stand-alone drains included: when the looper thread is outside the sections of processQueue and no flush waits, the keys of the pending map are exactly the indexes in the list, each once and in queue order, and those such drains have dropped |
| AacEos.EosCompletesEverything | vendorcomponents/audiodecoder/C2AudioDecComponent.cpp:413-432 | an EOS work that meets no error and no flush: the listener gets every work of the list exactly once, in queue order, then the EOS work; the list is empty and nothing is pending but what stand-alone drains had dropped before |
| AacEos.StandAloneEosLeavesTheLastPending | vendorcomponents/audiodecoder/C2AudioAacDecoder.cpp:862-877 | a stand-alone drain with end of stream in the component: all works of the list are given to the listener, or all but the last, which stays pending, exactly by the condition above |
| Planes.NextRow | vendorcomponents/softvideodecoder/C2SoftVdecComponent.cpp:44-48 | a row written at the next multiple of the stride extends the painted rectangle and touches nothing else |
| Planes.PaintedAt | vendorcomponents/softvideodecoder/C2SoftVdecComponent.cpp:352-358 | what stands in a converted buffer at row and column |
| PlanarConverters.ConvertPlanar8ToYV12 | vendorcomponents/softvideodecoder/C2SoftVdecComponent.cpp:39-72 | the new contents of the three planes, inside and outside the rectangles, for odd sizes and monochrome too |
| PlanarConverters.ConvertPlanar16ToYV12 | vendorcomponents/softvideodecoder/C2SoftVdecComponent.cpp:347-381 | the same for 16-bit input, narrowed by two bits |
| PlanarConverters.ConvertPlanar16ToP010 | vendorcomponents/softvideodecoder/C2SoftVdecComponent.cpp:383-417 | the same for P010, with U and V side by side |
| PlanarConverters.NarrowAgreesWithCopy | vendorcomponents/softvideodecoder/C2SoftVdecComponent.cpp:347-381 | 16-bit samples 4s+r give the buffer the 8-bit path gives for s, whatever the strides |
| PlanarConverters.P010AgreesWithYV12 | vendorcomponents/softvideodecoder/C2SoftVdecComponent.cpp:388-394 | the top eight bits of a P010 luma sample are the YV12 sample, for all 16-bit samples |
| PlanarConverters.P010ChromaAgreesWithYV12 | vendorcomponents/softvideodecoder/C2SoftVdecComponent.cpp:408-416 | the same for chroma, across the different plane layouts |
| PlanarConverters.P010ShiftsBack | vendorcomponents/softvideodecoder/C2SoftVdecComponent.cpp:388-394 | 10-bit samples come back from P010 by a shift of six |
| Y410Converter.BlockPixel | vendorcomponents/softvideodecoder/C2SoftVdecComponent.cpp:88-115 | each of the four columns of a block, from the 32-bit words read, is the packing of its own samples |
| Y410Converter.ConvertPlanar16ToY410 | vendorcomponents/softvideodecoder/C2SoftVdecComponent.cpp:74-136 | the unrolled loops write the per-pixel packing everywhere in the rectangle and nothing else |
| Y410Converter.PixelsUnpack | vendorcomponents/softvideodecoder/C2SoftVdecComponent.cpp:103-129 | 10-bit samples unpack from every pixel: own Y, the U and V of the 2x2 block, alpha 3, or 0 in the tail |
| Rgba1010102Converter.AspectsFilled | vendorcomponents/softvideodecoder/C2SoftVdecComponent.cpp:140-189 | the matrix is always known afterwards, what was given is kept, filling twice or with the sides exchanged changes nothing |
| Rgba1010102Converter.PutPixel | vendorcomponents/softvideodecoder/C2SoftVdecComponent.cpp:287-295 | one pixel in int32 arithmetic, no intermediate value out of range |
| Rgba1010102Converter.BlockPixels | vendorcomponents/softvideodecoder/C2SoftVdecComponent.cpp:267-322 | the four pixels of a block are the formula, for all 16-bit samples |
| Rgba1010102Converter.ConvertPlanar16ToRGBA1010102 | vendorcomponents/softvideodecoder/C2SoftVdecComponent.cpp:239-330 | the formula everywhere in the rectangle and nothing else |
| Rgba1010102Converter.FieldsDoNotOverlap | vendorcomponents/softvideodecoder/C2SoftVdecComponent.cpp:295 | the four fields of a pixel share no bit, so or-ing them is adding them |
| Rgba1010102Converter.PixelsUnpack | vendorcomponents/softvideodecoder/C2SoftVdecComponent.cpp:287-323 | every pixel unpacks to alpha 3 and the three ten-bit channels of the formula |
| Rgba1010102Converter.ChannelRounds | vendorcomponents/softvideodecoder/C2SoftVdecComponent.cpp:289-294 | C's truncating division gives what rounding down gives, after clipping |
| Rgba1010102Converter.NeutralChromaIsGray | vendorcomponents/softvideodecoder/C2SoftVdecComponent.cpp:197-234 | full range and neutral chroma give r = g = b = Y |
| LevelTables.SelectLevel | vendorcomponents/videoencoder/C2VencIntfImpl.cpp:625-654 | the walk through the table: supplied level, lowest covering row, or fallback |
| LevelTables.SelectLowest | vendorcomponents/videoencoder/C2VencHCodec.cpp:511-528 | the walk that does not look at the supplied level |
| LevelTables.KeptIfItCovers | vendorcomponents/videoencoder/C2VencIntfImpl.cpp:630-650 | in a rising table a listed level is kept exactly if its own row covers the load |
| Levels.AvcTable | vendorcomponents/videoencoder/C2VencIntfImpl.cpp:600-617 | no limit of the AVC table goes down and no level stands twice |
| Levels.HevcTable | vendorcomponents/videoencoder/C2VencIntfImpl.cpp:676-690 | the same for HEVC |
| Levels.AvcProfileLevelSetter | vendorcomponents/videoencoder/C2VencIntfImpl.cpp:619-656 | the chosen level, for every size, rate and bit rate |
| Levels.HevcProfileLevelSetter | vendorcomponents/videoencoder/C2VencIntfImpl.cpp:692-727 | the same, with uint32_t sample counts |
| Levels.HCodecProfileLevelSetter | vendorcomponents/videoencoder/C2VencHCodec.cpp:505-530 | the HCodec variant |
| Levels.AvcSelection | vendorcomponents/videoencoder/C2VencIntfImpl.cpp:625-650 | a covered load: listed levels that cover stay, others and 1b become the lowest covering one, unlisted ones stay |
| Levels.HevcSelection | vendorcomponents/videoencoder/C2VencIntfImpl.cpp:698-722 | the same for HEVC |
| Levels.BeyondTheTable | vendorcomponents/videoencoder/C2VencIntfImpl.cpp:723-726 | no level covers: AVC takes its last row, HEVC takes 5.2, which is three rows below its last |
| Levels.ALoadBeyondTheTables | vendorcomponents/videoencoder/C2VencIntfImpl.cpp:600-690 | a load no level of either table covers |
| Levels.SettersAreIdempotent | vendorcomponents/videoencoder/C2VencIntfImpl.cpp:594-656 | a second run of either setter changes nothing |
| Levels.HCodecIsNeverHigher | vendorcomponents/videoencoder/C2VencHCodec.cpp:486-530 | HCodec chooses the lowest covering level, never a higher one than the AVC setter |
| Quantization.ReadLayers | vendorcomponents/videoencoder/C2VencHCodec.cpp:564-583 | of each picture type the values of the last layer, or the defaults |
| Quantization.PictureQuantizationSetter | vendorcomponents/videoencoder/C2VencHCodec.cpp:558-618 | the layers afterwards are the normal form of those before |
| Quantization.GetQp | vendorcomponents/videoencoder/C2VencHCodec.cpp:1094-1128 | the reader gives the values of the last I and P layers |
| Quantization.NormalForm | vendorcomponents/videoencoder/C2VencHCodec.cpp:588-612 | all layers of one type carry the clamped values of its last one; layers of no single type are untouched |
| Quantization.ReadBack | vendorcomponents/videoencoder/C2VencHCodec.cpp:1105-1126 | what the reader finds after the setter is the clamp to 4..51 of what it would have found before |
| Quantization.NormalizingTwice | vendorcomponents/videoencoder/C2VencHCodec.cpp:597-612 | a second run changes nothing |
| Quantization.UnchangedIfNormal | vendorcomponents/videoencoder/C2VencIntfImpl.cpp:755-814 | the setter leaves a list alone exactly if it is in normal form; the setter of the other interface is the same algorithm |
| Ac3Header.FirstSync | vendorcomponents/audiodecoder/C2AudioEAC3Decoder.cpp:252-257 | the least position that holds a sync word of either byte order |
| Ac3Header.TableFollowsRates | vendorcomponents/audiodecoder/C2AudioEAC3Decoder.cpp:179-218 | all 114 entries follow from the bit rates: 3/2 of the 48 kHz words at 32 kHz, 160/147 at 44.1 kHz, rounded down and one more for odd codes |
| Ac3Header.SwapBytes | vendorcomponents/audiodecoder/C2AudioEAC3Decoder.cpp:275-284 | every 16-bit word of the header is byte-swapped in place |
| Ac3Header.ReadFields | vendorcomponents/audiodecoder/C2AudioEAC3Decoder.cpp:293-334 | bit stream id, rate and size codes, and the order in which outputs are set before an error |
| Ac3Header.ParseFrameHeader | vendorcomponents/audiodecoder/C2AudioEAC3Decoder.cpp:236-338 | the whole parser is Scan, errors and untouched outputs included |
| Ac3Header.ScanSucceeds | vendorcomponents/audiodecoder/C2AudioEAC3Decoder.cpp:252-273 | success exactly if there is a sync word, twelve bytes from the first one on, and valid codes; the offset is then the least sync position |
| Ac3Header.FrameSizes | vendorcomponents/audiodecoder/C2AudioEAC3Decoder.cpp:302-327 | twice the table words up to bit stream id 10; 2*(frmsiz+1), between 2 and 4096, for 11 to 16 |
| Ac3Header.FrameSizeReadsBack | vendorcomponents/audiodecoder/C2AudioEAC3Decoder.cpp:327-327 | every frame size field is read back |
| Ac3Header.ByteOrderDoesNotMatter | vendorcomponents/audiodecoder/C2AudioEAC3Decoder.cpp:275-284 | a buffer that begins with a frame and the same buffer with all words swapped give the same answer |

## Left out

- WorkQueue.Component.FlushPending: the order of the hash map is any order, fixed once per map in `Protocol`.
- WorkQueue.Component.Commit: requires a listener, because the code dereferences it without a test; the same holds for
  the report events of `Protocol` and, in the audio component, for finish().
- WorkQueue.Queue.IncGeneration: the generation is unbounded; the 64-bit counter of the code does not wrap in practice.
- Generation.FlushWaitsForProcess: video only; flush_sm of the audio component takes no such lock and does not wait.
- WakeUp.NoLostWakeUp: executions in which reset overlaps none of queue_nb, drain_nb and start, and that end before
  release; `LostWakeUp` shows a lost wake-up for reset during queue_nb, reset during start, and release.
- SoftVdecLine.DelayLineAgrees: runs without stop, reset and release, which leave the generation and the delay line as
  they are; frame indexes are unique.
- SoftVdecOrder.PicturesInQueueOrder: in addition, works begun with an empty line have an index that fits 32 bits; a wider
  one loses its picture there.
- PictureAssignment.PicturesAssigned: works that meet no error; with errors `PictureOrder.ProcessRoute` holds instead.
- AacRuns.ListAgreesWithPending: runs without stop, reset and release; frame indexes are unique.
- AacDecoder.C2AudioAacDecoder.DecodeInput: of a raw buffer libAACdec takes at least one byte per call, and it asks for
  more bits after finitely many frames; otherwise the loops of the code do not end.
- AacDecoder.C2AudioAacDecoder.DrainDecoderLoop: a decoder being flushed gives frames with samples, and no frame exceeds
  the buffer it is decoded into.
- AacDecoder.C2AudioAacDecoder.OnFlush: requires a positive frame size when samples are held, as the loop of the code
  does not end otherwise.
- AacDecoder.C2AudioAacDecoder.TakeBlock: sample counts are unbounded; the int products of the code are far below 2^31
  for the sizes the ring admits. The branch for a short read cannot be reached.
- AacDecoder.C2AudioAacDecoder.Process: configUpdate entries, timestamps and buffer sizes kept for logging only.
- PlanarConverters.ConvertPlanar8ToYV12: the planes are separate buffers, sizes are below 2^32 - 1, and shifts are
  written as divisions and products.
- Y410Converter.ConvertPlanar16ToY410: even sizes and a width of at least 4; for width 2 the unsigned loop bound of the
  code wraps.
- Rgba1010102Converter.ConvertPlanar16ToRGBA1010102: even sizes; color channels are those of the coefficients as
  written, with no claim that these conform to BT.601, BT.709 or BT.2020. A missing aspects pointer is a record with
  nothing specified.
- Levels.HevcProfileLevelSetter: requires a rate and a product that uint32_t can hold, as the conversion is undefined
  otherwise; rates are real numbers, so float rounding is not modelled. The profile part of the setters is left out.
- Ac3Header.ParseFrameHeader: char is unsigned, as on ARM; with a signed char the rate code of the code would be negative.
  The channel and block counts it computes and drops are left out.
- Factories, component tables, interface parameter declarations, logging and dumps: declarative or plumbing.
- The remain-buffer loop of the E-AC-3 decoder: its progress depends on what the foreign decoder consumes.
- The image component: it repeats the protocol, but returns early on a failed result.
- The other audio decoders, the encoder components' life cycles and their worker threads: simpler, or dependent on timing.
