# Sound-level detector core, modelled in Dafny

This project models the core of an Android sound-level detector
(`soundDetect-Android`): the loudness statistic it computes over one capture
window, and the recorder state around it.

- `pcm_processor.dfy`, module `PcmProcessor`:
  `PCMDataProcessor.calculateAverageOfTopTenPercent`, a pure function. It
  returns 0 for no samples. Otherwise it sorts the 16-bit samples ascending and
  takes the slice from index `k = floor(9n/10)` to the end. It returns the
  mean of that slice. Sorting is an insertion-sort function proved ascending
  and a permutation of its input. A uniqueness lemma shows that the sorted
  order, and so the statistic, depends only on the multiset of samples.
- `sound_recorder.dfy`, module `Record`: the class `SoundRecorder`. It holds
  the recording flag, the window `recordingData`, the read buffer of
  `minBufferSize` samples and the published `soundData` list. The reading
  thread and the finalizing coroutine become sequential methods.
  `ReadBlock` is one pass of the read loop. `RecordingLoop` is that loop over
  the blocks the microphone delivered. `Finalize` is the body of the coroutine
  that `stopRecording` launches. A ghost field `blocks` records each buffer
  appended since the last clear, and `Valid()` ties the window to it.

Samples are `int` restricted to [-32768, 32767] where it matters
(`AllSamples`). The statistic is an exact `real`.

Behaviour a reader might expect that the code does not have:

- A second `startRecording` while recording is not a no-op. The code never
  reads the flag first, so the window is cleared again.
  `StartRecording` has no precondition on the flag.
- The result is not appended to a history. `emit(listOf(topAvg))` replaces
  the published list with a one-element list, as `Finalize` states.
- The statistic is not always at least 0. Samples are signed, so a window of
  negative samples gives a negative value (`NegativeWindow`).
- The count that `read` returns is ignored. The whole buffer is appended,
  including any stale tail a short read left behind (`ReadBlock`).

Modelling assumption for the index: the code computes `(n * 0.9).toInt()` in
double precision. The model uses the integer `(9 * n) / 10`. These agree for
any list that fits in memory. The double nearest 0.9 exceeds 9/10 by less
than 2^-53, and rounding is monotone, so the product never falls below an
exact integer `9n/10`. When `9n/10` is not an integer, it lies at least
1/10 below the next integer. For any `n` that fits in an `Int`, the computed
product exceeds `9n/10` by less than 10^-6 (under 2^31 * 2^-55 from the
constant, plus half an ulp of the product). So the product stays below that
next integer, and truncation gives `floor(9n/10)`.

## Model

| member | source | states |
|---|---|---|
| `PcmProcessor.Insert` | app/src/main/java/com/example/heygongcsounddetect/pcm/PCMDataProcessor.kt:12 | inserting into an ascending list gives an ascending list whose multiset is the old one plus the new sample |
| `PcmProcessor.InsertionSort` | app/src/main/java/com/example/heygongcsounddetect/pcm/PCMDataProcessor.kt:12 | insertion sort gives an ascending list that is a permutation of the input |
| `PcmProcessor.Sort` | app/src/main/java/com/example/heygongcsounddetect/pcm/PCMDataProcessor.kt:12 | `sorted()` gives an ascending list that is a permutation of the input |
| `PcmProcessor.SortedUnique` | app/src/main/java/com/example/heygongcsounddetect/pcm/PCMDataProcessor.kt:12 | two ascending lists with the same multiset of samples are equal, so the sorted list is determined by the input |
| `PcmProcessor.SortOfSorted` | app/src/main/java/com/example/heygongcsounddetect/pcm/PCMDataProcessor.kt:12 | sorting an ascending list returns it unchanged |
| `PcmProcessor.SortPermutationInvariant` | app/src/main/java/com/example/heygongcsounddetect/pcm/PCMDataProcessor.kt:12 | inputs that are permutations of each other sort to the same list |
| `PcmProcessor.TopStart` | app/src/main/java/com/example/heygongcsounddetect/pcm/PCMDataProcessor.kt:13-14 | the start index k is at most n, is below n for n >= 1, and leaves n - k = ceil(n/10) samples |
| `PcmProcessor.TailShape` | app/src/main/java/com/example/heygongcsounddetect/pcm/PCMDataProcessor.kt:15-16 | a tail of an ascending list is ascending, ends with the list's last element, and no element before the cut exceeds an element after it |
| `PcmProcessor.TopSliceShape` | app/src/main/java/com/example/heygongcsounddetect/pcm/PCMDataProcessor.kt:12-16 | for n >= 1 the slice is non-empty, has ceil(n/10) elements, is ascending, and ends with the largest sample |
| `PcmProcessor.SmallInputSlice` | app/src/main/java/com/example/heygongcsounddetect/pcm/PCMDataProcessor.kt:13-16 | for 1 to 10 samples the slice is exactly the largest sample |
| `PcmProcessor.LastOfPermutationIsMax` | app/src/main/java/com/example/heygongcsounddetect/pcm/PCMDataProcessor.kt:12 | the last element of an ascending permutation of the samples is one of them and no sample exceeds it |
| `PcmProcessor.SortedLastIsMax` | app/src/main/java/com/example/heygongcsounddetect/pcm/PCMDataProcessor.kt:12 | the last sorted element is one of the samples and no sample exceeds it |
| `PcmProcessor.SortedElementIsSample` | app/src/main/java/com/example/heygongcsounddetect/pcm/PCMDataProcessor.kt:12 | every element of the sorted list is one of the input samples |
| `PcmProcessor.SumBounds` | app/src/main/java/com/example/heygongcsounddetect/pcm/PCMDataProcessor.kt:20 | the sum of values between lo and hi lies between n*lo and n*hi |
| `PcmProcessor.MeanBounds` | app/src/main/java/com/example/heygongcsounddetect/pcm/PCMDataProcessor.kt:20 | `average()` of a non-empty list lies between any lower and upper bound of its elements |
| `PcmProcessor.TailMeanBounds` | app/src/main/java/com/example/heygongcsounddetect/pcm/PCMDataProcessor.kt:15-20 | the mean of a tail of an ascending list lies between the tail's first and last elements and is at least every element before the tail |
| `PcmProcessor.AverageOfTopTenPercent` | app/src/main/java/com/example/heygongcsounddetect/pcm/PCMDataProcessor.kt:9-21 | the statistic of an empty sample list is 0 |
| `PcmProcessor.AverageBounds` | app/src/main/java/com/example/heygongcsounddetect/pcm/PCMDataProcessor.kt:12-20 | for non-empty input the statistic lies between the k-th smallest and the largest sorted sample, and is at least every sample outside the slice |
| `PcmProcessor.AverageInSampleRange` | app/src/main/java/com/example/heygongcsounddetect/pcm/PCMDataProcessor.kt:9-21 | for 16-bit samples the statistic lies within [-32768, 32767] |
| `PcmProcessor.SmallInputIsMax` | app/src/main/java/com/example/heygongcsounddetect/pcm/PCMDataProcessor.kt:13-20 | for 1 to 10 samples the statistic equals the largest sample |
| `PcmProcessor.SortedSmallInput` | app/src/main/java/com/example/heygongcsounddetect/pcm/PCMDataProcessor.kt:12-20 | for 1 to 10 samples already ascending, the statistic is the last sample |
| `PcmProcessor.AveragePermutationInvariant` | app/src/main/java/com/example/heygongcsounddetect/pcm/PCMDataProcessor.kt:12-20 | the statistic is the same for any permutation of the input |
| `PcmProcessor.TenAscendingSamples` | app/src/main/java/com/example/heygongcsounddetect/pcm/PCMDataProcessor.kt:9-21 | the samples 100, 200, ..., 1000 give the start index k = 9 and the statistic 1000 |
| `PcmProcessor.NegativeWindow` | app/src/main/java/com/example/heygongcsounddetect/pcm/PCMDataProcessor.kt:9-21 | the samples -300, -200, -100 give the negative statistic -100 |
| `Record.FlattenLength` | app/src/main/java/com/example/heygongcsounddetect/record/SoundRecorder.kt:60-63 | m appended blocks of one length L make a window of m*L samples |
| `Record.FlattenPrefix` | app/src/main/java/com/example/heygongcsounddetect/record/SoundRecorder.kt:62 | the window built from the first blocks is a prefix of the window built from all of them, so appending never disturbs earlier samples |
| `Record.FlattenExtends` | app/src/main/java/com/example/heygongcsounddetect/record/SoundRecorder.kt:60-63 | appending blocks of one length keeps the old window as a prefix and grows it by that length per block |
| `Record.BufferAfter` | app/src/main/java/com/example/heygongcsounddetect/record/SoundRecorder.kt:61 | after a run of reads the buffer keeps its length and its front holds the samples of the last read |
| `Record.Appended` | app/src/main/java/com/example/heygongcsounddetect/record/SoundRecorder.kt:60-62 | the reads append one block each |
| `Record.AppendedShape` | app/src/main/java/com/example/heygongcsounddetect/record/SoundRecorder.kt:60-62 | each appended block is a whole buffer that starts with its own read's samples |
| `Record.FullReadsAppendDelivered` | app/src/main/java/com/example/heygongcsounddetect/record/SoundRecorder.kt:60-62 | when every read fills the buffer, the appended blocks are exactly the delivered reads |
| `Record.SoundRecorder.WindowLength` | app/src/main/java/com/example/heygongcsounddetect/record/SoundRecorder.kt:51 | the window length is the number of reads since the last clear times the buffer length |
| `Record.SoundRecorder.constructor` | app/src/main/java/com/example/heygongcsounddetect/record/SoundRecorder.kt:24-52 | a new recorder is not recording, has an empty window, an empty published list and a zero-filled buffer of the minimum size |
| `Record.SoundRecorder.StartRecording` | app/src/main/java/com/example/heygongcsounddetect/record/SoundRecorder.kt:55-57 | the flag is raised and the window is empty, whatever the old flag; the published list is unchanged |
| `Record.SoundRecorder.ReadBlock` | app/src/main/java/com/example/heygongcsounddetect/record/SoundRecorder.kt:61-62 | only while recording: the read samples fill the front of the buffer, and the whole buffer, stale tail included, is appended to the end of the window |
| `Record.SoundRecorder.RecordingLoop` | app/src/main/java/com/example/heygongcsounddetect/record/SoundRecorder.kt:60-63 | m reads append, after the old window, exactly the m buffers `Appended` gives: each a whole buffer starting with that read's samples, the rest left from earlier reads; the buffer ends as `BufferAfter` gives; the window grows by m*minBufferSize |
| `Record.SoundRecorder.StopRecording` | app/src/main/java/com/example/heygongcsounddetect/record/SoundRecorder.kt:67-68 | the flag is lowered and the window and published list are unchanged |
| `Record.SoundRecorder.Finalize` | app/src/main/java/com/example/heygongcsounddetect/record/SoundRecorder.kt:71-80 | the published list becomes exactly [statistic of the window snapshot], replacing the old list; the value lies in the 16-bit range; the window is cleared and the flag unchanged |
| `Record.CaptureWindow` | app/src/main/java/com/example/heygongcsounddetect/record/SoundRecorder.kt:55-80 | start, full reads, stop and finalize publish [statistic of the delivered samples in reading order] and leave the window empty |
| `Record.TwoBlockWindow` | app/src/main/java/com/example/heygongcsounddetect/record/SoundRecorder.kt:60-76 | two reads of 100..500 and 600..1000 make the ten-sample window 100..1000, whose statistic is 1000 |

## Left out

- The detection cycle in `MainActivity.kt` is left out. It starts, waits 5 s, stops and waits 1 s until cancelled. It is coroutine timing, cancellation and exception swallowing, with no state of its own. The Compose UI and its `> 400` colour threshold are left out too.
- Threads and coroutines are left out. The read loop and the finalize coroutine are sequential methods. The race where a finalize clears the window of a newly started session is not modelled, and neither is a second reading thread started by a second `startRecording`.
- The flag is not modelled as shared between threads. `RecordingLoop` takes the list of reads completed before the flag was lowered.
- Platform I/O is left out: `AudioRecord` construction, `getMinBufferSize`, and `audioRecord.startRecording`/`stop`. `read` becomes the samples it delivers, at most `minBufferSize` of them. Its return value, including error codes, is ignored as the code ignores it.
- The permission-denied branch of the constructor is left out. There the buffer and recorder stay uninitialised, and a later `startRecording` fails in the reading thread. The model's constructor is the granted branch.
- Floating point is left out. `average()` and `size * 0.9` use IEEE doubles. The model uses exact `real` division and the integer index `(9 * n) / 10`, as explained above.
- Logging (`Log.d`, `Log.e`) is left out.
- The `soundData` state flow is a plain field. Its subscribers and the emit suspension are not modelled.
