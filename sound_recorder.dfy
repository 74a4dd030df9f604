/** The capture state of SoundRecorder: the recording flag, the growing list
    of samples of the current window, the fixed read buffer, and the
    published loudness list. The platform microphone, the reading thread and
    the finalizing coroutine are replaced by sequential methods whose
    arguments stand for what AudioRecord.read delivers. */
module Record {
  import opened PcmProcessor

  /** Sample rate the recorder asks the platform for, in Hz. */
  const SampleRate: nat := 48000

  /** The blocks of a window laid end to end, in the order they were read. */
  function Flatten(blocks: seq<seq<int>>): seq<int>
  {
    if blocks == [] then [] else Flatten(blocks[..|blocks| - 1]) + blocks[|blocks| - 1]
  }

  /** A window made of m blocks of one buffer length holds m times that many samples. */
  lemma {:induction false} FlattenLength(blocks: seq<seq<int>>, size: nat)
    requires forall i :: 0 <= i < |blocks| ==> |blocks[i]| == size
    ensures |Flatten(blocks)| == |blocks| * size
  {
    if blocks != [] {
      FlattenLength(blocks[..|blocks| - 1], size);
      assert (|blocks| - 1) * size + size == |blocks| * size;
    }
  }

  lemma Distribute(a: nat, b: nat, m: nat)
    ensures (a + b) * m == a * m + b * m
  {
  }

  /** The first blocks of a window occupy a prefix of it. */
  lemma {:induction false} FlattenPrefix(blocks: seq<seq<int>>, m: nat)
    requires m <= |blocks|
    ensures |Flatten(blocks[..m])| <= |Flatten(blocks)|
    ensures Flatten(blocks)[..|Flatten(blocks[..m])|] == Flatten(blocks[..m])
  {
    if m < |blocks| {
      assert blocks[..|blocks| - 1][..m] == blocks[..m];
      FlattenPrefix(blocks[..|blocks| - 1], m);
    } else {
      assert blocks[..m] == blocks;
    }
  }

  /** Appending blocks of one length to a window keeps the old window as a
      prefix and grows it by that length per block. */
  lemma FlattenExtends(before: seq<seq<int>>, added: seq<seq<int>>, size: nat)
    requires forall i :: 0 <= i < |before| ==> |before[i]| == size
    requires forall i :: 0 <= i < |added| ==> |added[i]| == size
    ensures |Flatten(before + added)| == |Flatten(before)| + |added| * size
    ensures Flatten(before + added)[..|Flatten(before)|] == Flatten(before)
  {
    var all := before + added;
    assert all[..|before|] == before;
    FlattenPrefix(all, |before|);
    FlattenLength(all, size);
    FlattenLength(before, size);
    Distribute(|before|, |added|, size);
  }

  /** The buffer contents after the reads d, starting from contents buf:
      each read overwrites the front with the samples it delivered and leaves
      the rest of the buffer as the previous read left it. */
  function BufferAfter(buf: seq<int>, d: seq<seq<int>>): (r: seq<int>)
    requires forall j :: 0 <= j < |d| ==> |d[j]| <= |buf|
    ensures |r| == |buf|
    ensures d != [] ==> r[..|d[|d| - 1]|] == d[|d| - 1]
  {
    if d == [] then buf
    else
      var last := d[|d| - 1];
      last + BufferAfter(buf, d[..|d| - 1])[|last|..]
  }

  /** The blocks the reads d append to the window, starting from buffer
      contents buf: after each read, the whole buffer as that read left it. */
  function Appended(buf: seq<int>, d: seq<seq<int>>): (r: seq<seq<int>>)
    requires forall j :: 0 <= j < |d| ==> |d[j]| <= |buf|
    ensures |r| == |d|
  {
    if d == [] then [] else Appended(buf, d[..|d| - 1]) + [BufferAfter(buf, d)]
  }

  /** Every appended block is a whole buffer that starts with the samples of
      its own read. */
  lemma {:induction false} AppendedShape(buf: seq<int>, d: seq<seq<int>>)
    requires forall j :: 0 <= j < |d| ==> |d[j]| <= |buf|
    ensures forall j :: 0 <= j < |d| ==> |Appended(buf, d)[j]| == |buf| && Appended(buf, d)[j][..|d[j]|] == d[j]
  {
    if d != [] {
      var init := d[..|d| - 1];
      AppendedShape(buf, init);
      forall j | 0 <= j < |d|
        ensures |Appended(buf, d)[j]| == |buf| && Appended(buf, d)[j][..|d[j]|] == d[j]
      {
        if j < |d| - 1 {
          assert Appended(buf, d)[j] == Appended(buf, init)[j];
          assert init[j] == d[j];
        }
      }
    }
  }

  /** Reads that each fill the whole buffer append exactly what they delivered;
      only a short read lets a stale tail into the window. */
  lemma FullReadsAppendDelivered(buf: seq<int>, d: seq<seq<int>>)
    requires forall j :: 0 <= j < |d| ==> |d[j]| == |buf|
    ensures Appended(buf, d) == d
  {
    AppendedShape(buf, d);
    forall j | 0 <= j < |d|
      ensures Appended(buf, d)[j] == d[j]
    {
      assert Appended(buf, d)[j] == Appended(buf, d)[j][..|d[j]|];
    }
  }

  class SoundRecorder {
    /** AudioRecord.getMinBufferSize for the configured rate and format. */
    const minBufferSize: nat
    /** The ShortArray(minBufferSize) every read fills. */
    const buffer: array<int>
    /** _isRecording */
    var isRecording: bool
    /** recordingData: the samples appended since the last clear. */
    var recordingData: seq<int>
    /** The value of the _soundData state flow. */
    var soundData: seq<real>
    /** The buffer contents appended since the last clear, one per read. */
    ghost var blocks: seq<seq<int>>

    /** Every appended block is a whole buffer, recordingData is exactly
        those blocks in order, and every stored value is a 16-bit sample. */
    ghost predicate Valid()
      reads this, buffer
    {
      && buffer.Length == minBufferSize
      && AllSamples(buffer[..])
      && (forall i :: 0 <= i < |blocks| ==> |blocks[i]| == minBufferSize)
      && recordingData == Flatten(blocks)
      && AllSamples(recordingData)
    }

    /** The window always holds a whole number of buffers: one per read
        since the last clear. */
    lemma WindowLength()
      requires Valid()
      ensures |recordingData| == |blocks| * minBufferSize
    {
      FlattenLength(blocks, minBufferSize);
    }

    /** The recorder after a granted permission: not recording, no samples,
        an empty published list and a zero-filled buffer. */
    constructor (minBufferSize: nat)
      ensures Valid() && fresh(buffer)
      ensures this.minBufferSize == minBufferSize
      ensures buffer[..] == seq(minBufferSize, _ => 0)
      ensures !isRecording && recordingData == [] && blocks == []
      ensures soundData == []
    {
      this.minBufferSize := minBufferSize;
      buffer := new int[minBufferSize](_ => 0);
      isRecording := false;
      recordingData := [];
      soundData := [];
      blocks := [];
    }

    /** startRecording: raise the flag and clear the window. The flag is not
        consulted first, so a second start clears the window again. */
    method StartRecording()
      requires Valid()
      modifies this
      ensures Valid()
      ensures isRecording
      ensures recordingData == [] && blocks == []
      ensures soundData == old(soundData)
    {
      isRecording := true;
      recordingData := [];
      blocks := [];
    }

    /** One pass of the read loop: read fills the front of the buffer with
        the samples it got, and then the WHOLE buffer, stale tail included,
        is appended to the window. */
    method ReadBlock(samples: seq<int>)
      requires Valid()
      requires isRecording
      requires |samples| <= minBufferSize && AllSamples(samples)
      modifies this, buffer
      ensures Valid()
      ensures buffer[..] == samples + old(buffer[..])[|samples|..]
      ensures recordingData == old(recordingData) + buffer[..]
      ensures |recordingData| == |old(recordingData)| + minBufferSize
      ensures blocks == old(blocks) + [buffer[..]]
      ensures isRecording && soundData == old(soundData)
    {
      forall i | 0 <= i < |samples| {
        buffer[i] := samples[i];
      }
      assert buffer[..] == samples + old(buffer[..])[|samples|..];
      blocks := blocks + [buffer[..]];
      recordingData := recordingData + buffer[..];
    }

    /** The reading thread's loop while the flag stays raised: delivered[j] is
        what the j-th read delivered. Each read appends one whole buffer,
        whose front holds that read's samples and whose rest is what the
        earlier reads left there. */
    method RecordingLoop(delivered: seq<seq<int>>)
      requires Valid()
      requires isRecording
      requires forall j :: 0 <= j < |delivered| ==> |delivered[j]| <= minBufferSize && AllSamples(delivered[j])
      modifies this, buffer
      ensures Valid()
      ensures blocks == old(blocks) + Appended(old(buffer[..]), delivered)
      ensures buffer[..] == BufferAfter(old(buffer[..]), delivered)
      ensures |blocks| == |old(blocks)| + |delivered|
      ensures forall j :: 0 <= j < |delivered| ==> blocks[|old(blocks)| + j][..|delivered[j]|] == delivered[j]
      ensures |recordingData| == |old(recordingData)| + |delivered| * minBufferSize
      ensures recordingData[..|old(recordingData)|] == old(recordingData)
      ensures isRecording && soundData == old(soundData)
    {
      var i := 0;
      ghost var start := buffer[..];
      while i < |delivered|
        invariant 0 <= i <= |delivered|
        invariant Valid() && isRecording && soundData == old(soundData)
        invariant blocks == old(blocks) + Appended(start, delivered[..i])
        invariant buffer[..] == BufferAfter(start, delivered[..i])
      {
        assert delivered[..i + 1][..i] == delivered[..i];
        ReadBlock(delivered[i]);
        i := i + 1;
      }
      assert delivered[..|delivered|] == delivered;
      AppendedShape(start, delivered);
      FlattenExtends(old(blocks), Appended(start, delivered), minBufferSize);
    }

    /** stopRecording's synchronous part: lower the flag, which ends the read loop. */
    method StopRecording()
      requires Valid()
      modifies this
      ensures Valid()
      ensures !isRecording
      ensures recordingData == old(recordingData) && blocks == old(blocks)
      ensures soundData == old(soundData)
    {
      isRecording := false;
    }

    /** The coroutine stopRecording launches: compute the statistic of a
        snapshot of the window, publish it as the only element of the
        sound-data list (replacing, not appending), and clear the window. */
    method Finalize()
      requires Valid()
      modifies this
      ensures Valid()
      ensures soundData == [AverageOfTopTenPercent(old(recordingData))]
      ensures SampleMin as real <= soundData[0] <= SampleMax as real
      ensures recordingData == [] && blocks == []
      ensures isRecording == old(isRecording)
    {
      var snapshot := recordingData;
      var topAvg := AverageOfTopTenPercent(snapshot);
      AverageInSampleRange(snapshot);
      soundData := [topAvg];
      recordingData := [];
      blocks := [];
    }
  }

  /** One capture window on a fresh recorder whose buffer holds size
      samples and whose every read fills it: start, the reads, stop,
      finalize. The published list is the statistic of all the delivered
      samples in reading order, and nothing is left in the window. */
  method CaptureWindow(size: nat, delivered: seq<seq<int>>) returns (published: seq<real>, leftover: seq<int>)
    requires forall j :: 0 <= j < |delivered| ==> |delivered[j]| == size && AllSamples(delivered[j])
    ensures published == [AverageOfTopTenPercent(Flatten(delivered))]
    ensures leftover == []
  {
    var recorder := new SoundRecorder(size);
    recorder.StartRecording();
    recorder.RecordingLoop(delivered);
    recorder.StopRecording();
    assert recorder.blocks == delivered by {
      forall j | 0 <= j < |delivered|
        ensures recorder.blocks[j] == delivered[j]
      {
        assert recorder.blocks[j] == recorder.blocks[j][..|delivered[j]|];
      }
    }
    recorder.Finalize();
    published, leftover := recorder.soundData, recorder.recordingData;
  }

  /** Two full reads [100, 200, 300, 400, 500] and [600, 700, 800, 900, 1000]
      make a ten-sample window whose statistic is its largest sample, 1000. */
  lemma TwoBlockWindow(delivered: seq<seq<int>>)
    requires delivered == [[100, 200, 300, 400, 500], [600, 700, 800, 900, 1000]]
    ensures Flatten(delivered) == [100, 200, 300, 400, 500, 600, 700, 800, 900, 1000]
    ensures AverageOfTopTenPercent(Flatten(delivered)) == 1000.0
  {
    assert delivered[..1][..0] == [];
    assert Flatten(delivered[..1]) == delivered[0];
    TenAscendingSamples(Flatten(delivered));
  }
}
