/** The fingerprinter object: its entry points, `stop()`, the notification
    helpers, and `run()`, which fills the sample buffer in place and leaves
    in `trace` exactly the events `Pass.PassEvents` describes. */
module Fingerprinter {
  import opened Events
  import opened Notification
  import opened Capture
  import opened Pass

  class AudioFingerprinter {
    /** The listener given to the constructor, by kind. */
    const listener: Listener
    var secondsToRecord: int
    var bufferSize: int
    var audioData: array?<Short>
    /** The recorder of the current or last pass; `None` for Java's null. */
    var mRecordInstance: Option<Recorder>
    /** Every device call, generator call and notification so far. */
    var trace: seq<Event>

    /** The durations `fingerprint` leaves behind, and the field's initial
        value. */
    predicate Valid()
      reads this
    {
      RecordableSeconds(secondsToRecord)
    }

    constructor(listener: Listener)
      ensures Valid()
      ensures this.listener == listener
      ensures secondsToRecord == 0 && bufferSize == 0 && audioData == null
      ensures mRecordInstance == None && trace == []
    {
      this.listener := listener;
      secondsToRecord := 0;
      bufferSize := 0;
      audioData := null;
      mRecordInstance := None;
      trace := [];
    }

    /** `fingerprint(seconds)`: records the clamped duration for the pass
        the new thread runs. */
    method Fingerprint(seconds: int)
      modifies this`secondsToRecord
      ensures secondsToRecord == EffectiveSeconds(seconds)
      ensures MinSeconds <= secondsToRecord <= MaxSeconds && Valid()
    {
      secondsToRecord := Max(Min(seconds, MaxSeconds), MinSeconds);
    }

    /** `fingerprint()`: a pass of the default length. */
    method FingerprintDefault()
      modifies this`secondsToRecord
      ensures secondsToRecord == DefaultSeconds
    {
      Fingerprint(DefaultSeconds);
    }

    /** `AudioRecord.stop()` on the current recorder. */
    method StopRecorder()
      requires mRecordInstance.Some?
      modifies this`mRecordInstance, this`trace
      ensures mRecordInstance == Some(Recorder(Stopped))
      ensures trace == old(trace) + [StopDevice]
    {
      mRecordInstance := Some(Recorder(Stopped));
      trace := trace + [StopDevice];
    }

    /** `stop()`: stops the recorder if there is one, and does nothing
        otherwise. */
    method Stop()
      modifies this`mRecordInstance, this`trace
      ensures old(mRecordInstance).None? ==> mRecordInstance == None && trace == old(trace)
      ensures old(mRecordInstance).Some? ==>
                mRecordInstance == Some(Recorder(Stopped)) && trace == old(trace) + [StopDevice]
    {
      if mRecordInstance.Some? {
        StopRecorder();
      }
    }

    /** The dispatch rule the four notification helpers share. */
    method Deliver(cb: Callback)
      modifies this`trace
      ensures trace == old(trace) + Dispatch(listener, cb)
    {
      if listener == NoListener {
        return;
      }
      if listener == UiBound {
        trace := trace + [Notify(cb, PostedToUiThread)];
      } else {
        trace := trace + [Notify(cb, CalledDirectly)];
      }
    }

    method DidFinishListening(code: string)
      modifies this`trace
      ensures trace == old(trace) + Dispatch(listener, Finished(code))
    {
      Deliver(Finished(code));
    }

    method WillStartListening()
      modifies this`trace
      ensures trace == old(trace) + Dispatch(listener, WillStart)
    {
      Deliver(WillStart);
    }

    method DidFailWithException(cause: Failure)
      modifies this`trace
      ensures trace == old(trace) + Dispatch(listener, Failed(cause))
    {
      Deliver(Failed(cause));
    }

    method DidInterrupted()
      modifies this`trace
      ensures trace == old(trace) + Dispatch(listener, Interrupted)
    {
      Deliver(Interrupted);
    }

    /** One `read(audioData, offset, count)` that delivers `data`: the
        samples land at `offset`, the rest of the buffer is untouched. */
    method ReadInto(offset: int, count: int, data: seq<Short>) returns (got: int)
      requires audioData != null
      requires 0 <= offset && offset + |data| <= audioData.Length
      modifies audioData, this`trace
      ensures got == |data|
      ensures audioData[..] == old(audioData[..])[..offset] + data + old(audioData[..])[offset + got..]
      ensures trace == old(trace) + [Read(offset, count, got)]
    {
      ghost var before := audioData[..];
      for j := 0 to |data|
        invariant forall k :: 0 <= k < audioData.Length && !(offset <= k < offset + j) ==>
                    audioData[k] == before[k]
        invariant forall k :: offset <= k < offset + j ==> audioData[k] == data[k - offset]
        invariant trace == old(trace)
      {
        audioData[offset + j] := data[j];
      }
      Spliced(before, audioData[..], offset, data);
      got := |data|;
      trace := trace + [Read(offset, count, got)];
    }

    /** The do-while fill loop of `run()`: each read asks for the rest of the
        buffer at `samplesIn`; a `stop()` from another thread that lands
        after a read is a call of `Stop`. */
    method FillLoop(dev: Device, ghost size: int) returns (samplesIn: int)
      requires audioData != null && audioData.Length == bufferSize == size
      requires Completes(dev.steps, size)
      requires audioData[..] == Zeros(size)
      requires mRecordInstance == Some(Recorder(Recording))
      modifies audioData, this`mRecordInstance, this`trace
      ensures var c := Fill(dev.steps, size);
        && samplesIn == c.samplesIn
        && audioData[..] == Samples(c, size)
        && trace == old(trace) + c.readCalls + StopIf(c.stopped)
        && mRecordInstance == Some(Recorder(if c.stopped then Stopped else Recording))
    {
      ghost var n := ReadCount(dev.steps, size, 0);
      ghost var t0 := trace;
      samplesIn := 0;
      var i := 0;
      while true
        invariant 0 <= i < n
        invariant samplesIn == Delivered(dev.steps, i) <= size
        invariant audioData[..] == Filled(dev.steps, size, i)
        invariant trace == t0 + ReadEvents(dev.steps, size, i)
        invariant mRecordInstance == Some(Recorder(Recording))
        decreases n - i
      {
        var step := dev.steps[i];
        LoopStep(dev.steps, size, i);
        var got := NextRead(dev.steps, size, i, samplesIn, t0);
        StopLands(step.stoppedAfter);
        samplesIn := samplesIn + got;
        i := i + 1;
        // the break on a STOPPED state, then the do-while condition
        if mRecordInstance.value.state == Stopped || !(samplesIn < bufferSize) {
          FillDone(dev.steps, size, i, samplesIn, audioData[..], t0, trace);
          break;
        }
        // no stop landed, so the trace holds just the reads
        assert StopIf(false) == [];
      }
    }

    /** Read number `i` of the fill loop, at `samplesIn`, for the rest of
        the buffer: it extends the delivered samples and the reads by one. */
    method NextRead(steps: seq<ReadStep>, ghost size: int, i: int, samplesIn: int, ghost t0: seq<Event>)
      returns (got: int)
      requires audioData != null && audioData.Length == bufferSize == size
      requires 0 <= i < |steps| && Delivered(steps, i + 1) <= size
      requires samplesIn == Delivered(steps, i)
      requires audioData[..] == Filled(steps, size, i)
      requires trace == t0 + ReadEvents(steps, size, i)
      modifies audioData, this`trace
      ensures samplesIn + got == Delivered(steps, i + 1) <= size
      ensures audioData[..] == Filled(steps, size, i + 1)
      ensures trace == t0 + ReadEvents(steps, size, i + 1)
    {
      ghost var before, earlier := audioData[..], trace;
      ghost var ev := ReadEvent(steps, size, i);
      assert ev == Read(samplesIn, bufferSize - samplesIn, |steps[i].data|);
      got := ReadInto(samplesIn, bufferSize - samplesIn, steps[i].data);
      BufferAfterRead(steps, size, i, before, audioData[..]);
      TraceAfterRead(steps, size, i, t0, earlier, trace);
    }

    /** A `stop()` from another thread that lands at this point when `lands`
        holds, and nothing otherwise. */
    method StopLands(lands: bool)
      requires mRecordInstance.Some? && audioData != null
      modifies this`mRecordInstance, this`trace
      ensures audioData[..] == old(audioData[..])
      ensures mRecordInstance == if lands then Some(Recorder(Stopped)) else old(mRecordInstance)
      ensures trace == old(trace) + StopIf(lands)
    {
      if lands {
        Stop();
      }
    }

    /** `run()`: one pass over the device script `dev` with the generator
        `codegen`, on a device whose minimum buffer size is `minBufferSize`. */
    method Run(minBufferSize: int, dev: Device, codegen: Codegen)
      requires Valid()
      requires ScriptFits(dev, BufferLength(minBufferSize, secondsToRecord))
      modifies this`bufferSize, this`audioData, this`mRecordInstance, this`trace
      ensures bufferSize == BufferLength(minBufferSize, secondsToRecord)
      ensures audioData != null && fresh(audioData) && audioData.Length == bufferSize
      ensures Reached(dev, bufferSize) ==> audioData[..] == Samples(Fill(dev.steps, bufferSize), bufferSize)
      ensures !Reached(dev, bufferSize) ==> audioData[..] == Zeros(bufferSize)
      ensures trace == old(trace) + PassEvents(listener, minBufferSize, bufferSize, dev, codegen)
      ensures mRecordInstance == RecorderAfter(old(mRecordInstance), bufferSize, dev, codegen)
    {
      AllocateBuffer(minBufferSize);
      ghost var size := bufferSize;
      if dev.constructorThrows {
        DidFailWithException(RecorderConstructionFailed);
        ConstructionFailurePass(listener, minBufferSize, size, dev, codegen);
        return;
      }
      mRecordInstance := Some(Recorder(Stopped));
      trace := trace + [Open(minBufferSize)];
      WillStartListening();
      if dev.startThrows {
        DidFailWithException(StartRecordingFailed);
        StartFailurePass(listener, minBufferSize, size, dev, codegen);
        return;
      }
      RecordAndGenerate(minBufferSize, dev, codegen, size);
      ReachedEvents(old(trace), listener, minBufferSize, size, dev, codegen);
    }

    /** The buffer sizing at the start of `run()`: room for the whole
        duration and at least the device's minimum, freshly zeroed. */
    method AllocateBuffer(minBufferSize: int)
      requires Valid()
      modifies this`bufferSize, this`audioData
      ensures bufferSize == BufferLength(minBufferSize, secondsToRecord)
      ensures audioData != null && fresh(audioData) && audioData.Length == bufferSize
      ensures audioData[..] == Zeros(bufferSize)
    {
      bufferSize := Max(minBufferSize, SampleRate * secondsToRecord);
      audioData := new Short[bufferSize](_ => 0);
    }

    /** `run()` from `startRecording()` on, once it has not thrown: the fill
        loop, the state check and what follows it. */
    method RecordAndGenerate(minBufferSize: int, dev: Device, codegen: Codegen, ghost size: int)
      requires Reached(dev, size)
      requires audioData != null && audioData.Length == bufferSize == size
      requires audioData[..] == Zeros(size)
      requires mRecordInstance.Some?
      modifies audioData, this`mRecordInstance, this`trace
      ensures audioData[..] == Samples(Fill(dev.steps, size), size)
      ensures trace == old(trace) + FillEvents(size, dev) + Closing(size, dev, codegen)
                       + Dispatch(listener, Outcome(size, dev, codegen))
      ensures mRecordInstance == RecorderAfter(None, size, dev, codegen)
    {
      mRecordInstance := Some(Recorder(Recording));
      trace := trace + [StartRecording];
      var samplesIn := FillLoop(dev, size);
      StopLands(dev.stoppedBeforeCheck);
      assert mRecordInstance.value.state == Stopped <==> StoppedAfterLoop(dev, size);
      AfterFill(minBufferSize, dev, codegen, samplesIn, size);
      FillEventsIs(old(trace), size, dev);
    }

    /** The rest of `run()` after the fill loop: the state check, then either
        release and `didInterrupted`, or the generator, and on a non-empty
        code stop, release and `didFinishListening`. An empty code ends in
        `didFailWithException` with the recorder left as it is. */
    method AfterFill(minBufferSize: int, dev: Device, codegen: Codegen, samplesIn: int, ghost size: int)
      requires Reached(dev, size)
      requires audioData != null && audioData[..] == Samples(Fill(dev.steps, size), size)
      requires samplesIn == Fill(dev.steps, size).samplesIn
      requires mRecordInstance == Some(Recorder(if StoppedAfterLoop(dev, size) then Stopped else Recording))
      modifies this`mRecordInstance, this`trace
      ensures trace == old(trace) + Closing(size, dev, codegen) + Dispatch(listener, Outcome(size, dev, codegen))
      ensures mRecordInstance == RecorderAfter(None, size, dev, codegen)
    {
      if mRecordInstance.value.state == Stopped {
        trace := trace + [ReleaseDevice];
        mRecordInstance := None;
        DidInterrupted();
        return;
      }

      var fpCode := codegen(audioData[..], samplesIn);
      assert fpCode == Code(dev, size, codegen);
      trace := trace + [Generate(samplesIn)];
      if |fpCode| == 0 {
        DidFailWithException(EmptyFingerprint);
        return;
      }
      if mRecordInstance.Some? {
        StopRecorder();
        trace := trace + [ReleaseDevice];
        mRecordInstance := None;
      }
      DidFinishListening(fpCode);
    }
  }

  /** The contents of an array after `data` was copied in at `at`, from
      what it held before. */
  lemma Spliced(before: seq<Short>, after: seq<Short>, at: int, data: seq<Short>)
    requires |before| == |after| && 0 <= at && at + |data| <= |after|
    requires forall k :: 0 <= k < |after| && !(at <= k < at + |data|) ==> after[k] == before[k]
    requires forall k :: at <= k < at + |data| ==> after[k] == data[k - at]
    ensures after == before[..at] + data + before[at + |data|..]
  {
  }

  /** Writing `data` right after `prefix` into a buffer that held `prefix`
      and then zeros. */
  lemma WrittenAt(prefix: seq<Short>, data: seq<Short>, room: int)
    requires |data| <= room
    ensures var buf := prefix + Zeros(room);
      buf[..|prefix|] + data + buf[|prefix| + |data|..] == (prefix + data) + Zeros(room - |data|)
  {
    var buf := prefix + Zeros(room);
    assert buf[..|prefix|] == prefix;
    assert buf[|prefix| + |data|..] == Zeros(room - |data|);
  }

  /** The buffer after read `i` of the fill loop holds what the first
      `i + 1` reads delivered, then zeros. */
  lemma BufferAfterRead(steps: seq<ReadStep>, size: int, i: int, before: seq<Short>, after: seq<Short>)
    requires 0 <= i < |steps| && Delivered(steps, i + 1) <= size
    requires before == Filled(steps, size, i)
    requires after == before[..Delivered(steps, i)] + steps[i].data
                      + before[Delivered(steps, i) + |steps[i].data|..]
    ensures after == Filled(steps, size, i + 1)
  {
    WrittenAt(Flatten(steps, i), steps[i].data, size - Delivered(steps, i));
  }

  /** The trace after read `i` of the fill loop holds the first `i + 1`
      reads. */
  lemma TraceAfterRead(steps: seq<ReadStep>, size: int, i: int, t0: seq<Event>, before: seq<Event>, t: seq<Event>)
    requires 0 <= i < |steps|
    requires before == t0 + ReadEvents(steps, size, i)
    requires t == before + [ReadEvent(steps, size, i)]
    ensures t == t0 + ReadEvents(steps, size, i + 1)
  {
    SeqAssoc(t0, ReadEvents(steps, size, i), [ReadEvent(steps, size, i)]);
  }

  /** One turn of the fill loop at read `i`: the read fits the buffer, and
      the loop goes on after it exactly when it is not the last. */
  lemma LoopStep(steps: seq<ReadStep>, size: int, i: int)
    requires Completes(steps, size)
    requires 0 <= i < ReadCount(steps, size, 0)
    ensures Delivered(steps, i + 1) <= size
    ensures Continues(steps, size, i) <==> i < ReadCount(steps, size, 0) - 1
  {
    ReadCountSpec(steps, size, 0);
  }

  /** The state the fill loop leaves when it stops after read `i - 1`: the
      count, the buffer and the trace are those `Fill` describes. */
  lemma FillDone(steps: seq<ReadStep>, size: int, i: int, samplesIn: int, buf: seq<Short>,
                 t0: seq<Event>, t: seq<Event>)
    requires Completes(steps, size)
    requires i == ReadCount(steps, size, 0)
    requires samplesIn == Delivered(steps, i)
    requires buf == Filled(steps, size, i)
    requires t == t0 + ReadEvents(steps, size, i) + StopIf(steps[i - 1].stoppedAfter)
    ensures var c := Fill(steps, size);
      && samplesIn == c.samplesIn
      && buf == Samples(c, size)
      && t == t0 + c.readCalls + StopIf(c.stopped)
      && c.stopped == steps[i - 1].stoppedAfter
  {
  }
}
