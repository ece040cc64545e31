/** One fingerprinting pass, the body of `run()`, as a function of the device,
    the generator and the listener: the events it produces and the callback
    that ends it. The class in module Fingerprinter is proved to produce
    exactly these events; the lemmas here say what they guarantee. */
module Pass {
  import opened Events
  import opened Notification
  import opened Capture

  /** The native code generator: all samples of the buffer and the number of
      valid ones, to a fingerprint code (empty when it fails). */
  type Codegen = (seq<Short>, int) -> string

  /** The device script fits a buffer of `size` samples whenever the loop is
      reached at all. */
  predicate ScriptFits(dev: Device, size: int) {
    dev.constructorThrows || dev.startThrows || Completes(dev.steps, size)
  }

  /** The pass gets as far as the fill loop. */
  predicate Reached(dev: Device, size: int) {
    !dev.constructorThrows && !dev.startThrows && Completes(dev.steps, size)
  }

  /** The contents of the buffer after the fill loop: what the reads
      delivered, then the zeros it was allocated with. */
  function Samples(c: Capture, size: int): (s: seq<Short>)
    requires c.samplesIn == |c.data| <= size
    ensures |s| == size
    ensures s[..c.samplesIn] == c.data
    ensures forall k :: c.samplesIn <= k < size ==> s[k] == 0
  {
    c.data + Zeros(size - c.samplesIn)
  }

  /** Whether the pass stops before generating: the state check after the
      loop reads STOPPED. */
  predicate StoppedAfterLoop(dev: Device, size: int)
    requires !dev.constructorThrows && !dev.startThrows && Completes(dev.steps, size)
  {
    Fill(dev.steps, size).stopped || dev.stoppedBeforeCheck
  }

  /** The code the generator returns on the captured buffer. */
  function Code(dev: Device, size: int, codegen: Codegen): string
    requires !dev.constructorThrows && !dev.startThrows && Completes(dev.steps, size)
  {
    var c := Fill(dev.steps, size);
    codegen(Samples(c, size), c.samplesIn)
  }

  /** The callback that ends the pass. */
  function Outcome(size: int, dev: Device, codegen: Codegen): (cb: Callback)
    requires ScriptFits(dev, size)
    ensures IsTerminal(cb)
    ensures cb.Finished? ==> |cb.code| > 0
  {
    if dev.constructorThrows then Failed(RecorderConstructionFailed)
    else if dev.startThrows then Failed(StartRecordingFailed)
    else if StoppedAfterLoop(dev, size) then Interrupted
    else if |Code(dev, size, codegen)| == 0 then Failed(EmptyFingerprint)
    else Finished(Code(dev, size, codegen))
  }

  /** What `mRecordInstance` refers to after the pass, given what it referred
      to before: untouched when the constructor throws, otherwise the new
      recorder, cleared on the interrupted and finished paths. */
  function RecorderAfter(before: Option<Recorder>, size: int, dev: Device, codegen: Codegen): Option<Recorder>
    requires ScriptFits(dev, size)
  {
    if dev.constructorThrows then before
    else if dev.startThrows then Some(Recorder(Stopped))
    else if StoppedAfterLoop(dev, size) then None
    else if |Code(dev, size, codegen)| == 0 then Some(Recorder(Recording))
    else None
  }

  /** A pass that constructs a recorder clears the reference exactly when it
      ends in `didInterrupted` or `didFinishListening`; on every failure it
      leaves a recorder behind, still recording when the generator failed. */
  lemma RecorderCleared(before: Option<Recorder>, size: int, dev: Device, codegen: Codegen)
    requires ScriptFits(dev, size) && !dev.constructorThrows
    ensures var out := Outcome(size, dev, codegen);
      && (RecorderAfter(before, size, dev, codegen).None? <==> out == Interrupted || out.Finished?)
      && (out == Failed(EmptyFingerprint) ==> RecorderAfter(before, size, dev, codegen) == Some(Recorder(Recording)))
  {
  }

  function StopIf(b: bool): seq<Event> {
    if b then [StopDevice] else []
  }

  /** What `run()` does before `startRecording()`: construct the recorder
      and send `willStartListening`. */
  function Opening(l: Listener, minBufferSize: int): seq<Event> {
    [Open(minBufferSize)] + Dispatch(l, WillStart)
  }

  /** The fill loop's device calls: start, the reads, and the `stop()` calls
      from another thread that land after the last read or after the loop. */
  function FillEvents(size: int, dev: Device): seq<Event>
    requires !dev.constructorThrows && !dev.startThrows && Completes(dev.steps, size)
  {
    var c := Fill(dev.steps, size);
    [StartRecording] + c.readCalls + (StopIf(c.stopped) + StopIf(dev.stoppedBeforeCheck))
  }

  /** The device and generator calls after the state check that follows the
      loop: release when it reads STOPPED; otherwise the generator call, and
      on a non-empty code stop and release. */
  function Closing(size: int, dev: Device, codegen: Codegen): (r: seq<Event>)
    requires !dev.constructorThrows && !dev.startThrows && Completes(dev.steps, size)
    ensures forall e :: e in r ==> e.Generate? || e == StopDevice || e == ReleaseDevice
  {
    var c := Fill(dev.steps, size);
    if StoppedAfterLoop(dev, size) then [ReleaseDevice]
    else if |Code(dev, size, codegen)| == 0 then [Generate(c.samplesIn)]
    else [Generate(c.samplesIn)] + [StopDevice] + [ReleaseDevice]
  }

  /** The device and generator calls between `willStartListening` and the
      final callback. */
  function DeviceCalls(size: int, dev: Device, codegen: Codegen): seq<Event>
    requires !dev.constructorThrows && ScriptFits(dev, size)
  {
    if dev.startThrows then []
    else FillEvents(size, dev) + Closing(size, dev, codegen)
  }

  /** Everything one pass adds to the trace, in the order `run()` does it. */
  function PassEvents(l: Listener, minBufferSize: int, size: int, dev: Device, codegen: Codegen): seq<Event>
    requires ScriptFits(dev, size)
  {
    if dev.constructorThrows then Dispatch(l, Outcome(size, dev, codegen))
    else Opening(l, minBufferSize) + (DeviceCalls(size, dev, codegen) + Dispatch(l, Outcome(size, dev, codegen)))
  }

  /** Between the leading and the final callback a pass only talks to the
      device and the generator. */
  lemma RecordingIsSilent(size: int, dev: Device, codegen: Codegen)
    requires !dev.constructorThrows && ScriptFits(dev, size)
    ensures forall e :: e in DeviceCalls(size, dev, codegen) ==> !e.Notify?
  {
  }

  /** Callbacks of a pass: none without a listener; otherwise only the failure
      when the recorder cannot be constructed, and else `willStartListening`
      followed by exactly one terminal callback, the pass's outcome. */
  lemma {:induction false} CallbackProtocol(l: Listener, minBufferSize: int, size: int, dev: Device, codegen: Codegen)
    requires ScriptFits(dev, size)
    ensures var cbs := Callbacks(PassEvents(l, minBufferSize, size, dev, codegen));
      && (l.NoListener? ==> cbs == [])
      && (!l.NoListener? && dev.constructorThrows ==> cbs == [Outcome(size, dev, codegen)])
      && (!l.NoListener? && !dev.constructorThrows ==> cbs == [WillStart, Outcome(size, dev, codegen)])
  {
    var out := Outcome(size, dev, codegen);
    DispatchDelivers(l, WillStart);
    DispatchDelivers(l, out);
    if !dev.constructorThrows {
      RecordingIsSilent(size, dev, codegen);
      SilentBetween(Open(minBufferSize), Dispatch(l, WillStart), DeviceCalls(size, dev, codegen), Dispatch(l, out));
    }
  }

  /** The callbacks of a trace whose only notifications are those of `first`
      and `last`. */
  lemma {:induction false} SilentBetween(open: Event, first: seq<Event>, middle: seq<Event>, last: seq<Event>)
    requires !open.Notify?
    requires forall e :: e in middle ==> !e.Notify?
    ensures Callbacks(([open] + first) + (middle + last)) == Callbacks(first) + Callbacks(last)
  {
    CallbacksOfSilent([open]);
    CallbacksAppend([open], first);
    assert Callbacks([open] + first) == Callbacks(first);
    CallbacksOfSilent(middle);
    CallbacksAppend(middle, last);
    assert Callbacks(middle + last) == Callbacks(last);
    CallbacksAppend([open] + first, middle + last);
  }

  /** Every notification of a pass uses the listener's delivery: posted to
      the UI thread for an `Activity`, called directly otherwise. */
  lemma DeliveryFollowsListener(l: Listener, minBufferSize: int, size: int, dev: Device, codegen: Codegen)
    requires ScriptFits(dev, size)
    ensures forall e :: e in PassEvents(l, minBufferSize, size, dev, codegen) && e.Notify? ==>
              !l.NoListener? && e.delivery == DeliveryFor(l)
  {
    var out := Outcome(size, dev, codegen);
    DispatchDelivers(l, WillStart);
    DispatchDelivers(l, out);
    if !dev.constructorThrows {
      var calls := DeviceCalls(size, dev, codegen);
      var t := PassEvents(l, minBufferSize, size, dev, codegen);
      assert t == Opening(l, minBufferSize) + (calls + Dispatch(l, out));
      RecordingIsSilent(size, dev, codegen);
      forall e | e in t && e.Notify?
        ensures !l.NoListener? && e.delivery == DeliveryFor(l)
      {
        if e in Opening(l, minBufferSize) {
          assert e in Dispatch(l, WillStart);
        } else if e in calls {
          assert false;
        } else {
          assert e in Dispatch(l, out);
        }
      }
    }
  }

  /** When the recorder cannot be constructed, the pass touches no device
      and skips `willStartListening`: only the failure is notified. */
  lemma ConstructionFailurePass(l: Listener, minBufferSize: int, size: int, dev: Device, codegen: Codegen)
    requires dev.constructorThrows
    ensures Outcome(size, dev, codegen) == Failed(RecorderConstructionFailed)
    ensures PassEvents(l, minBufferSize, size, dev, codegen) == Dispatch(l, Failed(RecorderConstructionFailed))
  {
  }

  /** When `startRecording()` throws, the constructed recorder is opened,
      `willStartListening` is sent, and the failure follows; nothing is read,
      stopped or released. */
  lemma StartFailurePass(l: Listener, minBufferSize: int, size: int, dev: Device, codegen: Codegen)
    requires !dev.constructorThrows && dev.startThrows
    ensures Outcome(size, dev, codegen) == Failed(StartRecordingFailed)
    ensures PassEvents(l, minBufferSize, size, dev, codegen)
              == [Open(minBufferSize)] + Dispatch(l, WillStart) + Dispatch(l, Failed(StartRecordingFailed))
  {
    assert DeviceCalls(size, dev, codegen) == [];
  }

  /** The events of a pass that reaches the fill loop, up to the state check
      that follows it. */
  function Before(l: Listener, minBufferSize: int, size: int, dev: Device): seq<Event>
    requires Reached(dev, size)
  {
    Opening(l, minBufferSize) + FillEvents(size, dev)
  }

  lemma {:induction false} SplitAtCheck(l: Listener, minBufferSize: int, size: int, dev: Device, codegen: Codegen)
    requires Reached(dev, size)
    ensures PassEvents(l, minBufferSize, size, dev, codegen)
              == Before(l, minBufferSize, size, dev) + (Closing(size, dev, codegen) + Dispatch(l, Outcome(size, dev, codegen)))
    ensures forall e :: e in Before(l, minBufferSize, size, dev) ==>
              e != ReleaseDevice && !e.Generate? && !(e.Notify? && !e.callback.WillStart?)
  {
    Regroup(Opening(l, minBufferSize), FillEvents(size, dev), Closing(size, dev, codegen), Dispatch(l, Outcome(size, dev, codegen)));
    DispatchDelivers(l, WillStart);
    var c := Fill(dev.steps, size);
    forall e | e in Before(l, minBufferSize, size, dev)
      ensures e != ReleaseDevice && !e.Generate? && !(e.Notify? && !e.callback.WillStart?)
    {
      assert e == Open(minBufferSize) || e in Dispatch(l, WillStart) || e == StartRecording
        || e in c.readCalls || e == StopDevice;
    }
  }

  /** The fill loop's device calls appended to a trace `t0`, one call at a
      time. */
  lemma FillEventsIs(t0: seq<Event>, size: int, dev: Device)
    requires Reached(dev, size)
    ensures var c := Fill(dev.steps, size);
      t0 + FillEvents(size, dev)
        == t0 + [StartRecording] + c.readCalls + StopIf(c.stopped) + StopIf(dev.stoppedBeforeCheck)
  {
  }

  /** The events of a pass that reaches the fill loop, appended to a trace
      `t0`: the opening, the fill loop's device calls, the calls after the
      state check, and the final callback. */
  lemma ReachedEvents(t0: seq<Event>, l: Listener, minBufferSize: int, size: int, dev: Device, codegen: Codegen)
    requires Reached(dev, size)
    ensures t0 + PassEvents(l, minBufferSize, size, dev, codegen)
              == t0 + [Open(minBufferSize)] + Dispatch(l, WillStart) + FillEvents(size, dev)
                 + Closing(size, dev, codegen) + Dispatch(l, Outcome(size, dev, codegen))
  {
    var fill, closing, done := FillEvents(size, dev), Closing(size, dev, codegen), Dispatch(l, Outcome(size, dev, codegen));
    assert PassEvents(l, minBufferSize, size, dev, codegen)
             == ([Open(minBufferSize)] + Dispatch(l, WillStart)) + ((fill + closing) + done);
    Associate(t0, [Open(minBufferSize)], Dispatch(l, WillStart), fill, closing, done);
  }

  /** Which callback ends a pass: `didInterrupted` exactly when the state
      check after the loop reads STOPPED, whether or not the buffer was
      filled; otherwise the generator decides between `didFailWithException`
      (empty code) and `didFinishListening` with its code. */
  lemma OutcomeCases(size: int, dev: Device, codegen: Codegen)
    requires ScriptFits(dev, size)
    ensures Outcome(size, dev, codegen) == Failed(RecorderConstructionFailed) <==> dev.constructorThrows
    ensures Outcome(size, dev, codegen) == Failed(StartRecordingFailed) <==> !dev.constructorThrows && dev.startThrows
    ensures Outcome(size, dev, codegen) == Interrupted <==> Reached(dev, size) && StoppedAfterLoop(dev, size)
    ensures Outcome(size, dev, codegen) == Failed(EmptyFingerprint) <==>
              Reached(dev, size) && !StoppedAfterLoop(dev, size) && Code(dev, size, codegen) == ""
    ensures Outcome(size, dev, codegen).Finished? <==>
              Reached(dev, size) && !StoppedAfterLoop(dev, size) && Code(dev, size, codegen) != ""
    ensures Outcome(size, dev, codegen).Finished? ==> Outcome(size, dev, codegen).code == Code(dev, size, codegen)
  {
  }

  /** An interrupted pass releases the recorder once, as its last device
      call, and neither runs the generator nor reports a fingerprint. */
  lemma {:induction false} InterruptedPass(l: Listener, minBufferSize: int, size: int, dev: Device, codegen: Codegen)
    requires Reached(dev, size) && StoppedAfterLoop(dev, size)
    ensures var t := PassEvents(l, minBufferSize, size, dev, codegen);
      && EndsWith(t, [ReleaseDevice] + Dispatch(l, Interrupted))
      && multiset(t)[ReleaseDevice] == 1
      && (forall e :: e in t ==> !e.Generate? && !(e.Notify? && e.callback.Finished?))
  {
    var t := PassEvents(l, minBufferSize, size, dev, codegen);
    SplitAtCheck(l, minBufferSize, size, dev, codegen);
    DispatchDelivers(l, Interrupted);
    LastCallShape(t, Before(l, minBufferSize, size, dev), ReleaseDevice, Dispatch(l, Interrupted));
  }

  /** When the generator returns an empty code the pass reports
      `didFailWithException` and never `didFinishListening`. The generator
      ran once, on a full buffer; the recorder is never released. */
  lemma {:induction false} EmptyCodePass(l: Listener, minBufferSize: int, size: int, dev: Device, codegen: Codegen)
    requires Reached(dev, size) && !StoppedAfterLoop(dev, size) && Code(dev, size, codegen) == ""
    ensures Fill(dev.steps, size).samplesIn == size
    ensures var t := PassEvents(l, minBufferSize, size, dev, codegen);
      && EndsWith(t, [Generate(size)] + Dispatch(l, Failed(EmptyFingerprint)))
      && multiset(t)[Generate(size)] == 1
      && ReleaseDevice !in t
      && (forall e :: e in t ==> !(e.Notify? && e.callback.Finished?))
  {
    var t := PassEvents(l, minBufferSize, size, dev, codegen);
    SplitAtCheck(l, minBufferSize, size, dev, codegen);
    DispatchDelivers(l, Failed(EmptyFingerprint));
    LastCallShape(t, Before(l, minBufferSize, size, dev), Generate(size), Dispatch(l, Failed(EmptyFingerprint)));
  }

  /** On a non-empty code the generator ran once, on a full buffer, while the
      recorder was still open; only then is the recorder stopped and released,
      once, and `didFinishListening` carries exactly the generator's code. */
  lemma {:induction false} FinishedPass(l: Listener, minBufferSize: int, size: int, dev: Device, codegen: Codegen)
    requires Reached(dev, size) && !StoppedAfterLoop(dev, size) && Code(dev, size, codegen) != ""
    ensures Fill(dev.steps, size).samplesIn == size
    ensures var t := PassEvents(l, minBufferSize, size, dev, codegen);
      var code := Code(dev, size, codegen);
      && EndsWith(t, [Generate(size), StopDevice, ReleaseDevice] + Dispatch(l, Finished(code)))
      && multiset(t)[Generate(size)] == 1
      && multiset(t)[StopDevice] == 1
      && multiset(t)[ReleaseDevice] == 1
  {
    var t := PassEvents(l, minBufferSize, size, dev, codegen);
    var done := Dispatch(l, Finished(Code(dev, size, codegen)));
    var before := Before(l, minBufferSize, size, dev);
    SplitAtCheck(l, minBufferSize, size, dev, codegen);
    DispatchDelivers(l, Finished(Code(dev, size, codegen)));
    assert Fill(dev.steps, size).samplesIn == size;
    assert Closing(size, dev, codegen) == [Generate(size), StopDevice, ReleaseDevice];
    assert Generate(size) !in before && ReleaseDevice !in before;
    StopsBeforeCheck(l, minBufferSize, size, dev);
    FinishShape(t, before, Generate(size), done);
  }

  /** The shape of a pass whose last device or generator call is `x`,
      apart from what produces it. */
  lemma LastCallShape(t: seq<Event>, before: seq<Event>, x: Event, done: seq<Event>)
    requires t == before + ([x] + done)
    requires forall e :: e in before ==> e != ReleaseDevice && !e.Generate? && !(e.Notify? && !e.callback.WillStart?)
    requires forall e :: e in done ==> e.Notify? && !e.callback.Finished?
    requires x == ReleaseDevice || x.Generate?
    ensures EndsWith(t, [x] + done)
    ensures multiset(t)[x] == 1
    ensures forall e :: e in t ==> !(e.Notify? && e.callback.Finished?)
    ensures x == ReleaseDevice ==> forall e :: e in t ==> !e.Generate?
    ensures x.Generate? ==> ReleaseDevice !in t
  {
    SplitAt(t, before, x, done);
  }

  /** The shape of a finished pass's trace, apart from what produces it. */
  lemma FinishShape(t: seq<Event>, before: seq<Event>, g: Event, done: seq<Event>)
    requires t == before + ([g, StopDevice, ReleaseDevice] + done)
    requires g.Generate? && g !in before && StopDevice !in before && ReleaseDevice !in before
    requires forall e :: e in done ==> e.Notify?
    ensures EndsWith(t, [g, StopDevice, ReleaseDevice] + done)
    ensures multiset(t)[g] == 1 && multiset(t)[StopDevice] == 1 && multiset(t)[ReleaseDevice] == 1
  {
    var mid := [g, StopDevice, ReleaseDevice];
    assert t[|t| - |mid + done|..] == mid + done;
    assert multiset(t) == multiset(before) + multiset(mid) + multiset(done);
    assert g !in done && StopDevice !in done && ReleaseDevice !in done;
  }

  /** When no `stop()` lands during or right after the loop, the events up to
      the state check hold no device stop. */
  lemma StopsBeforeCheck(l: Listener, minBufferSize: int, size: int, dev: Device)
    requires Reached(dev, size) && !StoppedAfterLoop(dev, size)
    ensures StopDevice !in Before(l, minBufferSize, size, dev)
  {
    var c := Fill(dev.steps, size);
    DispatchDelivers(l, WillStart);
    assert FillEvents(size, dev) == [StartRecording] + c.readCalls;
    assert Before(l, minBufferSize, size, dev) == Opening(l, minBufferSize) + ([StartRecording] + c.readCalls);
  }

  /** A read event starts inside a buffer of `size` samples, asks for the
      rest of it, and is given no more than that. */
  predicate ReadFits(e: Event, size: int) {
    e.Read? ==> 0 <= e.offset && 0 <= e.got <= e.count && e.offset + e.count == size
  }

  /** Every read of the fill loop starts inside the buffer and asks for no
      more than is left of it. */
  lemma ReadsOfFill(size: int, dev: Device)
    requires Reached(dev, size)
    ensures forall e :: e in FillEvents(size, dev) ==> ReadFits(e, size)
  {
    var c := Fill(dev.steps, size);
    ReadsChain(dev.steps, size);
    forall e | e in c.readCalls
      ensures ReadFits(e, size)
    {
      var k :| 0 <= k < |c.readCalls| && c.readCalls[k] == e;
    }
  }

  /** No read of a pass writes outside the buffer: each starts inside it and
      delivers at most what is left of it. */
  lemma ReadsWithinBuffer(l: Listener, minBufferSize: int, size: int, dev: Device, codegen: Codegen)
    requires ScriptFits(dev, size)
    ensures forall e :: e in PassEvents(l, minBufferSize, size, dev, codegen) ==> ReadFits(e, size)
  {
    var out := Outcome(size, dev, codegen);
    DispatchDelivers(l, WillStart);
    DispatchDelivers(l, out);
    if Reached(dev, size) {
      var fill, closing := FillEvents(size, dev), Closing(size, dev, codegen);
      var t := PassEvents(l, minBufferSize, size, dev, codegen);
      assert t == Opening(l, minBufferSize) + ((fill + closing) + Dispatch(l, out));
      ReadsOfFill(size, dev);
      forall e | e in t
        ensures ReadFits(e, size)
      {
        if e in closing {
          assert !e.Read?;
        } else if e in Dispatch(l, out) {
          assert e.Notify?;
        } else if e !in fill {
          assert e in Opening(l, minBufferSize);
          assert e == Open(minBufferSize) || e in Dispatch(l, WillStart);
        }
      }
    } else if !dev.constructorThrows {
      assert DeviceCalls(size, dev, codegen) == [];
    }
  }
}
