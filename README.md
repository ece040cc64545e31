# Echoprint audio fingerprinter, modelled in Dafny

This project models `AudioFingerprinter`, the class of the Echoprint Android
library that records a pass of microphone audio and hands it to the native
Echoprint code generator. The model covers:

- `fingerprint()` and `fingerprint(int)`, which clamp the duration;
- `stop()`;
- the body of `run()`:
  - sizing and allocating the sample buffer;
  - the do-while loop that fills it from the recorder;
  - the state check after the loop and the three ways a pass ends: interrupted, failed or finished;
  - stopping and releasing the recorder;
- the four notification helpers and their shared dispatch rule: nothing without a listener, posted to the UI thread when the listener is an `Activity`, and called directly otherwise.

The model has five modules:

- `Events`: shared values, including the samples, the recorder reference, the four callbacks and the events one pass leaves behind.
- `Notification`: the dispatch rule.
- `Capture`:
  - the duration clamp and the buffer length;
  - a specification of the fill loop, driven by a device script;
  - the facts about the reads it makes.
- `Pass`: one pass, stated as functions:
  - the exact sequence of device calls, generator calls and notifications;
  - the callback that ends the pass;
  - what `mRecordInstance` refers to afterwards;
  - lemmas for what each path guarantees.
- `Fingerprinter`: the class `AudioFingerprinter` itself:
  - its fields (`secondsToRecord`, `bufferSize`, the `audioData` array and `mRecordInstance`);
  - `trace`, a history of everything the object asked of the device, the generator and the listener;
  - methods that update the fields in place.

  `Run` fills the array with a `while` loop. Its contract says that the array, the trace and the recorder reference end up exactly as the `Pass` and `Capture` functions describe.

The device is a script (`Capture.Device`). It states:

- whether the `AudioRecord` constructor throws;
- whether `startRecording()` throws;
- for each `read`, the samples it delivers and whether a `stop()` from another thread has taken effect before the state check that follows;
- whether such a `stop()` lands after the loop, before the state check at line 127.

The generator is a function parameter (`Pass.Codegen`).

The model follows the code as written, including in four places where one might expect otherwise:

- The recorder is not released on every exit path. It is never released when `startRecording()` throws or when the generator returns an empty code, and `mRecordInstance` keeps pointing at it.
- On the finishing path the generator runs while the recorder is still open. `stop()` and `release()` come after it.
- A pass interrupts whenever the state reads STOPPED after the loop, even when the buffer is full.
- `willStartListening` is sent only after the recorder has been constructed. When the constructor throws, `didFailWithException` is the only callback.

## Model

| member | source | states |
|---|---|---|
| Capture.EffectiveSeconds | src/edu/gvsu/masl/echoprint/AudioFingerprinter.java:80-83 | the recorded duration always lies in [10, 30], equals the request when it is already in range, and is 10 below the range and 30 above it |
| Fingerprinter.AudioFingerprinter.Fingerprint | src/edu/gvsu/masl/echoprint/AudioFingerprinter.java:80-87 | stores the clamped duration in `secondsToRecord`, which is then in [10, 30] and keeps the class invariant |
| Fingerprinter.AudioFingerprinter.FingerprintDefault | src/edu/gvsu/masl/echoprint/AudioFingerprinter.java:69-72 | the no-argument entry point records for 20 seconds |
| Fingerprinter.AudioFingerprinter.constructor | src/edu/gvsu/masl/echoprint/AudioFingerprinter.java:47-63 | keeps the listener; starts with no recorder, no buffer, duration 0 and an empty history; the class invariant holds |
| Capture.BufferLength | src/edu/gvsu/masl/echoprint/AudioFingerprinter.java:106-110 | the buffer length is one of `minBufferSize` and `11025 * seconds` and at least both. It is never negative, so the allocation cannot fail. It is at least 110250 for any clamped duration, and it fits a Java int whenever `minBufferSize` does |
| Fingerprinter.AudioFingerprinter.AllocateBuffer | src/edu/gvsu/masl/echoprint/AudioFingerprinter.java:106-112 | `bufferSize` is set to that length, and `audioData` is a fresh array of exactly that many zero samples |
| Capture.ReadCount | src/edu/gvsu/masl/echoprint/AudioFingerprinter.java:120-125 | the loop makes at least one read and no more than the script has; it stops after a read that leaves the device STOPPED or fills the buffer, and the samples delivered never exceed the buffer |
| Capture.ReadCountSpec | src/edu/gvsu/masl/echoprint/AudioFingerprinter.java:120-125 | after every read but the last the device is still recording and the buffer is not full, so the loop ends exactly at its first stopped or full state; no prefix of the reads overruns the buffer |
| Capture.Fill | src/edu/gvsu/masl/echoprint/AudioFingerprinter.java:120-125 | the final `samplesIn` lies in [0, bufferSize] and counts the delivered samples; there is at least one read; the loop ends STOPPED or with the buffer full; everything it records is a read |
| Capture.ReadsChain | src/edu/gvsu/masl/echoprint/AudioFingerprinter.java:120-125 | the first read is at offset 0, each read asks for `bufferSize - offset` and gets no more than that, each next read starts where the previous one ended, so `samplesIn` never decreases, every read but the last leaves room in the buffer, and the last one ends at the final `samplesIn` |
| Pass.ReadsOfFill | src/edu/gvsu/masl/echoprint/AudioFingerprinter.java:120-125 | every read of the fill loop starts inside the buffer and asks for exactly the rest of it |
| Pass.ReadsWithinBuffer | src/edu/gvsu/masl/echoprint/AudioFingerprinter.java:102-153 | no read of any pass, on any path, writes outside the buffer |
| Pass.Samples | src/edu/gvsu/masl/echoprint/AudioFingerprinter.java:112-125 | the buffer after the loop has the buffer's length, begins with the delivered samples and is zero after `samplesIn` |
| Fingerprinter.AudioFingerprinter.ReadInto | src/edu/gvsu/masl/echoprint/AudioFingerprinter.java:122 | one `read(audioData, offset, count)` copies the delivered samples to `offset`, leaves the rest of the array as it was, returns their number and is recorded with its offset, count and result |
| Fingerprinter.AudioFingerprinter.NextRead | src/edu/gvsu/masl/echoprint/AudioFingerprinter.java:122 | read number `i` of the loop, at `samplesIn` and for `bufferSize - samplesIn`, extends the delivered samples, the array contents and the recorded reads by exactly that read |
| Fingerprinter.AudioFingerprinter.StopLands | src/edu/gvsu/masl/echoprint/AudioFingerprinter.java:92-95 | a `stop()` from another thread at this point stops the recorder and records one device stop; with none, nothing changes; the buffer is never touched |
| Fingerprinter.AudioFingerprinter.FillLoop | src/edu/gvsu/masl/echoprint/AudioFingerprinter.java:119-125 | the do-while loop leaves `samplesIn`, the array, the recorded reads and the recorder state exactly as `Capture.Fill` describes |
| Pass.Outcome | src/edu/gvsu/masl/echoprint/AudioFingerprinter.java:102-153 | every pass ends in a terminal callback, and a reported fingerprint is never empty |
| Pass.OutcomeCases | src/edu/gvsu/masl/echoprint/AudioFingerprinter.java:115-151 | the failure callbacks match their causes exactly: constructor, `startRecording()`, empty code. `didInterrupted` fires exactly when the check after the loop reads STOPPED, whether or not the buffer is full. `didFinishListening` fires exactly when it does not and the code is non-empty, and it carries that code |
| Pass.RecorderCleared | src/edu/gvsu/masl/echoprint/AudioFingerprinter.java:127-146 | once a recorder was constructed, `mRecordInstance` ends null exactly on the interrupted and finished paths; after an empty code it still refers to a recording recorder |
| Pass.Closing | src/edu/gvsu/masl/echoprint/AudioFingerprinter.java:127-146 | after the loop a pass only calls the generator, `stop()` and `release()` |
| Pass.RecordingIsSilent | src/edu/gvsu/masl/echoprint/AudioFingerprinter.java:117-147 | between `willStartListening` and the final callback a pass sends no notification |
| Pass.CallbackProtocol | src/edu/gvsu/masl/echoprint/AudioFingerprinter.java:102-153 | without a listener a pass delivers nothing. When the constructor throws, it delivers only the failure. Otherwise it delivers `willStartListening` followed by exactly one terminal callback, its outcome |
| Pass.DeliveryFollowsListener | src/edu/gvsu/masl/echoprint/AudioFingerprinter.java:155-213 | every notification of a pass reaches a registered listener, posted to the UI thread for an `Activity` and called directly otherwise |
| Pass.ConstructionFailurePass | src/edu/gvsu/masl/echoprint/AudioFingerprinter.java:115-151 | when the constructor throws, the pass emits only `didFailWithException` and touches no device |
| Pass.StartFailurePass | src/edu/gvsu/masl/echoprint/AudioFingerprinter.java:115-151 | when `startRecording()` throws, the pass opens the recorder, sends `willStartListening`, then fails; it never reads, stops or releases |
| Pass.InterruptedPass | src/edu/gvsu/masl/echoprint/AudioFingerprinter.java:127-133 | an interrupted pass releases the recorder once, as its last device call before `didInterrupted`, and never calls the generator or reports a fingerprint |
| Pass.EmptyCodePass | src/edu/gvsu/masl/echoprint/AudioFingerprinter.java:136-151 | on an empty code the generator ran once, on a full buffer, then `didFailWithException` follows; the recorder is never released and `didFinishListening` never fires |
| Pass.StopsBeforeCheck | src/edu/gvsu/masl/echoprint/AudioFingerprinter.java:115-127 | when no `stop()` lands during the loop or before the state check, nothing up to that check stops the device |
| Pass.FinishedPass | src/edu/gvsu/masl/echoprint/AudioFingerprinter.java:136-147 | on a non-empty code the generator ran once, on a full buffer, followed by `stop()`, then `release()`, each exactly once, then `didFinishListening` with exactly that code |
| Notification.Dispatch | src/edu/gvsu/masl/echoprint/AudioFingerprinter.java:155-168 | a helper does nothing exactly when there is no listener; it posts to the UI thread for an `Activity` and calls directly otherwise |
| Notification.DispatchDelivers | src/edu/gvsu/masl/echoprint/AudioFingerprinter.java:155-213 | each helper delivers its callback exactly once to a registered listener, never to an absent one, and always by the listener's delivery |
| Fingerprinter.AudioFingerprinter.Deliver | src/edu/gvsu/masl/echoprint/AudioFingerprinter.java:155-213 | the shared body of the four helpers adds exactly what `Notification.Dispatch` prescribes to the history |
| Fingerprinter.AudioFingerprinter.DidFinishListening | src/edu/gvsu/masl/echoprint/AudioFingerprinter.java:155-168 | delivers `didFinishListening(code)` by the dispatch rule |
| Fingerprinter.AudioFingerprinter.WillStartListening | src/edu/gvsu/masl/echoprint/AudioFingerprinter.java:170-183 | delivers `willStartListening()` by the dispatch rule |
| Fingerprinter.AudioFingerprinter.DidFailWithException | src/edu/gvsu/masl/echoprint/AudioFingerprinter.java:185-198 | delivers `didFailWithException(e)` by the dispatch rule |
| Fingerprinter.AudioFingerprinter.DidInterrupted | src/edu/gvsu/masl/echoprint/AudioFingerprinter.java:200-213 | delivers `didInterrupted()` by the dispatch rule |
| Fingerprinter.AudioFingerprinter.StopRecorder | src/edu/gvsu/masl/echoprint/AudioFingerprinter.java:94 | `AudioRecord.stop()` puts the recorder in the STOPPED state and is recorded once |
| Fingerprinter.AudioFingerprinter.Stop | src/edu/gvsu/masl/echoprint/AudioFingerprinter.java:92-95 | with no recorder `stop()` changes nothing; otherwise it stops the recorder |
| Fingerprinter.AudioFingerprinter.Run | src/edu/gvsu/masl/echoprint/AudioFingerprinter.java:102-153 | the buffer length is the clamp above; the array holds what the loop delivered, then zeros; the history grows by exactly the events of `Pass.PassEvents`; `mRecordInstance` ends as `Pass.RecorderAfter` says, and keeps its old value when the constructor throws |
| Fingerprinter.AudioFingerprinter.RecordAndGenerate | src/edu/gvsu/masl/echoprint/AudioFingerprinter.java:118-147 | from `startRecording()` on, the array, the history and the recorder reference end as the specification functions describe |
| Fingerprinter.AudioFingerprinter.AfterFill | src/edu/gvsu/masl/echoprint/AudioFingerprinter.java:127-147 | the state check and the paths after it add exactly `Pass.Closing` and the outcome's notification, and leave `mRecordInstance` as `Pass.RecorderAfter` says |

## Left out

- The Android device is a script of outcomes rather than calls into `AudioRecord`. The script covers the constructor, `startRecording()`, `read` and `getRecordingState()`. `minBufferSize` is a parameter of `Run`.
- Fingerprinter.AudioFingerprinter.Run: requires the device script to end the loop inside the buffer (`Pass.ScriptFits`). It does not model:
  - negative error codes returned by `read`, which would move `samplesIn` backwards;
  - a device that neither fills the buffer nor stops, which would loop forever.
- Fingerprinter.AudioFingerprinter.Run: requires the class invariant `Valid()`: `secondsToRecord` is 0 (never set) or in [10, 30]. These are the only values the constructor and `fingerprint` can produce.
- The native `Codegen` class is a function parameter. A `null` code, and exceptions thrown inside `generate`, are not modelled.
- Starting the worker thread in `fingerprint` is not modelled; `Fingerprint` only stores the duration and `Run` is called directly.
- Concurrent `stop()` calls from another thread are modelled only at the points where they can change what `run()` observes: after each `read`, and between the loop and the state check. Races on `mRecordInstance` itself are not modelled, such as a `stop()` that reads the reference while `run()` clears it.
- `runOnUiThread` is modelled as the way a callback is delivered (`PostedToUiThread`). When the UI thread later runs it is not modelled.
- Listener callbacks are assumed not to throw. A callback that throws inside the `try` block, causing a second notification through `didFailWithException`, is not modelled.
- `e.printStackTrace()` and the exception messages are not modelled. A failure is identified by its cause (`Events.Failure`).
- `OutOfMemoryError` when allocating the buffer is not modelled.
- `instanceof Activity` is modelled by the listener's kind (`Notification.Listener`).
- The steps of `run()` are split into helper methods (`AllocateBuffer`, `RecordAndGenerate`, `FillLoop`, `NextRead`, `StopLands`, `AfterFill`). Their order and their effects on the fields are those of the single Java method.
