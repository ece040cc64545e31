/** Values shared by the whole model: the 16-bit samples, the recorder handle,
    the four listener callbacks, and the events one fingerprinting pass leaves
    in its trace (device calls, the generator call, and notifications). */
module Events {

  /** A Java `short`: one signed 16-bit PCM sample. */
  newtype Short = x: int | -0x8000 <= x < 0x8000

  datatype Option<T> = None | Some(value: T)

  /** The two recording states the fingerprinter queries
      (`RECORDSTATE_STOPPED` and `RECORDSTATE_RECORDING`). */
  datatype RecordState = Stopped | Recording

  /** What `mRecordInstance` refers to while it is not null: a constructed
      recorder and its recording state. */
  datatype Recorder = Recorder(state: RecordState)

  /** The exception that reaches the catch block of `run()`. */
  datatype Failure =
    | RecorderConstructionFailed  // `new AudioRecord(...)` threw
    | StartRecordingFailed        // `startRecording()` threw
    | EmptyFingerprint            // the generator returned a code of length 0

  /** The four methods of `AudioFingerprinterListener`. */
  datatype Callback =
    | WillStart                    // willStartListening()
    | Finished(code: string)       // didFinishListening(fp_code)
    | Interrupted                  // didInterrupted()
    | Failed(cause: Failure)       // didFailWithException(e)

  /** A callback ends a pass unless it is the leading `willStartListening`. */
  predicate IsTerminal(cb: Callback) {
    !cb.WillStart?
  }

  /** How a callback reached the listener: posted to the UI thread of an
      `Activity`, or called on the worker thread. */
  datatype Delivery = PostedToUiThread | CalledDirectly

  /** One observable step of a pass. */
  datatype Event =
    | Open(bufferBytes: int)                    // new AudioRecord(..., minBufferSize)
    | StartRecording                            // startRecording()
    | Read(offset: int, count: int, got: int)   // read(audioData, offset, count) returned got
    | Generate(samplesIn: int)                  // codegen.generate(audioData, samplesIn)
    | StopDevice                                // AudioRecord.stop()
    | ReleaseDevice                             // AudioRecord.release()
    | Notify(callback: Callback, delivery: Delivery)

  /** The callback one event delivers, if it is a notification. */
  function CallbackOf(e: Event): seq<Callback> {
    if e.Notify? then [e.callback] else []
  }

  /** The callbacks a trace delivers, in order. */
  function Callbacks(t: seq<Event>): seq<Callback> {
    if t == [] then [] else CallbackOf(t[0]) + Callbacks(t[1..])
  }

  lemma {:induction false} CallbacksAppend(a: seq<Event>, b: seq<Event>)
    ensures Callbacks(a + b) == Callbacks(a) + Callbacks(b)
  {
    if a == [] {
      assert a + b == b;
    } else {
      var h := CallbackOf(a[0]);
      assert (a + b)[0] == a[0];
      assert (a + b)[1..] == a[1..] + b;
      assert Callbacks(a + b) == h + Callbacks(a[1..] + b);
      CallbacksAppend(a[1..], b);
      assert Callbacks(a) == h + Callbacks(a[1..]);
      SeqAssoc(h, Callbacks(a[1..]), Callbacks(b));
    }
  }

  lemma SeqAssoc<T>(x: seq<T>, y: seq<T>, z: seq<T>)
    ensures x + (y + z) == (x + y) + z
  {
  }

  /** A trace without notifications delivers no callback. */
  lemma {:induction false} CallbacksOfSilent(t: seq<Event>)
    requires forall e :: e in t ==> !e.Notify?
    ensures Callbacks(t) == []
  {
    if t != [] {
      assert t[0] in t;
      CallbacksOfSilent(t[1..]);
    }
  }

  /** `suffix` is what the trace ends with. */
  predicate EndsWith(t: seq<Event>, suffix: seq<Event>) {
    |suffix| <= |t| && t[|t| - |suffix|..] == suffix
  }

  /** A trace split at one event `x`: it ends with `x` and what follows,
      holds nothing else than the three parts, and holds `x` exactly once
      when neither part does. */
  lemma SplitAt(t: seq<Event>, before: seq<Event>, x: Event, after: seq<Event>)
    requires t == before + ([x] + after)
    ensures EndsWith(t, [x] + after)
    ensures forall e :: e in t <==> e in before || e == x || e in after
    ensures x !in before && x !in after ==> multiset(t)[x] == 1
  {
    assert t[|t| - |[x] + after|..] == [x] + after;
  }

  lemma Associate(t: seq<Event>, a: seq<Event>, b: seq<Event>, c: seq<Event>, d: seq<Event>, e: seq<Event>)
    ensures t + ((a + b) + ((c + d) + e)) == t + a + b + c + d + e
  {
  }

  lemma Regroup(a: seq<Event>, b: seq<Event>, c: seq<Event>, d: seq<Event>)
    ensures a + ((b + c) + d) == (a + b) + (c + d)
  {
  }

  /** `n` zero samples: the contents of a freshly allocated `short[]`. */
  function Zeros(n: nat): (z: seq<Short>)
    ensures |z| == n
    ensures forall k :: 0 <= k < n ==> z[k] == 0
  {
    if n == 0 then [] else Zeros(n - 1) + [0]
  }
}
