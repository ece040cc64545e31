/** The recording half of a pass: how long to record, how large the sample
    buffer is, and what the do-while fill loop of `run()` does with the reads
    the device delivers. */
module Capture {
  import opened Events

  const SampleRate := 11025
  const MinSeconds := 10
  const MaxSeconds := 30
  /** The duration `fingerprint()` uses when none is given. */
  const DefaultSeconds := 20

  predicate IsInt32(x: int) {
    -0x8000_0000 <= x < 0x8000_0000
  }

  /** `Math.max` and `Math.min` on Java ints. */
  function Max(a: int, b: int): int { if a >= b then a else b }
  function Min(a: int, b: int): int { if a <= b then a else b }

  /** The number of seconds a pass records for a requested duration. */
  function EffectiveSeconds(seconds: int): (r: int)
    ensures MinSeconds <= r <= MaxSeconds
    ensures MinSeconds <= seconds <= MaxSeconds ==> r == seconds
    ensures seconds < MinSeconds ==> r == MinSeconds
    ensures seconds > MaxSeconds ==> r == MaxSeconds
  {
    Max(Min(seconds, MaxSeconds), MinSeconds)
  }

  /** The durations a pass can run with: the field's initial 0 when `run()`
      is started without `fingerprint`, or a clamped duration. */
  predicate RecordableSeconds(seconds: int) {
    seconds == 0 || MinSeconds <= seconds <= MaxSeconds
  }

  /** The length, in samples, of the buffer a pass allocates: enough for the
      whole duration, and never less than the device's minimum. The product
      cannot overflow a Java int, nor can the result, and it is never
      negative, so the allocation cannot fail. */
  function BufferLength(minBufferSize: int, seconds: int): (r: int)
    requires RecordableSeconds(seconds)
    ensures r >= minBufferSize && r >= SampleRate * seconds && r >= 0
    ensures r == minBufferSize || r == SampleRate * seconds
    ensures seconds != 0 ==> r >= SampleRate * MinSeconds
    ensures IsInt32(minBufferSize) ==> IsInt32(r)
  {
    Max(minBufferSize, SampleRate * seconds)
  }

  /** One call of the recorder's `read`: the samples it delivers (their number
      is its return value), and whether a `stop()` from another thread has
      taken effect by the time the state is checked right after it. */
  datatype ReadStep = ReadStep(data: seq<Short>, stoppedAfter: bool)

  /** The device as one pass sees it. */
  datatype Device = Device(
    constructorThrows: bool,   // `new AudioRecord(...)` throws
    startThrows: bool,         // `startRecording()` throws
    steps: seq<ReadStep>,      // the reads of the fill loop, in order
    stoppedBeforeCheck: bool)  // a `stop()` lands after the loop, before the state check that follows it

  /** The number of samples the first `i` reads deliver. */
  function Delivered(steps: seq<ReadStep>, i: int): (n: nat)
    requires 0 <= i <= |steps|
    decreases i
  {
    if i == 0 then 0 else Delivered(steps, i - 1) + |steps[i - 1].data|
  }

  /** The samples the first `i` reads deliver, in order. */
  function Flatten(steps: seq<ReadStep>, i: int): (s: seq<Short>)
    requires 0 <= i <= |steps|
    decreases i
    ensures |s| == Delivered(steps, i)
  {
    if i == 0 then [] else Flatten(steps, i - 1) + steps[i - 1].data
  }

  /** The buffer of `size` samples after the first `i` reads: what they
      delivered, then the zeros it was allocated with. */
  function Filled(steps: seq<ReadStep>, size: int, i: int): (buf: seq<Short>)
    requires 0 <= i <= |steps| && Delivered(steps, i) <= size
  {
    Flatten(steps, i) + Zeros(size - Delivered(steps, i))
  }

  /** The fill loop goes on after read `i`: the device is not STOPPED and the
      buffer is not yet full. */
  predicate Continues(steps: seq<ReadStep>, size: int, i: int)
    requires 0 <= i < |steps|
  {
    !steps[i].stoppedAfter && Delivered(steps, i + 1) < size
  }

  /** From read `i` on, every read delivers no more than it was asked for,
      and one of them ends the loop. */
  predicate CompletesFrom(steps: seq<ReadStep>, size: int, i: int)
    requires 0 <= i
    decreases |steps| - i
  {
    && i < |steps|
    && Delivered(steps, i + 1) <= size
    && (!Continues(steps, size, i) || CompletesFrom(steps, size, i + 1))
  }

  /** The device script ends the fill loop inside the buffer. */
  predicate Completes(steps: seq<ReadStep>, size: int) {
    CompletesFrom(steps, size, 0)
  }

  /** The number of reads the fill loop makes when it is at read `i`: it
      goes on exactly while `Continues` holds, and each read fits. */
  function ReadCount(steps: seq<ReadStep>, size: int, i: int): (n: int)
    requires 0 <= i && CompletesFrom(steps, size, i)
    decreases |steps| - i
    ensures i < n <= |steps|
    ensures !Continues(steps, size, n - 1)
    ensures Delivered(steps, n) <= size
  {
    if !Continues(steps, size, i) then i + 1 else ReadCount(steps, size, i + 1)
  }

  /** The loop goes on after every read before the last, and none of the
      reads overruns the buffer. */
  lemma {:induction false} ReadCountSpec(steps: seq<ReadStep>, size: int, i: int)
    requires 0 <= i && CompletesFrom(steps, size, i)
    decreases |steps| - i
    ensures var n := ReadCount(steps, size, i);
      && (forall j :: i <= j < n - 1 ==> Continues(steps, size, j))
      && (forall j :: i < j <= n ==> Delivered(steps, j) <= size)
  {
    if Continues(steps, size, i) {
      ReadCountSpec(steps, size, i + 1);
    }
  }

  /** Read number `k` of the loop: at the running offset, for the rest of the
      buffer, given the samples of step `k`. */
  function ReadEvent(steps: seq<ReadStep>, size: int, k: int): (e: Event)
    requires 0 <= k < |steps|
  {
    var offset := Delivered(steps, k);
    Read(offset, size - offset, |steps[k].data|)
  }

  /** The first `n` reads of the loop. */
  function ReadEvents(steps: seq<ReadStep>, size: int, n: int): (r: seq<Event>)
    requires 0 <= n <= |steps|
    decreases n
    ensures |r| == n
    ensures forall k :: 0 <= k < n ==> r[k] == ReadEvent(steps, size, k)
  {
    if n == 0 then [] else ReadEvents(steps, size, n - 1) + [ReadEvent(steps, size, n - 1)]
  }

  /** What the fill loop leaves behind: the final `samplesIn`, the reads it
      made, the samples they delivered in order, and whether it ended on a
      STOPPED state. */
  datatype Capture = Capture(samplesIn: int, readCalls: seq<Event>, data: seq<Short>, stopped: bool)

  /** The whole fill loop, from an empty buffer. */
  function Fill(steps: seq<ReadStep>, size: int): (c: Capture)
    requires Completes(steps, size)
    ensures 0 <= c.samplesIn <= size
    ensures c.samplesIn == |c.data|
    ensures 1 <= |c.readCalls| <= |steps|
    ensures c.stopped || c.samplesIn == size
    ensures forall e :: e in c.readCalls ==> e.Read?
  {
    var n := ReadCount(steps, size, 0);
    Capture(Delivered(steps, n), ReadEvents(steps, size, n), Flatten(steps, n), steps[n - 1].stoppedAfter)
  }

  /** Every read of the loop asks for the rest of the buffer at an offset
      inside it, and is given no more than that; the first reads at 0, each
      next one where the previous one stopped, every read but the last leaves
      room in the buffer, and the last one ends at the final `samplesIn`. */
  lemma ReadsChain(steps: seq<ReadStep>, size: int)
    requires Completes(steps, size)
    ensures var c := Fill(steps, size);
      && c.readCalls[0].offset == 0
      && (forall k :: 0 <= k < |c.readCalls| ==>
            && 0 <= c.readCalls[k].offset
            && c.readCalls[k].count == size - c.readCalls[k].offset
            && 0 <= c.readCalls[k].got <= c.readCalls[k].count)
      && (forall k :: 0 <= k < |c.readCalls| - 1 ==>
            && c.readCalls[k].offset + c.readCalls[k].got < size
            && c.readCalls[k + 1].offset == c.readCalls[k].offset + c.readCalls[k].got)
      && c.readCalls[|c.readCalls| - 1].offset + c.readCalls[|c.readCalls| - 1].got == c.samplesIn
  {
    var n := ReadCount(steps, size, 0);
    var c := Fill(steps, size);
    ReadCountSpec(steps, size, 0);
    forall k | 0 <= k < n
      ensures && 0 <= c.readCalls[k].offset
              && c.readCalls[k].count == size - c.readCalls[k].offset
              && 0 <= c.readCalls[k].got <= c.readCalls[k].count
              && (k < n - 1 ==> c.readCalls[k].offset + c.readCalls[k].got < size)
    {
      assert Delivered(steps, k + 1) <= size;
      if k < n - 1 {
        assert Continues(steps, size, k);
      }
    }
    forall k | 0 <= k < n - 1
      ensures c.readCalls[k + 1].offset == c.readCalls[k].offset + c.readCalls[k].got
    {
      assert c.readCalls[k + 1] == ReadEvent(steps, size, k + 1);
    }
  }
}
