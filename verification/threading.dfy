/** The small arithmetic pieces of crnlib's pthreads layer: the processor
    count detected at start-up, the chunked millisecond sleep, and the
    millisecond-to-`timespec` conversion used by sleeps and semaphore waits. */
module Threading {

  /** C `unsigned int` / `uint32`. */
  type uint32 = x: int | 0 <= x < 0x1_0000_0000

  /** C `long` on an LP64 platform: the type `sysconf` returns. */
  type int64 = x: int | -0x8000_0000_0000_0000 <= x < 0x8000_0000_0000_0000

  /** `cUINT32_MAX`: the wait timeout that means "no timeout". */
  const UInt32Max: uint32 := 0xFFFF_FFFF

  /** Largest piece, in milliseconds, that one `usleep` call is asked for. */
  const MaxSleepChunk: nat := 1000

  // ---------------------------------------------------------------------------
  // Processor count

  /** Two's-complement narrowing of a `long` to an `int`, as the implicit
      conversion performed by `math::maximum<int>` behaves on the supported
      compilers. */
  function ToInt32(x: int64): (r: int)
    ensures -0x8000_0000 <= r < 0x8000_0000
    ensures (r - x) % 0x1_0000_0000 == 0
  {
    var low := x % 0x1_0000_0000;
    if low < 0x8000_0000 then low else low - 0x1_0000_0000
  }

  /** The narrowing leaves every value that fits in an `int` alone. */
  lemma ToInt32Identity(x: int64)
    requires -0x8000_0000 <= x < 0x8000_0000
    ensures ToInt32(x) == x
  {
  }

  /** `crn_threading_init` on POSIX: the online-processor count reported by
      `sysconf` (which is -1 on error), narrowed to `int` and raised to 1. */
  function ProcessorCountPosix(online: int64): (n: nat)
    ensures n >= 1
    ensures 1 <= online < 0x8000_0000 ==> n == online
    ensures -0x8000_0000 <= online <= 0 ==> n == 1
    ensures 1 <= online % 0x1_0000_0000 < 0x8000_0000 ==> n == online % 0x1_0000_0000
    ensures !(1 <= online % 0x1_0000_0000 < 0x8000_0000) ==> n == 1
  {
    var narrowed := ToInt32(online);
    if narrowed < 1 then 1 else narrowed
  }

  /** `crn_threading_init` on Windows: the processor count reported by
      `GetSystemInfo`, raised to 1. */
  function ProcessorCountWindows(reported: uint32): (n: nat)
    ensures n >= 1
    ensures n == reported || (reported == 0 && n == 1)
  {
    if reported < 1 then 1 else reported
  }

  /** Two instances of the general narrowing clause: a count beyond the
      range of `int` does not survive on POSIX, so 2^32 + 4 online
      processors read as 4 and 2^32 as 1. */
  lemma ProcessorCountPosixNarrows()
    ensures ProcessorCountPosix(0x1_0000_0004) == 4
    ensures ProcessorCountPosix(0x1_0000_0000) == 1
  {
  }

  // ---------------------------------------------------------------------------
  // Sleep

  /** The sum of a sequence of chunk lengths. */
  function Sum(s: seq<int>): int {
    if s == [] then 0 else Sum(s[..|s| - 1]) + s[|s| - 1]
  }

  /** `crn_sleep` off Windows: the lengths, in milliseconds, of the successive
      `usleep` calls. Each is between 1 and 1000, every chunk but the last is
      a full second, and together they cover exactly the requested time. */
  method SleepChunks(milliseconds: uint32) returns (chunks: seq<int>)
    ensures Sum(chunks) == milliseconds
    ensures forall i :: 0 <= i < |chunks| ==> 0 < chunks[i] <= MaxSleepChunk
    ensures forall i :: 0 <= i < |chunks| - 1 ==> chunks[i] == MaxSleepChunk
    ensures |chunks| == (milliseconds + MaxSleepChunk - 1) / MaxSleepChunk
  {
    var remaining: int := milliseconds;
    chunks := [];
    while remaining != 0
      invariant 0 <= remaining <= milliseconds
      invariant Sum(chunks) + remaining == milliseconds
      invariant forall i :: 0 <= i < |chunks| ==> 0 < chunks[i] <= MaxSleepChunk
      invariant forall i :: 0 <= i < |chunks| - 1 ==> chunks[i] == MaxSleepChunk
      invariant remaining > 0 && |chunks| > 0 ==> chunks[|chunks| - 1] == MaxSleepChunk
      decreases remaining
    {
      var toSleep := if remaining < MaxSleepChunk then remaining else MaxSleepChunk;
      assert (chunks + [toSleep])[..|chunks|] == chunks;
      chunks := chunks + [toSleep];
      remaining := remaining - toSleep;
    }
    ChunkCount(chunks, milliseconds);
  }

  /** Full chunks followed by one final partial chunk number ceil(ms / 1000). */
  lemma ChunkCount(chunks: seq<int>, milliseconds: nat)
    requires Sum(chunks) == milliseconds
    requires forall i :: 0 <= i < |chunks| ==> 0 < chunks[i] <= MaxSleepChunk
    requires forall i :: 0 <= i < |chunks| - 1 ==> chunks[i] == MaxSleepChunk
    ensures |chunks| == (milliseconds + MaxSleepChunk - 1) / MaxSleepChunk
  {
    if chunks != [] {
      var k := |chunks| - 1;
      FullChunksSum(chunks[..k]);
      assert Sum(chunks) == k * 1000 + chunks[k];
    }
  }

  /** A run of full chunks sums to 1000 per chunk. */
  lemma {:induction false} FullChunksSum(chunks: seq<int>)
    requires forall i :: 0 <= i < |chunks| ==> chunks[i] == MaxSleepChunk
    ensures Sum(chunks) == |chunks| * MaxSleepChunk
  {
    if chunks != [] {
      FullChunksSum(chunks[..|chunks| - 1]);
    }
  }

  // ---------------------------------------------------------------------------
  // Timespec

  /** `struct timespec`: whole seconds plus nanoseconds. */
  datatype Timespec = Timespec(sec: int, nsec: int)

  /** A well-formed timespec: non-negative, nanoseconds below one second. */
  predicate ValidTimespec(ts: Timespec) {
    0 <= ts.sec && 0 <= ts.nsec < 1_000_000_000
  }

  /** Reading a timespec back as whole milliseconds (sub-millisecond
      nanoseconds are dropped). */
  function TimespecToMillis(ts: Timespec): int {
    ts.sec * 1000 + ts.nsec / 1_000_000
  }

  /** The millisecond-to-`timespec` split used by the Windows `crn_sleep` and
      by `semaphore::wait`. */
  function MillisToTimespec(milliseconds: uint32): (ts: Timespec)
    ensures ValidTimespec(ts)
    ensures TimespecToMillis(ts) == milliseconds
    ensures ts.nsec % 1_000_000 == 0
  {
    Timespec(milliseconds / 1000, (milliseconds % 1000) * 1_000_000)
  }

  /** The conversion is the only one with that contract: a valid timespec
      of whole milliseconds that reads back as `ms` is `MillisToTimespec(ms)`. */
  lemma MillisToTimespecUnique(milliseconds: uint32, ts: Timespec)
    requires ValidTimespec(ts) && ts.nsec % 1_000_000 == 0
    requires TimespecToMillis(ts) == milliseconds
    ensures ts == MillisToTimespec(milliseconds)
  {
    var q := ts.nsec / 1_000_000;
    assert ts.nsec == q * 1_000_000;
    assert 0 <= q < 1000;
    assert milliseconds == ts.sec * 1000 + q;
    assert milliseconds / 1000 == ts.sec && milliseconds % 1000 == q;
  }

  /** What `semaphore::wait` asks the OS for. */
  datatype WaitRequest = WaitForever | WaitTimed(interval: Timespec)

  /** `semaphore::wait(milliseconds)`: `cUINT32_MAX` waits without a timeout,
      every other value becomes a timespec interval. */
  function SemaphoreWaitRequest(milliseconds: uint32): (r: WaitRequest)
    ensures r.WaitForever? <==> milliseconds == UInt32Max
    ensures r.WaitTimed? ==> ValidTimespec(r.interval) && TimespecToMillis(r.interval) == milliseconds
    ensures r.WaitTimed? ==> r.interval == MillisToTimespec(milliseconds)
  {
    if milliseconds == UInt32Max then WaitForever else WaitTimed(MillisToTimespec(milliseconds))
  }
}
