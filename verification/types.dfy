/** Values shared by every part of the firmware model. */
module Types {

  newtype byte = x: int | 0 <= x < 0x100

  /** A 16-bit module identifier; 0 addresses every module. */
  type ModuleId = x: nat | x < 0x1_0000

  /** A hardware address: six bytes. */
  type Mac = s: seq<byte> | |s| == 6 witness [0, 0, 0, 0, 0, 0]

  const NO_MAC: Mac := [0, 0, 0, 0, 0, 0]

  /** A reading of the wall clock. */
  datatype Instant = Instant(sec: int, usec: int)

  const EPOCH: Instant := Instant(0, 0)

  function Elapsed(since: Instant, now: Instant): real {
    (now.sec - since.sec) as real + (now.usec - since.usec) as real / 1000000.0
  }

  /** Readings of the clock in a loop over table entries: all the same, or a fresh one for each entry. */
  datatype Clock = Stopped(now: Instant) | Running(at: seq<Instant>)

  /** The reading taken when entry k is handled. */
  function ReadAt(clock: Clock, k: nat): Instant {
    match clock
    case Stopped(now) => now
    case Running(at) => if k < |at| then at[k] else Instant(0, 0)
  }

  /** Slot k deleted from the first n by shifting left; the vacated slot n - 1 keeps its contents. */
  function ShiftLeft<T>(s: seq<T>, k: nat, n: nat): (r: seq<T>)
    requires k < n <= |s|
    ensures |r| == |s|
    ensures forall i :: 0 <= i < |s| ==> r[i] == s[if k <= i < n - 1 then i + 1 else i]
  {
    s[..k] + s[k + 1..n] + s[n - 1..]
  }

  lemma ShiftLeftLive<T>(s: seq<T>, k: nat, n: nat)
    requires k < n <= |s|
    ensures ShiftLeft(s, k, n)[..n - 1] == s[..n][..k] + s[..n][k + 1..]
    ensures forall x :: x in ShiftLeft(s, k, n) ==> x in s
  {
  }
}
