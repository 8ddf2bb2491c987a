/**
 * The level clock: the scene remembers the first frame's timestamp and shows
 * the whole seconds elapsed since then in a "<n> sec" label.
 */
module Timekeeping {
  import opened Wrappers
  import Decimal

  /** Swift's `Int(_:)` on a `Double`: truncation toward zero. */
  function Truncate(x: real): (n: int)
    ensures x >= 0.0 ==> n >= 0 && n as real <= x < n as real + 1.0
    ensures x < 0.0 ==> n <= 0 && n as real - 1.0 < x <= n as real
  {
    if x >= 0.0 then x.Floor else -((-x).Floor)
  }

  lemma TruncateMonotone(a: real, b: real)
    requires 0.0 <= a <= b
    ensures 0 <= Truncate(a) <= Truncate(b)
  {
  }

  /** The scene's clock fields. */
  datatype Clock = Clock(lastUpdateTime: real, startTime: real, elapsedTime: int)

  /** `lastUpdateTime` starts at the sentinel -1, `startTime` at 0, the count at 0. */
  const InitialClock := Clock(-1.0, 0.0, 0)

  /** One frame: a negative `lastUpdateTime` marks the first frame and restarts the clock. */
  function Tick(c: Clock, currentTime: real): (next: Clock)
    ensures next.lastUpdateTime == currentTime
    ensures c.lastUpdateTime < 0.0 ==> next.startTime == currentTime && next.elapsedTime == 0
    ensures c.lastUpdateTime >= 0.0 ==> next.startTime == c.startTime
    ensures currentTime >= next.startTime ==>
      0 <= next.elapsedTime && next.elapsedTime as real <= currentTime - next.startTime < next.elapsedTime as real + 1.0
  {
    var start := if c.lastUpdateTime < 0.0 then currentTime else c.startTime;
    Clock(currentTime, start, Truncate(currentTime - start))
  }

  /** The clock after one frame per timestamp, oldest first. */
  function Run(c: Clock, times: seq<real>): Clock
    decreases |times|
  {
    if times == [] then c else Tick(Run(c, times[..|times| - 1]), times[|times| - 1])
  }

  predicate NonNegative(times: seq<real>) {
    forall i :: 0 <= i < |times| ==> times[i] >= 0.0
  }

  predicate NonDecreasing(times: seq<real>) {
    forall i, j :: 0 <= i <= j < |times| ==> times[i] <= times[j]
  }

  /** The first frame starts the clock at its own timestamp with nothing elapsed. */
  lemma FirstTickStartsClock(currentTime: real)
    ensures Tick(InitialClock, currentTime) == Clock(currentTime, currentTime, 0)
  {
  }

  /**
   * With non-negative timestamps the clock starts once, at the first frame,
   * and afterwards counts the whole seconds since that frame.
   */
  lemma {:induction false} RunFromFirstFrame(times: seq<real>)
    requires |times| >= 1 && NonNegative(times)
    ensures var c := Run(InitialClock, times);
      c.startTime == times[0] && c.lastUpdateTime == times[|times| - 1] &&
      c.elapsedTime == Truncate(times[|times| - 1] - times[0])
    decreases |times|
  {
    if |times| > 1 {
      var prefix := times[..|times| - 1];
      assert prefix[0] == times[0];
      RunFromFirstFrame(prefix);
    } else {
      assert times[..0] == [];
    }
  }

  /** For non-negative, non-decreasing timestamps the count never goes down and never goes negative. */
  lemma ElapsedNeverDecreases(times: seq<real>, i: nat, j: nat)
    requires NonNegative(times) && NonDecreasing(times)
    requires 1 <= i <= j <= |times|
    ensures 0 <= Run(InitialClock, times[..i]).elapsedTime <= Run(InitialClock, times[..j]).elapsedTime
  {
    RunFromFirstFrame(times[..i]);
    RunFromFirstFrame(times[..j]);
    TruncateMonotone(times[i - 1] - times[0], times[j - 1] - times[0]);
  }

  /**
   * A negative timestamp leaves the sentinel in place, so the next frame
   * restarts the clock at its own timestamp.
   */
  lemma NegativeTimestampRestarts(c: Clock, first: real, next: real)
    requires first < 0.0
    ensures Tick(Tick(c, first), next) == Clock(next, next, 0)
  {
  }

  /** The time label text, `"\(elapsedTime) sec"`. */
  function LabelText(elapsedTime: int): (text: string)
    ensures |text| >= 5 && text[|text| - 4..] == " sec"
    ensures text[0] == '-' <==> elapsedTime < 0
    ensures forall i :: 0 <= i < |text| - 4 ==> Decimal.IsDigit(text[i]) || (i == 0 && text[i] == '-')
  {
    Decimal.FromInt(elapsedTime) + " sec"
  }

  /** Reads the count back from a time label. */
  function ElapsedFromLabel(text: string): Option<int> {
    if |text| >= 4 && text[|text| - 4..] == " sec" then Decimal.ToInt(text[..|text| - 4]) else None
  }

  /** The label shows the count exactly: it can be read back. */
  lemma LabelRoundTrip(elapsedTime: int)
    ensures ElapsedFromLabel(LabelText(elapsedTime)) == Some(elapsedTime)
  {
    var text := LabelText(elapsedTime);
    assert text[..|text| - 4] == Decimal.FromInt(elapsedTime);
    Decimal.FromIntRoundTrip(elapsedTime);
  }

  /** The label the scene is created with, "0 sec", is the label of a zero count. */
  lemma InitialLabel()
    ensures LabelText(InitialClock.elapsedTime) == "0 sec"
  {
  }
}
