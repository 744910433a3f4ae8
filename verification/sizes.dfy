/** The size column of a file row (`FileAdapter.getSize`): the length is divided
    by 1024 while it exceeds 1024, counting the divisions as an index into the
    unit names. Division of a double by 1024 is exact, so `real` stands for the
    double here. */
module SizeLabels {
  import opened Files

  const Units: seq<string> := ["B", "KiB", "MiB", "GiB", "TiB"]

  function Pow1024(n: nat): (p: real)
    ensures p >= 1.0
  {
    if n == 0 then 1.0 else 1024.0 * Pow1024(n - 1)
  }

  /** How many times the loop divides `x` when it may divide at most `limit` times. */
  function Steps(x: real, limit: nat): (u: nat)
    ensures u <= limit
  {
    if x > 1024.0 && limit > 0 then 1 + Steps(x / 1024.0, limit - 1) else 0
  }

  /** Above 1024^k the loop uses up all `k` divisions it is allowed. */
  lemma {:induction false} StepsSaturate(x: real, k: nat)
    requires x > Pow1024(k)
    ensures Steps(x, k) == k
  {
    if k > 0 {
      assert Pow1024(k) >= 1024.0 by { assert Pow1024(k - 1) >= 1.0; }
      assert x / 1024.0 > Pow1024(k - 1);
      StepsSaturate(x / 1024.0, k - 1);
    }
  }

  /** The loop divides only while it must: after `u > 0` divisions the
      length exceeds 1024^u, so the amount shown exceeds 1. */
  lemma {:induction false} StepsMinimal(x: real, limit: nat)
    ensures Steps(x, limit) > 0 ==> x > Pow1024(Steps(x, limit))
  {
    if x > 1024.0 && limit > 0 {
      StepsMinimal(x / 1024.0, limit - 1);
    }
  }

  lemma QuotientAboveOne(q: real, p: real, x: real)
    requires p >= 1.0 && q * p == x && x > p
    ensures q > 1.0
  {
  }

  /** What holds when the bounded loop of `getSize` stops. */
  lemma LoopExit(x: real, unit: nat, scaled: real)
    requires unit <= |Units| - 1 && !(scaled > 1024.0 && unit < |Units| - 1)
    requires Steps(x, |Units| - 1) == unit + Steps(scaled, |Units| - 1 - unit)
    requires scaled * Pow1024(unit) == x
    ensures unit == Steps(x, |Units| - 1) && scaled == x / Pow1024(unit)
    ensures scaled > 1024.0 ==> unit == |Units| - 1
    ensures unit > 0 ==> scaled > 1.0
  {
    if unit > 0 {
      StepsMinimal(x, |Units| - 1);
      QuotientAboveOne(scaled, Pow1024(unit), x);
    }
  }

  /** The loop as written, guarded by `unit < units.size`. */
  method UnitAsWritten(size: int) returns (unit: nat, scaled: real)
    ensures unit == Steps(size as real, |Units|)
    ensures scaled * Pow1024(unit) == size as real
  {
    unit := 0;
    scaled := size as real;
    while scaled > 1024.0 && unit < |Units|
      invariant unit <= |Units|
      invariant Steps(size as real, |Units|) == unit + Steps(scaled, |Units| - unit)
      invariant scaled * Pow1024(unit) == size as real
      decreases |Units| - unit
    {
      scaled := scaled / 1024.0;
      unit := unit + 1;
    }
  }

  /** Every length above 1024^5 bytes drives the as-written index to 5, one
      past the last unit name, so `units[unit]` fails. */
  lemma AsWrittenOverruns(size: int)
    requires size as real > Pow1024(5)
    ensures Steps(size as real, |Units|) == |Units|
  {
    StepsSaturate(size as real, 5);
  }

  /** Two pebibytes is such a length. */
  lemma AsWrittenOverrunsAtTwoPebibytes()
    ensures Steps(2251799813685248 as real, |Units|) == |Units|
  {
    assert Pow1024(5) == 1125899906842624.0;
    AsWrittenOverruns(2251799813685248);
  }

  /** What the size column shows. */
  datatype SizeLabel = DirectoryLabel | Amount(scaled: real, unit: string)

  /** `getSize` with the loop bounded by the last unit: the index always names
      a unit, the amount times that unit is the length, the amount exceeds
      1024 only in the largest unit and is at most 1 only in bytes. */
  method GetSize(e: Entry) returns (shown: SizeLabel)
    ensures e.isDirectory <==> shown == DirectoryLabel
    ensures !e.isDirectory ==>
      (exists k :: 0 <= k < |Units| &&
        shown == Amount(e.length as real / Pow1024(k), Units[k]) &&
        (shown.scaled > 1024.0 ==> k == |Units| - 1) &&
        (k > 0 ==> shown.scaled > 1.0) &&
        k == Steps(e.length as real, |Units| - 1))
  {
    if e.isDirectory {
      return DirectoryLabel;
    }
    var unit := 0;
    var scaled := e.length as real;
    while scaled > 1024.0 && unit < |Units| - 1
      invariant unit <= |Units| - 1
      invariant Steps(e.length as real, |Units| - 1) == unit + Steps(scaled, |Units| - 1 - unit)
      invariant scaled * Pow1024(unit) == e.length as real
      decreases |Units| - unit
    {
      scaled := scaled / 1024.0;
      unit := unit + 1;
    }
    LoopExit(e.length as real, unit, scaled);
    shown := Amount(scaled, Units[unit]);
  }
}
