/** The two pure helpers of the controller: the conversion of a rate the
    user gives in KB/s into the limit sent to the remote service in bytes/s,
    and the text used for a rate in diagnostic messages. */
module Rates {
  import opened Wrappers
  import Decimal

  /** Bytes per KB, the factor the tool scales user rates by. */
  const KB: int := 1024

  /** The sentinel the user gives to remove a limit. */
  const NoLimitRate: int := -1

  /** The limit, in bytes/s, that throttling to `rate` KB/s asks for; 0 means
      unlimited. Rates below -1 are not rejected and give a negative limit. */
  function Target(rate: int): (limit: int)
    ensures rate == NoLimitRate ==> limit == 0
    ensures limit == 0 <==> rate == NoLimitRate || rate == 0
    ensures limit >= 0 <==> rate >= NoLimitRate
  {
    if rate == NoLimitRate then 0 else rate * KB
  }

  /** Apart from the sentinel, the limit is a whole number of KB and dividing
      it by 1024 gives back the rate the user asked for. */
  lemma TargetRecoversRate(rate: int)
    requires rate != NoLimitRate
    ensures Target(rate) % KB == 0 && Target(rate) / KB == rate
  {
  }

  /** `int(rate / 1024)`: the quotient truncated toward zero, so that a
      negative rate gives a quotient that is zero or negative. */
  function TruncatedKB(rate: int): (q: int)
    ensures rate >= 0 ==> 0 <= q && q * KB <= rate < q * KB + KB
    ensures rate < 0 ==> q <= 0 && q * KB - KB < rate <= q * KB
  {
    if rate >= 0 then rate / KB else -((-rate) / KB)
  }

  /** The text of a rate in bytes/s: "Unlimited" for 0, otherwise the whole
      number of KB/s followed by "KB/s". */
  function FormatSpeed(rate: int): (s: string)
    ensures rate == 0 <==> s == "Unlimited"
    ensures rate != 0 ==> |s| > 4 && s[|s| - 4..] == "KB/s"
    ensures rate != 0 ==> Decimal.ParseInt(s[..|s| - 4]) == Some(TruncatedKB(rate))
  {
    if rate == 0 then "Unlimited"
    else
      var digits := Decimal.IntToDecimal(TruncatedKB(rate));
      Decimal.IntRoundTrip(TruncatedKB(rate));
      assert (digits + "KB/s")[..|digits|] == digits;
      digits + "KB/s"
  }

  /** The message text for a throttle target shows the rate the user gave:
      "Unlimited" for -1 and 0, the KB/s figure itself otherwise. */
  lemma FormatTarget(rate: int)
    ensures FormatSpeed(Target(rate)) ==
      if rate == NoLimitRate || rate == 0 then "Unlimited"
      else Decimal.IntToDecimal(rate) + "KB/s"
  {
    if rate != NoLimitRate && rate != 0 {
      assert TruncatedKB(rate * KB) == rate;
    }
  }

  /** Whole and fractional KB/s figures: truncation, not rounding. */
  lemma FormatSpeedExamples()
    ensures FormatSpeed(0) == "Unlimited"
    ensures FormatSpeed(2048) == "2KB/s"
    ensures FormatSpeed(1536) == "1KB/s"
  {
  }

  /** A limit below 1 KB/s still shows a number, "0KB/s", and so does a
      negative limit above -1 KB/s; -2048 truncates toward zero to "-2KB/s". */
  lemma FormatSpeedSmallAndNegative()
    ensures FormatSpeed(1023) == "0KB/s"
    ensures FormatSpeed(-1) == "0KB/s"
    ensures FormatSpeed(-2048) == "-2KB/s"
  {
  }
}
