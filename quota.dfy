/**
 * The monthly premium-request quota, configured through `COPILOT_QUOTA`
 * (src/index.ts:53, 56-65). The environment variable is passed in.
 */
module Quota {
  import opened Wrappers
  import opened Numbers

  const DefaultQuota: int := 300

  /**
   * `getQuota`: the configured value when it is present, non-empty, parses
   * as an integer and is positive; `DefaultQuota` otherwise.
   */
  function GetQuota(env: Option<string>): (q: int)
    ensures q > 0
    ensures q == DefaultQuota || (env.Some? && ParseInt(env.value) == Some(q))
    // A present, non-empty value that parses to a positive integer is used.
    ensures env.Some? && env.value != "" && ParseInt(env.value).Some? && ParseInt(env.value).value > 0 ==>
              q == ParseInt(env.value).value
  {
    if env.Some? && env.value != "" then
      match ParseInt(env.value)
      case Some(parsed) => if parsed > 0 then parsed else DefaultQuota
      case None => DefaultQuota
    else DefaultQuota
  }

  /** Absent or empty (falsy) values, NaN and non-positive values fall back. */
  lemma {:induction false} GetQuotaFallsBack(env: Option<string>)
    requires env.None? || env.value == "" || ParseInt(env.value).None? || ParseInt(env.value).value <= 0
    ensures GetQuota(env) == DefaultQuota
  {
  }

  /**
   * A numeral, with any leading white space, an optional `+` and any
   * trailing non-digit text, configures its own value when positive; zero
   * falls back to the default.
   */
  lemma {:induction false} GetQuotaOfNumeral(lead: string, sign: string, n: nat, tail: string)
    requires AllWhiteSpace(lead)
    requires sign == "" || sign == "+"
    requires tail == [] || !IsDigit(tail[0])
    ensures GetQuota(Some(lead + sign + DecimalString(n) + tail)) == if n > 0 then n else DefaultQuota
  {
    ParseIntOfNumeral(lead, sign, n, tail);
  }

  /** A negative numeral never configures the quota. */
  lemma {:induction false} GetQuotaOfNegative(lead: string, n: nat, tail: string)
    requires AllWhiteSpace(lead)
    requires tail == [] || !IsDigit(tail[0])
    ensures GetQuota(Some(lead + "-" + DecimalString(n) + tail)) == DefaultQuota
  {
    ParseIntOfNumeral(lead, "-", n, tail);
  }

  /** Every positive quota can be configured by writing it in decimal. */
  lemma {:induction false} GetQuotaSurjective(n: nat)
    requires n > 0
    ensures GetQuota(Some(DecimalString(n))) == n
  {
    GetQuotaOfNumeral("", "", n, "");
    assert "" + "" + DecimalString(n) + "" == DecimalString(n);
  }

  lemma {:induction false} GetQuotaExamplePositive()
    ensures GetQuota(Some("42")) == 42
  {
    assert DecimalString(42) == "42";
    GetQuotaSurjective(42);
  }

  lemma {:induction false} GetQuotaExampleTrailingText()
    ensures GetQuota(Some(" 120 requests")) == 120
  {
    var numeral := DecimalString(120);
    assert numeral == "120";
    var text := " " + "" + numeral + " requests";
    assert text == " 120 requests";
    GetQuotaOfNumeral(" ", "", 120, " requests");
  }

  lemma {:induction false} GetQuotaExampleZero()
    ensures GetQuota(Some("0")) == DefaultQuota
  {
    assert DecimalString(0) == "0";
    GetQuotaOfNumeral("", "", 0, "");
    assert "" + "" + "0" + "" == "0";
  }

  lemma {:induction false} GetQuotaExampleNegative()
    ensures GetQuota(Some("-5")) == DefaultQuota
  {
    var numeral := DecimalString(5);
    assert numeral == "5";
    var text := "" + "-" + numeral + "";
    assert text == "-5";
    GetQuotaOfNegative("", 5, "");
  }

  lemma {:induction false} GetQuotaExampleNaN()
    ensures GetQuota(Some("many")) == DefaultQuota
  {
    ParseIntNaN("", "", "many");
    assert "" + "" + "many" == "many";
  }
}
