/**
 * The two phone-number regular expressions of the system, written as matchers:
 * `^\+[1-9]\d{1,14}$` (E.164, used by the dispatcher and the browser) and
 * `^\+?[1-9]\d{1,14}$` (the subscribe endpoint, where the `+` is optional).
 */
module Phone {
  import opened Text

  /** `\d{lo,hi}$`: between `lo` and `hi` digits, then the end of the input. */
  function DigitRun(s: string, lo: nat, hi: nat): (ok: bool)
    ensures ok <==> lo <= |s| <= hi && AllDigits(s)
  {
    if s == [] then lo == 0
    else hi > 0 && IsDigit(s[0]) && DigitRun(s[1..], if lo > 0 then lo - 1 else 0, hi - 1)
  }

  /** `[1-9]\d{1,14}$`: a country code that does not start with 0, then 1 to 14 more digits. */
  function NationalPart(s: string): (ok: bool)
    ensures ok <==> 2 <= |s| <= 15 && AllDigits(s) && s[0] != '0'
  {
    |s| > 0 && '1' <= s[0] <= '9' && DigitRun(s[1..], 1, 14)
  }

  /**
   * `^\+[1-9]\d{1,14}$` when `plusOptional` is false, `^\+?[1-9]\d{1,14}$` when it
   * is true. A leading `+` can only be consumed by `\+?`, since `[1-9]` rejects it.
   */
  function MatchesE164(s: string, plusOptional: bool): (ok: bool)
    ensures ok <==> (3 <= |s| <= 16 && s[0] == '+' && s[1] != '0' && AllDigits(s[1..]))
                    || (plusOptional && 2 <= |s| <= 15 && s[0] != '0' && AllDigits(s))
  {
    if |s| > 0 && s[0] == '+' then NationalPart(s[1..]) else plusOptional && NationalPart(s)
  }
}
