/** The platform extraction of `processVehiclePositions` (app.js:173-183):
    the digits captured by `/\((\d+)\)$/` on the vehicle label, else "N/A". */
module Platform {
  import opened Wrappers
  import opened Decimal

  /** The platform code of a vehicle whose label carries none. */
  const NO_PLATFORM := "N/A"

  /** The regular expression matches `text` with capture `d`: `text` ends
      with "(", then the non-empty ASCII digit run `d`, then ")". */
  predicate Matches(text: string, d: string) {
    && |d| > 0 && AllDigits(d)
    && |text| >= |d| + 2
    && text[|text| - |d| - 2..] == "(" + d + ")"
  }

  /** The length of the run of digits that ends `s`. */
  function TrailingDigits(s: string): (n: nat)
    ensures n <= |s|
    ensures forall i :: |s| - n <= i < |s| ==> IsDigit(s[i])
    ensures n < |s| ==> !IsDigit(s[|s| - n - 1])
  {
    if |s| > 0 && IsDigit(s[|s| - 1]) then TrailingDigits(s[..|s| - 1]) + 1 else 0
  }

  /** `label.match(/\((\d+)\)$/)`, giving the first capture group. */
  function MatchPlatform(text: string): Option<string> {
    if |text| >= 1 && text[|text| - 1] == ')' then
      var body := text[..|text| - 1];
      var n := TrailingDigits(body);
      if 0 < n < |body| && body[|body| - n - 1] == '(' then Some(body[|body| - n..]) else None
    else None
  }

  /** The match succeeds exactly when the label ends with a parenthesised digit
      run, and then it captures that run. */
  lemma MatchPlatformSpec(text: string, d: string)
    ensures MatchPlatform(text) == Some(d) <==> Matches(text, d)
  {
    if Matches(text, d) {
      var body := text[..|text| - 1];
      assert text[|text| - 1] == ')';
      assert body[|body| - |d|..] == d;
      assert body[|body| - |d| - 1] == '(';
      var n := TrailingDigits(body);
      DigitRunLength(body, |d|);
      assert n == |d|;
    }
    if MatchPlatform(text) == Some(d) {
      var body := text[..|text| - 1];
      assert text[|text| - |d| - 2..] == [body[|body| - |d| - 1]] + body[|body| - |d|..] + [text[|text| - 1]];
    }
  }

  /** A digit run of length `n` ending `s`, preceded by a non-digit, is the
      whole trailing run. */
  lemma {:induction false} DigitRunLength(s: string, n: nat)
    requires n < |s| && !IsDigit(s[|s| - n - 1])
    requires forall i :: |s| - n <= i < |s| ==> IsDigit(s[i])
    ensures TrailingDigits(s) == n
    decreases n
  {
    if n > 0 {
      var t := s[..|s| - 1];
      assert forall i :: |t| - (n - 1) <= i < |t| ==> t[i] == s[i];
      DigitRunLength(t, n - 1);
    }
  }

  /** The platform code of a vehicle label (absent, empty or a string). */
  function PlatformCode(text: Option<string>): (p: string)
    ensures p == NO_PLATFORM || (text.Some? && Matches(text.value, p))
    ensures text.Some? && Matches(text.value, p) ==> p != NO_PLATFORM
  {
    if text.Some? && text.value != "" then
      match MatchPlatform(text.value)
      case Some(d) => MatchPlatformSpec(text.value, d); d
      case None => NO_PLATFORM
    else NO_PLATFORM
  }

  /** A label ending in a parenthesised digit run gives that run; a label with
      no such ending, or no label, gives "N/A". */
  lemma PlatformCodeIff(text: Option<string>, d: string)
    ensures text.Some? && Matches(text.value, d) ==> PlatformCode(text) == d
    ensures (text.None? || forall e :: !Matches(text.value, e)) ==> PlatformCode(text) == NO_PLATFORM
  {
    if text.Some? && Matches(text.value, d) {
      MatchPlatformSpec(text.value, d);
    }
  }

  /** The label format the operator uses: "C1-23562-PLATF.(2)" gives "2". */
  lemma PlatformExample()
    ensures PlatformCode(Some("C1-23562-PLATF.(2)")) == "2"
  {
    var text := "C1-23562-PLATF.(2)";
    assert text[|text| - 3..] == "(" + "2" + ")";
    PlatformCodeIff(Some(text), "2");
  }
}
