/**
 * The duration format the AlertWindows validators accept:
 * `re.match(r"^\d+(\.\d+)?[smhdwy]$", v)` after a non-emptiness check
 * (src/alert_windows_models.py, `validate_duration` and `validate_slo_period`).
 *
 * The grammar is stated declaratively (`MatchesDurationPattern`), the
 * validator runs a left-to-right scan (`ScanDuration`), and
 * `ScanDurationCorrect` proves the two agree on every string.
 */
module Durations {
  import opened Text

  /** `[smhdwy]` */
  predicate IsUnit(c: char) {
    c == 's' || c == 'm' || c == 'h' || c == 'd' || c == 'w' || c == 'y'
  }

  /** `\d+(\.\d+)?` matched by the whole of `n`. */
  predicate IsNumber(n: string) {
    || (n != [] && AllDigits(n))
    || (exists k :: 0 < k < |n| - 1 && n[k] == '.' && AllDigits(n[..k]) && AllDigits(n[k + 1..]))
  }

  /** `\d+(\.\d+)?[smhdwy]` matched by the whole of `t`. */
  predicate IsDurationText(t: string) {
    |t| >= 2 && IsUnit(t[|t| - 1]) && IsNumber(t[..|t| - 1])
  }

  /** The strings `re.match` accepts: a duration, optionally followed by
      one newline, which Python's `$` lets through at the end of input. */
  predicate MatchesDurationPattern(v: string) {
    || IsDurationText(v)
    || (|v| >= 1 && v[|v| - 1] == '\n' && IsDurationText(v[..|v| - 1]))
  }

  /** The scan a regex engine performs for the pattern: digits, an optional
      fraction, one unit letter, then the end or a final newline. */
  function ScanDuration(v: string): bool {
    var i := DigitRun(v, 0);
    if i == 0 then false
    else
      var j := if i < |v| && v[i] == '.' && DigitRun(v, i + 1) > i + 1 then DigitRun(v, i + 1) else i;
      j < |v| && IsUnit(v[j]) && (j + 1 == |v| || (j + 2 == |v| && v[j + 1] == '\n'))
  }

  lemma ScanAcceptsOnlyPattern(v: string)
    requires ScanDuration(v)
    ensures MatchesDurationPattern(v)
  {
    var i := DigitRun(v, 0);
    var j := if i < |v| && v[i] == '.' && DigitRun(v, i + 1) > i + 1 then DigitRun(v, i + 1) else i;
    var t := v[..j + 1];
    assert t[..|t| - 1] == v[..j];
    assert v[..i] == v[0..i];
    if j == i {
      assert IsNumber(v[..j]);
    } else {
      var n := v[..j];
      assert n[..i] == v[..i];
      assert n[i + 1..] == v[i + 1..j];
      assert n[i] == '.';
      assert IsNumber(n);
    }
    assert IsDurationText(t);
    if j + 1 == |v| {
      assert t == v;
    } else {
      assert v[..|v| - 1] == t;
    }
  }

  lemma ScanAcceptsDurationText(v: string, t: string)
    requires IsDurationText(t)
    requires v == t || (v == t + "\n")
    ensures ScanDuration(v)
  {
    var u := |t| - 1;
    var n := t[..u];
    assert forall m :: 0 <= m <= |t| ==> v[..m] == t[..m];
    assert v[u] == t[u];
    assert !IsDigit(v[u]) && v[u] != '.';
    if n != [] && AllDigits(n) {
      assert v[0..u] == n;
      DigitRunIs(v, 0, u);
    } else {
      var k :| 0 < k < |n| - 1 && n[k] == '.' && AllDigits(n[..k]) && AllDigits(n[k + 1..]);
      assert v[0..k] == n[..k];
      assert v[k] == n[k];
      DigitRunIs(v, 0, k);
      assert v[k + 1..u] == n[k + 1..];
      DigitRunIs(v, k + 1, u);
    }
    if v != t {
      assert v[u + 1] == '\n';
    }
  }

  /** The scan accepts exactly the strings the pattern describes. */
  lemma ScanDurationCorrect(v: string)
    ensures ScanDuration(v) <==> MatchesDurationPattern(v)
  {
    if ScanDuration(v) {
      ScanAcceptsOnlyPattern(v);
    } else if IsDurationText(v) {
      ScanAcceptsDurationText(v, v);
    } else if |v| >= 1 && v[|v| - 1] == '\n' && IsDurationText(v[..|v| - 1]) {
      assert v == v[..|v| - 1] + "\n";
      ScanAcceptsDurationText(v, v[..|v| - 1]);
    }
  }

  datatype DurationError = EmptyDuration | InvalidDurationFormat

  datatype DurationCheck = Accepted(value: string) | Rejected(error: DurationError)

  /** A duration validator: an empty string and a string outside the
      pattern are rejected with their own errors; an accepted value is
      returned unchanged. */
  function ValidateDuration(v: string): (r: DurationCheck)
    ensures r.Accepted? <==> MatchesDurationPattern(v)
    ensures r.Accepted? ==> r.value == v
    ensures r == Rejected(EmptyDuration) <==> v == ""
  {
    ScanDurationCorrect(v);
    if v == "" then Rejected(EmptyDuration)
    else if !ScanDuration(v) then Rejected(InvalidDurationFormat)
    else Accepted(v)
  }

  /** The accepted examples of the unit tests. */
  lemma DurationExamplesAccepted()
    ensures forall v <- ["5s", "30s", "5m", "30m", "1h", "6h", "1d", "7d", "4w", "1y", "1.5h", "30d\n"] ::
      ValidateDuration(v).Accepted?
  {
  }

  /** The rejected examples of the unit tests. */
  lemma DurationExamplesRejected()
    ensures forall v <- ["", "5", "m", "5x", "5 m", "5.5.5m", "abc", "invalid", "1.h", ".5h", "5m\n\n"] ::
      !ValidateDuration(v).Accepted?
  {
  }
}
