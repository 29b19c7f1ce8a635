/**
 * The two pure pieces of src/sloth.py that talk about the Sloth binary:
 * reading its version out of `sloth version`, and the `sloth serve`
 * command line.
 */
module SlothCli {
  import opened Text
  import opened YamlValues

  const DefaultBinPath: string := "/usr/local/bin/sloth"
  /** `_SLOTH_PORT`, the port the server binds. */
  const SlothPort: nat := 8080
  const DefaultSloPeriod: string := "30d"

  // ----- version -----

  /** What running `sloth version` gives back: an exec error, a process
      without a stdout stream, or the text read from its stdout. */
  datatype ExecOut = ExecError | NoStdout | Stdout(text: string)

  /** `[-0-9a-f]` */
  predicate IsTailChar(c: char) {
    c == '-' || IsDigit(c) || 'a' <= c <= 'f'
  }

  /** Every character of `t` from index `i` on is in `[-0-9a-f]`. */
  predicate AllTailFrom(t: string, i: nat) {
    forall k :: i <= k < |t| ==> IsTailChar(t[k])
  }

  /** `t` is `[0-9]+[.][0-9]+[.][0-9]+[-0-9a-f]*` with its dots at `p` and `q`. */
  predicate ShapeWithDots(t: string, p: nat, q: nat) {
    && 0 < p && p + 1 < q && q + 1 < |t| && t[p] == '.' && t[q] == '.'
    && AllDigits(t[..p]) && AllDigits(t[p + 1..q]) && IsDigit(t[q + 1])
    && AllTailFrom(t, q + 1)
  }

  /** `[0-9]+[.][0-9]+[.][0-9]+[-0-9a-f]*` matched by the whole of `t`. */
  predicate VersionShape(t: string) {
    exists p: nat, q: nat | p < q < |t| :: ShapeWithDots(t, p, q)
  }

  /** The end of the run of `[-0-9a-f]` characters that starts at `i`. */
  function TailRun(s: string, i: nat): (j: nat)
    requires i <= |s|
    ensures i <= j <= |s|
    ensures forall k :: i <= k < j ==> IsTailChar(s[k])
    ensures j < |s| ==> !IsTailChar(s[j])
    decreases |s| - i
  {
    if i < |s| && IsTailChar(s[i]) then TailRun(s, i + 1) else i
  }

  lemma {:induction false} TailRunReaches(s: string, i: nat, k: nat)
    requires i <= k <= |s|
    requires forall m :: i <= m < k ==> IsTailChar(s[m])
    ensures TailRun(s, i) >= k
    decreases k - i
  {
    if i < k {
      TailRunReaches(s, i + 1, k);
    }
  }

  /** Where the greedy match of the pattern that starts at `i` ends, if
      there is one.  Each `[0-9]+` before a `[.]` can only succeed with its
      longest run, so no backtracking is needed. */
  function MatchAt(s: string, i: nat): (r: Option<nat>)
    requires i <= |s|
    ensures r.Some? ==> i < r.value <= |s|
  {
    var a := DigitRun(s, i);
    if a == i || a == |s| || s[a] != '.' then None
    else
      var b := DigitRun(s, a + 1);
      if b == a + 1 || b == |s| || s[b] != '.' then None
      else
        var c := DigitRun(s, b + 1);
        if c == b + 1 then None else Some(TailRun(s, c))
  }

  /** Digits are among the characters of the tail. */
  lemma DigitsAreTail(s: string, x: nat, y: nat)
    requires x <= y <= |s| && AllDigits(s[x..y])
    ensures forall k :: x <= k < y ==> IsTailChar(s[k])
  {
    assert forall k :: x <= k < y ==> s[k] == s[x..y][k - x];
  }

  /** The parts of a version, at their places in `s`, make `s[i..k]`
      version-shaped with its dots at `p` and `q`. */
  lemma ShapeFromPlace(s: string, i: nat, k: nat, p: nat, q: nat)
    requires 0 < p && p + 1 < q && i + q + 1 < k <= |s|
    requires AllDigits(s[i..i + p]) && s[i + p] == '.'
    requires AllDigits(s[i + p + 1..i + q]) && s[i + q] == '.'
    requires IsDigit(s[i + q + 1])
    requires forall m :: i + q + 1 <= m < k ==> IsTailChar(s[m])
    ensures ShapeWithDots(s[i..k], p, q)
  {
    var t := s[i..k];
    assert t[..p] == s[i..i + p];
    var mid := t[p + 1..q];
    forall m | 0 <= m < |mid|
      ensures IsDigit(mid[m])
    {
      assert mid[m] == s[i + p + 1..i + q][m];
    }
    assert forall m :: q + 1 <= m < |t| ==> t[m] == s[i + m];
  }

  /** A match found at `i` is a version-shaped string that cannot be
      extended to the right. */
  lemma MatchAtSound(s: string, i: nat)
    requires i <= |s| && MatchAt(s, i).Some?
    ensures VersionShape(s[i..MatchAt(s, i).value])
    ensures MatchAt(s, i).value == |s| || !IsTailChar(s[MatchAt(s, i).value])
  {
    var a := DigitRun(s, i);
    var b := DigitRun(s, a + 1);
    var c := DigitRun(s, b + 1);
    var e := TailRun(s, c);
    DigitsAreTail(s, b + 1, c);
    ShapeFromPlace(s, i, e, a - i, b - i);
  }

  /** The parts of a version-shaped `s[i..k]`, at their places in `s`. */
  lemma ShapeInPlace(s: string, i: nat, k: nat, p: nat, q: nat)
    requires i <= k <= |s| && ShapeWithDots(s[i..k], p, q)
    ensures i + q + 1 < k
    ensures AllDigits(s[i..i + p]) && s[i + p] == '.'
    ensures AllDigits(s[i + p + 1..i + q]) && s[i + q] == '.'
    ensures IsDigit(s[i + q + 1])
    ensures forall m :: i + q + 1 <= m < k ==> IsTailChar(s[m])
  {
    var t := s[i..k];
    assert s[i..i + p] == t[..p];
    var mid := s[i + p + 1..i + q];
    forall m | 0 <= m < |mid|
      ensures IsDigit(mid[m])
    {
      assert mid[m] == t[p + 1 + m] == t[p + 1..q][m];
    }
    assert forall m :: i + q + 1 <= m < k ==> s[m] == t[m - i];
  }

  /** The match at `i` reaches over a version whose two leading digit runs
      end at `a` and `b`. */
  lemma RunsWithinMatch(s: string, i: nat, k: nat, a: nat, b: nat)
    requires i < a && a + 1 < b && b + 1 < k <= |s|
    requires DigitRun(s, i) == a && s[a] == '.'
    requires DigitRun(s, a + 1) == b && s[b] == '.'
    requires IsDigit(s[b + 1])
    requires forall m :: b + 1 <= m < k ==> IsTailChar(s[m])
    ensures MatchAt(s, i).Some? && k <= MatchAt(s, i).value
  {
    var c := DigitRun(s, b + 1);
    if c < k {
      TailRunReaches(s, c, k);
    }
  }

  /** Any version-shaped string starting at `i` lies within the match found
      at `i`. */
  lemma ShapeWithinMatch(s: string, i: nat, k: nat)
    requires i <= k <= |s| && VersionShape(s[i..k])
    ensures MatchAt(s, i).Some? && k <= MatchAt(s, i).value
  {
    var p: nat, q: nat :| p < q < |s[i..k]| && ShapeWithDots(s[i..k], p, q);
    ShapeInPlace(s, i, k, p, q);
    DigitRunIs(s, i, i + p);
    DigitRunIs(s, i + p + 1, i + q);
    RunsWithinMatch(s, i, k, i + p, i + q);
  }

  /** `VERSION_PATTERN.search(s)`: the leftmost match, at or after `i`. */
  function SearchFrom(s: string, i: nat): string
    requires i <= |s|
    decreases |s| - i
  {
    var m := MatchAt(s, i);
    if m.Some? then s[i..m.value]
    else if i == |s| then ""
    else SearchFrom(s, i + 1)
  }

  /** No version-shaped substring of `s` starts in `[i, j)`. */
  predicate NoShapeBetween(s: string, i: nat, j: nat) {
    forall j', k :: i <= j' < j && j' <= k <= |s| ==> !VersionShape(s[j'..k])
  }

  /** `r` is the version-shaped substring of `s` at `j`, it cannot be made
      longer, and no version-shaped substring starts in `[i, j)`. */
  predicate LeftmostLongest(s: string, i: nat, j: nat, r: string) {
    && i <= j && j + |r| <= |s| && r == s[j..j + |r|] && VersionShape(r)
    && (j + |r| == |s| || !IsTailChar(s[j + |r|]))
    && NoShapeBetween(s, i, j)
  }

  /** The `version` property: "" for an exec error, a missing stdout, or
      no match; otherwise the first match. */
  function Version(out: ExecOut): string {
    match out
    case ExecError => ""
    case NoStdout => ""
    case Stdout(text) => SearchFrom(text, 0)
  }

  /** Where no match starts at `i`, no version-shaped substring does. */
  lemma NoMatchNoShape(s: string, i: nat)
    requires i <= |s| && MatchAt(s, i).None?
    ensures forall k :: i <= k <= |s| ==> !VersionShape(s[i..k])
  {
    forall k | i <= k <= |s|
      ensures !VersionShape(s[i..k])
    {
      if VersionShape(s[i..k]) {
        ShapeWithinMatch(s, i, k);
      }
    }
  }

  /** A match at `i` is the leftmost longest version from `i` on. */
  lemma MatchIsLeftmost(s: string, i: nat)
    requires i <= |s| && MatchAt(s, i).Some?
    ensures LeftmostLongest(s, i, i, s[i..MatchAt(s, i).value])
  {
    var e := MatchAt(s, i).value;
    MatchAtSound(s, i);
    assert s[i..e] == s[i..i + |s[i..e]|];
  }

  /** Nothing version-shaped starting at `i` moves the leftmost search
      one place to the left. */
  lemma ShapeFreeStep(s: string, i: nat, j: nat, r: string)
    requires i < |s| && LeftmostLongest(s, i + 1, j, r)
    requires forall k :: i <= k <= |s| ==> !VersionShape(s[i..k])
    ensures LeftmostLongest(s, i, j, r)
  {
  }

  /** What `SearchFrom` returns is the leftmost version-shaped substring
      at or after `i`, as long as it can be made, or "" when there is none. */
  lemma {:induction false} SearchFromCorrect(s: string, i: nat)
    requires i <= |s|
    ensures SearchFrom(s, i) == "" ==> NoShapeBetween(s, i, |s| + 1)
    ensures SearchFrom(s, i) != "" ==> exists j :: LeftmostLongest(s, i, j, SearchFrom(s, i))
    decreases |s| - i
  {
    if MatchAt(s, i).Some? {
      MatchIsLeftmost(s, i);
    } else {
      NoMatchNoShape(s, i);
      if i < |s| {
        SearchFromCorrect(s, i + 1);
        if SearchFrom(s, i) != "" {
          var j :| LeftmostLongest(s, i + 1, j, SearchFrom(s, i));
          ShapeFreeStep(s, i, j, SearchFrom(s, i));
        }
      }
    }
  }

  /** The version reported for a `sloth version` output is the leftmost
      version-shaped substring of its stdout, as long as it can be made;
      "" means there is none, or no output at all. */
  lemma VersionCorrect(out: ExecOut)
    ensures !out.Stdout? ==> Version(out) == ""
    ensures out.Stdout? && Version(out) == "" ==> NoShapeBetween(out.text, 0, |out.text| + 1)
    ensures out.Stdout? && Version(out) != "" ==> exists j :: LeftmostLongest(out.text, 0, j, Version(out))
  {
    if out.Stdout? {
      SearchFromCorrect(out.text, 0);
    }
  }

  /** A version in the middle of its line. */
  lemma VersionInLine()
    ensures Version(Stdout("v0.11.0 ")) == "0.11.0"
  {
    var s := "v0.11.0 ";
    DigitRunIs(s, 1, 2);
    DigitRunIs(s, 3, 5);
    DigitRunIs(s, 6, 7);
    assert MatchAt(s, 0) == None;
    assert MatchAt(s, 1) == Some(7);
  }

  /** A version with a hex suffix, up to the end of the line. */
  lemma VersionWithSuffix()
    ensures Version(Stdout("1.2.3-4f\n")) == "1.2.3-4f"
  {
    var h := "1.2.3-4f\n";
    DigitRunIs(h, 0, 1);
    DigitRunIs(h, 2, 3);
    DigitRunIs(h, 4, 5);
    assert TailRun(h, 8) == 8;
    assert TailRun(h, 5) == TailRun(h, 6) == TailRun(h, 7) == 8;
    assert MatchAt(h, 0) == Some(8);
  }

  /** No version: a bare number, or no output at all. */
  lemma NoVersion()
    ensures Version(Stdout("42")) == ""
    ensures Version(NoStdout) == "" && Version(ExecError) == ""
  {
    var n := "42";
    DigitRunIs(n, 0, 2);
    DigitRunIs(n, 1, 2);
    assert MatchAt(n, 0) == None && MatchAt(n, 1) == None && MatchAt(n, 2) == None;
  }

  // ----- sloth_command_line -----

  /** `sloth_command_line`: the binary, `serve`, and the two flags, joined
      with single spaces. */
  function SlothCommandLine(httpAddress: string := ":" + NatToString(SlothPort), sloPeriod: string := DefaultSloPeriod,
                            binPath: string := DefaultBinPath): string {
    Join(" ", CommandWords(httpAddress, sloPeriod, binPath))
  }

  function CommandWords(httpAddress: string, sloPeriod: string, binPath: string): seq<string> {
    [binPath, "serve", "--listen=" + httpAddress, "--default-slo-period=" + sloPeriod]
  }

  /** The command line splits back into its four words whenever none of
      them holds a space, so the flags reach the binary as written. */
  lemma CommandLineWords(httpAddress: string, sloPeriod: string, binPath: string)
    requires ' ' !in httpAddress && ' ' !in sloPeriod && ' ' !in binPath
    ensures Split(SlothCommandLine(httpAddress, sloPeriod, binPath), ' ')
         == [binPath, "serve", "--listen=" + httpAddress, "--default-slo-period=" + sloPeriod]
  {
    var words := CommandWords(httpAddress, sloPeriod, binPath);
    assert ' ' !in "serve" && ' ' !in "--listen=" && ' ' !in "--default-slo-period=";
    assert forall w :: w in words ==> ' ' !in w;
    SplitJoin(words, ' ');
  }

  lemma PortText()
    ensures NatToString(SlothPort) == "8080"
  {
    assert NatToString(8) == "8";
    assert NatToString(80) == "80";
    assert NatToString(808) == "808";
  }

  /** The defaults of the command line: the default binary, serving on
      port 8080, with a 30-day SLO period. */
  lemma DefaultCommandLine()
    ensures SlothCommandLine() == SlothCommandLine(":8080", "30d", "/usr/local/bin/sloth")
  {
    PortText();
    assert ":" + NatToString(SlothPort) == ":8080";
  }
}
