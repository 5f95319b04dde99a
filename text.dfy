/** The JavaScript string operations the application relies on: character
    classes of its regular expressions, case mapping, `trim`, `includes`,
    `split`, `replace` of the first match and decimal rendering of numbers.
    Case mapping covers the ASCII letters only. */
module Text {

  predicate IsUpper(c: char) { 'A' <= c <= 'Z' }
  predicate IsLower(c: char) { 'a' <= c <= 'z' }
  predicate IsDigit(c: char) { '0' <= c <= '9' }
  predicate IsLetterOrDigit(c: char) { IsUpper(c) || IsLower(c) || IsDigit(c) }

  /** The regular-expression class `\w`. */
  predicate IsWordChar(c: char) { IsLetterOrDigit(c) || c == '_' }

  /** The regular-expression class `\s`, which is also the set of characters
      `String.prototype.trim` removes (white space and line terminators). */
  predicate IsSpace(c: char) {
    || c == '\t' || c == '\n' || c == '\U{000B}' || c == '\U{000C}' || c == '\r' || c == ' '
    || c == '\U{00A0}' || c == '\U{1680}' || ('\U{2000}' <= c <= '\U{200A}')
    || c == '\U{2028}' || c == '\U{2029}' || c == '\U{202F}' || c == '\U{205F}'
    || c == '\U{3000}' || c == '\U{FEFF}'
  }

  function ToLowerChar(c: char): char {
    if IsUpper(c) then (c as int + 32) as char else c
  }

  function ToUpperChar(c: char): char {
    if IsLower(c) then (c as int - 32) as char else c
  }

  /** `toLowerCase` */
  function Lower(s: string): string {
    seq(|s|, i requires 0 <= i < |s| => ToLowerChar(s[i]))
  }

  /** `toUpperCase` */
  function Upper(s: string): string {
    seq(|s|, i requires 0 <= i < |s| => ToUpperChar(s[i]))
  }

  predicate NoUpper(s: string) { forall i :: 0 <= i < |s| ==> !IsUpper(s[i]) }

  predicate AllSpace(s: string) { forall i :: 0 <= i < |s| ==> IsSpace(s[i]) }

  function TrimStart(s: string): string {
    if s != [] && IsSpace(s[0]) then TrimStart(s[1..]) else s
  }

  function TrimEnd(s: string): string {
    if s != [] && IsSpace(s[|s| - 1]) then TrimEnd(s[..|s| - 1]) else s
  }

  /** `trim` */
  function Trim(s: string): string {
    TrimEnd(TrimStart(s))
  }

  /** No white space at either end. */
  predicate Trimmed(s: string) {
    s == [] || (!IsSpace(s[0]) && !IsSpace(s[|s| - 1]))
  }

  /** `t` occurs in `s` starting at index `i`. */
  predicate OccursAt(s: string, t: string, i: int) {
    0 <= i <= |s| - |t| && s[i..i + |t|] == t
  }

  /** `t` is a contiguous piece of `s`. */
  predicate Contains(s: string, t: string) {
    exists i | 0 <= i <= |s| - |t| :: OccursAt(s, t, i)
  }

  function CountChar(s: string, c: char): nat {
    if s == [] then 0 else (if s[0] == c then 1 else 0) + CountChar(s[1..], c)
  }

  /** `s.split(sep)` for a one-character separator: always at least one piece. */
  function Split(s: string, sep: char): (parts: seq<string>)
    ensures |parts| == CountChar(s, sep) + 1
  {
    if s == [] then [""]
    else
      var rest := Split(s[1..], sep);
      if s[0] == sep then [""] + rest else [[s[0]] + rest[0]] + rest[1..]
  }

  function Join(parts: seq<string>, sep: char): string {
    if parts == [] then ""
    else if |parts| == 1 then parts[0]
    else parts[0] + [sep] + Join(parts[1..], sep)
  }

  /** `s.replace(from, to)` with a one-character string pattern: only the first
      occurrence is replaced. */
  function ReplaceFirst(s: string, from: char, to: char): string {
    if s == [] then s
    else if s[0] == from then [to] + s[1..]
    else [s[0]] + ReplaceFirst(s[1..], from, to)
  }

  /** Every character of `s` satisfies `q`. */
  predicate All(s: string, q: char -> bool) {
    forall i :: 0 <= i < |s| ==> q(s[i])
  }

  /** No two neighbouring characters of `s` are both `d`. */
  predicate NoAdjacent(s: string, d: char) {
    forall i :: 0 <= i < |s| - 1 ==> !(s[i] == d && s[i + 1] == d)
  }

  predicate IsDash(c: char) { c == '-' }

  /** `s` without its leading characters that satisfy `p` (`/^[P]+/`). */
  function DropRun(s: string, p: char -> bool): (r: string)
    ensures |r| <= |s| && r == s[|s| - |r|..]
    ensures s != [] && p(s[0]) ==> |r| < |s|
    ensures r == [] || !p(r[0])
    ensures forall i :: 0 <= i < |s| - |r| ==> p(s[i])
  {
    if s != [] && p(s[0]) then
      var r := DropRun(s[1..], p);
      assert forall i :: 1 <= i < |s| - |r| ==> s[i] == s[1..][i - 1];
      assert s[1..][|s| - 1 - |r|..] == s[|s| - |r|..];
      r
    else s
  }

  /** `s` without its trailing characters that satisfy `p` (`/[P]+$/`). */
  function DropRunEnd(s: string, p: char -> bool): (r: string)
    ensures |r| <= |s| && r == s[..|r|]
    ensures r == [] || !p(r[|r| - 1])
  {
    if s != [] && p(s[|s| - 1]) then DropRunEnd(s[..|s| - 1], p) else s
  }

  /** `s.replace(/[P]+/g, rep)`: every maximal run of characters satisfying `p`
      becomes one copy of `rep`. */
  function ReplaceRuns(s: string, p: char -> bool, rep: string): string
    decreases |s|
  {
    if s == [] then []
    else if !p(s[0]) then [s[0]] + ReplaceRuns(s[1..], p, rep)
    else rep + ReplaceRuns(DropRun(s, p), p, rep)
  }

  /** The characters of `s` that satisfy `p`, in order (`s.replace(/[^P]+/g, '')`). */
  function Keep(s: string, p: char -> bool): (r: string)
    ensures |r| <= |s|
  {
    if s == [] then []
    else if p(s[0]) then [s[0]] + Keep(s[1..], p)
    else Keep(s[1..], p)
  }

  function DigitChar(d: nat): char
    requires d < 10
  {
    ('0' as int + d) as char
  }

  /** `String(n)` for a non-negative integer. */
  function NatToString(n: nat): (s: string)
    ensures s != [] && '0' <= s[0] <= '9'
  {
    if n < 10 then [DigitChar(n)] else NatToString(n / 10) + [DigitChar(n % 10)]
  }

  /** Every entry trimmed, in place (a `map(t => t.trim())`, or the `trim`
      setter of an array of strings). */
  function TrimAll(ss: seq<string>): (r: seq<string>)
    ensures |r| == |ss|
    ensures forall i :: 0 <= i < |r| ==> r[i] == Trim(ss[i])
  {
    seq(|ss|, i requires 0 <= i < |ss| => Trim(ss[i]))
  }

  /** `String(n)` for an integer. */
  function IntText(n: int): (s: string)
    ensures n >= 0 ==> s == NatToString(n)
    ensures n < 0 ==> s == "-" + NatToString(-n)
  {
    if n < 0 then "-" + NatToString(-n) else NatToString(n)
  }

  /** `String(x)` for a number: a whole number as `IntText` gives it, any other
      by its sign, whole part, '.' and at most `MaxFractionDigits` digits of
      its fraction. */
  function NumberText(x: real): (s: string)
    ensures x == x.Floor as real ==> s == IntText(x.Floor)
    ensures s != [] && (s[0] == '-' <==> x < 0.0)
  {
    if x == x.Floor as real then IntText(x.Floor)
    else if x < 0.0 then "-" + UnsignedText(-x)
    else UnsignedText(x)
  }

  const MaxFractionDigits: nat := 20

  function UnsignedText(x: real): (s: string)
    requires x >= 0.0
    ensures s != [] && s[0] != '-'
  {
    var w := x.Floor;
    var f := x - w as real;
    NatToString(w) + (if f == 0.0 then "" else "." + FractionDigits(f, MaxFractionDigits))
  }

  /** The decimal digits of a fraction in [0, 1), up to `count` of them. */
  function FractionDigits(f: real, count: nat): (s: string)
    requires 0.0 <= f < 1.0
    ensures |s| <= count
    decreases count
  {
    if f == 0.0 || count == 0 then ""
    else
      var d := (f * 10.0).Floor;
      [DigitChar(d)] + FractionDigits(f * 10.0 - d as real, count - 1)
  }

  /** Whole numbers, negative ones and a fraction rendered as JavaScript
      renders them. */
  lemma NumberTextExamples()
    ensures NumberText(-5.0) == "-5"
    ensures NumberText(150.0) == "150"
    ensures NumberText(100.5) == "100.5"
  {
    assert NatToString(5) == "5";
    assert NatToString(15) == "15";
    assert NatToString(10) == "10";
    assert NatToString(100) == "100";
    assert UnsignedText(100.5) == "100" + "." + FractionDigits(0.5, MaxFractionDigits);
    assert FractionDigits(0.0, MaxFractionDigits - 1) == "";
  }

  function NumDigits(n: nat): nat {
    if n < 10 then 1 else 1 + NumDigits(n / 10)
  }

  // ---------------------------------------------------------------------------
  // Facts about the operations above.

  lemma LowerFacts(s: string)
    ensures |Lower(s)| == |s| && NoUpper(Lower(s))
    ensures Lower(Lower(s)) == Lower(s)
    ensures NoUpper(s) ==> Lower(s) == s
  {
  }

  lemma UpperFacts(s: string)
    ensures |Upper(s)| == |s|
    ensures Upper(Upper(s)) == Upper(s)
    ensures forall i :: 0 <= i < |s| ==> (IsSpace(Upper(s)[i]) <==> IsSpace(s[i]))
  {
  }

  /** Lower-casing a string then lower-casing the result of lower-casing another
      gives the same string as lower-casing once. */
  lemma LowerOfUpper(s: string)
    ensures Lower(Upper(s)) == Lower(s)
  {
  }

  lemma {:induction false} TrimStartFacts(s: string)
    ensures |TrimStart(s)| <= |s|
    ensures TrimStart(s) == s[|s| - |TrimStart(s)|..]
    ensures AllSpace(s[..|s| - |TrimStart(s)|])
    ensures TrimStart(s) == [] || !IsSpace(TrimStart(s)[0])
  {
    if s != [] && IsSpace(s[0]) {
      TrimStartFacts(s[1..]);
      var k := |s| - |TrimStart(s)|;
      assert s[..k] == [s[0]] + s[1..][..k - 1];
    }
  }

  lemma {:induction false} TrimEndFacts(s: string)
    ensures |TrimEnd(s)| <= |s|
    ensures TrimEnd(s) == s[..|TrimEnd(s)|]
    ensures AllSpace(s[|TrimEnd(s)|..])
    ensures TrimEnd(s) == [] || !IsSpace(TrimEnd(s)[|TrimEnd(s)| - 1])
  {
    if s != [] && IsSpace(s[|s| - 1]) {
      var p := s[..|s| - 1];
      TrimEndFacts(p);
      var k := |TrimEnd(s)|;
      assert s[k..] == p[k..] + [s[|s| - 1]];
    }
  }

  /** A string all of whose characters survive trimming on one side is left
      alone by `TrimEnd`. */
  lemma {:induction false} TrimEndKeepsStart(s: string)
    requires s != [] && !IsSpace(s[0])
    ensures TrimEnd(s) != [] && TrimEnd(s)[0] == s[0]
  {
    if IsSpace(s[|s| - 1]) {
      TrimEndKeepsStart(s[..|s| - 1]);
    }
  }

  /** `trim` leaves a slice of its input with no white space at either end, and
      what it drops is white space; it yields "" exactly for blank input. */
  lemma TrimFacts(s: string)
    ensures Trimmed(Trim(s))
    ensures |Trim(s)| <= |s|
    ensures Contains(s, Trim(s))
    ensures Trim(s) == [] <==> AllSpace(s)
  {
    var a := TrimStart(s);
    TrimStartFacts(s);
    TrimEndFacts(a);
    var k := |s| - |a|;
    var t := Trim(s);
    assert OccursAt(s, t, k);
    if a != [] {
      TrimEndKeepsStart(a);
    }
    assert t == [] ==> a == [] && s[..k] == s;
    assert a != [] ==> a[0] == s[k];
  }

  lemma {:induction false} TrimmedFixed(s: string)
    requires Trimmed(s)
    ensures Trim(s) == s
  {
  }

  /** Trimming twice trims no more than trimming once. */
  lemma TrimIdempotent(s: string)
    ensures Trim(Trim(s)) == Trim(s)
  {
    TrimFacts(s);
    TrimmedFixed(Trim(s));
  }

  lemma {:induction false} TrimStartUpper(s: string)
    ensures TrimStart(Upper(s)) == Upper(TrimStart(s))
  {
    if s != [] {
      assert Upper(s)[1..] == Upper(s[1..]);
      if IsSpace(s[0]) {
        TrimStartUpper(s[1..]);
      }
    }
  }

  lemma {:induction false} TrimEndUpper(s: string)
    ensures TrimEnd(Upper(s)) == Upper(TrimEnd(s))
  {
    if s != [] {
      assert Upper(s)[..|s| - 1] == Upper(s[..|s| - 1]);
      if IsSpace(s[|s| - 1]) {
        TrimEndUpper(s[..|s| - 1]);
      }
    }
  }

  /** Upper-casing never creates or removes white space, so it commutes with
      `trim`. */
  lemma TrimUpperCommute(s: string)
    ensures Trim(Upper(s)) == Upper(Trim(s))
  {
    TrimStartUpper(s);
    TrimEndUpper(TrimStart(s));
  }

  /** `split` loses nothing: joining the pieces with the separator gives the
      input back, and no piece contains the separator. */
  lemma {:induction false} SplitJoin(s: string, sep: char)
    ensures Join(Split(s, sep), sep) == s
    ensures forall k :: 0 <= k < |Split(s, sep)| ==> sep !in Split(s, sep)[k]
  {
    if s != [] {
      SplitJoin(s[1..], sep);
      var rest := Split(s[1..], sep);
      if s[0] != sep {
        var parts := [[s[0]] + rest[0]] + rest[1..];
        assert Split(s, sep) == parts;
        if |rest| == 1 {
          assert Join(parts, sep) == [s[0]] + rest[0];
        } else {
          assert Join(rest, sep) == rest[0] + [sep] + Join(rest[1..], sep);
          assert parts[1..] == rest[1..];
        }
        forall k | 0 <= k < |parts| ensures sep !in parts[k] {
          if k > 0 { assert parts[k] == rest[k]; }
        }
      } else {
        assert Split(s, sep)[1..] == rest;
      }
    }
  }

  lemma {:induction false} NatToStringLength(n: nat)
    ensures |NatToString(n)| == NumDigits(n)
    ensures NatToString(n)[0] != '0' || n == 0
  {
    if n >= 10 {
      NatToStringLength(n / 10);
    }
  }

  lemma {:induction false} NumDigitsBounds(n: nat)
    ensures NumDigits(n) == 1 <==> n < 10
    ensures NumDigits(n) >= 1
  {
    if n >= 10 { NumDigitsBounds(n / 10); }
  }

  /** A slice keeps every property all characters of the whole have. */
  lemma AllSlice(s: string, q: char -> bool, i: nat, j: nat)
    requires All(s, q) && i <= j <= |s|
    ensures All(s[i..j], q)
  {
    assert forall k :: 0 <= k < j - i ==> s[i..j][k] == s[i + k];
  }

  lemma NoAdjacentSlice(s: string, d: char, i: nat, j: nat)
    requires NoAdjacent(s, d) && i <= j <= |s|
    ensures NoAdjacent(s[i..j], d)
  {
    assert forall k :: 0 <= k < j - i ==> s[i..j][k] == s[i + k];
  }

  /** `trim` keeps every property all characters of its input have. */
  lemma TrimPreserves(s: string, q: char -> bool)
    requires All(s, q)
    ensures All(Trim(s), q)
  {
    TrimStartFacts(s);
    var a := TrimStart(s);
    AllSlice(s, q, |s| - |a|, |s|);
    assert s[|s| - |a|..|s|] == a;
    TrimEndFacts(a);
    AllSlice(a, q, 0, |TrimEnd(a)|);
  }

  /** The characters `ReplaceRuns` produces come from the characters of `s` it
      keeps and from `rep`. */
  lemma {:induction false} ReplaceRunsPreserves(s: string, p: char -> bool, rep: string, q: char -> bool)
    requires forall i :: 0 <= i < |s| ==> p(s[i]) || q(s[i])
    requires All(rep, q)
    ensures All(ReplaceRuns(s, p, rep), q)
    decreases |s|
  {
    if s != [] {
      if !p(s[0]) {
        ReplaceRunsPreserves(s[1..], p, rep, q);
        assert ReplaceRuns(s, p, rep) == [s[0]] + ReplaceRuns(s[1..], p, rep);
      } else {
        var t := DropRun(s, p);
        assert forall i :: 0 <= i < |t| ==> t[i] == s[|s| - |t| + i];
        ReplaceRunsPreserves(t, p, rep, q);
      }
    }
  }

  /** A string that starts with a character outside the runs starts its
      replacement with that character. */
  lemma ReplaceRunsHead(s: string, p: char -> bool, rep: string)
    requires s != [] && !p(s[0])
    ensures ReplaceRuns(s, p, rep) != [] && ReplaceRuns(s, p, rep)[0] == s[0]
  {
  }

  /** Replacing runs of `p` by a single `d` that itself satisfies `p` never
      puts two `d`s next to each other. */
  lemma {:induction false} ReplaceRunsNoAdjacent(s: string, p: char -> bool, d: char)
    requires p(d)
    ensures NoAdjacent(ReplaceRuns(s, p, [d]), d)
    decreases |s|
  {
    if s != [] {
      var r := ReplaceRuns(s, p, [d]);
      if !p(s[0]) {
        var rest := ReplaceRuns(s[1..], p, [d]);
        ReplaceRunsNoAdjacent(s[1..], p, d);
        assert r == [s[0]] + rest;
        forall i | 0 <= i < |r| - 1 ensures !(r[i] == d && r[i + 1] == d) {
          if i > 0 { assert r[i] == rest[i - 1] && r[i + 1] == rest[i]; }
        }
      } else {
        var t := DropRun(s, p);
        var rest := ReplaceRuns(t, p, [d]);
        ReplaceRunsNoAdjacent(t, p, d);
        assert r == [d] + rest;
        if t != [] { ReplaceRunsHead(t, p, [d]); }
        forall i | 0 <= i < |r| - 1 ensures !(r[i] == d && r[i + 1] == d) {
          if i > 0 { assert r[i] == rest[i - 1] && r[i + 1] == rest[i]; }
        }
      }
    }
  }

  /** When every run of `p` in `s` is already a single `d`, replacing runs by
      `d` changes nothing; in particular a string with no `p` is unchanged. */
  lemma {:induction false} ReplaceRunsFixed(s: string, p: char -> bool, d: char)
    requires forall i :: 0 <= i < |s| ==> p(s[i]) ==> s[i] == d
    requires forall i :: 0 <= i < |s| - 1 ==> !(p(s[i]) && p(s[i + 1]))
    ensures ReplaceRuns(s, p, [d]) == s
    decreases |s|
  {
    if s != [] {
      assert forall i :: 0 <= i < |s| - 1 ==> s[1..][i] == s[i + 1];
      ReplaceRunsFixed(s[1..], p, d);
      if p(s[0]) {
        assert s[1..] == [] || !p(s[1]);
        assert DropRun(s, p) == s[1..];
        assert s == [d] + s[1..];
      }
    }
  }

  /** A non-empty string made only of run characters becomes one `rep`. */
  lemma ReplaceRunsAllRun(s: string, p: char -> bool, rep: string)
    requires s != [] && All(s, p)
    ensures ReplaceRuns(s, p, rep) == rep
  {
    DropRunAll(s, p);
  }

  lemma {:induction false} DropRunAll(s: string, p: char -> bool)
    requires All(s, p)
    ensures DropRun(s, p) == []
  {
    if s != [] {
      AllSlice(s, p, 1, |s|);
      DropRunAll(s[1..], p);
    }
  }

  /** `Keep` leaves only characters that satisfy `p`, and keeps any other
      property they had. */
  lemma {:induction false} KeepFacts(s: string, p: char -> bool, q: char -> bool)
    requires All(s, q)
    ensures All(Keep(s, p), p) && All(Keep(s, p), q)
  {
    if s != [] {
      assert All(s[1..], q) by { AllSlice(s, q, 1, |s|); }
      KeepFacts(s[1..], p, q);
    }
  }

  /** `Keep` changes nothing when every character already satisfies `p`. */
  lemma {:induction false} KeepFixed(s: string, p: char -> bool)
    requires All(s, p)
    ensures Keep(s, p) == s
  {
    if s != [] {
      assert All(s[1..], p) by { AllSlice(s, p, 1, |s|); }
      KeepFixed(s[1..], p);
    }
  }
}
