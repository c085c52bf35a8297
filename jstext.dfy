/** The JavaScript string operations the pipeline relies on, each with the
    behaviour ECMAScript gives it: `split` and `join`, `trim`, `slice`,
    `toLowerCase`, `includes`, `startsWith`, `replace`, number-to-string and
    the NaN test behind `isNaN(Number(s))`. */
module JsText {
  import opened Wrappers

  // ---------------------------------------------------------------- join / split

  /** `parts.join(sep)`. */
  function Join(parts: seq<string>, sep: string): string
  {
    if |parts| == 0 then ""
    else if |parts| == 1 then parts[0]
    else parts[0] + sep + Join(parts[1..], sep)
  }

  /** `s.split(sep)` for a one-character separator: the maximal separator-free
      pieces, in order; there is always at least one (`"".split(c)` is `[""]`). */
  function Split(s: string, sep: char): (r: seq<string>)
    ensures |r| >= 1
    ensures forall i :: 0 <= i < |r| ==> sep !in r[i]
    ensures Join(r, [sep]) == s
    decreases |s|
  {
    if |s| == 0 then [""]
    else
      var rest := Split(s[1..], sep);
      if s[0] == sep then
        assert ([""] + rest)[1..] == rest;
        [""] + rest
      else
        var r := [[s[0]] + rest[0]] + rest[1..];
        assert r[1..] == rest[1..];
        r
  }

  lemma JoinCons(p: string, rest: seq<string>, sep: string)
    requires |rest| >= 1
    ensures Join([p] + rest, sep) == p + sep + Join(rest, sep)
  {
    assert ([p] + rest)[1..] == rest;
  }

  /** A joined list of two or more pieces contains the separator right after
      its first piece. */
  lemma JoinHasSeparator(parts: seq<string>, sep: char)
    requires |parts| >= 2
    ensures |parts[0]| < |Join(parts, [sep])| && Join(parts, [sep])[|parts[0]|] == sep
  {
  }

  /** Two separator-free lists that join to the same text are the same list. */
  lemma {:induction false} JoinInjective(a: seq<string>, b: seq<string>, sep: char)
    requires |a| >= 1 && |b| >= 1
    requires forall i :: 0 <= i < |a| ==> sep !in a[i]
    requires forall i :: 0 <= i < |b| ==> sep !in b[i]
    requires Join(a, [sep]) == Join(b, [sep])
    ensures a == b
    decreases |a|
  {
    var j := Join(a, [sep]);
    if |a| == 1 || |b| == 1 {
      if |a| >= 2 {
        JoinHasSeparator(a, sep);
        assert false;
      } else if |b| >= 2 {
        JoinHasSeparator(b, sep);
        assert false;
      }
    } else {
      JoinHasSeparator(a, sep);
      JoinHasSeparator(b, sep);
      if |a[0]| != |b[0]| {
        assert false;
      }
      assert a[0] == j[..|a[0]|] == b[0];
      var ra := Join(a[1..], [sep]);
      var rb := Join(b[1..], [sep]);
      assert j == a[0] + [sep] + ra;
      assert j == b[0] + [sep] + rb;
      assert ra == j[|a[0]| + 1..] == rb;
      JoinInjective(a[1..], b[1..], sep);
      assert a == [a[0]] + a[1..] && b == [b[0]] + b[1..];
    }
  }

  /** Splitting a joined list of separator-free pieces gives back the list. */
  lemma SplitOfJoin(parts: seq<string>, sep: char)
    requires |parts| >= 1
    requires forall i :: 0 <= i < |parts| ==> sep !in parts[i]
    ensures Split(Join(parts, [sep]), sep) == parts
  {
    JoinInjective(Split(Join(parts, [sep]), sep), parts, sep);
  }

  /** A character in neither the pieces nor the separator is not in the join. */
  lemma {:induction false} NotInJoin(parts: seq<string>, sep: string, c: char)
    requires c !in sep
    requires forall i :: 0 <= i < |parts| ==> c !in parts[i]
    ensures c !in Join(parts, sep)
    decreases |parts|
  {
    if |parts| >= 2 {
      NotInJoin(parts[1..], sep, c);
    }
  }

  /** A piece of `Split(s, _)` holds only characters of `s`. */
  lemma SplitPieceChars(s: string, sep: char, i: nat, c: char)
    requires i < |Split(s, sep)| && c in Split(s, sep)[i]
    ensures c in s
  {
    var r := Split(s, sep);
    InJoin(r, [sep], i, c);
  }

  lemma {:induction false} InJoin(parts: seq<string>, sep: string, i: nat, c: char)
    requires i < |parts| && c in parts[i]
    ensures c in Join(parts, sep)
    decreases |parts|
  {
    if |parts| >= 2 && i > 0 {
      InJoin(parts[1..], sep, i - 1, c);
    }
  }

  // ---------------------------------------------------------------- whitespace and trim

  /** The characters `String.prototype.trim` removes: ECMAScript's WhiteSpace
      (tab, vertical tab, form feed, ZWNBSP and every Unicode space separator)
      and LineTerminator (LF, CR, LS, PS). */
  predicate IsJsSpace(c: char)
  {
    c == '\t' || c == '\U{B}' || c == '\U{C}' || c == '\U{FEFF}'
    || c == ' ' || c == '\U{A0}' || c == '\U{1680}' || ('\U{2000}' <= c <= '\U{200A}')
    || c == '\U{202F}' || c == '\U{205F}' || c == '\U{3000}'
    || c == '\n' || c == '\r' || c == '\U{2028}' || c == '\U{2029}'
  }

  predicate AllSpace(s: string)
  {
    forall k :: 0 <= k < |s| ==> IsJsSpace(s[k])
  }

  /** The number of whitespace characters at the start of `s`. */
  function LeadingSpaces(s: string): (n: nat)
    ensures n <= |s|
    ensures AllSpace(s[..n])
    ensures n < |s| ==> !IsJsSpace(s[n])
  {
    if |s| == 0 || !IsJsSpace(s[0]) then 0
    else
      var m := LeadingSpaces(s[1..]);
      assert s[..m + 1] == [s[0]] + s[1..][..m];
      m + 1
  }

  /** The number of whitespace characters at the end of `s`. */
  function TrailingSpaces(s: string): (n: nat)
    ensures n <= |s|
    ensures AllSpace(s[|s| - n..])
    ensures n < |s| ==> !IsJsSpace(s[|s| - 1 - n])
  {
    if |s| == 0 || !IsJsSpace(s[|s| - 1]) then 0
    else
      var t := s[..|s| - 1];
      var m := TrailingSpaces(t);
      assert s[|s| - (m + 1)..] == t[|t| - m..] + [s[|s| - 1]];
      m + 1
  }

  /** `s.trim()`: `s` without its leading and trailing whitespace. */
  function Trim(s: string): (r: string)
    ensures |r| <= |s|
  {
    var a := LeadingSpaces(s);
    var t := s[a..];
    t[..|t| - TrailingSpaces(t)]
  }

  /** The trimmed text is empty exactly for an all-whitespace string; otherwise
      it neither starts nor ends with whitespace, and it is a slice of `s`
      with only whitespace around it. */
  lemma TrimSpec(s: string)
    ensures var r := Trim(s);
      && (r == "" <==> AllSpace(s))
      && (r != "" ==> !IsJsSpace(r[0]) && !IsJsSpace(r[|r| - 1]))
      && exists i :: 0 <= i <= |s| - |r| && r == s[i..i + |r|] && AllSpace(s[..i]) && AllSpace(s[i + |r|..])
  {
    TrimShape(s, LeadingSpaces(s), Trim(s));
  }

  lemma TrimShape(s: string, a: nat, r: string)
    requires a == LeadingSpaces(s)
    requires r == s[a..][..|s[a..]| - TrailingSpaces(s[a..])]
    ensures r == "" <==> AllSpace(s)
    ensures r != "" ==> !IsJsSpace(r[0]) && !IsJsSpace(r[|r| - 1])
    ensures 0 <= a <= |s| - |r| && r == s[a..a + |r|] && AllSpace(s[..a]) && AllSpace(s[a + |r|..])
  {
    var t := s[a..];
    var b := TrailingSpaces(t);
    assert r == s[a..a + |r|];
    assert s[a + |r|..] == t[|t| - b..];
    if r == "" {
      assert t == t[|t| - b..];
      forall k | 0 <= k < |s| ensures IsJsSpace(s[k]) {
        assert s[k] == s[..a][k];
      }
    } else {
      assert r[|r| - 1] == t[|t| - 1 - b];
    }
  }

  /** A string with no whitespace at either end is its own trim. */
  lemma TrimUnpadded(s: string)
    requires s == "" || (!IsJsSpace(s[0]) && !IsJsSpace(s[|s| - 1]))
    ensures Trim(s) == s
  {
    if s != "" {
      assert LeadingSpaces(s) == 0;
      assert TrailingSpaces(s) == 0;
    }
  }

  // ---------------------------------------------------------------- case, search, slices

  /** `toLowerCase` on one character (ASCII letters only). */
  function LowerChar(c: char): char
  {
    if 'A' <= c <= 'Z' then (c as int + 32) as char else c
  }

  /** `s.toLowerCase()` restricted to ASCII: upper-case ASCII letters become
      lower-case, every other character is kept. */
  function ToLower(s: string): (r: string)
    ensures |r| == |s|
    ensures forall k :: 0 <= k < |r| ==> !('A' <= r[k] <= 'Z')
    ensures forall k :: 0 <= k < |s| && !('A' <= s[k] <= 'Z') ==> r[k] == s[k]
  {
    seq(|s|, k requires 0 <= k < |s| => LowerChar(s[k]))
  }

  /** `s.includes(t)`: `t` occurs in `s` at some offset. */
  predicate Contains(s: string, t: string)
    decreases |s|
  {
    t <= s || (|s| > 0 && Contains(s[1..], t))
  }

  /** `Contains` finds exactly the occurrences at some offset. */
  lemma {:induction false} ContainsIff(s: string, t: string)
    ensures Contains(s, t) <==> exists i :: 0 <= i <= |s| && t <= s[i..]
    decreases |s|
  {
    if |s| > 0 {
      ContainsIff(s[1..], t);
      if exists i :: 0 <= i <= |s| && t <= s[i..] {
        var i :| 0 <= i <= |s| && t <= s[i..];
        if i > 0 {
          assert s[1..][i - 1..] == s[i..];
        }
      }
      if Contains(s[1..], t) {
        var i :| 0 <= i <= |s| - 1 && t <= s[1..][i..];
        assert s[1..][i..] == s[i + 1..];
      }
    } else {
      if exists i :: 0 <= i <= |s| && t <= s[i..] {
        var i :| 0 <= i <= |s| && t <= s[i..];
        assert s[i..] == s;
      }
    }
  }

  /** An occurrence at offset `i` is found. */
  lemma ContainsAt(s: string, t: string, i: nat)
    requires i <= |s| && t <= s[i..]
    ensures Contains(s, t)
  {
    ContainsIff(s, t);
  }

  /** `s.slice(a, b)` for non-negative bounds: both are clamped to `|s|` and an
      empty string results when the end falls before the start. */
  function Slice(s: string, a: nat, b: nat): (r: string)
    ensures |r| <= |s|
    ensures a <= b <= |s| ==> r == s[a..b]
    ensures a <= |s| <= b ==> r == s[a..]
    ensures b <= a || |s| <= a ==> r == ""
  {
    var lo := if a < |s| then a else |s|;
    var hi := if b < |s| then b else |s|;
    if hi <= lo then "" else s[lo..hi]
  }

  /** `s.replace(/[cs]/g, '')`: every character of `cs` removed. */
  function RemoveChars(s: string, cs: set<char>): (r: string)
    ensures forall k :: 0 <= k < |r| ==> r[k] !in cs && r[k] in s
    ensures |r| <= |s|
    ensures (forall k :: 0 <= k < |s| ==> s[k] !in cs) ==> r == s
  {
    if |s| == 0 then ""
    else (if s[0] in cs then "" else [s[0]]) + RemoveChars(s[1..], cs)
  }

  lemma {:induction false} RemoveCharsAppend(a: string, b: string, cs: set<char>)
    ensures RemoveChars(a + b, cs) == RemoveChars(a, cs) + RemoveChars(b, cs)
    decreases |a|
  {
    if |a| == 0 {
      assert a + b == b;
    } else {
      assert (a + b)[1..] == a[1..] + b;
      RemoveCharsAppend(a[1..], b, cs);
    }
  }

  /** `s.replace(c, '')` with a one-character string pattern: only the first
      occurrence of `c` is removed. */
  function RemoveFirst(s: string, c: char): (r: string)
    ensures c !in s ==> r == s
    ensures c in s ==> |r| == |s| - 1
    ensures |s| > 0 && s[0] == c ==> r == s[1..]
  {
    if |s| == 0 then ""
    else if s[0] == c then s[1..]
    else [s[0]] + RemoveFirst(s[1..], c)
  }

  // ---------------------------------------------------------------- numbers

  predicate IsDigit(c: char)
  {
    '0' <= c <= '9'
  }

  predicate IsDigits(s: string)
  {
    forall k :: 0 <= k < |s| ==> IsDigit(s[k])
  }

  function DigitChar(d: nat): (c: char)
    requires d < 10
    ensures IsDigit(c)
  {
    ('0' as int + d) as char
  }

  function DigitValue(c: char): (d: nat)
    requires IsDigit(c)
    ensures d < 10
  {
    c as int - '0' as int
  }

  /** The value of a string of decimal digits (`Number(s)` for such a string). */
  function DigitsValue(s: string): nat
    requires IsDigits(s)
  {
    if |s| == 0 then 0 else 10 * DigitsValue(s[..|s| - 1]) + DigitValue(s[|s| - 1])
  }

  /** `String(n)` / `n.toString()` for a non-negative integer: its decimal digits
      without leading zeros. */
  function NatToString(n: nat): (r: string)
    ensures |r| >= 1 && IsDigits(r)
    ensures |r| > 1 ==> r[0] != '0'
    decreases n
  {
    if n < 10 then [DigitChar(n)] else NatToString(n / 10) + [DigitChar(n % 10)]
  }

  /** Reading back the decimal rendering of `n` gives `n`. */
  lemma {:induction false} NatToStringValue(n: nat)
    ensures DigitsValue(NatToString(n)) == n
    decreases n
  {
    var r := NatToString(n);
    if n >= 10 {
      NatToStringValue(n / 10);
      assert r[..|r| - 1] == NatToString(n / 10);
    }
  }

  /** Distinct numbers render differently. */
  lemma NatToStringInjective(m: nat, n: nat)
    requires NatToString(m) == NatToString(n)
    ensures m == n
  {
    NatToStringValue(m);
    NatToStringValue(n);
  }

  predicate IsHexDigit(c: char)
  {
    IsDigit(c) || 'a' <= c <= 'f' || 'A' <= c <= 'F'
  }

  /** The length of the run of decimal digits at the start of `s`. */
  function DigitRun(s: string): (n: nat)
    ensures n <= |s|
    ensures IsDigits(s[..n])
    ensures n < |s| ==> !IsDigit(s[n])
  {
    if |s| == 0 || !IsDigit(s[0]) then 0
    else
      var m := DigitRun(s[1..]);
      assert s[..m + 1] == [s[0]] + s[1..][..m];
      m + 1
  }

  /** An optional ExponentPart: empty, or `e`/`E`, an optional sign and at
      least one digit. */
  predicate IsOptionalExponent(e: string)
  {
    e == "" ||
    ((e[0] == 'e' || e[0] == 'E') &&
     var m := if |e| > 1 && (e[1] == '+' || e[1] == '-') then e[2..] else e[1..];
     |m| > 0 && IsDigits(m))
  }

  /** StrUnsignedDecimalLiteral: `Infinity`, or digits with an optional
      fraction and exponent, where at least one digit precedes or follows the
      point. */
  predicate IsUnsignedDecimal(u: string)
  {
    u == "Infinity" ||
    var i := DigitRun(u);
    var rest := u[i..];
    if |rest| > 0 && rest[0] == '.' then
      var frac := rest[1..];
      var j := DigitRun(frac);
      (i > 0 || j > 0) && IsOptionalExponent(frac[j..])
    else
      i > 0 && IsOptionalExponent(rest)
  }

  /** StrNumericLiteral: a signed decimal literal, or a `0x`, `0o` or `0b`
      integer with at least one digit of its base. */
  predicate IsNumericLiteral(t: string)
  {
    (if |t| > 0 && (t[0] == '+' || t[0] == '-') then IsUnsignedDecimal(t[1..]) else IsUnsignedDecimal(t))
    || (|t| > 2 && t[0] == '0' &&
        var ds := t[2..];
        ((t[1] == 'x' || t[1] == 'X') && forall k :: 0 <= k < |ds| ==> IsHexDigit(ds[k]))
        || ((t[1] == 'o' || t[1] == 'O') && forall k :: 0 <= k < |ds| ==> '0' <= ds[k] <= '7')
        || ((t[1] == 'b' || t[1] == 'B') && forall k :: 0 <= k < |ds| ==> '0' <= ds[k] <= '1'))
  }

  /** `!isNaN(Number(s))`: after trimming, `s` is empty (which converts to 0)
      or a StrNumericLiteral. */
  predicate IsNumeric(s: string)
  {
    var t := Trim(s);
    t == "" || IsNumericLiteral(t)
  }

  /** A non-empty run of decimal digits converts to a number. */
  lemma DigitsAreNumeric(s: string)
    requires |s| > 0 && IsDigits(s)
    ensures IsNumeric(s)
  {
    assert !IsJsSpace(s[0]) && !IsJsSpace(s[|s| - 1]);
    TrimUnpadded(s);
    assert s[..|s|] == s;
    assert DigitRun(s) == |s|;
    assert IsUnsignedDecimal(s);
  }

  /** A string that, once trimmed, starts with a character no number literal
      can start with (a letter other than `I`, say) converts to NaN. */
  lemma NonNumericStart(s: string)
    requires Trim(s) != ""
    requires var c := Trim(s)[0]; !IsDigit(c) && c != '+' && c != '-' && c != '.' && c != 'I'
    ensures !IsNumeric(s)
  {
    var t := Trim(s);
    assert DigitRun(t) == 0;
  }
}
