/** The JavaScript string operations the dashboard relies on: case mapping,
    `trim`, `split`, `join`, the `\s+` pattern and decimal rendering of
    non-negative integers. Strings are sequences of characters. */
module JsStrings {

  /** The characters JavaScript counts as white space in `trim` and in the
      regular-expression class `\s`: the ASCII controls tab to carriage
      return, the space, and the Unicode space separators, line and paragraph
      separators and the byte-order mark. */
  predicate IsSpace(c: char)
  {
    var n := c as int;
    (9 <= n <= 13) || n == 32 || n == 0xA0 || n == 0x1680 || (0x2000 <= n <= 0x200A)
    || n == 0x2028 || n == 0x2029 || n == 0x202F || n == 0x205F || n == 0x3000 || n == 0xFEFF
  }

  predicate IsLowerAscii(c: char) { 'a' <= c <= 'z' }

  predicate IsUpperAscii(c: char) { 'A' <= c <= 'Z' }

  /** Upper-case mapping of one character; letters outside ASCII are left as they are. */
  function UpperChar(c: char): (u: char)
    ensures !IsLowerAscii(u)
    ensures IsLowerAscii(c) ==> u as int == c as int - 32
    ensures !IsLowerAscii(c) ==> u == c
  {
    if IsLowerAscii(c) then (c as int - 32) as char else c
  }

  /** Lower-case mapping of one character; letters outside ASCII are left as they are. */
  function LowerChar(c: char): (l: char)
    ensures !IsUpperAscii(l)
    ensures IsUpperAscii(c) ==> l as int == c as int + 32
    ensures !IsUpperAscii(c) ==> l == c
  {
    if IsUpperAscii(c) then (c as int + 32) as char else c
  }

  /** `s.toUpperCase()` */
  function ToUpperCase(s: string): (r: string)
    ensures |r| == |s|
    ensures forall i :: 0 <= i < |s| ==> r[i] == UpperChar(s[i])
    ensures forall i :: 0 <= i < |r| ==> !IsLowerAscii(r[i])
  {
    seq(|s|, i requires 0 <= i < |s| => UpperChar(s[i]))
  }

  /** `s.toLowerCase()` */
  function ToLowerCase(s: string): (r: string)
    ensures |r| == |s|
    ensures forall i :: 0 <= i < |s| ==> r[i] == LowerChar(s[i])
    ensures forall i :: 0 <= i < |r| ==> !IsUpperAscii(r[i])
  {
    seq(|s|, i requires 0 <= i < |s| => LowerChar(s[i]))
  }

  predicate AllSpace(s: string)
  {
    forall i :: 0 <= i < |s| ==> IsSpace(s[i])
  }

  predicate NoSpace(s: string)
  {
    forall i :: 0 <= i < |s| ==> !IsSpace(s[i])
  }

  /** The number of white-space characters `s` starts with. */
  function LeadingSpaces(s: string): (n: nat)
    ensures n <= |s|
    ensures forall i :: 0 <= i < n ==> IsSpace(s[i])
    ensures n == |s| || !IsSpace(s[n])
  {
    if s != [] && IsSpace(s[0]) then
      var n := 1 + LeadingSpaces(s[1..]);
      assert forall i :: 1 <= i < n ==> s[i] == s[1..][i - 1];
      n
    else 0
  }

  /** The number of white-space characters `s` ends with. */
  function TrailingSpaces(s: string): (n: nat)
    ensures n <= |s|
    ensures forall i :: |s| - n <= i < |s| ==> IsSpace(s[i])
    ensures n == |s| || !IsSpace(s[|s| - n - 1])
  {
    if s != [] && IsSpace(s[|s| - 1]) then
      var t := s[..|s| - 1];
      var n := 1 + TrailingSpaces(t);
      assert forall i :: |s| - n <= i < |s| - 1 ==> s[i] == t[i];
      n
    else 0
  }

  /** `s.trimStart()`: the suffix of `s` left after dropping the leading white space. */
  function TrimStart(s: string): (r: string)
    ensures |r| <= |s| && r == s[|s| - |r|..]
    ensures AllSpace(s[..|s| - |r|])
    ensures r == [] || !IsSpace(r[0])
  {
    var n := LeadingSpaces(s);
    assert forall i :: 0 <= i < n ==> s[..n][i] == s[i];
    s[n..]
  }

  /** `s.trimEnd()`: the prefix of `s` left after dropping the trailing white space. */
  function TrimEnd(s: string): (r: string)
    ensures |r| <= |s| && r == s[..|r|]
    ensures AllSpace(s[|r|..])
    ensures r == [] || !IsSpace(r[|r| - 1])
  {
    var k := |s| - TrailingSpaces(s);
    assert forall i :: 0 <= i < |s| - k ==> s[k..][i] == s[k + i];
    s[..k]
  }

  /** `s.trim()`: what `trimStart` leaves, without its trailing white space. */
  function Trim(s: string): (r: string)
    ensures |r| <= |TrimStart(s)| && r == TrimStart(s)[..|r|]
    ensures AllSpace(TrimStart(s)[|r|..])
    ensures r == [] || (!IsSpace(r[0]) && !IsSpace(r[|r| - 1]))
  {
    TrimEnd(TrimStart(s))
  }

  /** Trimming keeps only characters of the original. */
  lemma TrimKeepsCharacters(s: string, c: char)
    requires c in Trim(s)
    ensures c in s
  {
    var r, t := Trim(s), TrimStart(s);
    var j :| 0 <= j < |r| && r[j] == c;
    assert t[j] == c;
    assert s[|s| - |t| + j] == c;
  }

  /** Number of occurrences of `c` in `s`. */
  function CountChar(s: string, c: char): nat
  {
    if s == [] then 0 else (if s[0] == c then 1 else 0) + CountChar(s[1..], c)
  }

  /** `parts.join(sep)` */
  function JoinWith(parts: seq<string>, sep: string): string
  {
    if |parts| == 0 then ""
    else if |parts| == 1 then parts[0]
    else parts[0] + sep + JoinWith(parts[1..], sep)
  }

  lemma {:induction false} JoinWithExtendFirst(x: string, p: string, ps: seq<string>, sep: string)
    ensures JoinWith([x + p] + ps, sep) == x + JoinWith([p] + ps, sep)
  {
    assert ([x + p] + ps)[1..] == ps;
    assert ([p] + ps)[1..] == ps;
  }

  /** `s.split(sep)` for a one-character separator: the pieces between the
      separators, in order, empty pieces included; `"".split(",")` is `[""]`. */
  function SplitOn(s: string, sep: char): (parts: seq<string>)
    ensures |parts| == CountChar(s, sep) + 1
    ensures forall i :: 0 <= i < |parts| ==> sep !in parts[i]
  {
    if s == [] then [""]
    else
      var rest := SplitOn(s[1..], sep);
      if s[0] == sep then [""] + rest
      else [[s[0]] + rest[0]] + rest[1..]
  }

  /** How `split` treats the first character: a separator starts a new
      piece, another character joins the first piece. */
  lemma SplitOnCons(c: char, t: string, sep: char)
    ensures c == sep ==> SplitOn([c] + t, sep) == [""] + SplitOn(t, sep)
    ensures c != sep ==> SplitOn([c] + t, sep) == [[c] + SplitOn(t, sep)[0]] + SplitOn(t, sep)[1..]
  {
    assert ([c] + t)[1..] == t;
  }

  /** A text without the separator is one piece. */
  lemma {:induction false} SplitWithoutSeparator(s: string, sep: char)
    requires sep !in s
    ensures SplitOn(s, sep) == [s]
  {
    if s != [] {
      assert s == [s[0]] + s[1..];
      SplitWithoutSeparator(s[1..], sep);
      SplitOnCons(s[0], s[1..], sep);
    }
  }

  /** A character in front of a text that splits in two pieces or more
      leaves the last piece as it is. */
  lemma SplitConsKeepsLast(c: char, x: string, sep: char)
    requires |SplitOn(x, sep)| >= 2
    ensures |SplitOn([c] + x, sep)| >= 2
    ensures SplitOn([c] + x, sep)[|SplitOn([c] + x, sep)| - 1] == SplitOn(x, sep)[|SplitOn(x, sep)| - 1]
  {
    SplitOnCons(c, x, sep);
  }

  /** The last piece of a text with a separator is the last piece of what
      follows that separator. */
  lemma {:induction false} SplitLastAfterSeparator(a: string, b: string, sep: char)
    ensures |SplitOn(a + [sep] + b, sep)| >= 2
    ensures SplitOn(a + [sep] + b, sep)[|SplitOn(a + [sep] + b, sep)| - 1] == SplitOn(b, sep)[|SplitOn(b, sep)| - 1]
  {
    if a == [] {
      assert a + [sep] + b == [sep] + b;
      SplitOnCons(sep, b, sep);
    } else {
      var rest := a[1..];
      SplitLastAfterSeparator(rest, b, sep);
      assert a + [sep] + b == [a[0]] + (rest + [sep] + b);
      SplitConsKeepsLast(a[0], rest + [sep] + b, sep);
    }
  }

  /** Joining the pieces with the separator gives the text back. */
  lemma {:induction false} SplitJoin(s: string, sep: char)
    ensures JoinWith(SplitOn(s, sep), [sep]) == s
  {
    if s != [] {
      var t := s[1..];
      assert s == [s[0]] + t;
      SplitJoin(t, sep);
      SplitOnCons(s[0], t, sep);
      var rest := SplitOn(t, sep);
      if s[0] == sep {
        assert ([""] + rest)[1..] == rest;
      } else {
        assert rest == [rest[0]] + rest[1..];
        JoinWithExtendFirst([s[0]], rest[0], rest[1..], [sep]);
      }
    }
  }

  /** `s.replace(/\s+/g, "-")` read left to right: each white-space character
      that starts a run becomes one "-", the rest of the run is dropped.
      `inRun` says whether the character before `s` was white space. */
  function CollapseRun(s: string, inRun: bool): (r: string)
    ensures |r| <= |s|
  {
    if s == [] then []
    else if IsSpace(s[0]) then (if inRun then [] else "-") + CollapseRun(s[1..], true)
    else [s[0]] + CollapseRun(s[1..], false)
  }

  /** No white space is left. */
  lemma {:induction false} CollapseRunNoSpace(s: string, inRun: bool)
    ensures NoSpace(CollapseRun(s, inRun))
  {
    if s != [] {
      CollapseRunNoSpace(s[1..], IsSpace(s[0]));
    }
  }

  /** Text without white space is left as it is. */
  lemma {:induction false} CollapseRunKeeps(s: string, inRun: bool)
    ensures NoSpace(s) ==> CollapseRun(s, inRun) == s
  {
    if s != [] && NoSpace(s) {
      assert !IsSpace(s[0]);
      CollapseRunKeeps(s[1..], false);
      assert s == [s[0]] + s[1..];
    }
  }

  /** Replaces every maximal run of white space by one `"-"`:
      `s.replace(/\s+/g, "-")`. */
  function CollapseSpaces(s: string): (r: string)
    ensures NoSpace(r)
    ensures |r| <= |s|
    ensures NoSpace(s) ==> r == s
  {
    CollapseRunNoSpace(s, false);
    CollapseRunKeeps(s, false);
    CollapseRun(s, false)
  }

  lemma NoSpaceTail(a: string)
    requires a != [] && NoSpace(a)
    ensures !IsSpace(a[0]) && NoSpace(a[1..])
  {
    forall i | 0 <= i < |a| - 1 ensures !IsSpace(a[1..][i]) {
      assert a[1..][i] == a[i + 1];
    }
  }

  lemma {:induction false} CollapseRunAfterWord(a: string, t: string)
    requires NoSpace(a)
    ensures CollapseRun(a + t, false) == a + CollapseRun(t, false)
  {
    if a == [] {
      assert a + t == t;
    } else {
      var rest := a[1..];
      NoSpaceTail(a);
      CollapseRunAfterWord(rest, t);
      var s := a + t;
      assert s[0] == a[0] && s[1..] == rest + t;
      assert CollapseRun(s, false) == [a[0]] + CollapseRun(rest + t, false);
      assert a == [a[0]] + rest;
    }
  }

  /** Text without white space in front of `t` is kept as it is. */
  lemma CollapseWord(a: string, t: string)
    requires NoSpace(a)
    ensures CollapseSpaces(a + t) == a + CollapseSpaces(t)
  {
    CollapseRunAfterWord(a, t);
  }

  /** Inside a run, further white space adds nothing. */
  lemma {:induction false} CollapseRunSkips(w: string, t: string)
    requires AllSpace(w)
    ensures CollapseRun(w + t, true) == CollapseRun(t, true)
  {
    if w != [] {
      assert (w + t)[0] == w[0] && (w + t)[1..] == w[1..] + t;
      assert AllSpace(w[1..]) by {
        forall i | 0 <= i < |w| - 1 ensures IsSpace(w[1..][i]) { assert w[1..][i] == w[i + 1]; }
      }
      CollapseRunSkips(w[1..], t);
      assert IsSpace(w[0]);
    } else {
      assert w + t == t;
    }
  }

  /** A maximal run of white space, followed by the end of the text or by a
      character that is not white space, becomes one "-". */
  lemma CollapseSpaceRun(w: string, t: string)
    requires w != [] && AllSpace(w)
    requires t == [] || !IsSpace(t[0])
    ensures CollapseSpaces(w + t) == "-" + CollapseSpaces(t)
  {
    assert (w + t)[0] == w[0] && (w + t)[1..] == w[1..] + t;
    assert AllSpace(w[1..]) by {
      forall i | 0 <= i < |w| - 1 ensures IsSpace(w[1..][i]) { assert w[1..][i] == w[i + 1]; }
    }
    CollapseRunSkips(w[1..], t);
    assert CollapseRun(t, true) == CollapseRun(t, false);
  }

  predicate IsDigit(c: char) { '0' <= c <= '9' }

  predicate AllDigits(s: string)
  {
    forall i :: 0 <= i < |s| ==> IsDigit(s[i])
  }

  function DigitChar(n: nat): (c: char)
    requires n < 10
    ensures IsDigit(c)
  {
    ('0' as int + n) as char
  }

  function DigitValue(c: char): nat
    requires IsDigit(c)
  {
    c as int - '0' as int
  }

  /** The number a string of decimal digits denotes. */
  function DigitsValue(s: string): (v: nat)
    requires AllDigits(s)
    ensures v < Pow10(|s|)
  {
    if s == [] then 0 else DigitsValue(s[..|s| - 1]) * 10 + DigitValue(s[|s| - 1])
  }

  /** `String(n)` for a non-negative integer: its decimal digits without
      leading zeros. */
  function DecimalString(n: nat): (s: string)
    ensures 1 <= |s| && AllDigits(s)
    ensures DigitsValue(s) == n
    ensures |s| > 1 ==> s[0] != '0'
  {
    if n < 10 then [DigitChar(n)]
    else
      var s := DecimalString(n / 10) + [DigitChar(n % 10)];
      assert s[..|s| - 1] == DecimalString(n / 10);
      s
  }

  function Zeros(k: nat): (z: string)
    ensures |z| == k && AllDigits(z)
  {
    seq(k, _ => '0')
  }

  function Pow10(k: nat): nat
  {
    if k == 0 then 1 else 10 * Pow10(k - 1)
  }

  /** `String(n).padStart(width, "0")` */
  function PadNumber(n: nat, width: nat): (s: string)
    ensures AllDigits(s)
    ensures DigitsValue(s) == n
    ensures |s| == if |DecimalString(n)| >= width then |DecimalString(n)| else width
  {
    var d := DecimalString(n);
    if |d| >= width then d
    else
      LeadingZeros(width - |d|, d);
      Zeros(width - |d|) + d
  }

  lemma {:induction false} LeadingZeros(k: nat, t: string)
    requires AllDigits(t)
    ensures AllDigits(Zeros(k) + t)
    ensures DigitsValue(Zeros(k) + t) == DigitsValue(t)
  {
    var z := Zeros(k) + t;
    assert AllDigits(z) by {
      forall i | 0 <= i < |z| ensures IsDigit(z[i]) {
        if i >= k { assert z[i] == t[i - k]; }
      }
    }
    if t == [] {
      assert z == Zeros(k);
      if k > 0 {
        assert z[..k - 1] == Zeros(k - 1) + [];
        LeadingZeros(k - 1, []);
      }
    } else {
      var u := t[..|t| - 1];
      assert z[..|z| - 1] == Zeros(k) + u;
      LeadingZeros(k, u);
    }
  }

  /** A number below `10^k` has at most `k` decimal digits. */
  lemma {:induction false} DecimalLength(n: nat, k: nat)
    requires 1 <= k && n < Pow10(k)
    ensures |DecimalString(n)| <= k
  {
    if n >= 10 {
      assert k > 1;
      DecimalLength(n / 10, k - 1);
    }
  }

  /** A number ending in a given decimal digit determines the digit and the rest. */
  lemma LastDigitUnique(x: nat, y: nat, dx: nat, dy: nat)
    requires dx < 10 && dy < 10 && x * 10 + dx == y * 10 + dy
    ensures x == y && dx == dy
  {
    var k := x - y;
    assert k * 10 == dy - dx;
  }

  /** Two digit strings of the same length that denote the same number are equal. */
  lemma {:induction false} DigitsInjective(a: string, b: string)
    requires |a| == |b| && AllDigits(a) && AllDigits(b)
    requires DigitsValue(a) == DigitsValue(b)
    ensures a == b
  {
    if a != [] {
      var n := |a| - 1;
      LastDigitUnique(DigitsValue(a[..n]), DigitsValue(b[..n]), DigitValue(a[n]), DigitValue(b[n]));
      DigitsInjective(a[..n], b[..n]);
      assert a == a[..n] + [a[n]] && b == b[..n] + [b[n]];
    }
  }
}
