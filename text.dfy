/** The string operations of the source: JavaScript's `<=` on strings,
    `trim`, `split(',')`, `join`, `parseInt(s, 10)`, `Number(s)` on integer
    strings and the first match of `/\d+/`. */
module Text {
  import opened Wrappers

  // ---------------------------------------------------------------------------
  // Ordering

  /** `a <= b` on JavaScript strings: lexicographic by character, a prefix first. */
  predicate StrLe(a: string, b: string)
    decreases |a|
  {
    a == [] || (b != [] && (a[0] < b[0] || (a[0] == b[0] && StrLe(a[1..], b[1..]))))
  }

  lemma {:induction false} StrLeTotal(a: string, b: string)
    ensures StrLe(a, b) || StrLe(b, a)
    decreases |a|
  {
    if a != [] && b != [] && a[0] == b[0] {
      StrLeTotal(a[1..], b[1..]);
    }
  }

  lemma {:induction false} StrLeTransitive(a: string, b: string, c: string)
    requires StrLe(a, b) && StrLe(b, c)
    ensures StrLe(a, c)
    decreases |a|
  {
    if a != [] && b != [] && c != [] && a[0] == b[0] && b[0] == c[0] {
      StrLeTransitive(a[1..], b[1..], c[1..]);
    }
  }

  /** Strings each at most the other are equal, so the ties of `sortBy` on a
      string field are exactly the elements with equal values. */
  lemma {:induction false} StrLeAntisymmetric(a: string, b: string)
    requires StrLe(a, b) && StrLe(b, a)
    ensures a == b
    decreases |a|
  {
    if a != [] {
      StrLeAntisymmetric(a[1..], b[1..]);
      assert a == [a[0]] + a[1..] && b == [b[0]] + b[1..];
    }
  }

  // ---------------------------------------------------------------------------
  // Whitespace and trim

  /** JavaScript's WhiteSpace and LineTerminator characters, which `trim` removes. */
  predicate IsWhitespace(c: char) {
    || c == ' ' || c == '\t' || c == '\n' || c == '\r'
    || c == '\U{000B}' || c == '\U{000C}' || c == '\U{00A0}' || c == '\U{1680}'
    || ('\U{2000}' <= c <= '\U{200A}')
    || c == '\U{2028}' || c == '\U{2029}' || c == '\U{202F}' || c == '\U{205F}'
    || c == '\U{3000}' || c == '\U{FEFF}'
  }

  /** Neither the first nor the last character is whitespace. */
  predicate NoEdgeWhitespace(s: string) {
    s == [] || (!IsWhitespace(s[0]) && !IsWhitespace(s[|s| - 1]))
  }

  /** `s.trimStart()`: a suffix of `s`, what was dropped is whitespace. */
  function TrimStart(s: string): (r: string)
    ensures |r| <= |s| && r == s[|s| - |r|..]
    ensures forall i :: 0 <= i < |s| - |r| ==> IsWhitespace(s[i])
    ensures r == [] || !IsWhitespace(r[0])
    ensures forall c :: c in r ==> c in s
  {
    if s != [] && IsWhitespace(s[0]) then
      var r := TrimStart(s[1..]);
      assert s[1..][|s| - 1 - |r|..] == s[|s| - |r|..];
      assert forall i :: 1 <= i < |s| - |r| ==> s[i] == s[1..][i - 1];
      r
    else s
  }

  /** `s.trimEnd()`: a prefix of `s`, what was dropped is whitespace. */
  function TrimEnd(s: string): (r: string)
    ensures |r| <= |s| && r == s[..|r|]
    ensures forall i :: |r| <= i < |s| ==> IsWhitespace(s[i])
    ensures r == [] || !IsWhitespace(r[|r| - 1])
    ensures forall c :: c in r ==> c in s
  {
    if s != [] && IsWhitespace(s[|s| - 1]) then TrimEnd(s[..|s| - 1]) else s
  }

  /** `s.trim()`: the infix left after whitespace is dropped at both ends. */
  function Trim(s: string): (r: string)
    ensures NoEdgeWhitespace(r)
    ensures |r| <= |s|
    ensures forall c :: c in r ==> c in s
  {
    TrimEnd(TrimStart(s))
  }

  /** The trimmed string is the infix `s[a..b]`, and everything outside it is whitespace. */
  lemma TrimInfix(s: string) returns (a: nat, b: nat)
    ensures a <= b <= |s| && Trim(s) == s[a..b]
    ensures forall i :: 0 <= i < a ==> IsWhitespace(s[i])
    ensures forall i :: b <= i < |s| ==> IsWhitespace(s[i])
  {
    var front := TrimStart(s);
    var r := TrimEnd(front);
    a := |s| - |front|;
    b := a + |r|;
    assert r == front[..|r|];
    forall i | b <= i < |s| ensures IsWhitespace(s[i]) {
      assert s[i] == front[i - a];
    }
  }

  /** Trimming a string without edge whitespace changes nothing. */
  lemma TrimNoEdge(s: string)
    requires NoEdgeWhitespace(s)
    ensures Trim(s) == s
  {
  }

  /** A leading blank is trimmed away. */
  lemma TrimLeadingBlank(s: string)
    ensures Trim([' '] + s) == Trim(s)
  {
    assert ([' '] + s)[1..] == s;
  }

  // ---------------------------------------------------------------------------
  // split and join

  /** `s.split(sep)` for a one-character separator; `"".split(sep)` is `[""]`. */
  function Split(s: string, sep: char): (parts: seq<string>)
    ensures |parts| >= 1
  {
    if s == [] then [[]]
    else
      var rest := Split(s[1..], sep);
      if s[0] == sep then [[]] + rest else [[s[0]] + rest[0]] + rest[1..]
  }

  /** `parts.join(sep)`: the parts in order, the separator between them. */
  function Join(parts: seq<string>, sep: string): (r: string)
    ensures parts == [] ==> r == []
    ensures parts != [] ==> parts[0] <= r
  {
    if |parts| == 0 then []
    else if |parts| == 1 then parts[0]
    else parts[0] + sep + Join(parts[1..], sep)
  }

  /** Splitting yields one more piece than there are separators. */
  lemma {:induction false} SplitCount(s: string, sep: char)
    ensures |Split(s, sep)| == multiset(s)[sep] + 1
  {
    if s != [] {
      assert s == [s[0]] + s[1..];
      SplitCount(s[1..], sep);
    }
  }

  /** No piece contains the separator. */
  lemma {:induction false} SplitPiecesFree(s: string, sep: char)
    ensures forall i :: 0 <= i < |Split(s, sep)| ==> sep !in Split(s, sep)[i]
  {
    if s != [] {
      SplitPiecesFree(s[1..], sep);
    }
  }

  /** Prefixing the first part prefixes the joined string. */
  lemma JoinPrefixFirst(c: string, parts: seq<string>, sep: string)
    requires |parts| >= 1
    ensures c + Join(parts, sep) == Join([c + parts[0]] + parts[1..], sep)
  {
    var q := [c + parts[0]] + parts[1..];
    assert q[1..] == parts[1..];
    if |parts| > 1 {
      assert c + (parts[0] + sep + Join(parts[1..], sep)) == (c + parts[0]) + sep + Join(parts[1..], sep);
    }
  }

  /** Joining the pieces with the separator gives the string back. */
  lemma {:induction false} JoinSplit(s: string, sep: char)
    ensures Join(Split(s, sep), [sep]) == s
  {
    if s != [] {
      var rest := Split(s[1..], sep);
      JoinSplit(s[1..], sep);
      if s[0] == sep {
        assert ([[]] + rest)[1..] == rest;
      } else {
        JoinPrefixFirst([s[0]], rest, [sep]);
      }
      assert s == [s[0]] + s[1..];
    }
  }

  /** A string without the separator is a single piece. */
  lemma {:induction false} SplitFree(s: string, sep: char)
    requires sep !in s
    ensures Split(s, sep) == [s]
  {
    if s != [] {
      SplitFree(s[1..], sep);
      assert s == [s[0]] + s[1..];
    }
  }

  /** A separator-free prefix followed by the separator becomes the first piece. */
  lemma {:induction false} SplitAfterPiece(p: string, sep: char, t: string)
    requires sep !in p
    ensures Split(p + [sep] + t, sep) == [p] + Split(t, sep)
  {
    var s := p + [sep] + t;
    if p == [] {
      assert s == [sep] + t;
      assert s[1..] == t;
    } else {
      assert s[1..] == p[1..] + [sep] + t;
      SplitAfterPiece(p[1..], sep, t);
      assert p == [p[0]] + p[1..];
    }
  }

  /** Splitting a join of separator-free parts recovers the parts. */
  lemma {:induction false} SplitJoin(parts: seq<string>, sep: char)
    requires |parts| >= 1
    requires forall i :: 0 <= i < |parts| ==> sep !in parts[i]
    ensures Split(Join(parts, [sep]), sep) == parts
  {
    if |parts| == 1 {
      SplitFree(parts[0], sep);
    } else {
      SplitJoin(parts[1..], sep);
      SplitAfterPiece(parts[0], sep, Join(parts[1..], [sep]));
      assert parts == [parts[0]] + parts[1..];
    }
  }

  // ---------------------------------------------------------------------------
  // Digits and numbers

  predicate IsDigit(c: char) {
    '0' <= c <= '9'
  }

  predicate AllDigits(s: string) {
    forall i :: 0 <= i < |s| ==> IsDigit(s[i])
  }

  /** The value of a decimal digit string. */
  function DigitsValue(ds: string): nat
    requires AllDigits(ds)
  {
    if ds == [] then 0
    else DigitsValue(ds[..|ds| - 1]) * 10 + (ds[|ds| - 1] as int - '0' as int)
  }

  /** The longest prefix of `s` made of digits. */
  function LeadingDigits(s: string): (ds: string)
    ensures |ds| <= |s| && ds == s[..|ds|] && AllDigits(ds)
    ensures |ds| == |s| || !IsDigit(s[|ds|])
  {
    if s != [] && IsDigit(s[0]) then [s[0]] + LeadingDigits(s[1..]) else []
  }

  /** `parseInt(s, 10)`: leading whitespace and one sign skipped, then the longest
      run of digits; `NaN` (here `None`) when there is no digit there. */
  function ParseIntPrefix(s: string): (r: Option<int>)
    ensures r.Some? <==> LeadingDigits(Unsigned(TrimStart(s))) != []
  {
    var t := TrimStart(s);
    var ds := LeadingDigits(Unsigned(t));
    var v: int := if ds == [] then 0 else DigitsValue(ds);
    if ds == [] then None
    else if t[0] == '-' then Some(-v)
    else Some(v)
  }

  /** What follows one leading sign character, if there is one. */
  function Unsigned(t: string): (u: string)
    ensures u == t || (t != [] && (t[0] == '-' || t[0] == '+') && u == t[1..])
  {
    if t != [] && (t[0] == '-' || t[0] == '+') then t[1..] else t
  }

  /** `parseInt` of a digit string followed by anything that is not a digit
      reads exactly those digits. */
  lemma ParseIntOfDigits(ds: string, tail: string)
    requires ds != [] && AllDigits(ds)
    requires tail == [] || !IsDigit(tail[0])
    ensures ParseIntPrefix(ds + tail) == Some(DigitsValue(ds))
  {
    var s := ds + tail;
    assert s[0] == ds[0] && IsDigit(s[0]);
    assert !IsWhitespace(s[0]);
    assert TrimStart(s) == s;
    assert Unsigned(s) == s;
    LeadingDigitsOf(ds, tail);
  }

  lemma {:induction false} LeadingDigitsOf(ds: string, tail: string)
    requires AllDigits(ds)
    requires tail == [] || !IsDigit(tail[0])
    ensures LeadingDigits(ds + tail) == ds
  {
    if ds != [] {
      assert (ds + tail)[1..] == ds[1..] + tail;
      LeadingDigitsOf(ds[1..], tail);
      assert ds == [ds[0]] + ds[1..];
    }
  }
  /** Leading whitespace before a non-blank start is what `trimStart` drops. */
  lemma {:induction false} TrimStartBlank(w: string, x: string)
    requires forall i :: 0 <= i < |w| ==> IsWhitespace(w[i])
    requires x != [] && !IsWhitespace(x[0])
    ensures TrimStart(w + x) == x
  {
    if w == [] {
      assert w + x == x;
    } else {
      assert (w + x)[0] == w[0] && (w + x)[1..] == w[1..] + x;
      TrimStartBlank(w[1..], x);
    }
  }

  /** `parseInt` of a string whose whitespace-trimmed start is digits followed
      by a non-digit or the end. */
  lemma ParseIntOfTrimmedDigits(s: string, ds: string, tail: string)
    requires TrimStart(s) == ds + tail
    requires ds != [] && AllDigits(ds)
    requires tail == [] || !IsDigit(tail[0])
    ensures ParseIntPrefix(s) == Some(DigitsValue(ds))
  {
    var t := ds + tail;
    assert t[0] == ds[0] && IsDigit(t[0]);
    assert Unsigned(t) == t;
    LeadingDigitsOf(ds, tail);
  }

  /** The same after a minus sign, which negates the number. */
  lemma ParseIntOfTrimmedNegative(s: string, ds: string, tail: string)
    requires TrimStart(s) == ['-'] + (ds + tail)
    requires ds != [] && AllDigits(ds)
    requires tail == [] || !IsDigit(tail[0])
    ensures ParseIntPrefix(s) == Some(-(DigitsValue(ds) as int))
  {
    var t := TrimStart(s);
    assert t[0] == '-' && t[1..] == ds + tail;
    LeadingDigitsOf(ds, tail);
    assert LeadingDigits(Unsigned(t)) == ds;
    var r := ParseIntPrefix(s);
    assert r.Some? && r.value == -(DigitsValue(ds) as int);
  }

  /** The same after a plus sign, which leaves the number as it is. */
  lemma ParseIntOfTrimmedPositive(s: string, ds: string, tail: string)
    requires TrimStart(s) == ['+'] + (ds + tail)
    requires ds != [] && AllDigits(ds)
    requires tail == [] || !IsDigit(tail[0])
    ensures ParseIntPrefix(s) == Some(DigitsValue(ds))
  {
    var t := TrimStart(s);
    assert t[0] == '+' && t[1..] == ds + tail;
    LeadingDigitsOf(ds, tail);
    assert LeadingDigits(Unsigned(t)) == ds;
  }

  /** `parseInt` skips leading whitespace and reads the digits that follow. */
  lemma ParseIntOfBlankDigits(w: string, ds: string, tail: string)
    requires forall i :: 0 <= i < |w| ==> IsWhitespace(w[i])
    requires ds != [] && AllDigits(ds)
    requires tail == [] || !IsDigit(tail[0])
    ensures ParseIntPrefix(w + ds + tail) == Some(DigitsValue(ds))
  {
    var x := ds + tail;
    assert x[0] == ds[0] && IsDigit(x[0]);
    assert w + ds + tail == w + x;
    TrimStartBlank(w, x);
    ParseIntOfTrimmedDigits(w + x, ds, tail);
  }

  /** `parseInt` reads a minus sign after leading whitespace as a negative number. */
  lemma ParseIntOfNegative(w: string, ds: string, tail: string)
    requires forall i :: 0 <= i < |w| ==> IsWhitespace(w[i])
    requires ds != [] && AllDigits(ds)
    requires tail == [] || !IsDigit(tail[0])
    ensures ParseIntPrefix(w + "-" + ds + tail) == Some(-(DigitsValue(ds) as int))
  {
    var x := ['-'] + (ds + tail);
    assert w + "-" + ds + tail == w + x;
    TrimStartBlank(w, x);
    ParseIntOfTrimmedNegative(w + x, ds, tail);
  }

  /** `parseInt` reads a plus sign after leading whitespace as a positive number. */
  lemma ParseIntOfPositive(w: string, ds: string, tail: string)
    requires forall i :: 0 <= i < |w| ==> IsWhitespace(w[i])
    requires ds != [] && AllDigits(ds)
    requires tail == [] || !IsDigit(tail[0])
    ensures ParseIntPrefix(w + "+" + ds + tail) == Some(DigitsValue(ds))
  {
    var x := ['+'] + (ds + tail);
    assert w + "+" + ds + tail == w + x;
    TrimStartBlank(w, x);
    ParseIntOfTrimmedPositive(w + x, ds, tail);
  }

  /** `Number(s)` restricted to integer literals: surrounding whitespace ignored,
      the empty string is 0, one optional sign, then digits only; anything else
      is `NaN` (here `None`). */
  function ParseNumber(s: string): (r: Option<int>)
    ensures Trim(s) == [] ==> r == Some(0)
    ensures r.Some? <==> Trim(s) == [] || (Unsigned(Trim(s)) != [] && AllDigits(Unsigned(Trim(s))))
  {
    IntegerLiteral(Trim(s))
  }

  /** The integer literal `Number` reads once the whitespace is trimmed. */
  function IntegerLiteral(t: string): Option<int> {
    if t == [] then Some(0)
    else
      var u := Unsigned(t);
      if u == [] || !AllDigits(u) then None
      else
        var v: int := DigitsValue(u);
        if t[0] == '-' then Some(-v) else Some(v)
  }

  /** A digit string is the number it spells. */
  lemma ParseNumberOfDigits(ds: string)
    requires ds != [] && AllDigits(ds)
    ensures ParseNumber(ds) == Some(DigitsValue(ds))
  {
    assert IsDigit(ds[0]) && IsDigit(ds[|ds| - 1]);
    TrimNoEdge(ds);
  }

  /** A minus sign before a digit string negates its number. */
  lemma ParseNumberOfNegative(ds: string)
    requires ds != [] && AllDigits(ds)
    ensures ParseNumber("-" + ds) == Some(-(DigitsValue(ds) as int))
  {
    var t := "-" + ds;
    assert t[1..] == ds && t[|t| - 1] == ds[|ds| - 1] && IsDigit(ds[|ds| - 1]);
    TrimNoEdge(t);
  }

  /** A plus sign before a digit string leaves its number unchanged. */
  lemma ParseNumberOfPositive(ds: string)
    requires ds != [] && AllDigits(ds)
    ensures ParseNumber("+" + ds) == Some(DigitsValue(ds))
  {
    var t := "+" + ds;
    assert t[1..] == ds && t[|t| - 1] == ds[|ds| - 1] && IsDigit(ds[|ds| - 1]);
    TrimNoEdge(t);
  }

  /** Trailing whitespace after a non-blank end is what `trimEnd` drops. */
  lemma {:induction false} TrimEndBlank(x: string, v: string)
    requires forall i :: 0 <= i < |v| ==> IsWhitespace(v[i])
    requires x != [] && !IsWhitespace(x[|x| - 1])
    ensures TrimEnd(x + v) == x
  {
    if v == [] {
      assert x + v == x;
    } else {
      var init := v[..|v| - 1];
      assert (x + v)[..|x + v| - 1] == x + init;
      TrimEndBlank(x, init);
    }
  }

  /** Whitespace around a string without edge whitespace is what `trim` drops. */
  lemma TrimPadded(w: string, x: string, v: string)
    requires forall i :: 0 <= i < |w| ==> IsWhitespace(w[i])
    requires forall i :: 0 <= i < |v| ==> IsWhitespace(v[i])
    requires x != [] && NoEdgeWhitespace(x)
    ensures Trim(w + x + v) == x
  {
    var y := x + v;
    assert w + x + v == w + y && y[0] == x[0];
    TrimStartBlank(w, y);
    TrimEndBlank(x, v);
  }

  /** `Number` ignores whitespace around its argument. */
  lemma ParseNumberPadded(w: string, x: string, v: string)
    requires forall i :: 0 <= i < |w| ==> IsWhitespace(w[i])
    requires forall i :: 0 <= i < |v| ==> IsWhitespace(v[i])
    requires x != [] && NoEdgeWhitespace(x)
    ensures ParseNumber(w + x + v) == ParseNumber(x)
  {
    TrimPadded(w, x, v);
    TrimNoEdge(x);
  }

  /** A padded digit string is the number it spells: `Number(" 12 ")` is 12. */
  lemma ParseNumberOfPaddedDigits(w: string, ds: string, v: string)
    requires forall i :: 0 <= i < |w| ==> IsWhitespace(w[i])
    requires forall i :: 0 <= i < |v| ==> IsWhitespace(v[i])
    requires ds != [] && AllDigits(ds)
    ensures ParseNumber(w + ds + v) == Some(DigitsValue(ds))
  {
    assert IsDigit(ds[0]) && IsDigit(ds[|ds| - 1]);
    ParseNumberPadded(w, ds, v);
    ParseNumberOfDigits(ds);
  }

  /** The first match of `/\d+/`: the first maximal run of digits. */
  function FirstDigitRun(s: string): (r: Option<string>)
    ensures r.None? <==> forall i :: 0 <= i < |s| ==> !IsDigit(s[i])
    ensures r.Some? ==> r.value != [] && AllDigits(r.value)
  {
    if s == [] then None
    else if IsDigit(s[0]) then Some(LeadingDigits(s))
    else
      var r := FirstDigitRun(s[1..]);
      assert forall i :: 1 <= i < |s| ==> s[i] == s[1..][i - 1];
      r
  }

  /** Where the first run of digits sits: it starts at `k`, no digit comes
      before `k`, and it runs to the first non-digit after `k`. */
  lemma {:induction false} FirstDigitRunAt(s: string) returns (k: nat)
    requires FirstDigitRun(s).Some?
    ensures k < |s| && IsDigit(s[k])
    ensures forall i :: 0 <= i < k ==> !IsDigit(s[i])
    ensures FirstDigitRun(s).value == LeadingDigits(s[k..])
  {
    if IsDigit(s[0]) {
      k := 0;
    } else {
      var j := FirstDigitRunAt(s[1..]);
      k := j + 1;
      assert s[1..][j..] == s[k..];
      forall i | 0 <= i < k ensures !IsDigit(s[i]) {
        if i > 0 { assert s[i] == s[1..][i - 1]; }
      }
    }
  }
  /** In a name made of a digit-free prefix, a digit run and a tail not starting
      with a digit, `/\d+/` matches exactly that run. */
  lemma {:induction false} FirstDigitRunOf(p: string, ds: string, tail: string)
    requires forall i :: 0 <= i < |p| ==> !IsDigit(p[i])
    requires ds != [] && AllDigits(ds)
    requires tail == [] || !IsDigit(tail[0])
    ensures FirstDigitRun(p + ds + tail) == Some(ds)
  {
    var s := p + ds + tail;
    if p == [] {
      assert s == ds + tail && IsDigit(s[0]);
      LeadingDigitsOf(ds, tail);
    } else {
      assert s[0] == p[0] && s[1..] == p[1..] + ds + tail;
      FirstDigitRunOf(p[1..], ds, tail);
    }
  }

}
