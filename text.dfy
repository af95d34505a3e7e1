/** The string primitives of JavaScript that the program relies on:
    `trim`, `toLowerCase`/`toUpperCase` (on ASCII letters), `split`/`join`
    on one character, `replace(/\D/g, '')`, `startsWith`, `endsWith`,
    `includes`, the `<` order on strings and the decimal text of a number. */
module Text {

  /** ECMAScript WhiteSpace and LineTerminator code points: what `trim` removes. */
  predicate IsSpace(c: char)
  {
    c == '\t' || c == '\n' || c == '\U{000B}' || c == '\U{000C}' || c == '\r' || c == ' '
    || c == '\U{00A0}' || c == '\U{1680}' || ('\U{2000}' <= c <= '\U{200A}')
    || c == '\U{2028}' || c == '\U{2029}' || c == '\U{202F}' || c == '\U{205F}'
    || c == '\U{3000}' || c == '\U{FEFF}'
  }

  /** What `\d` matches in a JavaScript regular expression. */
  predicate IsDigit(c: char)
  {
    '0' <= c <= '9'
  }

  predicate AllDigits(s: string)
  {
    forall i :: 0 <= i < |s| ==> IsDigit(s[i])
  }

  /** A string with no white space at either end: what `trim` returns. */
  predicate Trimmed(s: string)
  {
    s == [] || (!IsSpace(s[0]) && !IsSpace(s[|s| - 1]))
  }

  // ---------------------------------------------------------------- trim

  function TrimStart(s: string): (r: string)
    ensures |r| <= |s|
    ensures r == [] || !IsSpace(r[0])
  {
    if s != [] && IsSpace(s[0]) then TrimStart(s[1..]) else s
  }

  function TrimEnd(s: string): (r: string)
    ensures |r| <= |s|
    ensures r == [] || !IsSpace(r[|r| - 1])
  {
    if s != [] && IsSpace(s[|s| - 1]) then TrimEnd(s[..|s| - 1]) else s
  }

  /** `s.trim()`: `s` without the white space at its two ends. */
  function Trim(s: string): (r: string)
    ensures Trimmed(r)
  {
    var t := TrimStart(s);
    var r := TrimEnd(t);
    assert r == [] || !IsSpace(r[0]) by {
      TrimEndPrefix(t);
      if r != [] { assert r[0] == t[0]; }
    }
    r
  }

  /** `TrimStart` keeps a suffix. */
  lemma {:induction false} TrimStartSuffix(s: string)
    ensures TrimStart(s) == s[|s| - |TrimStart(s)|..]
  {
    if s != [] && IsSpace(s[0]) {
      TrimStartSuffix(s[1..]);
    }
  }

  /** `TrimEnd` keeps a prefix. */
  lemma {:induction false} TrimEndPrefix(s: string)
    ensures TrimEnd(s) == s[..|TrimEnd(s)|]
  {
    if s != [] && IsSpace(s[|s| - 1]) {
      TrimEndPrefix(s[..|s| - 1]);
    }
  }

  /** What `TrimStart` drops is white space. */
  lemma {:induction false} TrimStartDropsSpace(s: string)
    ensures forall i :: 0 <= i < |s| - |TrimStart(s)| ==> IsSpace(s[i])
  {
    if s != [] && IsSpace(s[0]) {
      TrimStartDropsSpace(s[1..]);
    }
  }

  /** What `TrimEnd` drops is white space. */
  lemma {:induction false} TrimEndDropsSpace(s: string)
    ensures forall i :: |TrimEnd(s)| <= i < |s| ==> IsSpace(s[i])
  {
    if s != [] && IsSpace(s[|s| - 1]) {
      TrimEndDropsSpace(s[..|s| - 1]);
    }
  }

  /** The trim is the factor of `s` between two runs of white space. */
  lemma TrimPadded(s: string)
    ensures exists i :: PaddedAt(s, Trim(s), i)
  {
    TrimStartDropsSpace(s);
    TrimEndDropsSpace(TrimStart(s));
    TrimStartSuffix(s);
    TrimEndPrefix(TrimStart(s));
    var t := TrimStart(s);
    var r := TrimEnd(t);
    var i := |s| - |t|;
    assert Trim(s) == r;
    assert s[i..i + |r|] == r;
    assert PaddedAt(s, r, i);
  }

  /** `r` occurs in `s` at `i` with only white space before and after it. */
  predicate PaddedAt(s: string, r: string, i: int)
  {
    OccursAt(s, r, i)
    && (forall k :: 0 <= k < i ==> IsSpace(s[k]))
    && (forall k :: i + |r| <= k < |s| ==> IsSpace(s[k]))
  }

  /** Trimming a string that is already trimmed changes nothing. */
  lemma TrimTrimmed(s: string)
    requires Trimmed(s)
    ensures Trim(s) == s
  {
  }

  /** A string is blank exactly when it consists of white space only. */
  lemma TrimEmptyIffBlank(s: string)
    ensures Trim(s) == [] <==> forall k :: 0 <= k < |s| ==> IsSpace(s[k])
  {
    TrimPadded(s);
    if forall k :: 0 <= k < |s| ==> IsSpace(s[k]) {
      BlankTrimStart(s);
    }
  }

  lemma {:induction false} BlankTrimStart(s: string)
    requires forall k :: 0 <= k < |s| ==> IsSpace(s[k])
    ensures TrimStart(s) == []
  {
    if s != [] {
      BlankTrimStart(s[1..]);
    }
  }

  /** Trimming only removes characters: one absent from `s` is absent from its trim. */
  lemma TrimAbsent(s: string, c: char)
    requires c !in s
    ensures c !in Trim(s)
  {
    TrimPadded(s);
    var i :| PaddedAt(s, Trim(s), i);
    assert Trim(s) == s[i..i + |Trim(s)|];
  }

  // ---------------------------------------------------------------- case

  function LowerChar(c: char): char
  {
    if 'A' <= c <= 'Z' then (c as int + 32) as char else c
  }

  function UpperChar(c: char): char
  {
    if 'a' <= c <= 'z' then (c as int - 32) as char else c
  }

  /** `s.toLowerCase()` restricted to the ASCII letters. */
  function Lower(s: string): (r: string)
    ensures |r| == |s|
  {
    if s == [] then [] else [LowerChar(s[0])] + Lower(s[1..])
  }

  /** `s.toUpperCase()` restricted to the ASCII letters. */
  function Upper(s: string): (r: string)
    ensures |r| == |s|
  {
    if s == [] then [] else [UpperChar(s[0])] + Upper(s[1..])
  }

  // ---------------------------------------------------------------- split and join

  /** `s.split(d)` for a one-character separator: the pieces between the
      occurrences of `d`, always at least one (`''.split(d)` is `['']`). */
  function Split(s: string, d: char): (r: seq<string>)
    ensures |r| >= 1
  {
    if s == [] then [[]]
    else
      var rest := Split(s[1..], d);
      if s[0] == d then [[]] + rest else [[s[0]] + rest[0]] + rest[1..]
  }

  /** No piece of a split holds the separator. */
  lemma {:induction false} SplitFree(s: string, d: char)
    ensures forall i :: 0 <= i < |Split(s, d)| ==> d !in Split(s, d)[i]
  {
    if s != [] {
      SplitFree(s[1..], d);
      var rest := Split(s[1..], d);
      if s[0] != d {
        assert d !in [s[0]] + rest[0];
      }
    }
  }

  /** `parts.join(d)`. */
  function Join(parts: seq<string>, d: char): string
    requires |parts| >= 1
  {
    if |parts| == 1 then parts[0] else parts[0] + [d] + Join(parts[1..], d)
  }

  /** A string without the separator splits into itself. */
  lemma {:induction false} SplitNoSeparator(s: string, d: char)
    requires d !in s
    ensures Split(s, d) == [s]
  {
    if s != [] {
      SplitNoSeparator(s[1..], d);
      assert s == [s[0]] + s[1..];
    }
  }

  /** Splitting distributes over a separator. */
  lemma {:induction false} SplitConcat(a: string, d: char, b: string)
    ensures Split(a + [d] + b, d) == Split(a, d) + Split(b, d)
  {
    var s := a + [d] + b;
    if a == [] {
      assert s[0] == d && s[1..] == b;
    } else {
      SplitConcat(a[1..], d, b);
      SplitConcatStep(a, d, b);
    }
  }

  /** The inductive step of `SplitConcat`: the first character of `a` either
      closes the first piece or joins it. */
  lemma SplitConcatStep(a: string, d: char, b: string)
    requires a != []
    requires Split(a[1..] + [d] + b, d) == Split(a[1..], d) + Split(b, d)
    ensures Split(a + [d] + b, d) == Split(a, d) + Split(b, d)
  {
    var s := a + [d] + b;
    assert s[0] == a[0] && s[1..] == a[1..] + [d] + b;
    SplitCons(s, d);
    SplitCons(a, d);
    PiecesAppend(a[0] == d, a[0], Split(a[1..], d), Split(b, d));
  }

  /** `Split` unfolded once. */
  lemma SplitCons(s: string, d: char)
    requires s != []
    ensures var rest := Split(s[1..], d);
            Split(s, d) == if s[0] == d then [[]] + rest else [[s[0]] + rest[0]] + rest[1..]
  {
  }

  lemma PiecesAppend(sep: bool, c: char, front: seq<string>, back: seq<string>)
    requires |front| >= 1
    ensures var rest := front + back;
            (if sep then [[]] + rest else [[c] + rest[0]] + rest[1..])
            == (if sep then [[]] + front else [[c] + front[0]] + front[1..]) + back
  {
    if !sep {
      assert (front + back)[1..] == front[1..] + back;
    }
  }

  /** Joining the pieces of a split gives the string back. */
  lemma {:induction false} JoinSplit(s: string, d: char)
    ensures Join(Split(s, d), d) == s
  {
    if s != [] {
      JoinSplit(s[1..], d);
      var rest := Split(s[1..], d);
      if s[0] != d && |rest| > 1 {
        assert ([[s[0]] + rest[0]] + rest[1..])[1..] == rest[1..];
      }
    }
  }

  /** Splitting a join of separator-free pieces gives the pieces back. */
  lemma {:induction false} SplitJoin(parts: seq<string>, d: char)
    requires |parts| >= 1
    requires forall i :: 0 <= i < |parts| ==> d !in parts[i]
    ensures Split(Join(parts, d), d) == parts
  {
    if |parts| == 1 {
      SplitNoSeparator(parts[0], d);
    } else {
      SplitJoin(parts[1..], d);
      SplitConcat(parts[0], d, Join(parts[1..], d));
      SplitNoSeparator(parts[0], d);
    }
  }

  /** The separator occurs in a join only where it was put or inside a piece. */
  lemma {:induction false} JoinFree(parts: seq<string>, d: char, c: char)
    requires |parts| >= 1 && c != d
    requires forall i :: 0 <= i < |parts| ==> c !in parts[i]
    ensures c !in Join(parts, d)
  {
    if |parts| > 1 {
      JoinFree(parts[1..], d, c);
    }
  }

  /** Text after a separator does not change the first piece. */
  lemma {:induction false} SplitFirst(s: string, t: string, d: char)
    requires d in s
    ensures Split(s + t, d)[0] == Split(s, d)[0]
  {
    assert (s + t)[0] == s[0];
    if s[0] != d {
      assert (s + t)[1..] == s[1..] + t;
      SplitFirst(s[1..], t, d);
    }
  }

  // ---------------------------------------------------------------- digits

  /** `s.replace(/\D/g, '')`: the digits of `s` in order. */
  function DigitsOf(s: string): (r: string)
    ensures AllDigits(r) && |r| <= |s|
  {
    if s == [] then []
    else (if IsDigit(s[0]) then [s[0]] else []) + DigitsOf(s[1..])
  }

  lemma {:induction false} DigitsOfConcat(a: string, b: string)
    ensures DigitsOf(a + b) == DigitsOf(a) + DigitsOf(b)
  {
    if a != [] {
      DigitsOfConcat(a[1..], b);
      assert (a + b)[0] == a[0];
      assert (a + b)[1..] == a[1..] + b;
      var h := if IsDigit(a[0]) then [a[0]] else [];
      assert DigitsOf(a + b) == h + (DigitsOf(a[1..]) + DigitsOf(b));
    } else {
      assert a + b == b;
    }
  }

  lemma {:induction false} DigitsOfDigits(s: string)
    requires AllDigits(s)
    ensures DigitsOf(s) == s
  {
    if s != [] {
      DigitsOfDigits(s[1..]);
    }
  }

  // ---------------------------------------------------------------- prefixes and factors

  predicate StartsWith(s: string, p: string)
  {
    |p| <= |s| && s[..|p|] == p
  }

  predicate EndsWith(s: string, p: string)
  {
    |p| <= |s| && s[|s| - |p|..] == p
  }

  /** `t` occurs in `s` starting at position `i`. */
  predicate OccursAt(s: string, t: string, i: int)
  {
    0 <= i <= |s| - |t| && s[i..i + |t|] == t
  }

  /** `s.includes(t)`. */
  predicate Contains(s: string, t: string)
    decreases |s|
  {
    StartsWith(s, t) || (s != [] && Contains(s[1..], t))
  }

  /** `includes` holds exactly when `t` occurs at some position of `s`. */
  lemma {:induction false} ContainsAt(s: string, t: string)
    ensures Contains(s, t) <==> exists i :: OccursAt(s, t, i)
  {
    if s == [] {
      if exists i :: OccursAt(s, t, i) {
        var i :| OccursAt(s, t, i);
        assert StartsWith(s, t);
      }
      if StartsWith(s, t) {
        assert OccursAt(s, t, 0);
      }
    } else {
      ContainsAt(s[1..], t);
      if exists i :: OccursAt(s, t, i) {
        var i :| OccursAt(s, t, i);
        if i > 0 {
          assert OccursAt(s[1..], t, i - 1);
        }
      }
      if Contains(s[1..], t) && !StartsWith(s, t) {
        var i :| OccursAt(s[1..], t, i);
        assert OccursAt(s, t, i + 1);
      }
      if StartsWith(s, t) {
        assert OccursAt(s, t, 0);
      }
    }
  }

  // ---------------------------------------------------------------- string order

  /** JavaScript's `a < b` on strings: lexicographic on the characters,
      a proper prefix before the longer string. */
  predicate Less(a: string, b: string)
  {
    if a == [] then b != []
    else if b == [] then false
    else a[0] < b[0] || (a[0] == b[0] && Less(a[1..], b[1..]))
  }

  lemma {:induction false} LessIrreflexive(a: string)
    ensures !Less(a, a)
  {
    if a != [] {
      LessIrreflexive(a[1..]);
    }
  }

  lemma {:induction false} LessAsymmetric(a: string, b: string)
    ensures Less(a, b) ==> !Less(b, a)
  {
    if a != [] && b != [] && a[0] == b[0] {
      LessAsymmetric(a[1..], b[1..]);
    }
  }

  lemma {:induction false} LessTransitive(a: string, b: string, c: string)
    requires Less(a, b) && Less(b, c)
    ensures Less(a, c)
  {
    if a != [] && a[0] == b[0] && b[0] == c[0] {
      LessTransitive(a[1..], b[1..], c[1..]);
    }
  }

  lemma {:induction false} LessTotal(a: string, b: string)
    ensures a == b || Less(a, b) || Less(b, a)
  {
    if a != [] && b != [] && a[0] == b[0] {
      LessTotal(a[1..], b[1..]);
      if a[1..] == b[1..] {
        assert a == [a[0]] + a[1..];
        assert b == [b[0]] + b[1..];
      }
    }
  }

  // ---------------------------------------------------------------- numbers as text

  function DigitChar(d: nat): char
    requires d < 10
  {
    ('0' as int + d) as char
  }

  /** The decimal text of a natural number, as `String(n)` writes it. */
  function NatToString(n: nat): (r: string)
    ensures r != [] && AllDigits(r)
  {
    if n < 10 then [DigitChar(n)] else NatToString(n / 10) + [DigitChar(n % 10)]
  }

  /** `String(n)` for an integer. */
  function IntToString(n: int): (r: string)
    ensures r != []
  {
    if n < 0 then "-" + NatToString(-n) else NatToString(n)
  }

  /** The value of a string of decimal digits. */
  function DecimalValue(s: string): nat
    requires AllDigits(s)
  {
    if s == [] then 0
    else DecimalValue(s[..|s| - 1]) * 10 + (s[|s| - 1] as int - '0' as int)
  }

  /** Reading back the decimal text of a number gives the number. */
  lemma {:induction false} DecimalRoundTrip(n: nat)
    ensures DecimalValue(NatToString(n)) == n
  {
    if n >= 10 {
      DecimalRoundTrip(n / 10);
      var s := NatToString(n);
      assert s[..|s| - 1] == NatToString(n / 10);
    }
  }

  /** The value of the decimal text of an integer, with an optional minus sign. */
  function IntValue(s: string): int
    requires s != [] && (s[0] == '-' || IsDigit(s[0])) && AllDigits(s[1..])
  {
    if s[0] == '-' then 0 - DecimalValue(s[1..]) as int else DecimalValue(s)
  }

  /** Reading back `String(n)` gives `n`. */
  lemma IntRoundTrip(n: int)
    ensures var s := IntToString(n);
            s != [] && (s[0] == '-' || IsDigit(s[0])) && AllDigits(s[1..]) && IntValue(s) == n
  {
    var s := IntToString(n);
    if n < 0 {
      assert s[1..] == NatToString(-n);
      DecimalRoundTrip(-n);
    } else {
      DecimalRoundTrip(n);
    }
  }

  /** Different integers have different decimal texts. */
  lemma IntToStringInjective(a: int, b: int)
    requires IntToString(a) == IntToString(b)
    ensures a == b
  {
    IntRoundTrip(a);
    IntRoundTrip(b);
  }
}
