/** The phone canonicaliser of the contact importer (`formatPhone`):
    a Brazil-biased rule that turns what a person typed into `+` and digits. */
module Phone {
  import opened Wrappers
  import opened Text

  /** The three messages `formatPhone` can throw. */
  datatype PhoneError = TooShort | TooLong | Unrecognized

  /** `phone.replace(/[^+\d]/g, '')`: the plus signs and digits of `s`, in order. */
  function PlusAndDigits(s: string): (r: string)
    ensures |r| <= |s|
    ensures forall i :: 0 <= i < |r| ==> r[i] == '+' || IsDigit(r[i])
  {
    if s == [] then []
    else (if s[0] == '+' || IsDigit(s[0]) then [s[0]] else []) + PlusAndDigits(s[1..])
  }

  /** A string of `+` and digits is left alone by `PlusAndDigits`, and its
      digits are what remains once the plus signs are dropped. */
  lemma {:induction false} PlusAndDigitsFixed(s: string)
    requires forall i :: 0 <= i < |s| ==> s[i] == '+' || IsDigit(s[i])
    ensures PlusAndDigits(s) == s
  {
    if s != [] {
      PlusAndDigitsFixed(s[1..]);
      assert s == [s[0]] + s[1..];
    }
  }

  /** A string starting with `+` keeps that `+` and every digit. */
  lemma {:induction false} PlusAndDigitsLength(s: string)
    ensures |PlusAndDigits(s)| >= |DigitsOf(s)|
    ensures s != [] && s[0] == '+' ==>
              |PlusAndDigits(s)| >= |DigitsOf(s)| + 1 && PlusAndDigits(s)[0] == '+'
  {
    if s != [] {
      PlusAndDigitsLength(s[1..]);
    }
  }

  /** `formatPhone(phone)`, throwing as `Failure`. */
  function FormatPhone(phone: string): (r: Result<string, PhoneError>)
    ensures r.Success? ==> r.value != [] && r.value[0] == '+'
    ensures r.Failure? ==> r.error != Unrecognized
  {
    PlusAndDigitsLength(phone);
    var clean := DigitsOf(phone);
    if |clean| < 10 then Failure(TooShort)
    else if |clean| > 15 then Failure(TooLong)
    else if |clean| == 10 || |clean| == 11 then Success("+55" + clean)
    else if (|clean| == 12 || |clean| == 13) && StartsWith(clean, "55") then Success("+" + clean)
    else if StartsWith(phone, "+") && |PlusAndDigits(phone)| >= 11 then Success(PlusAndDigits(phone))
    else if |clean| >= 10 then Success("+55" + clean)
    else Failure(Unrecognized)
  }

  /** A canonical phone: a `+` followed by plus signs and digits only. */
  predicate Canonical(p: string)
  {
    p != [] && p[0] == '+' && forall i :: 0 <= i < |p| ==> p[i] == '+' || IsDigit(p[i])
  }

  /** The length checks decide success: a phone with fewer than 10 digits is
      too short, one with more than 15 too long, and every other one is
      accepted with a canonical result. In particular the final
      "unrecognised format" error can never be thrown. */
  lemma FormatPhoneOutcome(phone: string)
    ensures var n := |DigitsOf(phone)|;
            && (FormatPhone(phone) == Failure(TooShort) <==> n < 10)
            && (FormatPhone(phone) == Failure(TooLong) <==> n > 15)
            && (FormatPhone(phone).Success? <==> 10 <= n <= 15)
            && FormatPhone(phone) != Failure(Unrecognized)
            && (FormatPhone(phone).Success? ==> Canonical(FormatPhone(phone).value))
  {
    var clean := DigitsOf(phone);
    PlusAndDigitsLength(phone);
    if 10 <= |clean| <= 15 {
      var r := FormatPhone(phone).value;
      if r == PlusAndDigits(phone) {
        assert Canonical(r);
      } else {
        assert r == "+55" + clean || r == "+" + clean;
        assert Canonical(r);
      }
    }
  }

  /** A Brazilian number without the country code (10 or 11 digits) gets `+55`. */
  lemma FormatPhoneLocal(phone: string)
    requires |DigitsOf(phone)| == 10 || |DigitsOf(phone)| == 11
    ensures FormatPhone(phone) == Success("+55" + DigitsOf(phone))
  {
  }

  /** A number that already carries the Brazilian code 55 (12 or 13 digits)
      only gets the `+`. */
  lemma FormatPhoneCountryCode(phone: string)
    requires |DigitsOf(phone)| == 12 || |DigitsOf(phone)| == 13
    requires StartsWith(DigitsOf(phone), "55")
    ensures FormatPhone(phone) == Success("+" + DigitsOf(phone))
  {
  }

  /** Inside the `+` branch there are at least 12 digits, so the
      `cleanWithPlus.length >= 11` test never fails there. */
  lemma PlusBranchLengthTest(phone: string)
    requires StartsWith(phone, "+") && |DigitsOf(phone)| >= 12
    ensures |PlusAndDigits(phone)| >= 11
  {
    PlusAndDigitsLength(phone);
  }

  /** The digits of a canonical result: either the input's digits, or the
      input's digits behind the added country code 55. */
  lemma FormatPhoneDigits(phone: string)
    requires FormatPhone(phone).Success?
    ensures var d := DigitsOf(phone);
            var q := DigitsOf(FormatPhone(phone).value);
            q == d || q == "55" + d
  {
    var d := DigitsOf(phone);
    if |d| <= 11 {
      DigitsWithCode(d);
    } else if |d| <= 13 && StartsWith(d, "55") {
      DigitsWithPlus(d);
    } else if StartsWith(phone, "+") {
      PlusAndDigitsLength(phone);
      PlusAndDigitsDigits(phone);
    } else {
      DigitsWithCode(d);
    }
  }

  /** The digits of `+` followed by digits. */
  lemma DigitsWithPlus(d: string)
    requires AllDigits(d)
    ensures DigitsOf("+" + d) == d
  {
    DigitsOfConcat("+", d);
    DigitsOfDigits(d);
    assert DigitsOf("+") == [];
  }

  lemma {:induction false} PlusAndDigitsDigits(s: string)
    ensures DigitsOf(PlusAndDigits(s)) == DigitsOf(s)
  {
    if s != [] {
      PlusAndDigitsDigits(s[1..]);
      var h := if s[0] == '+' || IsDigit(s[0]) then [s[0]] else [];
      DigitsOfConcat(h, PlusAndDigits(s[1..]));
    }
  }

  /** Formatting a formatted phone again changes nothing, except for a
      14- or 15-digit input without a leading `+`: that one got `+55` in
      front, which makes 16 or 17 digits, and is then rejected. */
  lemma FormatPhoneIdempotent(phone: string)
    requires FormatPhone(phone).Success?
    ensures var q := FormatPhone(phone).value;
            FormatPhone(q) == Success(q)
            <==> !(|DigitsOf(phone)| >= 14 && !StartsWith(phone, "+"))
  {
    var d := DigitsOf(phone);
    if |d| == 10 || |d| == 11 {
      ReformatWithCode(d);
    } else if (|d| == 12 || |d| == 13) && StartsWith(d, "55") {
      IdempotentCountryCode(phone);
    } else if StartsWith(phone, "+") {
      IdempotentPlus(phone);
    } else if |d| <= 13 {
      IdempotentFallback(phone);
    } else {
      ReformatTooLong(d);
    }
  }

  lemma IdempotentCountryCode(phone: string)
    requires var d := DigitsOf(phone); (|d| == 12 || |d| == 13) && StartsWith(d, "55")
    ensures FormatPhone(phone) == Success("+" + DigitsOf(phone))
    ensures FormatPhone("+" + DigitsOf(phone)) == Success("+" + DigitsOf(phone))
  {
    var d := DigitsOf(phone);
    ReformatWithCode(d[2..]);
    assert "+" + d == "+55" + d[2..];
  }

  lemma IdempotentPlus(phone: string)
    requires var d := DigitsOf(phone);
             12 <= |d| <= 15 && !(|d| <= 13 && StartsWith(d, "55")) && StartsWith(phone, "+")
    ensures FormatPhone(phone) == Success(PlusAndDigits(phone))
    ensures FormatPhone(PlusAndDigits(phone)) == Success(PlusAndDigits(phone))
  {
    PlusAndDigitsLength(phone);
    PlusAndDigitsDigits(phone);
    ReformatPlus(PlusAndDigits(phone));
  }

  lemma IdempotentFallback(phone: string)
    requires var d := DigitsOf(phone);
             12 <= |d| <= 13 && !StartsWith(d, "55") && !StartsWith(phone, "+")
    ensures FormatPhone(phone) == Success("+55" + DigitsOf(phone))
    ensures FormatPhone("+55" + DigitsOf(phone)) == Success("+55" + DigitsOf(phone))
  {
    var d := DigitsOf(phone);
    DigitsWithCode(d);
    ReformatPlus("+55" + d);
  }

  /** `+55` and 10 or 11 digits is kept as it is. */
  lemma ReformatWithCode(d: string)
    requires AllDigits(d) && (|d| == 10 || |d| == 11)
    ensures FormatPhone("+55" + d) == Success("+55" + d)
  {
    var q := "+55" + d;
    DigitsWithCode(d);
    assert StartsWith("55" + d, "55");
    FormatPhoneCountryCode(q);
    assert "+" + ("55" + d) == q;
  }

  /** The digits of `+55` followed by digits. */
  lemma DigitsWithCode(d: string)
    requires AllDigits(d)
    ensures DigitsOf("+55" + d) == "55" + d
  {
    DigitsOfConcat("+55", d);
    DigitsOfDigits(d);
    assert DigitsOf("+55") == "55";
  }

  /** A `+` followed by 12 to 15 digits and plus signs, whose digits do not
      fall under the country-code rule, is kept as it is. */
  lemma ReformatPlus(q: string)
    requires Canonical(q)
    requires 12 <= |DigitsOf(q)| <= 15
    requires |DigitsOf(q)| <= 13 ==> !StartsWith(DigitsOf(q), "55")
    ensures FormatPhone(q) == Success(q)
  {
    PlusAndDigitsFixed(q);
    PlusAndDigitsLength(q);
    assert StartsWith(q, "+");
  }

  /** `+55` and 14 or 15 digits has too many digits. */
  lemma ReformatTooLong(d: string)
    requires AllDigits(d) && |d| >= 14
    ensures FormatPhone("+55" + d) == Failure(TooLong)
  {
    DigitsWithCode(d);
  }

  /** Formatting is idempotent on every input with 10 to 13 digits. */
  lemma FormatPhoneIdempotentUpTo13(phone: string)
    requires 10 <= |DigitsOf(phone)| <= 13
    ensures FormatPhone(phone).Success?
    ensures FormatPhone(FormatPhone(phone).value) == FormatPhone(phone)
  {
    FormatPhoneOutcome(phone);
    FormatPhoneIdempotent(phone);
  }


  /** A number of 14 or 15 digits typed without `+` gets `+55` in front, and
      the 16 or 17 digits of that result are too many for formatting itself. */
  lemma LongLocal(d: string)
    requires AllDigits(d) && 14 <= |d| <= 15
    ensures FormatPhone(d) == Success("+55" + d)
    ensures FormatPhone("+55" + d) == Failure(TooLong)
  {
    DigitsOfDigits(d);
    assert IsDigit(d[0]);
    ReformatTooLong(d);
  }

  /** For instance `12345678901234` is formatted into a string that
      formatting rejects. */
  lemma NotIdempotentAt14(phone: string)
    requires phone == "12345678901234"
    ensures FormatPhone(phone) == Success("+55" + phone)
    ensures FormatPhone(FormatPhone(phone).value) == Failure(TooLong)
  {
    LongLocal(phone);
  }

  /* The phone formats offered to users as accepted (digits only, with
     `+55`, with a parenthesised area code, with a space) all become the
     same canonical number, e.g. `+5511999999999`. */

  /** A Brazilian number `area`, `first`, `last` (2 + 4 or 5 + 4 digits)
      written in any of the accepted formats is formatted into `+55` and its
      digits, and that result is formatted into itself. */
  lemma AcceptedFormats(area: string, first: string, last: string)
    requires AllDigits(area) && AllDigits(first) && AllDigits(last)
    requires |area| == 2 && (|first| == 4 || |first| == 5) && |last| == 4
    ensures var canonical := "+55" + (area + first + last);
            && FormatPhone(area + first + last) == Success(canonical)
            && FormatPhone("(" + area + ") " + first + "-" + last) == Success(canonical)
            && FormatPhone(area + " " + first + "-" + last) == Success(canonical)
            && FormatPhone(canonical) == Success(canonical)
  {
    var plain := area + first + last;
    assert AllDigits(plain) && (|plain| == 10 || |plain| == 11);
    DigitsOfDigits(plain);
    FormatPhoneLocal(plain);
    ReformatWithCode(plain);
    ParensDigits(area, first, last);
    FormatPhoneLocal("(" + area + ") " + first + "-" + last);
    SpacedDigits(area, first, last);
    FormatPhoneLocal(area + " " + first + "-" + last);
  }

  lemma ParensDigits(area: string, first: string, last: string)
    requires AllDigits(area) && AllDigits(first) && AllDigits(last)
    ensures DigitsOf("(" + area + ") " + first + "-" + last) == area + first + last
  {
    DigitsOfWrapped("(", area, ") ");
    DigitsOfAfter("(" + area + ") ", '-', first, last);
  }

  lemma SpacedDigits(area: string, first: string, last: string)
    requires AllDigits(area) && AllDigits(first) && AllDigits(last)
    ensures DigitsOf(area + " " + first + "-" + last) == area + first + last
  {
    DigitsOfDigits(area);
    DigitsOfSeparator(area, ' ');
    DigitsOfAfter(area + " ", '-', first, last);
  }

  /** Digits, a separator and digits again after a prefix whose digits are known. */
  lemma DigitsOfAfter(a: string, c: char, first: string, last: string)
    requires !IsDigit(c) && AllDigits(first) && AllDigits(last)
    ensures DigitsOf(a + first + [c] + last) == DigitsOf(a) + first + last
  {
    DigitsOfDigits(first);
    DigitsOfDigits(last);
    DigitsOfConcat(a, first);
    DigitsOfSeparator(a + first, c);
    DigitsOfConcat(a + first + [c], last);
  }

  /** A separator adds no digit. */
  lemma DigitsOfSeparator(a: string, c: char)
    requires !IsDigit(c)
    ensures DigitsOf(a + [c]) == DigitsOf(a)
  {
    DigitsOfConcat(a, [c]);
    assert DigitsOf([c]) == [];
  }

  /** Digits between two runs of separators. */
  lemma DigitsOfWrapped(before: string, a: string, after: string)
    requires DigitsOf(before) == [] && DigitsOf(after) == [] && AllDigits(a)
    ensures DigitsOf(before + a + after) == a
  {
    DigitsOfDigits(a);
    DigitsOfConcat(before + a, after);
    DigitsOfConcat(before, a);
  }
}
