/** src/validators.py: the phone-number normaliser. It strips every character
    except digits and '+', then classifies the stripped form by length and
    prefix in a fixed order. The result is a string: either a canonical number
    ('+' followed by 12 digits) or a rejection message starting "Invalid",
    which callers tell apart by that prefix. */
module SrcValidators {
  import opened Text

  /** The characters `re.sub(r"[^\d+]", "", number)` keeps. */
  predicate KeptInPhone(c: char)
  {
    IsDigit(c) || c == '+'
  }

  /** `re.sub(r"[^\d+]", "", number)`: keep digits and every '+', in order. */
  function StripPhone(number: string): (r: string)
    ensures |r| <= |number|
    ensures forall i :: 0 <= i < |r| ==> KeptInPhone(r[i])
  {
    if number == [] then []
    else (if KeptInPhone(number[0]) then [number[0]] else []) + StripPhone(number[1..])
  }

  /** A canonical phone number: '+' followed by exactly 12 digits. */
  predicate IsCanonical(p: string)
  {
    |p| == 13 && p[0] == '+' && AllDigits(p[1..])
  }

  const Invalid: string := "Invalid"

  const InvalidPhoneNumber: string := Invalid + " phone number"

  /** How callers recognise a rejection (src/phone.py, src/helper.py). */
  predicate IsRejection(s: string)
  {
    StartsWith(s, Invalid)
  }

  const ShortTail: string := ". The number must have not less than 10 digits: "

  const LongTail: string := ". The number must have not less than 10 digits."

  /** The message for a stripped form shorter than 10 characters. */
  function ShortRejection(n: string): string
  {
    InvalidPhoneNumber + (ShortTail + n)
  }

  /** The message for a stripped form no accepting branch matches. */
  function LongRejection(n: string): string
  {
    InvalidPhoneNumber + (": " + n + LongTail)
  }

  /** Both rejection messages start with "Invalid phone number". */
  lemma RejectionTexts(n: string)
    ensures StartsWith(ShortRejection(n), InvalidPhoneNumber) && IsRejection(ShortRejection(n))
    ensures StartsWith(LongRejection(n), InvalidPhoneNumber) && IsRejection(LongRejection(n))
  {
    PrefixStart(Invalid, " phone number");
    PrefixStart(InvalidPhoneNumber, ShortTail + n);
    StartsWithTrans(ShortRejection(n), InvalidPhoneNumber, Invalid);
    PrefixStart(InvalidPhoneNumber, ": " + n + LongTail);
    StartsWithTrans(LongRejection(n), InvalidPhoneNumber, Invalid);
  }

  lemma PrefixStart(a: string, b: string)
    ensures StartsWith(a + b, a)
  {
    assert (a + b)[..|a|] == a;
  }

  lemma StartsWithTrans(x: string, a: string, b: string)
    requires StartsWith(x, a) && StartsWith(a, b)
    ensures StartsWith(x, b)
  {
    assert x[..|b|] == x[..|a|][..|b|];
  }

  /** `normalize_phone(number)`. */
  function NormalizePhone(number: string): (r: string)
    ensures IsCanonical(r) || IsRejection(r)
    ensures |StripPhone(number)| < 10 ==> StartsWith(r, InvalidPhoneNumber)
  {
    var n := StripPhone(number);
    RejectionTexts(n);
    if |n| < 10 then
      ShortRejection(n)
    else if |n| == 10 && IsDigitString(n) then
      "+38" + n
    else if |n| == 11 && StartsWith(n, "+0") && IsDigitString(n[2..]) then
      "+380" + n[2..]
    else if |n| == 10 && StartsWith(n, "+") && IsDigitString(n[1..]) then
      "+380" + n[1..]
    else if |n| == 12 && IsDigitString(n) then
      "+" + n
    else if |n| == 13 && StartsWith(n, "+") && IsDigitString(n[1..]) then
      n
    else if |n| == 13 && StartsWith(n, "+38") && IsDigitString(n[3..]) && |n| - 3 == 10 then
      n
    else if |n| == 12 && StartsWith(n, "380") && IsDigitString(n[3..]) && |n| - 3 == 9 then
      "+" + n
    else if |n| == 11 && StartsWith(n, "0") && IsDigitString(n[1..]) then
      "+38" + n[1..]
    else
      LongRejection(n)
  }

  /** An accepted result and a rejection can never be confused. */
  lemma CanonicalIsNotRejection(s: string)
    ensures !(IsCanonical(s) && IsRejection(s))
  {
  }

  /** Stripping distributes over concatenation: each character is kept or
      dropped on its own. */
  lemma {:induction false} StripPhoneAppend(a: string, b: string)
    ensures StripPhone(a + b) == StripPhone(a) + StripPhone(b)
  {
    if a == [] {
      assert a + b == b;
    } else {
      assert (a + b)[0] == a[0];
      assert (a + b)[1..] == a[1..] + b;
      StripPhoneAppend(a[1..], b);
    }
  }

  /** A '+' is kept wherever it appears, not only in front. */
  lemma KeepsEveryPlus(a: string, b: string)
    ensures StripPhone(a + "+" + b) == StripPhone(a) + "+" + StripPhone(b)
  {
    StripPhoneAppend(a + "+", b);
    StripPhoneAppend(a, "+");
  }

  /** A string made only of digits and '+' is left as it is. */
  lemma {:induction false} StripPhoneClean(s: string)
    requires forall i :: 0 <= i < |s| ==> KeptInPhone(s[i])
    ensures StripPhone(s) == s
  {
    if s != [] {
      StripPhoneClean(s[1..]);
      assert s == [s[0]] + s[1..];
    }
  }

  /** Stripping twice is stripping once. */
  lemma StripPhoneIdempotent(s: string)
    ensures StripPhone(StripPhone(s)) == StripPhone(s)
  {
    StripPhoneClean(StripPhone(s));
  }

  /** The stripped shapes the classifier accepts, independent of the order of
      its tests: 10 digits; "+0" and 9 digits; '+' and 9 digits; 12 digits;
      '+' and 12 digits; '0' and 10 digits. */
  predicate AcceptedShape(n: string)
  {
    || (|n| == 10 && AllDigits(n))
    || (|n| == 11 && n[0] == '+' && n[1] == '0' && AllDigits(n[2..]))
    || (|n| == 10 && n[0] == '+' && AllDigits(n[1..]))
    || (|n| == 12 && AllDigits(n))
    || (|n| == 13 && n[0] == '+' && AllDigits(n[1..]))
    || (|n| == 11 && n[0] == '0' && AllDigits(n[1..]))
  }

  /** A number is accepted exactly when its stripped form has one of the
      accepted shapes; everything else is rejected. */
  lemma AcceptedIff(number: string)
    ensures IsCanonical(NormalizePhone(number)) <==> AcceptedShape(StripPhone(number))
  {
    DeadBranches(number);
    LiveAcceptedIff(number);
  }

  lemma LiveAcceptedIff(number: string)
    ensures IsCanonical(NormalizeLive(number)) <==> AcceptedShape(StripPhone(number))
  {
    var n := StripPhone(number);
    RejectionTexts(n);
    CanonicalIsNotRejection(ShortRejection(n));
    CanonicalIsNotRejection(LongRejection(n));
    if |n| == 10 && IsDigitString(n) {
      PlusDigitsCanonical("+38", n);
    } else if |n| == 11 && StartsWith(n, "+0") && IsDigitString(n[2..]) {
      PlusDigitsCanonical("+380", n[2..]);
    } else if |n| == 10 && StartsWith(n, "+") && IsDigitString(n[1..]) {
      PlusDigitsCanonical("+380", n[1..]);
    } else if |n| == 12 && IsDigitString(n) {
      PlusDigitsCanonical("+", n);
    } else if |n| == 11 && StartsWith(n, "0") && IsDigitString(n[1..]) {
      PlusDigitsCanonical("+38", n[1..]);
    }
    if |n| == 10 || |n| == 13 {
      assert StartsWith(n, "+") <==> n[0] == '+';
    } else if |n| == 11 {
      assert StartsWith(n, "+0") <==> n[0] == '+' && n[1] == '0';
      assert StartsWith(n, "0") <==> n[0] == '0';
    }
  }

  /** A '+', a digit prefix and digits, thirteen characters in all, form a
      canonical number. */
  lemma PlusDigitsCanonical(p: string, d: string)
    requires |p| >= 1 && p[0] == '+' && AllDigits(p[1..]) && AllDigits(d) && |p| + |d| == 13
    ensures IsCanonical(p + d)
  {
    assert (p + d)[1..] == p[1..] + d;
  }

  /** Everything without an accepted shape is rejected, and nothing else. */
  lemma RejectedIff(number: string)
    ensures IsRejection(NormalizePhone(number)) <==> !AcceptedShape(StripPhone(number))
  {
    AcceptedIff(number);
    CanonicalIsNotRejection(NormalizePhone(number));
  }

  /** Normalising a canonical number returns it unchanged: it lands in the
      "'+' and 12 digits" branch. */
  lemma CanonicalIsFixedPoint(p: string)
    requires IsCanonical(p)
    ensures NormalizePhone(p) == p
  {
    StripPhoneClean(p);
    assert StartsWith(p, "+");
  }

  /** Normalisation is idempotent on accepted numbers. */
  lemma NormalizeIdempotent(number: string)
    requires !IsRejection(NormalizePhone(number))
    ensures NormalizePhone(NormalizePhone(number)) == NormalizePhone(number)
  {
    CanonicalIsFixedPoint(NormalizePhone(number));
  }

  /** Two raw inputs that differ only in characters other than digits and
      '+' normalise alike. */
  lemma SameDigitsSameNumber(a: string, b: string)
    requires StripPhone(a) == StripPhone(b)
    ensures NormalizePhone(a) == NormalizePhone(b)
  {
  }

  /** The classifier without its two unreachable branches ("+38" and 10
      digits, caught by the '+' and 12 digits test; "380" and 9 digits,
      caught by the 12 digits test). */
  function NormalizeLive(number: string): string
  {
    var n := StripPhone(number);
    if |n| < 10 then ShortRejection(n)
    else if |n| == 10 && IsDigitString(n) then "+38" + n
    else if |n| == 11 && StartsWith(n, "+0") && IsDigitString(n[2..]) then "+380" + n[2..]
    else if |n| == 10 && StartsWith(n, "+") && IsDigitString(n[1..]) then "+380" + n[1..]
    else if |n| == 12 && IsDigitString(n) then "+" + n
    else if |n| == 13 && StartsWith(n, "+") && IsDigitString(n[1..]) then n
    else if |n| == 11 && StartsWith(n, "0") && IsDigitString(n[1..]) then "+38" + n[1..]
    else LongRejection(n)
  }

  /** Removing the two unreachable branches does not change the function. */
  lemma DeadBranches(number: string)
    ensures NormalizePhone(number) == NormalizeLive(number)
  {
    var n := StripPhone(number);
    if |n| == 13 && StartsWith(n, "+38") {
      assert StartsWith(n, "+");
      assert n[3..] == n[1..][2..];
    }
    if |n| == 12 && StartsWith(n, "380") && IsDigitString(n[3..]) {
      assert n == n[..3] + n[3..];
      assert IsDigitString(n);
    }
  }

  /** "+0" and nine digits: the leading zero becomes "+380". */
  lemma PlusZeroShape(d: string)
    requires |d| == 9 && AllDigits(d)
    ensures NormalizePhone("+0" + d) == "+380" + d
  {
    var n := "+0" + d;
    StripPhoneClean(n);
    assert n[2..] == d;
    assert StartsWith(n, "+0");
  }

  /** '+' and nine digits: the '+' becomes "+380". */
  lemma PlusNineDigitsShape(d: string)
    requires |d| == 9 && AllDigits(d)
    ensures NormalizePhone("+" + d) == "+380" + d
  {
    var n := "+" + d;
    StripPhoneClean(n);
    assert n[1..] == d;
    assert StartsWith(n, "+");
  }

  /** '0' and ten digits: the leading zero gives way to "+38". */
  lemma ZeroTenDigitsShape(d: string)
    requires |d| == 10 && AllDigits(d)
    ensures NormalizePhone("0" + d) == "+38" + d
  {
    var n := "0" + d;
    StripPhoneClean(n);
    assert n[1..] == d;
    assert StartsWith(n, "0");
  }

  /** Twelve digits: only the '+' is added. */
  lemma TwelveDigitsShape(d: string)
    requires |d| == 12 && AllDigits(d)
    ensures NormalizePhone(d) == "+" + d
  {
    StripPhoneClean(d);
  }

  /** Ten digits: the country code "+38" is prepended. */
  lemma TenDigitsShape(d: string)
    requires |d| == 10 && AllDigits(d)
    ensures NormalizePhone(d) == "+38" + d
  {
    StripPhoneClean(d);
  }

  /** A separator (any character other than a digit or '+') anywhere in the
      input does not change the result. */
  lemma SeparatorIgnored(a: string, sep: char, b: string)
    requires !KeptInPhone(sep)
    ensures NormalizePhone(a + [sep] + b) == NormalizePhone(a + b)
  {
    StripPhoneAppend(a + [sep], b);
    StripPhoneAppend(a, [sep]);
    assert StripPhone([sep]) == [];
    StripPhoneAppend(a, b);
    SameDigitsSameNumber(a + [sep] + b, a + b);
  }

  lemma ExampleTooShort()
    ensures StartsWith(NormalizePhone("123"), InvalidPhoneNumber)
  {
    StripPhoneClean("123");
  }

  lemma ExampleNotAPhone()
    ensures IsRejection(NormalizePhone("abc-not-a-phone"))
  {
    StripPhoneNone("abc-not-a-phone");
  }

  /** A string without digits or '+' strips to nothing. */
  lemma {:induction false} StripPhoneNone(s: string)
    requires forall i :: 0 <= i < |s| ==> !KeptInPhone(s[i])
    ensures StripPhone(s) == []
  {
    if s != [] {
      StripPhoneNone(s[1..]);
    }
  }
}
