/** The regular expressions of the source, each restated as a predicate over
    the characters of the matched string. All are applied with Python's
    `re.match`, which anchors at the start of the string. */
module Patterns {
  import opened Text

  /** `[a-zA-Z0-9._%+-]` */
  predicate LocalChar(c: char)
  {
    IsLetter(c) || IsDigit(c) || c == '.' || c == '_' || c == '%' || c == '+' || c == '-'
  }

  /** `[a-zA-Z0-9.-]` */
  predicate DomainChar(c: char)
  {
    IsLetter(c) || IsDigit(c) || c == '.' || c == '-'
  }

  /** `^[a-zA-Z0-9._%+-]+@[a-zA-Z0-9.-]+\.[a-zA-Z]{2,}$`. The local part cannot
      hold '@', so it ends at the first '@'. */
  predicate EmailMatch(s: string)
  {
    var at := IndexOfChar(s, '@');
    at > 0 && LocalPart(s[..at]) && DomainTail(s[at + 1..])
  }

  predicate LocalPart(s: string)
  {
    forall i :: 0 <= i < |s| ==> LocalChar(s[i])
  }

  /** What follows the '@'. The top-level domain cannot hold '.', so it
      starts after the last '.'. */
  predicate DomainTail(rest: string)
  {
    var dot := LastIndexOfChar(rest, '.');
    dot > 0 && (forall i :: 0 <= i < dot ==> DomainChar(rest[i])) &&
    |rest| - dot - 1 >= 2 && AllLetters(rest[dot + 1..])
  }

  /** The parts the email pattern is built from. */
  predicate EmailParts(local: string, domain: string, tld: string)
  {
    && local != [] && LocalPart(local)
    && domain != [] && (forall i :: 0 <= i < |domain| ==> DomainChar(domain[i]))
    && |tld| >= 2 && AllLetters(tld)
  }

  /** Every string assembled from valid parts matches the email pattern. */
  lemma EmailFromParts(local: string, domain: string, tld: string)
    requires EmailParts(local, domain, tld)
    ensures EmailMatch(local + "@" + domain + "." + tld)
  {
    var rest := domain + "." + tld;
    var s := local + ("@" + rest);
    assert local + "@" + domain + "." + tld == s;
    assert '@' !in local by {
      forall i | 0 <= i < |local| ensures local[i] != '@' { assert LocalChar(local[i]); }
    }
    IndexOfCharAt(local, '@', "@" + rest);
    assert s[..|local|] == local;
    assert s[|local| + 1..] == rest;
    DomainFromParts(domain, tld);
  }

  lemma DomainFromParts(domain: string, tld: string)
    requires domain != [] && (forall i :: 0 <= i < |domain| ==> DomainChar(domain[i]))
    requires |tld| >= 2 && AllLetters(tld)
    ensures DomainTail(domain + "." + tld)
  {
    var rest := domain + "." + tld;
    assert '.' !in tld by {
      forall i | 0 <= i < |tld| ensures tld[i] != '.' { assert IsLetter(tld[i]); }
    }
    LastDotAt(domain, tld);
    assert rest[|domain| + 1..] == tld;
    assert forall i :: 0 <= i < |domain| ==> rest[i] == domain[i];
  }

  /** Every string that matches the email pattern splits into valid parts. */
  lemma EmailToParts(s: string)
    requires EmailMatch(s)
    ensures exists local, domain, tld :: EmailParts(local, domain, tld) && s == local + "@" + domain + "." + tld
  {
    var at := IndexOfChar(s, '@');
    var rest := s[at + 1..];
    var dot := LastIndexOfChar(rest, '.');
    var local, domain, tld := s[..at], rest[..dot], rest[dot + 1..];
    assert rest == domain + "." + tld;
    assert s == local + "@" + rest;
    assert EmailParts(local, domain, tld);
  }

  lemma LastDotAt(domain: string, tld: string)
    requires '.' !in tld
    ensures LastIndexOfChar(domain + "." + tld, '.') == |domain|
    decreases |tld|
  {
    var s := domain + "." + tld;
    if tld != [] {
      assert s[..|s| - 1] == domain + "." + tld[..|tld| - 1];
      LastDotAt(domain, tld[..|tld| - 1]);
    }
  }

  /** `\d{2}\.\d{2}\.\d{4}` followed by the end of the string. */
  predicate DateShaped(s: string)
  {
    |s| == 10 && s[2] == '.' && s[5] == '.' &&
    IsDigit(s[0]) && IsDigit(s[1]) && IsDigit(s[3]) && IsDigit(s[4]) &&
    IsDigit(s[6]) && IsDigit(s[7]) && IsDigit(s[8]) && IsDigit(s[9])
  }

  /** `query.isdigit() or query.startswith("+")`: the address books take
      such a query for a phone number. */
  predicate PhoneQuery(query: string)
  {
    IsDigitString(query) || StartsWith(query, "+")
  }

  /** `^\d{10,13}$` */
  predicate PhoneToken(s: string)
  {
    10 <= |s| <= 13 && AllDigits(s)
  }

  /** `[^@]+@[^@]+\.[^@]+` matched at the start (the rest of the string is not
      examined): a non-empty '@'-free head, the first '@', and then, within the
      following run of '@'-free characters, a '.' with at least one character
      on each side. */
  predicate LooseEmail(s: string)
  {
    var at := IndexOfChar(s, '@');
    at > 0 &&
    var rest := s[at + 1..];
    var next := IndexOfChar(rest, '@');
    var run := if next < 0 then rest else rest[..next];
    exists k :: 1 <= k < |run| - 1 && run[k] == '.'
  }

  /** A token cannot be two of the kinds at once: the classifiers' order only
      matters between the email and address cases. */
  lemma KindsDisjoint(s: string)
    ensures !(PhoneToken(s) && DateShaped(s))
    ensures PhoneToken(s) ==> !EmailMatch(s) && !LooseEmail(s)
    ensures DateShaped(s) ==> !EmailMatch(s) && !LooseEmail(s)
  {
    if PhoneToken(s) {
      assert '@' !in s by {
        forall i | 0 <= i < |s| ensures s[i] != '@' { assert IsDigit(s[i]); }
      }
    }
    if DateShaped(s) {
      assert '@' !in s by {
        forall i | 0 <= i < |s| ensures s[i] != '@' { assert i == 2 || i == 5 || IsDigit(s[i]); }
      }
    }
  }
}
