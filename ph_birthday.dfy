/** personal_helper/birthday.py: the validated birthday field and the
    upcoming-birthdays rule. `datetime.now()` is the parameter `today`; the
    book is the sequence of its (name, birthday attribute) pairs in iteration
    order. */
module PhBirthday {
  import opened Outcomes
  import opened Dates
  import opened Records

  /** `_validate_birthday(value)`: the value itself when `strptime` accepts
      it, `ValueError` otherwise. */
  function ValidateBirthday(v: string): (r: Result<string>)
    ensures r.Ok? <==> ParseDate(v).Some?
    ensures r.Ok? ==> r.value == v
    ensures r.Err? ==> r.error == ValueError
  {
    if ParseDate(v).Some? then Ok(v) else Err(ValueError)
  }

  /** A formatted valid date always passes validation. */
  lemma FormattedDateValidates(d: Date)
    requires ValidDate(d)
    ensures ValidateBirthday(FormatDate(d)) == Ok(FormatDate(d))
  {
    ParseFormat(d);
  }

  class Birthday {
    var value: Option<string>

    /** `Birthday(value)`: the constructor raises `ValueError` for a value
        `strptime` refuses, so it is modelled as a factory with an error
        result. */
    static method New(v: string) returns (r: Result<Birthday>)
      ensures r.Err? <==> ParseDate(v).None?
      ensures r.Err? ==> r.error == ValueError
      ensures r.Ok? ==> fresh(r.value) && r.value.value == Some(v)
    {
      var checked := ValidateBirthday(v);
      if checked.Err? {
        return Err(checked.error);
      }
      var b := new Birthday.Init(checked.value);
      return Ok(b);
    }

    constructor Init(v: string)
      ensures value == Some(v)
    {
      value := Some(v);
    }

    /** `remove_birthday()` */
    method RemoveBirthday()
      modifies this
      ensures value == None
    {
      value := None;
    }
  }

  /** `birthday.replace(year=y)`: fails with `ValueError` when the day does
      not exist in year `y` (29 February) or `y` is past 9999. */
  function Replace(d: Date, y: int): (r: Result<Date>)
    ensures r.Ok? <==> ValidDate(Date(d.day, d.month, y))
    ensures r.Ok? ==> r.value == Date(d.day, d.month, y)
    ensures r.Err? ==> r.error == ValueError
  {
    var c := Date(d.day, d.month, y);
    if ValidDate(c) then Ok(c) else Err(ValueError)
  }

  /** The birthday moved into this year, or into next year when this year's
      date is already past. */
  function Candidate(d: Date, today: Date): (r: Result<Date>)
    requires ValidDate(d) && ValidDate(today)
    ensures r.Ok? ==> r.value.day == d.day && r.value.month == d.month
    ensures r.Ok? ==> r.value.year == today.year || r.value.year == today.year + 1
    ensures r.Ok? ==> ValidDate(r.value) && Ordinal(today) <= Ordinal(r.value)
    ensures r.Ok? && r.value.year == today.year <==>
      Replace(d, today.year).Ok? && Ordinal(today) <= Ordinal(Replace(d, today.year).value)
    ensures r.Ok? && r.value.year == today.year + 1 <==>
      Replace(d, today.year).Ok? && Ordinal(Replace(d, today.year).value) < Ordinal(today) &&
      Replace(d, today.year + 1).Ok?
    ensures r.Err? ==> r.error == ValueError
  {
    var thisYear := Replace(d, today.year);
    if thisYear.Err? then thisYear
    else if Ordinal(thisYear.value) < Ordinal(today) then
      NextYearCandidateLater(d, today);
      Replace(d, today.year + 1)
    else thisYear
  }

  lemma NextYearCandidateLater(d: Date, today: Date)
    requires ValidDate(today)
    ensures Replace(d, today.year + 1).Ok? ==> Ordinal(today) < Ordinal(Replace(d, today.year + 1).value)
  {
    var r := Replace(d, today.year + 1);
    if r.Ok? {
      NextYearIsLater(today, r.value);
    }
  }

  /** A day and month that exist in every year always yield a candidate
      unless the year would pass 9999. */
  lemma CandidateExists(d: Date, today: Date)
    requires ValidDate(d) && ValidDate(today) && today.year < MaxYear
    requires !(d.day == 29 && d.month == 2)
    ensures Candidate(d, today).Ok?
  {
  }

  /** A 29 February birthday fails in a year that is not a leap year. */
  lemma LeapDayFails(d: Date, today: Date)
    requires ValidDate(d) && ValidDate(today)
    requires d.day == 29 && d.month == 2 && !IsLeap(today.year)
    ensures Candidate(d, today) == Err(ValueError)
  {
  }

  /** The candidate date lies within `[today, today + days]`. */
  predicate InWindow(c: Date, today: Date, days: int)
  {
    Ordinal(today) <= Ordinal(c) <= Ordinal(today) + days
  }

  /** One contact's contribution: nothing without a birthday; an error where
      the source raises (a bare string has no `.value`, `strptime(None)` is a
      `TypeError`, an unparsable or unplaceable date a `ValueError`);
      otherwise the (name, DD.MM.YYYY) pair when the candidate date is within
      `[today, today + days]`. */
  function EntryOutcome(name: string, b: BirthdayField, today: Date, days: int): (r: Result<Option<(string, string)>>)
    requires ValidDate(today)
    ensures !BirthdaySet(b) ==> r == Ok(None)
    ensures r.Ok? && r.value.Some? ==> r.value.value.0 == name
    ensures r.Ok? && r.value.Some? ==> BirthdaySet(b) && days >= 0
    ensures r.Ok? && r.value.Some? ==>
      ParseDate(r.value.value.1).Some? &&
      Ordinal(today) <= Ordinal(ParseDate(r.value.value.1).value) <= Ordinal(today) + days
    ensures r == Err(AttributeError) <==> b.BirthdayText? && b.text != ""
    ensures r == Err(TypeError) <==> b == BirthdayObj(None)
    ensures r == Err(ValueError) <==>
      b.BirthdayObj? && b.value.Some? &&
      (ParseDate(b.value.value).None? || Candidate(ParseDate(b.value.value).value, today).Err?)
    ensures (b.BirthdayObj? && b.value.Some? && ParseDate(b.value.value).Some? &&
             Candidate(ParseDate(b.value.value).value, today).Ok?) ==>
        r == if InWindow(Candidate(ParseDate(b.value.value).value, today).value, today, days)
             then Ok(Some((name, FormatDate(Candidate(ParseDate(b.value.value).value, today).value))))
             else Ok(None)
  {
    match b
    case NoBirthday => Ok(None)
    case BirthdayText(t) => if t != "" then Err(AttributeError) else Ok(None)
    case BirthdayObj(v) =>
      if v.None? then Err(TypeError)
      else
        var parsed := ParseDate(v.value);
        if parsed.None? then Err(ValueError)
        else
          var c := Candidate(parsed.value, today);
          if c.Err? then Err(c.error)
          else if InWindow(c.value, today, days) then
            ParseFormat(c.value);
            Ok(Some((name, FormatDate(c.value))))
          else Ok(None)
  }

  /** Adding one contact's outcome to the list built so far; the first
      error wins. */
  function Step(prev: Result<seq<(string, string)>>, e: Result<Option<(string, string)>>): (r: Result<seq<(string, string)>>)
    ensures r.Ok? <==> prev.Ok? && e.Ok?
    ensures r.Ok? ==> |r.value| <= |prev.value| + 1
    ensures prev.Ok? && e.Ok? && e.value.None? ==> r == prev
  {
    if prev.Err? then prev
    else if e.Err? then Err(e.error)
    else if e.value.Some? then Ok(prev.value + [e.value.value])
    else prev
  }

  /** Each contact's outcome, in book order. */
  function ContactOutcomes(entries: seq<(string, BirthdayField)>, today: Date, days: int): (r: seq<Result<Option<(string, string)>>>)
    requires ValidDate(today)
    ensures |r| == |entries|
    ensures forall i :: 0 <= i < |entries| ==> r[i] == EntryOutcome(entries[i].0, entries[i].1, today, days)
  {
    seq(|entries|, i requires 0 <= i < |entries| => EntryOutcome(entries[i].0, entries[i].1, today, days))
  }

  /** The list the loop builds from a run of outcomes. */
  function Fold(outs: seq<Result<Option<(string, string)>>>): (r: Result<seq<(string, string)>>)
    ensures r.Ok? <==> forall i :: 0 <= i < |outs| ==> outs[i].Ok?
    ensures r.Err? ==> exists i :: 0 <= i < |outs| && outs[i] == Err(r.error) && forall j :: 0 <= j < i ==> outs[j].Ok?
    ensures r.Ok? ==> |r.value| <= |outs|
    ensures r.Ok? ==> forall p :: p in r.value ==> Ok(Some(p)) in outs
    ensures r.Ok? ==> forall i :: 0 <= i < |outs| && outs[i].Ok? && outs[i].value.Some? ==> outs[i].value.value in r.value
  {
    if outs == [] then Ok([])
    else
      var init := outs[..|outs| - 1];
      var prev := Fold(init);
      var r := Step(prev, outs[|outs| - 1]);
      assert forall i :: 0 <= i < |init| ==> init[i] == outs[i];
      assert r.Ok? ==> forall p :: p in r.value ==> p in prev.value || outs[|outs| - 1] == Ok(Some(p));
      assert r.Ok? ==> forall p :: p in prev.value ==> p in r.value;
      assert r.Err? && prev.Ok? ==> outs[|outs| - 1] == Err(r.error);
      r
  }

  /** `get_upcoming_birthdays(book, days_ahead)`: `today + timedelta(days)`
      raises `OverflowError` outside the date range before any contact is
      looked at; otherwise the contacts are visited in order. */
  function Upcoming(entries: seq<(string, BirthdayField)>, today: Date, days: int): (r: Result<seq<(string, string)>>)
    requires ValidDate(today)
    ensures Ordinal(today) + days < 1 || Ordinal(today) + days > MaxOrdinal ==> r == Err(OverflowError)
    ensures r.Ok? <==>
      (1 <= Ordinal(today) + days <= MaxOrdinal &&
       forall i :: 0 <= i < |entries| ==> EntryOutcome(entries[i].0, entries[i].1, today, days).Ok?)
    ensures r.Err? && 1 <= Ordinal(today) + days <= MaxOrdinal ==>
      exists i :: 0 <= i < |entries| && EntryOutcome(entries[i].0, entries[i].1, today, days) == Err(r.error) &&
        forall j :: 0 <= j < i ==> EntryOutcome(entries[j].0, entries[j].1, today, days).Ok?
    ensures r.Ok? ==> forall p :: p in r.value ==>
      exists i :: 0 <= i < |entries| && EntryOutcome(entries[i].0, entries[i].1, today, days) == Ok(Some(p))
    ensures r.Ok? ==> forall i ::
      (0 <= i < |entries| && EntryOutcome(entries[i].0, entries[i].1, today, days).Ok? &&
       EntryOutcome(entries[i].0, entries[i].1, today, days).value.Some?) ==>
        EntryOutcome(entries[i].0, entries[i].1, today, days).value.value in r.value
  {
    var target := Ordinal(today) + days;
    if target < 1 || target > MaxOrdinal then Err(OverflowError) else Fold(ContactOutcomes(entries, today, days))
  }

  /** The loop of `get_upcoming_birthdays`. */
  method GetUpcomingBirthdays(entries: seq<(string, BirthdayField)>, today: Date, days: int)
    returns (r: Result<seq<(string, string)>>)
    requires ValidDate(today)
    ensures r == Upcoming(entries, today, days)
  {
    var target := Ordinal(today) + days;
    if target < 1 || target > MaxOrdinal {
      return Err(OverflowError);
    }
    ghost var outs := ContactOutcomes(entries, today, days);
    var upcoming: seq<(string, string)> := [];
    var i := 0;
    while i < |entries|
      invariant 0 <= i <= |entries|
      invariant Fold(outs[..i]) == Ok(upcoming)
    {
      assert outs[..i + 1][..i] == outs[..i];
      var e := EntryOutcome(entries[i].0, entries[i].1, today, days);
      if e.Err? {
        assert Fold(outs[..i + 1]) == Err(e.error);
        ErrorPersists(outs, i + 1);
        return Err(e.error);
      }
      if e.value.Some? {
        upcoming := upcoming + [e.value.value];
      }
      i := i + 1;
    }
    assert outs[..i] == outs;
    r := Ok(upcoming);
  }

  /** Once a contact raises, the whole call raises that error. */
  lemma {:induction false} ErrorPersists(outs: seq<Result<Option<(string, string)>>>, n: nat)
    requires n <= |outs| && Fold(outs[..n]).Err?
    ensures Fold(outs) == Fold(outs[..n])
    decreases |outs| - n
  {
    if n < |outs| {
      assert outs[..n + 1][..n] == outs[..n];
      ErrorPersists(outs, n + 1);
    } else {
      assert outs[..n] == outs;
    }
  }

  /** The result for two stretches of outcomes is the two results in turn. */
  lemma {:induction false} FoldAppend(x: seq<Result<Option<(string, string)>>>, y: seq<Result<Option<(string, string)>>>)
    requires Fold(x).Ok? && Fold(y).Ok?
    ensures Fold(x + y) == Ok(Fold(x).value + Fold(y).value)
    decreases |y|
  {
    if y == [] {
      assert x + y == x;
      assert Fold(x).value + [] == Fold(x).value;
    } else {
      var init, last := y[..|y| - 1], y[|y| - 1];
      assert (x + y)[..|x + y| - 1] == x + init && (x + y)[|x + y| - 1] == last;
      FoldAppend(x, init);
      StepShift(Fold(x).value, Fold(init).value, last);
    }
  }

  lemma StepShift(ca: seq<(string, string)>, ci: seq<(string, string)>, e: Result<Option<(string, string)>>)
    requires Step(Ok(ci), e).Ok?
    ensures Step(Ok(ca + ci), e) == Ok(ca + Step(Ok(ci), e).value)
  {
    if e.Ok? && e.value.Some? {
      assert (ca + ci) + [e.value.value] == ca + (ci + [e.value.value]);
    }
  }

  /** Two stretches of the book give their two lists in turn: at most one
      entry per contact, in book order. */
  lemma UpcomingAppend(a: seq<(string, BirthdayField)>, b: seq<(string, BirthdayField)>, today: Date, days: int)
    requires ValidDate(today)
    requires Upcoming(a, today, days).Ok? && Upcoming(b, today, days).Ok?
    ensures Upcoming(a + b, today, days) == Ok(Upcoming(a, today, days).value + Upcoming(b, today, days).value)
  {
    OutcomesAppend(a, b, today, days);
    FoldAppend(ContactOutcomes(a, today, days), ContactOutcomes(b, today, days));
  }

  lemma OutcomesAppend(a: seq<(string, BirthdayField)>, b: seq<(string, BirthdayField)>, today: Date, days: int)
    requires ValidDate(today)
    ensures ContactOutcomes(a + b, today, days) == ContactOutcomes(a, today, days) + ContactOutcomes(b, today, days)
  {
  }

  /** Every listed date parses back to a day within `[today, today + days]`;
      in particular a negative `days` lists nobody. */
  lemma UpcomingInWindow(entries: seq<(string, BirthdayField)>, today: Date, days: int)
    requires ValidDate(today) && Upcoming(entries, today, days).Ok?
    ensures forall p :: p in Upcoming(entries, today, days).value ==>
      ParseDate(p.1).Some? && Ordinal(today) <= Ordinal(ParseDate(p.1).value) <= Ordinal(today) + days
    ensures days < 0 ==> Upcoming(entries, today, days).value == []
  {
    var outs := ContactOutcomes(entries, today, days);
    var r := Upcoming(entries, today, days).value;
    forall p | p in r
      ensures ParseDate(p.1).Some? && Ordinal(today) <= Ordinal(ParseDate(p.1).value) <= Ordinal(today) + days
    {
      assert Ok(Some(p)) in outs;
    }
    if r != [] {
      assert r[0] in r;
    }
  }

  /** The converse of `UpcomingInWindow`: when no contact raises, every
      contact whose birthday falls within `[today, today + days]` is listed,
      under its name and with its candidate date. */
  lemma UpcomingComplete(entries: seq<(string, BirthdayField)>, today: Date, days: int, i: int, d: Date)
    requires ValidDate(today) && Upcoming(entries, today, days).Ok?
    requires 0 <= i < |entries| && entries[i].1.BirthdayObj? && entries[i].1.value.Some?
    requires ParseDate(entries[i].1.value.value) == Some(d)
    requires Candidate(d, today).Ok? && InWindow(Candidate(d, today).value, today, days)
    ensures (entries[i].0, FormatDate(Candidate(d, today).value)) in Upcoming(entries, today, days).value
  {
    assert EntryOutcome(entries[i].0, entries[i].1, today, days) == Ok(Some((entries[i].0, FormatDate(Candidate(d, today).value))));
  }
}
