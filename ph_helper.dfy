/** personal_helper/helper.py: `parse_input` and the `add` command, which
    sorts its extra tokens into a second phone, a birthday and an email and
    then updates or creates a record of personal_helper/address_book.py.
    Printing and the loop itself are not modelled; an exception that would
    end the REPL becomes `Err`. */
module PhHelper {
  import opened Outcomes
  import opened Text
  import opened Patterns
  import opened Records
  import opened Dates
  import opened Seqs
  import opened SrcValidators
  import SrcPhone
  import SrcHelper
  import opened PhAddressBook

  /** `parse_input(s)`: the command is the first whitespace-separated word,
      lower-cased; blank input has no `parts[0]`. */
  function ParseInput(s: string): (r: Result<(string, seq<string>)>)
    ensures r.Err? <==> SplitWhitespace(s) == []
    ensures r.Err? ==> r.error == IndexError
    ensures r.Ok? ==> r.value.0 == Lower(SplitWhitespace(s)[0]) && r.value.1 == SplitWhitespace(s)[1..]
  {
    var parts := SplitWhitespace(s);
    if parts == [] then Err(IndexError)
    else
      StripNoSpace(parts[0]);
      Ok((Lower(Strip(parts[0])), parts[1..]))
  }

  /** Words typed with single spaces come back as the command and its
      arguments. */
  lemma ParseInputWords(words: seq<string>)
    requires words != [] && forall i :: 0 <= i < |words| ==> words[i] != [] && NoSpace(words[i])
    ensures ParseInput(JoinSpace(words)) == Ok((Lower(words[0]), words[1..]))
  {
    SplitJoin(words);
  }

  /** Input made only of whitespace raises `IndexError`. */
  lemma BlankInputFails(s: string)
    requires forall i :: 0 <= i < |s| ==> IsSpace(s[i])
    ensures ParseInput(s) == Err(IndexError)
  {
    var t := TrimLeft(s);
    assert t == s[|s| - |t|..];
  }

  // ---------------------------------------------------------------------
  // Sorting the extra `add` tokens

  datatype TokenKind = SecondPhone | BirthdayToken | EmailToken | Ignored

  /** The tests of the classifying loop, in their order; the email test is
      the loose `[^@]+@[^@]+\.[^@]+` prefix match. */
  function KindOf(arg: string): TokenKind
  {
    if PhoneToken(arg) then SecondPhone
    else if DateShaped(arg) then BirthdayToken
    else if LooseEmail(arg) then EmailToken
    else Ignored
  }

  datatype Extras = Extras(phone2: Option<string>, birthday: Option<string>, email: Option<string>)

  function ClassifyStep(x: Extras, arg: string): Extras
  {
    match KindOf(arg)
    case SecondPhone => if !Truthy(x.phone2) then x.(phone2 := Some(arg)) else x
    case BirthdayToken => x.(birthday := Some(arg))
    case EmailToken => x.(email := Some(arg))
    case Ignored => x
  }

  /** The loop over `args[2:]`, as a left fold. */
  function ClassifyAll(args: seq<string>): Extras
  {
    if args == [] then Extras(None, None, None)
    else ClassifyStep(ClassifyAll(args[..|args| - 1]), args[|args| - 1])
  }

  /** The tokens of one kind, in order. */
  function OfKind(args: seq<string>, k: TokenKind): (r: seq<string>)
    ensures |r| <= |args|
    ensures forall t :: t in r ==> t in args && KindOf(t) == k
  {
    if args == [] then []
    else
      var p := args[..|args| - 1];
      var a := args[|args| - 1];
      assert forall t :: t in p ==> t in args;
      OfKind(p, k) + (if KindOf(a) == k then [a] else [])
  }

  /** The first phone token is the second phone. */
  lemma {:induction false} ClassifyPhone(args: seq<string>)
    ensures ClassifyAll(args).phone2 == SrcHelper.First(OfKind(args, SecondPhone))
  {
    if args != [] {
      var p := args[..|args| - 1];
      ClassifyPhone(p);
      var phones := OfKind(p, SecondPhone);
      if phones != [] {
        assert phones[0] in phones;
        assert PhoneToken(phones[0]);
        assert Truthy(ClassifyAll(p).phone2);
      }
    }
  }

  /** The last date-shaped token is the birthday. */
  lemma {:induction false} ClassifyBirthday(args: seq<string>)
    ensures ClassifyAll(args).birthday == SrcHelper.Last(OfKind(args, BirthdayToken))
  {
    if args != [] {
      var p := args[..|args| - 1];
      var a := args[|args| - 1];
      ClassifyBirthday(p);
      assert ClassifyAll(args) == ClassifyStep(ClassifyAll(p), a);
      assert OfKind(args, BirthdayToken) ==
        OfKind(p, BirthdayToken) + (if KindOf(a) == BirthdayToken then [a] else []);
    }
  }

  /** The last email-shaped token is the email. */
  lemma {:induction false} ClassifyEmail(args: seq<string>)
    ensures ClassifyAll(args).email == SrcHelper.Last(OfKind(args, EmailToken))
  {
    if args != [] {
      var p := args[..|args| - 1];
      var a := args[|args| - 1];
      ClassifyEmail(p);
      assert ClassifyAll(args) == ClassifyStep(ClassifyAll(p), a);
      assert OfKind(args, EmailToken) ==
        OfKind(p, EmailToken) + (if KindOf(a) == EmailToken then [a] else []);
    }
  }

  /** An ignored token changes nothing wherever it appears. */
  lemma {:induction false} IgnoredTokensDropOut(a: seq<string>, t: string, b: seq<string>)
    requires KindOf(t) == Ignored
    ensures ClassifyAll(a + [t] + b) == ClassifyAll(a + b)
  {
    if b == [] {
      assert (a + [t] + b)[..|a + [t] + b| - 1] == a;
      assert a + b == a;
    } else {
      var b' := b[..|b| - 1];
      IgnoredTokensDropOut(a, t, b');
      assert (a + [t] + b)[..|a + [t] + b| - 1] == a + [t] + b';
      assert (a + b)[..|a + b| - 1] == a + b';
    }
  }

  /** The classifying loop, with one variable per field. */
  method ClassifyExtras(args: seq<string>) returns (x: Extras)
    ensures x == ClassifyAll(args)
  {
    var phone2: Option<string> := None;
    var birthday: Option<string> := None;
    var email: Option<string> := None;
    var i := 0;
    while i < |args|
      invariant 0 <= i <= |args|
      invariant Extras(phone2, birthday, email) == ClassifyAll(args[..i])
    {
      assert args[..i + 1][..i] == args[..i];
      var arg := args[i];
      if PhoneToken(arg) {
        if !Truthy(phone2) {
          phone2 := Some(arg);
        }
      } else if DateShaped(arg) {
        birthday := Some(arg);
      } else if LooseEmail(arg) {
        email := Some(arg);
      }
      i := i + 1;
    }
    assert args[..i] == args;
    x := Extras(phone2, birthday, email);
  }

  // ---------------------------------------------------------------------
  // The `add` merge and create flow

  /** The state a merge leaves an existing contact in: phones as in the src
      helper; a birthday `strptime` refuses raises `ValueError` before the
      email is touched; otherwise the email token is assigned as it is. */
  twostate predicate MergedInto(contact: Record, phone: string, x: Extras, new r: Result<()>)
    reads contact, contact.phones
  {
    !IsRejection(NormalizePhone(phone)) &&
    contact.name == old(contact.name) &&
    contact.phones.value == SrcHelper.MergedPhones(old(contact.phones.value), phone, x.phone2) &&
    if Truthy(x.birthday) && DateShaped(x.birthday.value) && ParseDate(x.birthday.value).None? then
      r == Err(ValueError) && contact.birthday == old(contact.birthday) && contact.email == old(contact.email)
    else
      r == Ok(()) &&
      contact.birthday == (if Truthy(x.birthday) && DateShaped(x.birthday.value) then BirthdayObj(x.birthday)
                           else old(contact.birthday)) &&
      contact.email == if Truthy(x.email) then x.email else old(contact.email)
  }

  /** The `if contact:` branch of `add`. */
  method Merge(contact: Record, phone: string, x: Extras) returns (r: Result<()>)
    requires !IsRejection(NormalizePhone(phone))
    modifies contact, contact.phones
    ensures MergedInto(contact, phone, x, r)
  {
    var normalized := NormalizePhone(phone);
    NormalizeIdempotent(phone);
    var added := contact.phones.AddPhone(normalized);
    if Truthy(x.phone2) {
      var normalized2 := NormalizePhone(x.phone2.value);
      if !IsRejection(normalized2) {
        NormalizeIdempotent(x.phone2.value);
        added := contact.phones.AddPhone(normalized2);
      }
    }
    if Truthy(x.birthday) {
      if DateShaped(x.birthday.value) {
        var b := contact.AddBirthday(x.birthday.value);
        if b.Err? {
          return Err(b.error);
        }
      }
    }
    if Truthy(x.email) {
      contact.email := x.email;
    }
    r := Ok(());
  }

  /** The record `add` creates from the raw phones. */
  predicate CreatedFrom(rec: Record, name: string, phone: string, x: Extras)
    reads rec, rec.phones
  {
    rec.name == name &&
    rec.phones.value == SrcPhone.NormalizeAll([phone] + (if Truthy(x.phone2) then [x.phone2.value] else [])) &&
    rec.birthday == (if Truthy(x.birthday) then BirthdayObj(x.birthday) else NoBirthday) &&
    rec.email == x.email
  }

  datatype AddStatus = MissingArguments | InvalidPhone | Merged | Created

  /** `add name phone [extras…]` */
  method AddContact(book: AddressBook, args: seq<string>) returns (r: Result<AddStatus>)
    requires book.Valid()
    modifies book, book.data.Values, set rec | rec in book.data.Values :: rec.phones
    ensures book.Valid()
    ensures |args| < 2 || IsRejection(NormalizePhone(args[1])) ==>
      r == Ok(if |args| < 2 then MissingArguments else InvalidPhone) && unchanged(book) &&
      forall rec :: rec in book.data.Values ==> unchanged(rec) && unchanged(rec.phones)
    ensures |args| >= 2 && !IsRejection(NormalizePhone(args[1])) ==>
      var x := ClassifyAll(args[2..]);
      var found := old(book.Lookup(args[0]));
      (found.Err? ==>
        r == Err(found.error) && unchanged(book) &&
        forall rec :: rec in book.data.Values ==> unchanged(rec) && unchanged(rec.phones)) &&
      (found == Ok(None) && Truthy(x.birthday) && ParseDate(x.birthday.value).None? ==>
        r == Err(ValueError) && unchanged(book) &&
        forall rec :: rec in old(book.data.Values) ==> unchanged(rec) && unchanged(rec.phones)) &&
      (found == Ok(None) && !(Truthy(x.birthday) && ParseDate(x.birthday.value).None?) ==>
        r == Ok(Created) && args[0] in book.data && fresh(book.data[args[0]]) &&
        book.data == old(book.data)[args[0] := book.data[args[0]]] &&
        book.order == AppendIfAbsent(old(book.order), args[0]) &&
        CreatedFrom(book.data[args[0]], args[0], args[1], x) &&
        forall rec :: rec in old(book.data.Values) ==> unchanged(rec) && unchanged(rec.phones)) &&
      (found.Ok? && found.value.Some? ==>
        unchanged(book) &&
        (exists m :: MergedInto(found.value.value, args[1], x, m) &&
          r == if m.Err? then Err(m.error) else Ok(Merged)) &&
        forall rec :: rec in old(book.data.Values) && rec != found.value.value ==>
          unchanged(rec) && (rec.phones != found.value.value.phones ==> unchanged(rec.phones)))
  {
    if |args| < 2 {
      return Ok(MissingArguments);
    }
    var name := args[0];
    var phone := args[1];
    var x := ClassifyExtras(args[2..]);
    var normalized := NormalizePhone(phone);
    if IsRejection(normalized) {
      return Ok(InvalidPhone);
    }
    var found := book.FindAddress(name);
    if found.Err? {
      return Err(found.error);
    }
    if found.value.Some? {
      var contact := found.value.value;
      var m := Merge(contact, phone, x);
      r := if m.Err? then Err(m.error) else Ok(Merged);
      return;
    }
    var created := CreateContact(book, name, phone, x);
    r := if created.Err? then Err(created.error) else Ok(Created);
  }

  /** The create branch of `add_contact`: a new record from the phone, a
      truthy second phone, the birthday and the email, stored under its name;
      the `Record` constructor raises `ValueError` for a birthday `strptime`
      refuses, before the book is touched. Only the book changes, so every
      existing record stays as it was. */
  method CreateContact(book: AddressBook, name: string, phone: string, x: Extras) returns (r: Result<()>)
    requires book.Valid()
    modifies book
    ensures book.Valid()
    ensures forall rec :: rec in old(book.data.Values) ==> unchanged(rec) && unchanged(rec.phones)
    ensures r.Err? <==> Truthy(x.birthday) && ParseDate(x.birthday.value).None?
    ensures r.Err? ==> r.error == ValueError && unchanged(book)
    ensures r.Ok? ==>
      name in book.data && fresh(book.data[name]) &&
      book.data == old(book.data)[name := book.data[name]] &&
      book.order == AppendIfAbsent(old(book.order), name) &&
      CreatedFrom(book.data[name], name, phone, x)
  {
    var phones := [phone];
    if Truthy(x.phone2) {
      phones := phones + [x.phone2.value];
    }
    var record := Record.New(name, phones, x.birthday, x.email);
    if record.Err? {
      return Err(record.error);
    }
    book.AddAddress(record.value);
    r := Ok(());
  }
}
