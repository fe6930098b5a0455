/** src/helper.py: the REPL's argument handling. `parse_input`, the sorting
    of the extra `add_contact` tokens, the `add_contact` merge/create flow and
    the `|`-splitting and format gates of `change_name`, `change_address` and
    `change_birthday`. Printing, colouring and the loop itself are not
    modelled; a Python exception that would end the REPL becomes `Err`. */
module SrcHelper {
  import opened Outcomes
  import opened Text
  import opened Seqs
  import opened Patterns
  import opened Records
  import opened SrcValidators
  import SrcPhone
  import opened SrcContactBook

  /** `COMMANDS` */
  const Commands: seq<string> := [
    "help", "hello", "exit", "cancel", "add_contact", "add_birthday", "add_email",
    "add_address", "add_note", "show_all_contacts", "show_phone", "show_birthday",
    "show_email", "show_address", "show_upcoming_birthdays", "change_name",
    "change_phone", "change_birthday", "change_email", "change_address", "change_note",
    "del_contact", "del_phone", "del_birthday", "del_email", "del_address",
    "find_contact", "del_note", "find_note_by_title", "find_note_by_tag", "show_all_notes"]

  /** `parse_input(tokens)`: `(None, None)` becomes `None`. */
  function ParseInput(tokens: seq<string>): (r: Option<(string, seq<string>)>)
    ensures r.Some? <==> tokens != [] && Lower(tokens[0]) in Commands
    ensures r.Some? ==> r.value.0 in Commands && r.value.0 == Lower(tokens[0]) && r.value.1 == tokens[1..]
  {
    if tokens == [] then None
    else
      var command := Lower(tokens[0]);
      if command !in Commands then None else Some((command, tokens[1..]))
  }

  /** The command word is matched ignoring case. */
  lemma ParseInputIgnoresCase(word: string, args: seq<string>)
    ensures ParseInput([Lower(word)] + args) == ParseInput([word] + args)
  {
    LowerIdempotent(word);
    assert ([word] + args)[1..] == args;
    assert ([Lower(word)] + args)[1..] == args;
  }

  // ---------------------------------------------------------------------
  // Sorting the extra `add_contact` tokens

  datatype TokenKind = SecondPhone | BirthdayToken | EmailToken | AddressText

  /** The tests of the classifying loop, in their order. */
  function KindOf(arg: string): TokenKind
  {
    if PhoneToken(arg) then SecondPhone
    else if DateShaped(arg) then BirthdayToken
    else if EmailMatch(arg) then EmailToken
    else AddressText
  }

  datatype Extras = Extras(phone2: Option<string>, birthday: Option<string>, email: Option<string>,
                           address: Option<string>)

  /** One pass of the loop body: the first phone token is kept, a later date
      or email replaces an earlier one, other tokens are appended to the
      address with a single space. */
  function ClassifyStep(x: Extras, arg: string): Extras
  {
    match KindOf(arg)
    case SecondPhone => if !Truthy(x.phone2) then x.(phone2 := Some(arg)) else x
    case BirthdayToken => x.(birthday := Some(arg))
    case EmailToken => x.(email := Some(arg))
    case AddressText =>
      x.(address := if x.address.None? then Some(arg) else Some(x.address.value + " " + arg))
  }

  /** The loop over `args[2:]`, as a left fold. */
  function ClassifyAll(args: seq<string>): Extras
  {
    if args == [] then Extras(None, None, None, None)
    else ClassifyStep(ClassifyAll(args[..|args| - 1]), args[|args| - 1])
  }

  /** The tokens of one kind, in order. */
  function OfKind(args: seq<string>, k: TokenKind): (r: seq<string>)
    ensures |r| <= |args|
    ensures forall t :: t in r ==> t in args && KindOf(t) == k
  {
    if args == [] then []
    else
      var p := args[..|args| - 1];
      var a := args[|args| - 1];
      var r := OfKind(p, k) + (if KindOf(a) == k then [a] else []);
      assert forall t :: t in p ==> t in args;
      r
  }

  function First(s: seq<string>): Option<string>
  {
    if s == [] then None else Some(s[0])
  }

  function Last(s: seq<string>): Option<string>
  {
    if s == [] then None else Some(s[|s| - 1])
  }

  /** What the loop computes, stated against the tokens of each kind: the
      first phone token is the second phone. */
  lemma {:induction false} ClassifyPhone(args: seq<string>)
    ensures ClassifyAll(args).phone2 == First(OfKind(args, SecondPhone))
  {
    if args != [] {
      var p := args[..|args| - 1];
      ClassifyPhone(p);
      var phones := OfKind(p, SecondPhone);
      if phones != [] {
        assert phones[0] in phones;
        assert PhoneToken(phones[0]);
        assert Truthy(ClassifyAll(p).phone2);
      }
    }
  }

  /** The last date-shaped token is the birthday. */
  lemma {:induction false} ClassifyBirthday(args: seq<string>)
    ensures ClassifyAll(args).birthday == Last(OfKind(args, BirthdayToken))
  {
    if args != [] {
      var p := args[..|args| - 1];
      var a := args[|args| - 1];
      ClassifyBirthday(p);
      assert ClassifyAll(args) == ClassifyStep(ClassifyAll(p), a);
      assert OfKind(args, BirthdayToken) ==
        OfKind(p, BirthdayToken) + (if KindOf(a) == BirthdayToken then [a] else []);
    }
  }

  /** The last email-shaped token is the email. */
  lemma {:induction false} ClassifyEmail(args: seq<string>)
    ensures ClassifyAll(args).email == Last(OfKind(args, EmailToken))
  {
    if args != [] {
      var p := args[..|args| - 1];
      var a := args[|args| - 1];
      ClassifyEmail(p);
      assert ClassifyAll(args) == ClassifyStep(ClassifyAll(p), a);
      assert OfKind(args, EmailToken) ==
        OfKind(p, EmailToken) + (if KindOf(a) == EmailToken then [a] else []);
    }
  }

  /** All remaining tokens, joined by single spaces, are the address. */
  lemma {:induction false} ClassifyAddress(args: seq<string>)
    ensures ClassifyAll(args).address ==
      if OfKind(args, AddressText) == [] then None else Some(JoinSpace(OfKind(args, AddressText)))
  {
    if args != [] {
      var p := args[..|args| - 1];
      var a := args[|args| - 1];
      ClassifyAddress(p);
      var words := OfKind(p, AddressText);
      var x := ClassifyAll(p);
      assert ClassifyAll(args) == ClassifyStep(x, a);
      if KindOf(a) != AddressText {
        assert OfKind(args, AddressText) == words;
      } else if words == [] {
        assert OfKind(args, AddressText) == [a];
        assert Join(" ", [a]) == a;
      } else {
        var all := words + [a];
        assert OfKind(args, AddressText) == all;
        assert all[..|all| - 1] == words;
        assert JoinSpace(all) == JoinSpace(words) + " " + a;
      }
    }
  }

  /** Every token lands in exactly one of the four places. */
  lemma {:induction false} ClassifyPartition(args: seq<string>)
    ensures multiset(args) ==
      multiset(OfKind(args, SecondPhone)) + multiset(OfKind(args, BirthdayToken)) +
      multiset(OfKind(args, EmailToken)) + multiset(OfKind(args, AddressText))
  {
    if args != [] {
      var p := args[..|args| - 1];
      var a := args[|args| - 1];
      assert args == p + [a];
      ClassifyPartition(p);
      OfKindLast(args, SecondPhone);
      OfKindLast(args, BirthdayToken);
      OfKindLast(args, EmailToken);
      OfKindLast(args, AddressText);
    }
  }

  lemma OfKindLast(args: seq<string>, k: TokenKind)
    requires args != []
    ensures multiset(OfKind(args, k)) == multiset(OfKind(args[..|args| - 1], k)) +
      if KindOf(args[|args| - 1]) == k then multiset{args[|args| - 1]} else multiset{}
  {
  }

  /** A `+`-prefixed number is not a phone token and ends up in the address. */
  lemma PlusNumberIsAddress(t: string)
    requires StartsWith(t, "+") && '@' !in t
    ensures KindOf(t) == AddressText
  {
    assert !IsDigit(t[0]);
  }

  /** The classifying loop, with one variable per field. */
  method ClassifyExtras(args: seq<string>) returns (x: Extras)
    ensures x == ClassifyAll(args)
  {
    var phone2: Option<string> := None;
    var birthday: Option<string> := None;
    var email: Option<string> := None;
    var address: Option<string> := None;
    var i := 0;
    while i < |args|
      invariant 0 <= i <= |args|
      invariant Extras(phone2, birthday, email, address) == ClassifyAll(args[..i])
    {
      assert args[..i + 1][..i] == args[..i];
      var arg := args[i];
      if PhoneToken(arg) {
        if !Truthy(phone2) {
          phone2 := Some(arg);
        }
      } else if DateShaped(arg) {
        birthday := Some(arg);
      } else if EmailMatch(arg) {
        email := Some(arg);
      } else if address.None? {
        address := Some(arg);
      } else {
        address := Some(address.value + " " + arg);
      }
      i := i + 1;
    }
    assert args[..i] == args;
    x := Extras(phone2, birthday, email, address);
  }

  // ---------------------------------------------------------------------
  // The `add_contact` merge and create flow

  /** An existing contact's phones after the merge: the primary number, then
      the second one when it is valid, each added only if absent. */
  function MergedPhones(v: seq<string>, phone: string, phone2: Option<string>): (r: seq<string>)
    requires !IsRejection(NormalizePhone(phone))
    ensures NormalizePhone(phone) in r
    ensures |v| <= |r| <= |v| + 2 && r[..|v|] == v
    ensures Truthy(phone2) && !IsRejection(NormalizePhone(phone2.value)) ==> NormalizePhone(phone2.value) in r
    ensures forall y :: y in r && y !in v ==>
      y == NormalizePhone(phone) || (Truthy(phone2) && y == NormalizePhone(phone2.value))
    ensures forall y :: y in r && y !in v ==> !IsRejection(y)
  {
    var v1 := AppendIfAbsent(v, NormalizePhone(phone));
    if Truthy(phone2) && !IsRejection(NormalizePhone(phone2.value)) then
      AppendIfAbsent(v1, NormalizePhone(phone2.value))
    else
      v1
  }

  /** Merging keeps a duplicate-free collection duplicate-free, and merging
      the same tokens again changes nothing. */
  lemma MergedPhonesNoDup(v: seq<string>, phone: string, phone2: Option<string>)
    requires !IsRejection(NormalizePhone(phone)) && NoDup(v)
    ensures NoDup(MergedPhones(v, phone, phone2))
    ensures MergedPhones(MergedPhones(v, phone, phone2), phone, phone2) == MergedPhones(v, phone, phone2)
  {
    var c := NormalizePhone(phone);
    var v1 := AppendIfAbsent(v, c);
    AppendIfAbsentNoDup(v, c);
    AppendIfAbsentIdempotent(v, c);
    if Truthy(phone2) && !IsRejection(NormalizePhone(phone2.value)) {
      var c2 := NormalizePhone(phone2.value);
      var w := AppendIfAbsent(v1, c2);
      AppendIfAbsentNoDup(v1, c2);
      AppendIfAbsentIdempotent(v1, c2);
      assert c in w;
      assert AppendIfAbsent(w, c) == w;
    } else {
      AppendIfAbsentIdempotent(v, c);
    }
  }

  /** The state a merge leaves an existing contact in. With an email token,
      `add_email` runs (and may raise) and the address is skipped; without
      one, a non-empty address replaces the stored one. */
  twostate predicate MergedInto(contact: Record, phone: string, x: Extras, new r: Result<()>)
    reads contact, contact.phones
  {
    !IsRejection(NormalizePhone(phone)) &&
    contact.name == old(contact.name) &&
    contact.phones.value == MergedPhones(old(contact.phones.value), phone, x.phone2) &&
    contact.birthday == (if Truthy(x.birthday) && DateShaped(x.birthday.value) then BirthdayObj(x.birthday)
                         else old(contact.birthday)) &&
    if Truthy(x.email) then
      contact.address == old(contact.address) &&
      var n := EmailAfterAdd(old(contact.email), x.email.value);
      if !EmailMatch(x.email.value) then r == Ok(()) && contact.email == old(contact.email)
      else if n.Err? then r == Err(n.error) && contact.email == old(contact.email)
      else r == Ok(()) && contact.email == n.value
    else
      r == Ok(()) && contact.email == old(contact.email) &&
      contact.address == if Truthy(x.address) then x.address else old(contact.address)
  }

  /** The `if contact:` branch of `add_contact`. */
  method Merge(contact: Record, phone: string, x: Extras) returns (r: Result<()>)
    requires !IsRejection(NormalizePhone(phone))
    modifies contact, contact.phones
    ensures MergedInto(contact, phone, x, r)
  {
    var normalized := NormalizePhone(phone);
    NormalizeIdempotent(phone);
    var added := contact.phones.AddPhone(normalized);
    if Truthy(x.phone2) {
      var normalized2 := NormalizePhone(x.phone2.value);
      if !IsRejection(normalized2) {
        NormalizeIdempotent(x.phone2.value);
        added := contact.phones.AddPhone(normalized2);
      }
    }
    if Truthy(x.birthday) {
      if DateShaped(x.birthday.value) {
        contact.AddBirthday(x.birthday.value);
      }
    }
    if Truthy(x.email) {
      r := Ok(());
      if EmailMatch(x.email.value) {
        r := contact.AddEmail(x.email.value);
      }
      return;
    }
    if Truthy(x.address) {
      contact.address := x.address;
    }
    r := Ok(());
  }

  /** The record `add_contact` creates: the raw phones go to the `Phone`
      constructor, so an invalid second phone is stored as its rejection
      text. */
  predicate CreatedFrom(rec: Record, name: string, phone: string, x: Extras)
    reads rec, rec.phones
  {
    rec.name == name &&
    rec.phones.value == SrcPhone.NormalizeAll([phone] + (if Truthy(x.phone2) then [x.phone2.value] else [])) &&
    rec.birthday == InitialBirthday(x.birthday) && rec.email == InitialEmail(x.email) &&
    rec.address == x.address
  }

  datatype AddStatus = MissingArguments | InvalidPhone | Merged | Created

  /** `add_contact name phone [extras…]` */
  method AddContact(book: AddressBook, args: seq<string>) returns (r: Result<AddStatus>)
    requires book.Valid()
    modifies book, book.data.Values, book.PhoneObjects()
    ensures book.Valid()
    ensures book.saves == old(book.saves)
    ensures |args| < 2 || IsRejection(NormalizePhone(args[1])) ==>
      r == Ok(if |args| < 2 then MissingArguments else InvalidPhone) && unchanged(book) &&
      forall rec :: rec in book.data.Values ==> unchanged(rec) && unchanged(rec.phones)
    ensures |args| >= 2 && !IsRejection(NormalizePhone(args[1])) ==>
      var x := ClassifyAll(args[2..]);
      var found := old(book.Lookup(args[0]));
      (found.Err? ==>
        r == Err(found.error) && unchanged(book) &&
        forall rec :: rec in book.data.Values ==> unchanged(rec) && unchanged(rec.phones)) &&
      (found == Ok(None) ==>
        r == Ok(Created) && args[0] in book.data && fresh(book.data[args[0]]) &&
        book.data == old(book.data)[args[0] := book.data[args[0]]] &&
        book.order == AppendIfAbsent(old(book.order), args[0]) &&
        CreatedFrom(book.data[args[0]], args[0], args[1], x) &&
        forall rec :: rec in old(book.data.Values) ==> unchanged(rec) && unchanged(rec.phones)) &&
      (found.Ok? && found.value.Some? ==>
        book.data == old(book.data) && book.order == old(book.order) &&
        (exists m :: MergedInto(found.value.value, args[1], x, m) &&
          r == if m.Err? then Err(m.error) else Ok(Merged)) &&
        forall rec :: rec in old(book.data.Values) && rec != found.value.value ==>
          unchanged(rec) && (rec.phones != found.value.value.phones ==> unchanged(rec.phones)))
  {
    if |args| < 2 {
      return Ok(MissingArguments);
    }
    var name := args[0];
    var phone := args[1];
    var x := ClassifyExtras(args[2..]);
    var normalized := NormalizePhone(phone);
    if IsRejection(normalized) {
      return Ok(InvalidPhone);
    }
    var found := book.FindAddress(name);
    assert found == old(book.Lookup(args[0]));
    if found.Err? {
      return Err(found.error);
    }
    if found.value.Some? {
      var contact := found.value.value;
      var m := Merge(contact, phone, x);
      assert MergedInto(contact, phone, x, m);
      r := if m.Err? then Err(m.error) else Ok(Merged);
      return;
    }
    CreateContact(book, name, phone, x);
    r := Ok(Created);
  }

  /** The create branch of `add_contact`: the phone and a truthy second phone
      go to a new record with the classified fields, stored under its name.
      Only the book changes, so every existing record stays as it was. */
  method CreateContact(book: AddressBook, name: string, phone: string, x: Extras)
    requires book.Valid()
    modifies book
    ensures book.Valid()
    ensures book.saves == old(book.saves)
    ensures forall rec :: rec in old(book.data.Values) ==> unchanged(rec) && unchanged(rec.phones)
    ensures name in book.data && fresh(book.data[name])
    ensures book.data == old(book.data)[name := book.data[name]]
    ensures book.order == AppendIfAbsent(old(book.order), name)
    ensures CreatedFrom(book.data[name], name, phone, x)
  {
    var phones := [phone];
    if Truthy(x.phone2) {
      phones := phones + [x.phone2.value];
    }
    var record := new Record(name, phones, x.birthday, x.email, x.address);
    book.AddAddress(record);
  }

  // ---------------------------------------------------------------------
  // `change_name`, `change_address` and `change_birthday`

  /** The `change_name` arguments: the tokens joined by spaces and split at
      the first `|`, both sides stripped; `None` when the guard or the
      emptiness check stops the command. */
  function ParseRename(args: seq<string>): (r: Option<(string, string)>)
    ensures r.Some? ==> |args| >= 2 && r.value.0 != [] && r.value.1 != []
    ensures r.Some? ==> '|' !in r.value.0
    ensures '|' !in JoinSpace(args) ==> r.None?
    ensures var full := JoinSpace(args); var k := IndexOfChar(full, '|');
      r.Some? <==> |args| >= 2 && k >= 0 && Strip(full[..k]) != [] && Strip(full[k + 1..]) != []
    ensures var full := JoinSpace(args); var k := IndexOfChar(full, '|');
      r.Some? ==> (0 <= k && full == full[..k] + "|" + full[k + 1..] &&
        r.value == (Strip(full[..k]), Strip(full[k + 1..])))
  {
    var full := JoinSpace(args);
    if |args| < 2 || '|' !in full then None
    else
      var k := IndexOfChar(full, '|');
      var oldName := Strip(full[..k]);
      var newName := Strip(full[k + 1..]);
      StripKeepsOut(full[..k], '|');
      SplitAround(full, k);
      if oldName != [] && newName != [] then Some((oldName, newName)) else None
  }

  /** `old | new` typed as three words gives back the two names; the new
      name may itself contain `|`, since only the first one splits. */
  lemma RenameRoundTrip(oldName: string, newName: string)
    requires oldName != [] && newName != [] && NoSpace(oldName) && NoSpace(newName) && '|' !in oldName
    ensures ParseRename([oldName, "|", newName]) == Some((oldName, newName))
  {
    var args := [oldName, "|", newName];
    var full := JoinSpace(args);
    assert args[..2] == [oldName, "|"];
    assert args[..2][..1] == [oldName];
    assert Join(" ", [oldName]) == oldName;
    assert Join(" ", args[..2]) == oldName + " " + "|";
    assert full == oldName + " " + "|" + " " + newName;
    assert full == (oldName + " ") + ("|" + " " + newName);
    assert '|' !in oldName + " ";
    IndexOfCharAt(oldName + " ", '|', "|" + " " + newName);
    var k := |oldName| + 1;
    assert full[..k] == oldName + " ";
    assert full[k + 1..] == " " + newName;
    StripTrailingSpace(oldName);
    StripLeadingSpace(newName);
  }

  /** `old words | new words` gives back the two names joined by single
      spaces, whatever the number of words on each side. */
  lemma RenameWordsRoundTrip(oldWords: seq<string>, newWords: seq<string>)
    requires oldWords != [] && newWords != []
    requires forall i :: 0 <= i < |oldWords| ==> oldWords[i] != [] && NoSpace(oldWords[i]) && '|' !in oldWords[i]
    requires forall i :: 0 <= i < |newWords| ==> newWords[i] != [] && NoSpace(newWords[i])
    ensures ParseRename(oldWords + ["|"] + newWords) == Some((JoinSpace(oldWords), JoinSpace(newWords)))
  {
    var a, b := JoinSpace(oldWords), JoinSpace(newWords);
    JoinAppend(oldWords, ["|"]);
    JoinAppend(oldWords + ["|"], newWords);
    var full := JoinSpace(oldWords + ["|"] + newWords);
    assert full == (a + " ") + ("|" + " " + b);
    JoinKeepsOut(oldWords, '|');
    IndexOfCharAt(a + " ", '|', "|" + " " + b);
    var k := |a| + 1;
    assert full[..k] == a + " ";
    assert full[k + 1..] == " " + b;
    JoinUnpadded(oldWords);
    JoinUnpadded(newWords);
    StripTrailingSpace(a);
    StripLeadingSpace(b);
  }

  /** The `change_address` arguments: the name, the words between it and the
      first `|` token, and the words after it; `None` when the guard stops
      the command. */
  function ParseAddressChange(args: seq<string>): (r: Option<(string, string, string)>)
    ensures r.Some? <==> |args| >= 3 && "|" in args
    ensures r.Some? ==> r.value.0 == args[0]
  {
    if |args| < 3 || "|" !in args then None
    else
      var k := FirstIndex(args, "|");
      var before := if k < 1 then [] else args[1..k];
      Some((args[0], JoinSpace(before), JoinSpace(args[k + 1..])))
  }

  /** `name old words | new words` gives back the name and the two
      addresses. */
  lemma AddressChangeRoundTrip(name: string, oldWords: seq<string>, newWords: seq<string>)
    requires name != "|" && "|" !in oldWords && |oldWords| + |newWords| >= 1
    ensures ParseAddressChange([name] + oldWords + ["|"] + newWords) ==
      Some((name, JoinSpace(oldWords), JoinSpace(newWords)))
  {
    var args := [name] + oldWords + ["|"] + newWords;
    var k := 1 + |oldWords|;
    assert args[k] == "|";
    assert "|" !in args[..k] by {
      assert args[..k] == [name] + oldWords;
    }
    assert FirstIndex(args, "|") == k;
    assert args[1..k] == oldWords;
    assert args[k + 1..] == newWords;
  }

  /** `change_address name old… | new…`: the contact's address is replaced
      only when it equals the old words exactly. The answer says whether it
      was replaced; a failing lookup is passed on. */
  method ChangeAddress(book: AddressBook, args: seq<string>) returns (r: Result<bool>)
    requires book.Valid()
    modifies book.data.Values
    ensures ParseAddressChange(args).None? ==>
      r == Ok(false) && forall rec :: rec in book.data.Values ==> unchanged(rec)
    ensures ParseAddressChange(args).Some? ==>
      var p := ParseAddressChange(args).value;
      var found := old(book.Lookup(p.0));
      (found.Err? ==> r == Err(found.error)) &&
      (found == Ok(None) ==> r == Ok(false)) &&
      (found.Err? || found == Ok(None) ==> forall rec :: rec in book.data.Values ==> unchanged(rec)) &&
      (found.Ok? && found.value.Some? ==>
        var c := found.value.value;
        r == Ok(old(c.address) == Some(p.1)) &&
        c.address == (if old(c.address) == Some(p.1) then Some(p.2) else old(c.address)) &&
        c.name == old(c.name) && c.birthday == old(c.birthday) && c.email == old(c.email) &&
        forall rec :: rec in book.data.Values && rec != c ==> unchanged(rec))
  {
    var p := ParseAddressChange(args);
    if p.None? {
      return Ok(false);
    }
    var (name, oldAddress, newAddress) := p.value;
    var found := book.FindAddress(name);
    if found.Err? {
      return Err(found.error);
    }
    if found.value.None? {
      return Ok(false);
    }
    var contact := found.value.value;
    if contact.address == Some(oldAddress) {
      contact.address := Some(newAddress);
      return Ok(true);
    }
    return Ok(false);
  }

  /** `change_birthday name date`: a value that is not DD.MM.YYYY-shaped is
      refused before any lookup; a found contact gets the new birthday. */
  method ChangeBirthday(book: AddressBook, args: seq<string>) returns (r: Result<bool>)
    requires book.Valid()
    modifies book.data.Values
    ensures |args| < 2 || !DateShaped(args[1]) ==>
      r == Ok(false) && forall rec :: rec in book.data.Values ==> unchanged(rec)
    ensures |args| >= 2 && DateShaped(args[1]) ==>
      var found := old(book.Lookup(args[0]));
      (found.Err? ==> r == Err(found.error)) &&
      (found == Ok(None) ==> r == Ok(false)) &&
      (found.Err? || found == Ok(None) ==> forall rec :: rec in book.data.Values ==> unchanged(rec)) &&
      (found.Ok? && found.value.Some? ==>
        var c := found.value.value;
        r == Ok(true) && c.birthday == BirthdayObj(Some(args[1])) &&
        c.name == old(c.name) && c.email == old(c.email) && c.address == old(c.address) &&
        forall rec :: rec in book.data.Values && rec != c ==> unchanged(rec))
  {
    if |args| < 2 {
      return Ok(false);
    }
    if !DateShaped(args[1]) {
      return Ok(false);
    }
    var found := book.FindAddress(args[0]);
    if found.Err? {
      return Err(found.error);
    }
    if found.value.None? {
      return Ok(false);
    }
    found.value.value.AddBirthday(args[1]);
    return Ok(true);
  }
}
