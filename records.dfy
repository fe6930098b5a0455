/** What a contact record's optional attributes can hold, and the text a
    record prints as. The source assigns these attributes objects of
    different kinds over time (`Birthday(...)`, a bare string, `None`), so
    each is a small variant type; Python truthiness decides what is shown. */
module Records {
  import opened Outcomes
  import opened Text
  import opened Patterns

  /** A record's `birthday` attribute: `None`, a `Birthday` object (whose
      `value` becomes `None` after `remove_birthday`), or the bare string
      that `change_birthday` assigns. */
  datatype BirthdayField = NoBirthday | BirthdayObj(value: Option<string>) | BirthdayText(text: string)

  /** A record's `email` attribute: `None`, an `Email` object, or the bare
      string that `change_email` assigns. */
  datatype EmailField = NoEmail | EmailObj(email: string) | EmailText(text: string)

  /** `if self.birthday:` — objects are always truthy, strings when non-empty. */
  predicate BirthdaySet(b: BirthdayField)
  {
    b.BirthdayObj? || (b.BirthdayText? && b.text != "")
  }

  /** `if self.email:` */
  predicate EmailSet(e: EmailField)
  {
    e.EmailObj? || (e.EmailText? && e.text != "")
  }

  /** `Record.add_email(email)` (both copies): an address failing the email
      pattern is refused and one equal to the stored address changes nothing;
      otherwise the stored address is replaced. A bare string left by
      `change_email` has no `.email`, so the comparison raises
      `AttributeError`. */
  function EmailAfterAdd(current: EmailField, e: string): (r: Result<EmailField>)
    ensures r.Err? <==> EmailMatch(e) && current.EmailText? && current.text != ""
    ensures r.Err? ==> r.error == AttributeError
    ensures r.Ok? && !EmailMatch(e) ==> r.value == current
    ensures r.Ok? && EmailMatch(e) ==> r.value == EmailObj(e)
  {
    if !EmailMatch(e) then Ok(current)
    else if EmailSet(current) && current.EmailText? then Err(AttributeError)
    else if EmailSet(current) && current.email == e then Ok(current)
    else Ok(EmailObj(e))
  }

  /** Adding the same address twice is adding it once. */
  lemma EmailAddIdempotent(current: EmailField, e: string)
    requires EmailAfterAdd(current, e).Ok?
    ensures EmailAfterAdd(EmailAfterAdd(current, e).value, e) == EmailAfterAdd(current, e)
  {
  }

  /** The index of the first name equal to `q` ignoring case, or -1: the
      search of `find_address` and `change_name` in src/contact_book.py and
      of `change_name` in personal_helper/contact_book.py. */
  function FirstNameMatch(names: seq<string>, q: string): (k: int)
    ensures -1 <= k < |names|
    ensures k >= 0 ==> Lower(names[k]) == Lower(q)
    ensures forall j :: 0 <= j < |names| && (k < 0 || j < k) ==> Lower(names[j]) != Lower(q)
  {
    if names == [] then -1
    else if Lower(names[0]) == Lower(q) then 0
    else
      var k := FirstNameMatch(names[1..], q);
      if k < 0 then -1 else k + 1
  }

  /** Case does not matter to the search. */
  lemma FirstNameMatchIgnoresCase(names: seq<string>, q: string)
    ensures FirstNameMatch(names, Lower(q)) == FirstNameMatch(names, q)
  {
    LowerIdempotent(q);
    FirstNameMatchSameKey(names, Lower(q), q);
  }

  lemma {:induction false} FirstNameMatchSameKey(names: seq<string>, q: string, q': string)
    requires Lower(q) == Lower(q')
    ensures FirstNameMatch(names, q) == FirstNameMatch(names, q')
  {
    if names != [] {
      FirstNameMatchSameKey(names[1..], q, q');
    }
  }

  /** `f"{x}"` for an optional string. */
  function Show(o: Option<string>): string
  {
    if o.Some? then o.value else "None"
  }

  /** `", birthday: {self.birthday.value}"` when set; a bare string has no
      `.value`, so formatting it raises `AttributeError`. */
  function BirthdayPart(b: BirthdayField): (r: Result<string>)
    ensures r.Err? <==> b.BirthdayText? && b.text != ""
  {
    match b
    case NoBirthday => Ok("")
    case BirthdayObj(v) => Ok(", birthday: " + Show(v))
    case BirthdayText(t) => if t != "" then Err(AttributeError) else Ok("")
  }

  /** `", email: {str(self.email)}"` when set; `Email.__str__` shows
      "No email" for an empty address. */
  function EmailPart(e: EmailField): string
  {
    match e
    case NoEmail => ""
    case EmailObj(m) => ", email: " + (if m != "" then m else "No email")
    case EmailText(t) => if t != "" then ", email: " + t else ""
  }

  function AddressPart(a: Option<string>): string
  {
    if Truthy(a) then ", address: " + a.value else ""
  }

  function Head(name: string, phones: seq<string>): string
  {
    "Contact name: " + name + ", phones: " + Join(", ", phones)
  }

  /** `Record.__str__` in src/contact_book.py and
      personal_helper/contact_book.py: name and phones, then birthday, email
      and address in that order, each only when set. */
  function Describe(name: string, phones: seq<string>, b: BirthdayField, e: EmailField,
                    a: Option<string>): (r: Result<string>)
    ensures r.Err? <==> b.BirthdayText? && b.text != ""
    ensures r.Ok? ==> StartsWith(r.value, Head(name, phones))
  {
    var bp := BirthdayPart(b);
    if bp.Err? then Err(bp.error)
    else
      var s := Head(name, phones) + (bp.value + EmailPart(e) + AddressPart(a));
      PrefixOf(Head(name, phones), bp.value + EmailPart(e) + AddressPart(a));
      Ok(s)
  }

  lemma PrefixOf(a: string, b: string)
    ensures StartsWith(a + b, a)
  {
    assert (a + b)[..|a|] == a;
  }

  /** A record with nothing optional set prints as its name and phones only. */
  lemma DescribeBare(name: string, phones: seq<string>, b: BirthdayField, e: EmailField,
                     a: Option<string>)
    requires !BirthdaySet(b) && !EmailSet(e) && !Truthy(a)
    ensures Describe(name, phones, b, e, a) == Ok(Head(name, phones))
  {
    assert Head(name, phones) + ("" + "" + "") == Head(name, phones);
  }

  /** Setting only the address appends exactly its part at the end. */
  lemma DescribeAddressLast(name: string, phones: seq<string>, b: BirthdayField, e: EmailField,
                            addr: string)
    requires !(b.BirthdayText? && b.text != "") && addr != ""
    ensures Describe(name, phones, b, e, Some(addr)).value ==
            Describe(name, phones, b, e, None).value + ", address: " + addr
  {
    var h, p := Head(name, phones), BirthdayPart(b).value + EmailPart(e);
    assert AddressPart(Some(addr)) == ", address: " + addr;
    assert Describe(name, phones, b, e, Some(addr)) == Ok(h + (p + (", address: " + addr)));
    assert Describe(name, phones, b, e, None) == Ok(h + (p + ""));
    assert h + (p + (", address: " + addr)) == h + (p + "") + ", address: " + addr;
  }

  /** A birthday object and a non-empty email object print in that order. */
  lemma DescribeBirthdayAndEmail(name: string, phones: seq<string>, v: string, m: string)
    requires m != ""
    ensures Describe(name, phones, BirthdayObj(Some(v)), EmailObj(m), None) ==
            Ok(Head(name, phones) + ", birthday: " + v + ", email: " + m)
  {
    var h := Head(name, phones);
    assert h + ((", birthday: " + v) + (", email: " + m) + "") == h + ", birthday: " + v + ", email: " + m;
  }

  /** An email object holding the empty address prints as "No email". */
  lemma DescribeEmptyEmail(name: string, phones: seq<string>, b: BirthdayField)
    requires !BirthdaySet(b)
    ensures Describe(name, phones, b, EmailObj(""), None) == Ok(Head(name, phones) + ", email: No email")
  {
    var h := Head(name, phones);
    assert BirthdayPart(b) == Ok("");
    assert EmailPart(EmailObj("")) == ", email: No email";
    assert h + ("" + ", email: No email" + "") == h + ", email: No email";
  }

  /** `personal_helper/address_book.py`'s `Record.__str__`: name and phones,
      then birthday and the plain `email` attribute when set; no address. */
  function DescribeNoAddress(name: string, phones: seq<string>, b: BirthdayField,
                             email: Option<string>): (r: Result<string>)
    ensures r.Err? <==> b.BirthdayText? && b.text != ""
    ensures r.Ok? ==> StartsWith(r.value, Head(name, phones))
    ensures r.Ok? && !BirthdaySet(b) && !Truthy(email) ==> r.value == Head(name, phones)
  {
    var bp := BirthdayPart(b);
    if bp.Err? then Err(bp.error)
    else
      var tail := bp.value + (if Truthy(email) then ", email: " + email.value else "");
      PrefixOf(Head(name, phones), tail);
      assert !BirthdaySet(b) && !Truthy(email) ==> tail == "";
      Ok(Head(name, phones) + tail)
  }

  /** A truthy plain email string prints after the name and phones. */
  lemma DescribeNoAddressEmail(name: string, phones: seq<string>, b: BirthdayField, m: string)
    requires !BirthdaySet(b) && m != ""
    ensures DescribeNoAddress(name, phones, b, Some(m)) == Ok(Head(name, phones) + ", email: " + m)
  {
    var h := Head(name, phones);
    assert h + ("" + (", email: " + m)) == h + ", email: " + m;
  }

  /** A birthday object and a truthy plain email string print in that order. */
  lemma DescribeNoAddressBirthdayAndEmail(name: string, phones: seq<string>, v: string, m: string)
    requires m != ""
    ensures DescribeNoAddress(name, phones, BirthdayObj(Some(v)), Some(m)) ==
            Ok(Head(name, phones) + ", birthday: " + v + ", email: " + m)
  {
    var h := Head(name, phones);
    assert h + ((", birthday: " + v) + (", email: " + m)) == h + ", birthday: " + v + ", email: " + m;
  }
}
