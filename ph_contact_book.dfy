/** personal_helper/contact_book.py: the second address book and record. It
    differs from src/contact_book.py in its name lookup (an exact key), its
    rename (no title-casing, no save), its validated `Birthday`, its phone
    collection (whose `remove_phone` takes no number) and its
    `Email.remove_email(contact, email)`. */
module PhContactBook {
  import opened Outcomes
  import opened Text
  import opened Seqs
  import opened Patterns
  import opened Records
  import opened Dates
  import SrcValidators
  import SrcPhone
  import PhPhone
  import PhBirthday

  class Record {
    var name: string
    const phones: PhPhone.Phone
    var birthday: BirthdayField
    var email: EmailField
    var address: Option<string>

    /** `Record(name, phones, birthday, email, address)`: `Birthday(b)`
        raises `ValueError` for a birthday `strptime` refuses, so creation is
        a factory with an error result. */
    static method New(name0: string, phoneList: seq<string>, b: Option<string>, e: Option<string>,
                      a: Option<string>) returns (r: Result<Record>)
      ensures r.Err? <==> Truthy(b) && ParseDate(b.value).None?
      ensures r.Err? ==> r.error == ValueError
      ensures r.Ok? ==> fresh(r.value) && fresh(r.value.phones) && r.value.name == name0
      ensures r.Ok? ==> r.value.phones.value == SrcPhone.NormalizeAll(phoneList)
      ensures r.Ok? ==> r.value.birthday == (if Truthy(b) then BirthdayObj(b) else NoBirthday)
      ensures r.Ok? ==> r.value.email == (if Truthy(e) then EmailObj(e.value) else NoEmail)
      ensures r.Ok? ==> r.value.address == a
    {
      var p := new PhPhone.Phone(phoneList);
      var bf := NoBirthday;
      if Truthy(b) {
        var checked := PhBirthday.ValidateBirthday(b.value);
        if checked.Err? {
          return Err(checked.error);
        }
        bf := BirthdayObj(Some(checked.value));
      }
      var ef := if Truthy(e) then EmailObj(e.value) else NoEmail;
      var rec := new Record.Init(name0, p, bf, ef, a);
      return Ok(rec);
    }

    constructor Init(name0: string, p: PhPhone.Phone, b: BirthdayField, e: EmailField, a: Option<string>)
      ensures name == name0 && phones == p && birthday == b && email == e && address == a
    {
      name := name0;
      phones := p;
      birthday := b;
      email := e;
      address := a;
    }

    /** `add_email(email)`, as in src/contact_book.py. */
    method AddEmail(e: string) returns (r: Result<()>)
      modifies this
      ensures var n := EmailAfterAdd(old(email), e);
        if n.Err? then r == Err(n.error) && email == old(email) else r == Ok(()) && email == n.value
      ensures name == old(name) && birthday == old(birthday) && address == old(address)
    {
      var n := EmailAfterAdd(email, e);
      if n.Err? {
        return Err(n.error);
      }
      email := n.value;
      r := Ok(());
    }

    /** `change_email(new)`: a matching address is stored as a bare string. */
    method ChangeEmail(e: string)
      modifies this
      ensures email == if EmailMatch(e) then EmailText(e) else old(email)
      ensures name == old(name) && birthday == old(birthday) && address == old(address)
    {
      if EmailMatch(e) {
        email := EmailText(e);
      }
    }

    /** `add_birthday(b)`: replaces the birthday, or raises `ValueError` and
        changes nothing. */
    method AddBirthday(b: string) returns (r: Result<()>)
      modifies this
      ensures r.Err? <==> ParseDate(b).None?
      ensures r.Err? ==> r.error == ValueError && birthday == old(birthday)
      ensures r.Ok? ==> birthday == BirthdayObj(Some(b))
      ensures name == old(name) && email == old(email) && address == old(address)
    {
      var checked := PhBirthday.ValidateBirthday(b);
      if checked.Err? {
        return Err(checked.error);
      }
      birthday := BirthdayObj(Some(checked.value));
      r := Ok(());
    }

    /** `change_birthday(new)`: a DD.MM.YYYY-shaped value is stored as a bare
        string, unvalidated; anything else changes nothing. */
    method ChangeBirthday(b: string)
      modifies this
      ensures birthday == if DateShaped(b) then BirthdayText(b) else old(birthday)
      ensures name == old(name) && email == old(email) && address == old(address)
    {
      if DateShaped(b) {
        birthday := BirthdayText(b);
      }
    }

    /** `delete_phone(number)`: when the number is present it calls
        `remove_phone(number)`, which takes no argument here, so the call
        raises `TypeError`; otherwise nothing happens. */
    method DeletePhone(number: string) returns (r: Result<()>)
      ensures r.Err? <==> SrcValidators.NormalizePhone(number) in phones.value
      ensures r.Err? ==> r.error == TypeError
    {
      var found := phones.FindPhone(number);
      if found {
        return Err(TypeError);
      }
      return Ok(());
    }

    /** `add_address(a)` */
    method AddAddress(a: string)
      modifies this
      ensures address == Some(a)
      ensures name == old(name) && email == old(email) && birthday == old(birthday)
    {
      address := Some(a);
    }

    /** `delete_address()` */
    method DeleteAddress()
      modifies this
      ensures address == if Truthy(old(address)) then None else old(address)
      ensures name == old(name) && email == old(email) && birthday == old(birthday)
    {
      if Truthy(address) {
        address := None;
      }
    }

    /** `delete_birthday()` */
    method DeleteBirthday()
      modifies this
      ensures birthday == if BirthdaySet(old(birthday)) then NoBirthday else old(birthday)
      ensures name == old(name) && email == old(email) && address == old(address)
    {
      if BirthdaySet(birthday) {
        birthday := NoBirthday;
      }
    }

    /** `__str__()` */
    function Str(): (r: Result<string>)
      reads this, phones
      ensures r.Err? <==> birthday.BirthdayText? && birthday.text != ""
      ensures r.Ok? ==> StartsWith(r.value, "Contact name: " + name + ", phones: " + Join(", ", phones.value))
    {
      Describe(name, phones.value, birthday, email, address)
    }
  }

  /** `Email.remove_email(contact, email)`: clears the email only when the
      stored `Email` holds exactly `email`; a bare string has no `.email`. */
  method RemoveEmail(contact: Record, e: string) returns (r: Result<bool>)
    modifies contact
    ensures r.Err? <==> old(contact.email).EmailText? && old(contact.email).text != ""
    ensures r.Err? ==> r.error == AttributeError
    ensures r == Ok(true) <==> old(contact.email) == EmailObj(e)
    ensures contact.email == if r == Ok(true) then NoEmail else old(contact.email)
    ensures contact.name == old(contact.name) && contact.birthday == old(contact.birthday)
    ensures contact.address == old(contact.address)
  {
    if EmailSet(contact.email) {
      if contact.email.EmailText? {
        return Err(AttributeError);
      }
      if contact.email.email == e {
        contact.email := NoEmail;
        return Ok(true);
      }
    }
    return Ok(false);
  }

  class AddressBook {
    var data: map<string, Record>
    /** The dict's key order. */
    var order: seq<string>

    ghost predicate Valid()
      reads this
    {
      NoDup(order) && forall k :: k in data <==> k in order
    }

    constructor()
      ensures Valid() && data == map[] && order == []
    {
      data := map[];
      order := [];
    }

    function Names(): (ns: seq<string>)
      reads this, data.Values
      requires Valid()
      ensures |ns| == |order| && forall i :: 0 <= i < |order| ==> ns[i] == data[order[i]].name
    {
      seq(|order|, i requires 0 <= i < |order| && order[i] in data reads this, data.Values => data[order[i]].name)
    }

    /** `add_address(record)` */
    method AddAddress(record: Record)
      requires Valid()
      modifies this
      ensures Valid()
      ensures data == old(data)[record.name := record]
      ensures order == AppendIfAbsent(old(order), record.name)
    {
      AppendIfAbsentNoDup(order, record.name);
      data := data[record.name := record];
      order := AppendIfAbsent(order, record.name);
    }

    /** What `find_address(query)` answers: a name is looked up as an exact
        key; a phone-like query fails with `TypeError` on a non-empty book,
        because the loop iterates a record's `Phone`, which is not
        iterable. */
    function Lookup(query: string): (r: Result<Option<Record>>)
      reads this
      ensures r.Err? <==> PhoneQuery(query) && data != map[]
      ensures r.Err? ==> r.error == TypeError
      ensures r.Ok? && r.value.Some? ==> !PhoneQuery(query) && query in data && r.value.value == data[query]
      ensures !PhoneQuery(query) ==> r.Ok? && (r.value.Some? <==> query in data)
    {
      if PhoneQuery(query) then
        if data == map[] then Ok(None) else Err(TypeError)
      else
        Ok(if query in data then Some(data[query]) else None)
    }

    /** `find_address(query)` */
    method FindAddress(query: string) returns (r: Result<Option<Record>>)
      requires Valid()
      ensures r == Lookup(query)
    {
      if PhoneQuery(query) {
        if |order| > 0 {
          assert order[0] in data;
          return Err(TypeError);
        }
        assert forall k :: k !in data;
        return Ok(None);
      }
      if query in data {
        return Ok(Some(data[query]));
      }
      return Ok(None);
    }

    /** `edit_address(name, record)` */
    method EditAddress(name: string, record: Record)
      requires Valid()
      modifies this
      ensures Valid()
      ensures data == old(data)[name := record]
      ensures order == AppendIfAbsent(old(order), name)
    {
      AppendIfAbsentNoDup(order, name);
      data := data[name := record];
      order := AppendIfAbsent(order, name);
    }

    /** `delete_contact(name)` */
    method DeleteContact(name: string) returns (deleted: bool)
      requires Valid()
      modifies this
      ensures Valid()
      ensures deleted <==> name in old(data)
      ensures data == old(data) - {name}
      ensures order == RemoveFirst(old(order), name)
    {
      RemoveFirstNoDup(order, name);
      if name in data {
        data := data - {name};
        order := RemoveFirst(order, name);
        return true;
      }
      return false;
    }

    /** `delete_address(name)` */
    method DeleteAddress(name: string)
      requires Valid()
      modifies if name in data then {data[name]} else {}
      ensures name in data ==>
        data[name].address == if Truthy(old(data[name].address)) then None else old(data[name].address)
      ensures name in data ==>
        data[name].name == old(data[name].name) && data[name].email == old(data[name].email) &&
        data[name].birthday == old(data[name].birthday)
    {
      if name in data {
        data[name].DeleteAddress();
      }
    }

    /** `delete_birthday(name)` */
    method DeleteBirthday(name: string)
      requires Valid()
      modifies if name in data then {data[name]} else {}
      ensures name in data ==>
        data[name].birthday == if BirthdaySet(old(data[name].birthday)) then NoBirthday else old(data[name].birthday)
      ensures name in data ==>
        data[name].name == old(data[name].name) && data[name].email == old(data[name].email) &&
        data[name].address == old(data[name].address)
    {
      if name in data {
        data[name].DeleteBirthday();
      }
    }

    /** `delete_phone(name, number)`: false when the contact is missing or
        lacks the number; otherwise the record's `delete_phone` raises
        `TypeError`. Nothing is ever removed. */
    method DeletePhone(name: string, number: string) returns (r: Result<bool>)
      requires Valid()
      ensures r.Err? <==> (name in data && SrcValidators.NormalizePhone(number) in data[name].phones.value)
      ensures r.Err? ==> r.error == TypeError
      ensures r.Ok? ==> r.value == false
    {
      if name in data {
        var contact := data[name];
        var found := contact.phones.FindPhone(number);
        if found {
          var d := contact.DeletePhone(number);
          return Err(d.error);
        }
      }
      return Ok(false);
    }

    /** `change_name(old, new)`: the first record whose name equals the
        stripped old name ignoring case gets the stripped new name, as typed.
        The dict key is not changed. */
    method ChangeName(oldName: string, newName: string)
      requires Valid()
      modifies data.Values
      ensures var k := old(FirstNameMatch(Names(), Strip(oldName)));
        if k < 0 then
          forall r :: r in data.Values ==> r.name == old(r.name)
        else
          data[order[k]].name == Strip(newName) &&
          forall r :: r in data.Values && r != data[order[k]] ==> r.name == old(r.name)
      ensures forall r :: r in data.Values ==>
        r.birthday == old(r.birthday) && r.email == old(r.email) && r.address == old(r.address)
    {
      ghost var k := FirstNameMatch(Names(), Strip(oldName));
      var target := Lower(Strip(oldName));
      LowerIdempotent(Strip(oldName));
      var i := 0;
      while i < |order| && Lower(data[order[i]].name) != target
        invariant 0 <= i <= |order|
        invariant k < 0 || i <= k
      {
        i := i + 1;
      }
      if i < |order| {
        assert k == i;
        data[order[i]].name := Strip(newName);
      }
    }
  }
}
