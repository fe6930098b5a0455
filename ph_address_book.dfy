/** personal_helper/address_book.py: the third address book. Its record has
    no address field, keeps the email as a plain value that `add_email`
    overwrites, and validates the birthday through `Birthday`; deleting by
    name removes the whole contact. */
module PhAddressBook {
  import opened Outcomes
  import opened Text
  import opened Seqs
  import opened Records
  import opened Dates
  import SrcPhone
  import PhPhone
  import PhBirthday
  import opened Patterns

  class Record {
    var name: string
    const phones: PhPhone.Phone
    var email: Option<string>
    var birthday: BirthdayField

    /** `Record(name, phones, birthday, email)`: the email is kept as given;
        a truthy birthday goes through `Birthday`, which raises `ValueError`
        for a date `strptime` refuses. */
    static method New(name0: string, phoneList: seq<string>, b: Option<string>, e: Option<string>)
      returns (r: Result<Record>)
      ensures r.Err? <==> Truthy(b) && ParseDate(b.value).None?
      ensures r.Err? ==> r.error == ValueError
      ensures r.Ok? ==> fresh(r.value) && fresh(r.value.phones) && r.value.name == name0
      ensures r.Ok? ==> r.value.phones.value == SrcPhone.NormalizeAll(phoneList)
      ensures r.Ok? ==> r.value.birthday == (if Truthy(b) then BirthdayObj(b) else NoBirthday)
      ensures r.Ok? ==> r.value.email == e
    {
      var p := new PhPhone.Phone(phoneList);
      var bf := NoBirthday;
      if Truthy(b) {
        var checked := PhBirthday.ValidateBirthday(b.value);
        if checked.Err? {
          return Err(checked.error);
        }
        bf := BirthdayObj(Some(checked.value));
      }
      var rec := new Record.Init(name0, p, bf, e);
      return Ok(rec);
    }

    constructor Init(name0: string, p: PhPhone.Phone, b: BirthdayField, e: Option<string>)
      ensures name == name0 && phones == p && birthday == b && email == e
    {
      name := name0;
      phones := p;
      birthday := b;
      email := e;
    }

    /** `add_birthday(b)`: replaces the birthday, or raises `ValueError` and
        changes nothing. */
    method AddBirthday(b: string) returns (r: Result<()>)
      modifies this
      ensures r.Err? <==> ParseDate(b).None?
      ensures r.Err? ==> r.error == ValueError && birthday == old(birthday)
      ensures r.Ok? ==> birthday == BirthdayObj(Some(b))
      ensures name == old(name) && email == old(email)
    {
      var checked := PhBirthday.ValidateBirthday(b);
      if checked.Err? {
        return Err(checked.error);
      }
      birthday := BirthdayObj(Some(checked.value));
      r := Ok(());
    }

    /** `add_email(email)`: overwrites, with no validation. */
    method AddEmail(e: string)
      modifies this
      ensures email == Some(e)
      ensures name == old(name) && birthday == old(birthday)
    {
      email := Some(e);
    }

    /** `__str__()`: name and phones, then birthday and email when set; no
        address part. */
    function Str(): (r: Result<string>)
      reads this, phones
      ensures r.Err? <==> birthday.BirthdayText? && birthday.text != ""
      ensures r.Ok? ==> StartsWith(r.value, "Contact name: " + name + ", phones: " + Join(", ", phones.value))
      ensures r.Ok? && !BirthdaySet(birthday) && !Truthy(email) ==>
        r.value == "Contact name: " + name + ", phones: " + Join(", ", phones.value)
    {
      DescribeNoAddress(name, phones.value, birthday, email)
    }
  }

  class AddressBook {
    var data: map<string, Record>
    /** The dict's key order. */
    var order: seq<string>

    ghost predicate Valid()
      reads this
    {
      NoDup(order) && forall k :: k in data <==> k in order
    }

    constructor()
      ensures Valid() && data == map[] && order == []
    {
      data := map[];
      order := [];
    }

    /** `add_address(record)`: stored under its name, replacing any record
        already there. */
    method AddAddress(record: Record)
      requires Valid()
      modifies this
      ensures Valid()
      ensures data == old(data)[record.name := record]
      ensures order == AppendIfAbsent(old(order), record.name)
    {
      AppendIfAbsentNoDup(order, record.name);
      data := data[record.name := record];
      order := AppendIfAbsent(order, record.name);
    }

    /** What `find_address(query)` answers: a name is looked up as an exact
        key; a phone-like query fails with `TypeError` on a non-empty book,
        because the loop iterates a record's `Phone`, which is not
        iterable. */
    function Lookup(query: string): (r: Result<Option<Record>>)
      reads this
      ensures r.Err? <==> PhoneQuery(query) && data != map[]
      ensures r.Err? ==> r.error == TypeError
      ensures r.Ok? && r.value.Some? ==> !PhoneQuery(query) && query in data && r.value.value == data[query]
      ensures !PhoneQuery(query) ==> r.Ok? && (r.value.Some? <==> query in data)
    {
      if PhoneQuery(query) then
        if data == map[] then Ok(None) else Err(TypeError)
      else
        Ok(if query in data then Some(data[query]) else None)
    }

    /** `find_address(query)` */
    method FindAddress(query: string) returns (r: Result<Option<Record>>)
      requires Valid()
      ensures r == Lookup(query)
    {
      if PhoneQuery(query) {
        if |order| > 0 {
          assert order[0] in data;
          return Err(TypeError);
        }
        assert forall k :: k !in data;
        return Ok(None);
      }
      if query in data {
        return Ok(Some(data[query]));
      }
      return Ok(None);
    }

    /** `edit_address(name, record)`: binds the key, new or not. */
    method EditAddress(name: string, record: Record)
      requires Valid()
      modifies this
      ensures Valid()
      ensures data == old(data)[name := record]
      ensures order == AppendIfAbsent(old(order), name)
    {
      AppendIfAbsentNoDup(order, name);
      data := data[name := record];
      order := AppendIfAbsent(order, name);
    }

    /** `delete_address(name)`: removes the whole contact; a missing name is
        ignored. */
    method DeleteAddress(name: string)
      requires Valid()
      modifies this
      ensures Valid()
      ensures data == old(data) - {name}
      ensures order == RemoveFirst(old(order), name)
      ensures name !in old(data) ==> data == old(data) && order == old(order)
    {
      RemoveFirstNoDup(order, name);
      if name in data {
        data := data - {name};
        order := RemoveFirst(order, name);
      }
    }
  }
}
