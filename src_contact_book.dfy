/** src/contact_book.py: the address book (a dict from name to record, kept
    here as a map plus the dict's insertion order), the contact record and the
    email helper. Printed messages are not modelled; exceptions become
    `Err` results. */
module SrcContactBook {
  import opened Outcomes
  import opened Text
  import opened Seqs
  import opened Patterns
  import opened Records
  import SrcValidators
  import SrcPhone

  /** `Birthday(b) if b else None` and `Email(e) if e else None`. */
  function InitialBirthday(b: Option<string>): (r: BirthdayField)
    ensures r.NoBirthday? <==> !Truthy(b)
    ensures r.BirthdayObj? ==> r.value == b
  {
    if Truthy(b) then BirthdayObj(b) else NoBirthday
  }

  function InitialEmail(e: Option<string>): (r: EmailField)
    ensures r.NoEmail? <==> !Truthy(e)
    ensures r.EmailObj? ==> Some(r.email) == e
  {
    if Truthy(e) then EmailObj(e.value) else NoEmail
  }

  class Record {
    var name: string
    const phones: SrcPhone.Phone
    var birthday: BirthdayField
    var email: EmailField
    var address: Option<string>

    /** `Record(name, phones, birthday, email, address)`. The `Birthday`
        class of src/ is not part of this model; its object is taken to hold
        the given text. */
    constructor(name0: string, phoneList: seq<string>, b: Option<string>, e: Option<string>,
                a: Option<string>)
      ensures name == name0 && fresh(phones)
      ensures phones.value == SrcPhone.NormalizeAll(phoneList)
      ensures birthday == InitialBirthday(b) && email == InitialEmail(e) && address == a
    {
      name := name0;
      phones := new SrcPhone.Phone(phoneList);
      birthday := InitialBirthday(b);
      email := InitialEmail(e);
      address := a;
    }

    /** `add_email(email)` */
    method AddEmail(e: string) returns (r: Result<()>)
      modifies this
      ensures var n := EmailAfterAdd(old(email), e);
        if n.Err? then r == Err(n.error) && email == old(email) else r == Ok(()) && email == n.value
      ensures name == old(name) && birthday == old(birthday) && address == old(address)
    {
      var n := EmailAfterAdd(email, e);
      if n.Err? {
        return Err(n.error);
      }
      email := n.value;
      r := Ok(());
    }

    /** `change_email(new)`: a matching address is stored as a bare string. */
    method ChangeEmail(e: string)
      modifies this
      ensures email == if EmailMatch(e) then EmailText(e) else old(email)
      ensures name == old(name) && birthday == old(birthday) && address == old(address)
    {
      if EmailMatch(e) {
        email := EmailText(e);
      }
    }

    /** `add_birthday(b)`: always replaces the birthday. */
    method AddBirthday(b: string)
      modifies this
      ensures birthday == BirthdayObj(Some(b))
      ensures name == old(name) && email == old(email) && address == old(address)
    {
      birthday := BirthdayObj(Some(b));
    }

    /** `change_birthday(new)`: a DD.MM.YYYY-shaped value is stored as a bare
        string; anything else changes nothing. */
    method ChangeBirthday(b: string)
      modifies this
      ensures birthday == if DateShaped(b) then BirthdayText(b) else old(birthday)
      ensures name == old(name) && email == old(email) && address == old(address)
    {
      if DateShaped(b) {
        birthday := BirthdayText(b);
      }
    }

    /** `delete_phone(number)`: removes the first occurrence of the number's
        normal form when present. */
    method DeletePhone(number: string)
      modifies phones
      ensures phones.value == RemoveFirst(old(phones.value), SrcValidators.NormalizePhone(number))
    {
      var found := phones.FindPhone(number);
      if found {
        phones.RemovePhone(number);
      }
    }

    /** `add_address(a)` */
    method AddAddress(a: string)
      modifies this
      ensures address == Some(a)
      ensures name == old(name) && email == old(email) && birthday == old(birthday)
    {
      address := Some(a);
    }

    /** `delete_address()`: clears a set address; otherwise changes nothing. */
    method DeleteAddress()
      modifies this
      ensures address == if Truthy(old(address)) then None else old(address)
      ensures name == old(name) && email == old(email) && birthday == old(birthday)
    {
      if Truthy(address) {
        address := None;
      }
    }

    /** `delete_birthday()`: clears a set birthday; otherwise changes nothing. */
    method DeleteBirthday()
      modifies this
      ensures birthday == if BirthdaySet(old(birthday)) then NoBirthday else old(birthday)
      ensures name == old(name) && email == old(email) && address == old(address)
    {
      if BirthdaySet(birthday) {
        birthday := NoBirthday;
      }
    }

    /** `__str__()`, with the colouring wrapper taken as the identity. */
    function Str(): (r: Result<string>)
      reads this, phones
      ensures r.Err? <==> birthday.BirthdayText? && birthday.text != ""
      ensures r.Ok? ==> StartsWith(r.value, "Contact name: " + name + ", phones: " + Join(", ", phones.value))
    {
      Describe(name, phones.value, birthday, email, address)
    }
  }

  /** `Email.remove_email(contact)`: clears a set email and reports whether
      there was one. */
  method RemoveEmail(contact: Record) returns (removed: bool)
    modifies contact
    ensures removed <==> EmailSet(old(contact.email))
    ensures contact.email == if removed then NoEmail else old(contact.email)
    ensures contact.name == old(contact.name) && contact.birthday == old(contact.birthday)
    ensures contact.address == old(contact.address)
  {
    if EmailSet(contact.email) {
      contact.email := NoEmail;
      return true;
    }
    return false;
  }

  class AddressBook {
    var data: map<string, Record>
    /** The dict's key order: insertion order, kept when a key is reassigned. */
    var order: seq<string>
    /** How many times `save_data` has written the book. */
    var saves: nat

    ghost predicate Valid()
      reads this
    {
      NoDup(order) && forall k :: k in data <==> k in order
    }

    constructor()
      ensures Valid() && data == map[] && order == [] && saves == 0
    {
      data := map[];
      order := [];
      saves := 0;
    }

    /** The records' names in the dict's order. */
    function Names(): (ns: seq<string>)
      reads this, data.Values
      requires Valid()
      ensures |ns| == |order| && forall i :: 0 <= i < |order| ==> ns[i] == data[order[i]].name
    {
      seq(|order|, i requires 0 <= i < |order| && order[i] in data reads this, data.Values => data[order[i]].name)
    }

    /** `add_address(record)`: stores the record under its name, replacing
        any record already there; a new key goes last in the order. */
    method AddAddress(record: Record)
      requires Valid()
      modifies this
      ensures Valid()
      ensures data == old(data)[record.name := record]
      ensures order == AppendIfAbsent(old(order), record.name)
      ensures saves == old(saves)
    {
      AppendIfAbsentNoDup(order, record.name);
      data := data[record.name := record];
      order := AppendIfAbsent(order, record.name);
    }

    /** The phone collections of the book's records. */
    function PhoneObjects(): set<SrcPhone.Phone>
      reads this, data.Values
    {
      set rec | rec in data.Values :: rec.phones
    }

    /** What `find_address(query)` answers. For a name, the first record in
        order whose name equals the query ignoring case. For a phone-like
        query, iterating a record's `Phone` yields plain strings, which have
        no `.value`: the search fails with `AttributeError` as soon as it
        meets a record with a phone, and finds nothing otherwise. */
    function Lookup(query: string): (r: Result<Option<Record>>)
      requires Valid()
      reads this, data.Values, PhoneObjects()
      ensures r.Err? ==> PhoneQuery(query) && r.error == AttributeError
      ensures PhoneQuery(query) ==>
        (r.Err? <==> exists k :: k in data && data[k].phones.value != []) && (r.Ok? ==> r.value == None)
      ensures !PhoneQuery(query) && r.Ok? && r.value.Some? ==>
        r.value.value in data.Values && Lower(r.value.value.name) == Lower(query)
      ensures !PhoneQuery(query) && r.Ok? && r.value.Some? ==>
        exists i :: 0 <= i < |order| && r.value.value == data[order[i]] &&
          forall j :: 0 <= j < i ==> Lower(data[order[j]].name) != Lower(query)
      ensures !PhoneQuery(query) && r == Ok(None) ==>
        forall k :: k in data ==> Lower(data[k].name) != Lower(query)
    {
      if PhoneQuery(query) then
        if exists k :: k in data && data[k].phones.value != [] then Err(AttributeError) else Ok(None)
      else
        var names := Names();
        var k := FirstNameMatch(names, query);
        if k < 0 then
          assert forall key :: key in data ==> exists i :: 0 <= i < |order| && order[i] == key;
          Ok(None)
        else
          assert names[k] == data[order[k]].name;
          assert forall j :: 0 <= j < k ==> names[j] == data[order[j]].name;
          Ok(Some(data[order[k]]))
    }

    /** `find_address(query)`: a search in dict order. */
    method FindAddress(query: string) returns (r: Result<Option<Record>>)
      requires Valid()
      ensures r == Lookup(query)
    {
      if PhoneQuery(query) {
        var i := 0;
        while i < |order|
          invariant 0 <= i <= |order|
          invariant forall j :: 0 <= j < i ==> data[order[j]].phones.value == []
        {
          if data[order[i]].phones.value != [] {
            return Err(AttributeError);
          }
          i := i + 1;
        }
        assert forall k :: k in data ==> exists j :: 0 <= j < |order| && order[j] == k;
        return Ok(None);
      } else {
        ghost var names := Names();
        ghost var k := FirstNameMatch(names, query);
        var i := 0;
        while i < |order|
          invariant 0 <= i <= |order|
          invariant k < 0 || i <= k
        {
          if Lower(data[order[i]].name) == Lower(query) {
            assert names[i] == data[order[i]].name;
            return Ok(Some(data[order[i]]));
          }
          assert names[i] == data[order[i]].name;
          i := i + 1;
        }
        return Ok(None);
      }
    }

    /** `edit_address(name, record)`: binds the key to the record. */
    method EditAddress(name: string, record: Record)
      requires Valid()
      modifies this
      ensures Valid()
      ensures data == old(data)[name := record]
      ensures order == AppendIfAbsent(old(order), name)
      ensures saves == old(saves)
    {
      AppendIfAbsentNoDup(order, name);
      data := data[name := record];
      order := AppendIfAbsent(order, name);
    }

    /** `delete_contact(name)`: removes the key and reports whether it was
        present. */
    method DeleteContact(name: string) returns (deleted: bool)
      requires Valid()
      modifies this
      ensures Valid()
      ensures deleted <==> name in old(data)
      ensures data == old(data) - {name}
      ensures order == RemoveFirst(old(order), name)
      ensures saves == old(saves)
    {
      RemoveFirstNoDup(order, name);
      if name in data {
        data := data - {name};
        order := RemoveFirst(order, name);
        return true;
      }
      return false;
    }

    /** `delete_address(name)`: clears the contact's address when set. */
    method DeleteAddress(name: string)
      requires Valid()
      modifies if name in data then {data[name]} else {}
      ensures name in data ==>
        data[name].address == if Truthy(old(data[name].address)) then None else old(data[name].address)
      ensures name in data ==>
        data[name].name == old(data[name].name) && data[name].email == old(data[name].email) &&
        data[name].birthday == old(data[name].birthday)
    {
      if name in data {
        data[name].DeleteAddress();
      }
    }

    /** `delete_birthday(name)`: clears the contact's birthday when set. */
    method DeleteBirthday(name: string)
      requires Valid()
      modifies if name in data then {data[name]} else {}
      ensures name in data ==>
        data[name].birthday == if BirthdaySet(old(data[name].birthday)) then NoBirthday else old(data[name].birthday)
      ensures name in data ==>
        data[name].name == old(data[name].name) && data[name].email == old(data[name].email) &&
        data[name].address == old(data[name].address)
    {
      if name in data {
        data[name].DeleteBirthday();
      }
    }

    /** `delete_phone(name, number)`: removes the number and answers true only
        when the contact exists and holds the number's normal form. */
    method DeletePhone(name: string, number: string) returns (deleted: bool)
      requires Valid()
      modifies if name in data then {data[name].phones} else {}
      ensures deleted <==>
        (name in data && SrcValidators.NormalizePhone(number) in old(data[name].phones.value))
      ensures name in data ==>
        data[name].phones.value == RemoveFirst(old(data[name].phones.value), SrcValidators.NormalizePhone(number))
    {
      if name in data {
        var contact := data[name];
        var found := contact.phones.FindPhone(number);
        if found {
          contact.DeletePhone(number);
          return true;
        }
      }
      return false;
    }

    /** `change_name(old, new)`: the first record, in order, whose name equals
        the stripped old name ignoring case gets the stripped, title-cased new
        name and the book is saved. The dict key is not changed. */
    method ChangeName(oldName: string, newName: string)
      requires Valid()
      modifies this, data.Values
      ensures data == old(data) && order == old(order)
      ensures var k := old(FirstNameMatch(Names(), Strip(oldName)));
        if k < 0 then
          saves == old(saves) && forall r :: r in data.Values ==> r.name == old(r.name)
        else
          saves == old(saves) + 1 && data[order[k]].name == Title(Strip(newName)) &&
          forall r :: r in data.Values && r != data[order[k]] ==> r.name == old(r.name)
      ensures forall r :: r in data.Values ==>
        r.birthday == old(r.birthday) && r.email == old(r.email) && r.address == old(r.address)
    {
      ghost var k := FirstNameMatch(Names(), Strip(oldName));
      var target := Lower(Strip(oldName));
      LowerIdempotent(Strip(oldName));
      var i := 0;
      while i < |order| && Lower(data[order[i]].name) != target
        invariant 0 <= i <= |order|
        invariant k < 0 || i <= k
      {
        i := i + 1;
      }
      if i < |order| {
        assert k == i;
        data[order[i]].name := Title(Strip(newName));
        saves := saves + 1;
      }
    }
  }
}
