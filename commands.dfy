/** commands.py: the dict-based command layer. Each command reads the stored
    contacts (a map from name to a dict with `phones`, and optionally
    `emails`, `birthday` and `address`), changes one entry and writes the map
    back only when it succeeds. The stored file is the `contacts` field of a
    `ContactStore`; `writes` counts the calls to `write_contacts`. */
module Commands {
  import opened Outcomes
  import opened Seqs

  /** One contact's dict. A key the dict lacks is `None`; `phones` is always
      there, since `command_add_contact` is the only command that creates a
      contact and it sets it. */
  datatype Contact = Contact(phones: seq<string>, emails: Option<seq<string>>,
                             birthday: Option<string>, address: Option<string>)

  type Contacts = map<string, Contact>

  /** `command_add_contact`: the raw phone is appended, duplicates and all; a
      new name gets a dict holding just that phone. */
  function AddContact(cs: Contacts, name: string, phone: string): (r: Contacts)
    ensures name in r && |r[name].phones| > 0 && r[name].phones[|r[name].phones| - 1] == phone
    ensures name in cs ==> r[name] == cs[name].(phones := cs[name].phones + [phone])
    ensures name !in cs ==> r[name] == Contact([phone], None, None, None)
    ensures forall k :: k != name ==> (k in r <==> k in cs) && (k in r ==> r[k] == cs[k])
  {
    if name in cs then cs[name := cs[name].(phones := cs[name].phones + [phone])]
    else cs[name := Contact([phone], None, None, None)]
  }

  /** `command_change_contact` for the `phone` field: the first occurrence of
      the old phone is removed and the new one goes last. Any other field, a
      missing contact or a missing phone writes nothing. */
  function ChangeContact(cs: Contacts, name: string, field: string, oldValue: string, newValue: string)
    : (r: Option<Contacts>)
    ensures r.Some? <==> name in cs && field == "phone" && oldValue in cs[name].phones
    ensures r.Some? ==>
      name in r.value &&
      r.value[name] == cs[name].(phones := RemoveFirst(cs[name].phones, oldValue) + [newValue])
    ensures r.Some? ==> forall k :: k != name ==> (k in r.value <==> k in cs) && (k in cs ==> r.value[k] == cs[k])
  {
    if name !in cs then None
    else if field != "phone" then None
    else if oldValue !in cs[name].phones then None
    else Some(cs[name := cs[name].(phones := RemoveFirst(cs[name].phones, oldValue) + [newValue])])
  }

  /** Changing a phone keeps the number of phones and swaps one occurrence of
      the old value for the new one, which is now last. */
  lemma ChangePhoneSwaps(cs: Contacts, name: string, oldValue: string, newValue: string)
    requires name in cs && oldValue in cs[name].phones
    ensures var r := ChangeContact(cs, name, "phone", oldValue, newValue).value[name].phones;
      |r| == |cs[name].phones| && r[|r| - 1] == newValue &&
      multiset(r) == multiset(cs[name].phones) - multiset{oldValue} + multiset{newValue}
  {
    var old' := cs[name].phones;
    var removed := RemoveFirst(old', oldValue);
    assert multiset(removed + [newValue]) == multiset(removed) + multiset{newValue};
  }

  /** `command_delete_contact` */
  function DeleteContact(cs: Contacts, name: string): (r: Option<Contacts>)
    ensures r.Some? <==> name in cs
    ensures r.Some? ==> name !in r.value && forall k :: k != name ==> (k in r.value <==> k in cs)
    ensures r.Some? ==> forall k :: k in r.value ==> r.value[k] == cs[k]
  {
    if name in cs then Some(cs - {name}) else None
  }

  /** `command_add_birthday`: overwrites, for an existing contact only. */
  function AddBirthday(cs: Contacts, name: string, b: string): (r: Option<Contacts>)
    ensures r.Some? <==> name in cs
    ensures r.Some? ==> name in r.value && r.value[name].birthday == Some(b)
    ensures r.Some? ==> r.value[name] == cs[name].(birthday := Some(b))
    ensures r.Some? ==> forall k :: k != name ==> (k in r.value <==> k in cs) && (k in cs ==> r.value[k] == cs[k])
  {
    if name in cs then Some(cs[name := cs[name].(birthday := Some(b))]) else None
  }

  /** `command_add_email`: creates the list if missing and appends,
      duplicates and all. */
  function AddEmail(cs: Contacts, name: string, e: string): (r: Option<Contacts>)
    ensures r.Some? <==> name in cs
    ensures r.Some? ==>
      name in r.value && r.value[name].emails.Some? &&
      r.value[name].emails.value == (if cs[name].emails.Some? then cs[name].emails.value else []) + [e]
    ensures r.Some? ==>
      r.value[name].phones == cs[name].phones && r.value[name].birthday == cs[name].birthday &&
      r.value[name].address == cs[name].address
    ensures r.Some? ==> forall k :: k != name ==> (k in r.value <==> k in cs) && (k in cs ==> r.value[k] == cs[k])
  {
    if name !in cs then None
    else
      var current := if cs[name].emails.Some? then cs[name].emails.value else [];
      Some(cs[name := cs[name].(emails := Some(current + [e]))])
  }

  /** `command_change_email`: needs an `emails` list holding the old email;
      its first occurrence is removed and the new email goes last. */
  function ChangeEmail(cs: Contacts, name: string, oldEmail: string, newEmail: string): (r: Option<Contacts>)
    ensures r.Some? <==> name in cs && cs[name].emails.Some? && oldEmail in cs[name].emails.value
    ensures r.Some? ==>
      name in r.value &&
      r.value[name] == cs[name].(emails := Some(RemoveFirst(cs[name].emails.value, oldEmail) + [newEmail]))
    ensures r.Some? ==> forall k :: k != name ==> (k in r.value <==> k in cs) && (k in cs ==> r.value[k] == cs[k])
  {
    if name !in cs || cs[name].emails.None? then None
    else if oldEmail !in cs[name].emails.value then None
    else Some(cs[name := cs[name].(emails := Some(RemoveFirst(cs[name].emails.value, oldEmail) + [newEmail]))])
  }

  /** `command_delete_email`: removes the first occurrence. */
  function DeleteEmail(cs: Contacts, name: string, e: string): (r: Option<Contacts>)
    ensures r.Some? <==> name in cs && cs[name].emails.Some? && e in cs[name].emails.value
    ensures r.Some? ==>
      name in r.value &&
      r.value[name] == cs[name].(emails := Some(RemoveFirst(cs[name].emails.value, e)))
    ensures r.Some? ==> |r.value[name].emails.value| == |cs[name].emails.value| - 1
    ensures r.Some? ==> forall k :: k != name ==> (k in r.value <==> k in cs) && (k in cs ==> r.value[k] == cs[k])
  {
    if name !in cs || cs[name].emails.None? then None
    else if e !in cs[name].emails.value then None
    else Some(cs[name := cs[name].(emails := Some(RemoveFirst(cs[name].emails.value, e)))])
  }

  /** Deleting an email that was just added, and was not there before, gives
      back the contact's list. */
  lemma DeleteUndoesAdd(cs: Contacts, name: string, e: string)
    requires name in cs && cs[name].emails.Some? && e !in cs[name].emails.value
    ensures var added := AddEmail(cs, name, e).value;
      DeleteEmail(added, name, e).Some? && DeleteEmail(added, name, e).value == cs
  {
    var list := cs[name].emails.value;
    RemoveUndoesAppend(list, e);
    assert AppendIfAbsent(list, e) == list + [e];
    var added := AddEmail(cs, name, e).value;
    assert added[name].emails.value == list + [e];
    var back := DeleteEmail(added, name, e).value;
    assert back[name] == cs[name];
  }

  /** `command_add_address`: overwrites, for an existing contact only. */
  function AddAddress(cs: Contacts, name: string, a: string): (r: Option<Contacts>)
    ensures r.Some? <==> name in cs
    ensures r.Some? ==> name in r.value && r.value[name] == cs[name].(address := Some(a))
    ensures r.Some? ==> forall k :: k != name ==> (k in r.value <==> k in cs) && (k in cs ==> r.value[k] == cs[k])
  {
    if name in cs then Some(cs[name := cs[name].(address := Some(a))]) else None
  }

  /** `command_delete_address`: removes the key only when the contact and
      the key both exist. */
  function DeleteAddress(cs: Contacts, name: string): (r: Option<Contacts>)
    ensures r.Some? <==> name in cs && cs[name].address.Some?
    ensures r.Some? ==> name in r.value && r.value[name] == cs[name].(address := None)
    ensures r.Some? ==> forall k :: k != name ==> (k in r.value <==> k in cs) && (k in cs ==> r.value[k] == cs[k])
  {
    if name in cs && cs[name].address.Some? then Some(cs[name := cs[name].(address := None)]) else None
  }

  /** Deleting the address right after setting it leaves the contact with no
      address, whatever it had before. */
  lemma DeleteAfterAddAddress(cs: Contacts, name: string, a: string)
    requires name in cs
    ensures var added := AddAddress(cs, name, a).value;
      DeleteAddress(added, name).Some? && DeleteAddress(added, name).value == cs[name := cs[name].(address := None)]
  {
  }

  /** The stored contacts file and the writes made to it. */
  class ContactStore {
    var contacts: Contacts
    var writes: nat

    constructor(initial: Contacts)
      ensures contacts == initial && writes == 0
    {
      contacts := initial;
      writes := 0;
    }

    /** `write_contacts(contacts)` */
    method Write(cs: Contacts)
      modifies this
      ensures contacts == cs && writes == old(writes) + 1
    {
      contacts := cs;
      writes := writes + 1;
    }

    method CommandAddContact(name: string, phone: string)
      modifies this
      ensures contacts == AddContact(old(contacts), name, phone) && writes == old(writes) + 1
    {
      var cs := contacts;
      if name in cs {
        var c := cs[name];
        cs := cs[name := c.(phones := c.phones + [phone])];
      } else {
        cs := cs[name := Contact([phone], None, None, None)];
      }
      Write(cs);
    }

    method CommandChangeContact(name: string, field: string, oldValue: string, newValue: string)
      returns (written: bool)
      modifies this
      ensures var r := ChangeContact(old(contacts), name, field, oldValue, newValue);
        written == r.Some? && (if written then contacts == r.value && writes == old(writes) + 1
                               else contacts == old(contacts) && writes == old(writes))
    {
      var cs := contacts;
      if name !in cs {
        return false;
      }
      if field == "phone" {
        var c := cs[name];
        if oldValue in c.phones {
          var phones := RemoveFirst(c.phones, oldValue);
          phones := phones + [newValue];
          Write(cs[name := c.(phones := phones)]);
          return true;
        }
      }
      return false;
    }

    method CommandDeleteContact(name: string) returns (written: bool)
      modifies this
      ensures var r := DeleteContact(old(contacts), name);
        written == r.Some? && (if written then contacts == r.value && writes == old(writes) + 1
                               else contacts == old(contacts) && writes == old(writes))
    {
      var cs := contacts;
      if name in cs {
        cs := cs - {name};
        Write(cs);
        return true;
      }
      return false;
    }

    method CommandAddBirthday(name: string, b: string) returns (written: bool)
      modifies this
      ensures var r := AddBirthday(old(contacts), name, b);
        written == r.Some? && (if written then contacts == r.value && writes == old(writes) + 1
                               else contacts == old(contacts) && writes == old(writes))
    {
      var cs := contacts;
      if name in cs {
        cs := cs[name := cs[name].(birthday := Some(b))];
        Write(cs);
        return true;
      }
      return false;
    }

    method CommandAddEmail(name: string, e: string) returns (written: bool)
      modifies this
      ensures var r := AddEmail(old(contacts), name, e);
        written == r.Some? && (if written then contacts == r.value && writes == old(writes) + 1
                               else contacts == old(contacts) && writes == old(writes))
    {
      var cs := contacts;
      if name in cs {
        var c := cs[name];
        if c.emails.None? {
          c := c.(emails := Some([]));
        }
        c := c.(emails := Some(c.emails.value + [e]));
        Write(cs[name := c]);
        return true;
      }
      return false;
    }

    method CommandChangeEmail(name: string, oldEmail: string, newEmail: string) returns (written: bool)
      modifies this
      ensures var r := ChangeEmail(old(contacts), name, oldEmail, newEmail);
        written == r.Some? && (if written then contacts == r.value && writes == old(writes) + 1
                               else contacts == old(contacts) && writes == old(writes))
    {
      var cs := contacts;
      if name !in cs || cs[name].emails.None? {
        return false;
      }
      var c := cs[name];
      if oldEmail in c.emails.value {
        var emails := RemoveFirst(c.emails.value, oldEmail);
        emails := emails + [newEmail];
        Write(cs[name := c.(emails := Some(emails))]);
        return true;
      }
      return false;
    }

    method CommandDeleteEmail(name: string, e: string) returns (written: bool)
      modifies this
      ensures var r := DeleteEmail(old(contacts), name, e);
        written == r.Some? && (if written then contacts == r.value && writes == old(writes) + 1
                               else contacts == old(contacts) && writes == old(writes))
    {
      var cs := contacts;
      if name !in cs || cs[name].emails.None? {
        return false;
      }
      var c := cs[name];
      if e in c.emails.value {
        Write(cs[name := c.(emails := Some(RemoveFirst(c.emails.value, e)))]);
        return true;
      }
      return false;
    }

    method CommandAddAddress(name: string, a: string) returns (written: bool)
      modifies this
      ensures var r := AddAddress(old(contacts), name, a);
        written == r.Some? && (if written then contacts == r.value && writes == old(writes) + 1
                               else contacts == old(contacts) && writes == old(writes))
    {
      var cs := contacts;
      if name in cs {
        Write(cs[name := cs[name].(address := Some(a))]);
        return true;
      }
      return false;
    }

    method CommandDeleteAddress(name: string) returns (written: bool)
      modifies this
      ensures var r := DeleteAddress(old(contacts), name);
        written == r.Some? && (if written then contacts == r.value && writes == old(writes) + 1
                               else contacts == old(contacts) && writes == old(writes))
    {
      var cs := contacts;
      if name in cs && cs[name].address.Some? {
        Write(cs[name := cs[name].(address := None)]);
        return true;
      }
      return false;
    }
  }
}
