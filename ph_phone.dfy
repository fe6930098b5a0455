/** personal_helper/phone.py: the second phone collection. Adding and finding
    behave as in src/phone.py; editing looks only at the first entry and
    stores the new number without validating it, and removing empties the
    whole collection. */
module PhPhone {
  import opened Outcomes
  import SrcValidators
  import opened PhValidators
  import SrcPhone
  import opened Seqs

  class Phone {
    const numbers: seq<string>
    var value: seq<string>

    /** `Phone(phones)`: normalises every raw number into `value`. */
    constructor(phones: seq<string>)
      ensures numbers == phones
      ensures value == SrcPhone.NormalizeAll(phones)
    {
      numbers := phones;
      value := [];
      new;
      NormalizeAllPhones();
    }

    /** `_normalize_all_phones`: `normalize_phone` never returns `None`, so
        every raw number contributes its normal form and the `raise` is never
        reached. */
    method NormalizeAllPhones()
      modifies this
      ensures value == old(value) + SrcPhone.NormalizeAll(numbers)
    {
      var i := 0;
      while i < |numbers|
        invariant 0 <= i <= |numbers|
        invariant value == old(value) + SrcPhone.NormalizeAll(numbers[..i])
      {
        assert numbers[..i + 1][..i] == numbers[..i];
        SameAsSrc(numbers[i]);
        value := value + [NormalizePhone(numbers[i]).value];
        i := i + 1;
      }
      assert numbers[..i] == numbers;
    }

    /** `add_phone(number)`: as in src/phone.py. */
    method AddPhone(number: string) returns (r: Result<()>)
      modifies this
      ensures var c := SrcValidators.NormalizePhone(number);
        if SrcValidators.IsRejection(c) then r == Err(ValueError) && value == old(value)
        else r == Ok(()) && value == AppendIfAbsent(old(value), c)
    {
      SameAsSrc(number);
      var c := NormalizePhone(number);
      if c.Some? && !SrcValidators.IsRejection(c.value) {
        if c.value !in value {
          value := value + [c.value];
        }
        r := Ok(());
      } else {
        r := Err(ValueError);
      }
    }

    /** `find_phone(number)`: membership of the normal form. */
    method FindPhone(number: string) returns (found: bool)
      ensures found <==> exists i :: 0 <= i < |value| && value[i] == SrcValidators.NormalizePhone(number)
    {
      SameAsSrc(number);
      found := NormalizePhone(number).value in value;
    }

    /** `edit_phone(old, new)`: the loop returns during its first iteration
        either way, so it is written here as a test of index 0; on a match the normal form of `new` is
        stored there even when it is a rejection text. An empty collection
        gives `None`. */
    method EditPhone(oldNumber: string, newNumber: string) returns (r: Option<bool>)
      modifies this
      ensures old(value) == [] ==> r == None && value == old(value)
      ensures old(value) != [] && old(value)[0] == SrcValidators.NormalizePhone(oldNumber) ==>
        r == Some(true) && value == old(value)[0 := SrcValidators.NormalizePhone(newNumber)]
      ensures old(value) != [] && old(value)[0] != SrcValidators.NormalizePhone(oldNumber) ==>
        r == Some(false) && value == old(value)
    {
      SameAsSrc(oldNumber);
      SameAsSrc(newNumber);
      if |value| > 0 {
        if value[0] == NormalizePhone(oldNumber).value {
          value := value[0 := NormalizePhone(newNumber).value];
          return Some(true);
        }
        return Some(false);
      }
      r := None;
    }

    /** `remove_phone()`: empties the collection. */
    method RemovePhone()
      modifies this
      ensures value == []
    {
      value := [];
    }
  }
}
