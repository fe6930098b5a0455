/** src/phone.py: the phone collection of a contact. `value` is the list of
    stored numbers in insertion order (what iterating a `Phone` yields);
    `numbers` is the raw list the collection was built from. */
module SrcPhone {
  import opened Outcomes
  import opened Seqs
  import opened SrcValidators

  /** The constructor's contents: every raw number normalised, in order, with
      no de-duplication and rejection texts included. */
  function NormalizeAll(phones: seq<string>): (r: seq<string>)
    ensures |r| == |phones|
    ensures forall i :: 0 <= i < |phones| ==> r[i] == NormalizePhone(phones[i])
  {
    if phones == [] then []
    else NormalizeAll(phones[..|phones| - 1]) + [NormalizePhone(phones[|phones| - 1])]
  }

  class Phone {
    const numbers: seq<string>
    var value: seq<string>

    /** `Phone(phones)`: normalises every raw number into `value`. */
    constructor(phones: seq<string>)
      ensures numbers == phones
      ensures value == NormalizeAll(phones)
    {
      numbers := phones;
      value := [];
      new;
      NormalizeAllPhones();
    }

    /** `_normalize_all_phones`: appends the normal form of each raw number.
        `normalize_phone` always returns a string, so the `raise` beside the
        append is never reached. */
    method NormalizeAllPhones()
      modifies this
      ensures value == old(value) + NormalizeAll(numbers)
    {
      var i := 0;
      while i < |numbers|
        invariant 0 <= i <= |numbers|
        invariant value == old(value) + NormalizeAll(numbers[..i])
      {
        assert numbers[..i + 1][..i] == numbers[..i];
        value := value + [NormalizePhone(numbers[i])];
        i := i + 1;
      }
      assert numbers[..i] == numbers;
    }

    /** `add_phone(number)`: a valid number is appended in canonical form when
        absent; an invalid one raises `ValueError` and changes nothing. */
    method AddPhone(number: string) returns (r: Result<()>)
      modifies this
      ensures var c := NormalizePhone(number);
        if IsRejection(c) then r == Err(ValueError) && value == old(value)
        else r == Ok(()) && value == AppendIfAbsent(old(value), c)
    {
      var c := NormalizePhone(number);
      if !IsRejection(c) {
        if c !in value {
          value := value + [c];
        }
        r := Ok(());
      } else {
        r := Err(ValueError);
      }
    }

    /** `find_phone(number)`: membership of the canonical form. */
    method FindPhone(number: string) returns (found: bool)
      ensures found <==> exists i :: 0 <= i < |value| && value[i] == NormalizePhone(number)
    {
      found := NormalizePhone(number) in value;
    }

    /** `edit_phone(old, new)`: the first entry equal to the normal form of
        `old` is replaced, at its index, by the normal form of `new`. */
    method EditPhone(oldNumber: string, newNumber: string) returns (r: Result<bool>)
      modifies this
      ensures var k := FirstIndex(old(value), NormalizePhone(oldNumber));
        var c := NormalizePhone(newNumber);
        if k < 0 then r == Ok(false) && value == old(value)
        else if IsRejection(c) then r == Err(ValueError) && value == old(value)
        else r == Ok(true) && value == old(value)[k := c]
    {
      var index := 0;
      while index < |value|
        invariant 0 <= index <= |value|
        invariant value == old(value)
        invariant NormalizePhone(oldNumber) !in value[..index]
      {
        if value[index] == NormalizePhone(oldNumber) {
          var c := NormalizePhone(newNumber);
          if !IsRejection(c) {
            value := value[index := c];
            return Ok(true);
          } else {
            return Err(ValueError);
          }
        }
        assert value[..index + 1] == value[..index] + [value[index]];
        index := index + 1;
      }
      assert value[..index] == value;
      r := Ok(false);
    }

    /** `remove_phone(number)`: the first occurrence of the canonical form is
        removed; an absent number leaves the list as it is. */
    method RemovePhone(number: string)
      modifies this
      ensures value == RemoveFirst(old(value), NormalizePhone(number))
    {
      var c := NormalizePhone(number);
      if c in value {
        value := RemoveFirst(value, c);
      }
    }
  }

  /** Adding one number in two raw formats leaves exactly one entry for it
      when it was absent. */
  lemma AddAnyFormatOnce(v: seq<string>, a: string, b: string)
    requires NormalizePhone(a) !in v
    requires StripPhone(a) == StripPhone(b)
    ensures Count(AppendIfAbsent(AppendIfAbsent(v, NormalizePhone(a)), NormalizePhone(b)), NormalizePhone(a)) == 1
  {
    var c := NormalizePhone(a);
    SameDigitsSameNumber(a, b);
    CountAppend(v, [c], c);
    assert Count([c], c) == 1;
  }
}
