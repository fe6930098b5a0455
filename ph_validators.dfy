/** personal_helper/validators.py: a second copy of the phone normaliser. Its
    branches and messages are those of src/validators.py; it ends with a
    `return None` after the if/elif chain, which the model keeps as the
    `None` case of an optional result. */
module PhValidators {
  import opened Outcomes
  import opened Text
  import SrcValidators

  /** `normalize_phone(number)`: the stripping and the ordered classifier,
      with the trailing `return None` after an exhaustive if/elif chain. */
  function NormalizePhone(number: string): (r: Option<string>)
    ensures r.Some?
    ensures SrcValidators.IsCanonical(r.value) || SrcValidators.IsRejection(r.value)
    ensures |SrcValidators.StripPhone(number)| < 10 ==>
              StartsWith(r.value, SrcValidators.InvalidPhoneNumber)
  {
    var n := SrcValidators.StripPhone(number);
    SrcValidators.RejectionTexts(n);
    if |n| < 10 then
      Some(SrcValidators.ShortRejection(n))
    else if |n| == 10 && IsDigitString(n) then
      Some("+38" + n)
    else if |n| == 11 && StartsWith(n, "+0") && IsDigitString(n[2..]) then
      Some("+380" + n[2..])
    else if |n| == 10 && StartsWith(n, "+") && IsDigitString(n[1..]) then
      Some("+380" + n[1..])
    else if |n| == 12 && IsDigitString(n) then
      Some("+" + n)
    else if |n| == 13 && StartsWith(n, "+") && IsDigitString(n[1..]) then
      Some(n)
    else if |n| == 13 && StartsWith(n, "+38") && IsDigitString(n[3..]) && |n| - 3 == 10 then
      Some(n)
    else if |n| == 12 && StartsWith(n, "380") && IsDigitString(n[3..]) && |n| - 3 == 9 then
      Some("+" + n)
    else if |n| == 11 && StartsWith(n, "0") && IsDigitString(n[1..]) then
      Some("+38" + n[1..])
    else
      Some(SrcValidators.LongRejection(n))
  }

  /** The two copies agree on every input. */
  lemma SameAsSrc(number: string)
    ensures NormalizePhone(number) == Some(SrcValidators.NormalizePhone(number))
  {
  }

  /** Accepted results are fixed points here too. */
  lemma NormalizeIdempotent(number: string)
    requires !SrcValidators.IsRejection(NormalizePhone(number).value)
    ensures NormalizePhone(NormalizePhone(number).value) == NormalizePhone(number)
  {
    SameAsSrc(number);
    SameAsSrc(NormalizePhone(number).value);
    SrcValidators.NormalizeIdempotent(number);
  }
}
