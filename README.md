# Personal helper: a Dafny model of its contact book

The personal helper is a console assistant. It keeps an address book of
contacts, and each contact holds a name, phone numbers, a birthday, an email
and an address. It also keeps a list of notes. The repository has two
generations of the same program:

- `src/`: the address book, its records and the phone collection, the phone
  normaliser, the command interpreter that turns `add`, `change`, `birthday`
  and `address` commands into calls on the book, and the notes manager;
- `personal_helper/`: an older copy of the book, the record, the phone
  collection and the normaliser, a separate validated `Birthday` field with
  the upcoming-birthdays report, a smaller `address_book.py`, the `add`
  command of its own interpreter, and the `Note` class;
- `commands.py`: a third, dict-based command layer over a stored contacts
  file.

The model follows the source file by file. One Dafny module stands for one
source file (`Src…` for `src/`, `Ph…` for `personal_helper/`, `Commands` for
`commands.py`), and a few shared modules hold what several files use:

- `Outcomes`: `Option`, `Result` and the Python exceptions the code raises or
  triggers (`ValueError`, `TypeError`, `AttributeError`, `IndexError`);
- `Text`: lower-casing, `strip`, `title`, `split` and `join`;
- `Seqs`: `list.index`, `list.remove` and "append if absent";
- `Patterns`: the regular expressions (email, `DD.MM.YYYY` shape, phone
  token) as predicates;
- `Dates`: `strptime`/`strftime` with `%d.%m.%Y`, and day ordinals;
- `Records`: the field shapes shared by the record classes and their
  `__str__`;
- `StableSort`: the stable sort behind `sorted(..., key=...)`.

Objects whose fields the source updates in place are classes: the phone
collections, the records, the address books, the note, the notes manager and
the contacts store of `commands.py`. A Python `dict` is a `map` plus a `seq`
holding its key order. Every class carries `modifies` and `reads` frames, and
each method's `ensures` says what becomes of every field its frame lets it
change. The books keep the invariant that
the key order has no duplicates and holds exactly the keys of the map.
Parsing, classifying and the date arithmetic are functions, and the
properties that relate several calls are lemmas.

Behaviour worth knowing, as the code does it:

- `normalize_phone` returns its error as a string that starts with
  "Invalid". Callers test that prefix, and so does the model (`IsRejection`).
- `find_address` in `src/` treats a query that looks like a phone number as a
  phone search. That search iterates the record's phone collection, which
  yields the stored number strings, and reads `.value` on each string, so it
  raises `AttributeError` as soon as some record has a phone. In `personal_helper/` the same branch iterates the
  `Phone` object itself, which is not iterable, so it raises `TypeError`
  whenever the book is not empty.
- `Record.delete_phone` in `personal_helper/contact_book.py` calls
  `remove_phone(number)`. That `remove_phone` takes no argument, so the call
  raises `TypeError` whenever the number is present.
- `change_email` and `change_birthday` store a bare string where
  `add_email` / `add_birthday` store an object. A birthday changed that way
  makes `__str__` and the upcoming-birthdays report fail. An email changed
  that way still prints, but a later `add_email` of a valid address fails,
  and so does `remove_email` in `personal_helper/`. The model keeps both
  shapes (`EmailObj`/`EmailText`, `BirthdayObj`/`BirthdayText`).

## Model

| member | source | states |
|---|---|---|
| SrcValidators.StripPhone | src/validators.py:6 | the number keeps only digits and `+`, and is never longer than the input |
| SrcValidators.NormalizePhone | src/validators.py:4-40 | the result is a canonical `+` and 12 digits, or a rejection text; fewer than 10 kept characters always give the "not less than 10 digits" message |
| SrcValidators.RejectionTexts | src/validators.py:8-40 | both error messages start with "Invalid", so callers recognise them as rejections |
| SrcValidators.AcceptedIff | src/validators.py:8-40 | the result is canonical exactly when the stripped number has one of the accepted shapes |
| SrcValidators.RejectedIff | src/validators.py:8-40 | the result is a rejection exactly when the stripped number has none of the accepted shapes |
| SrcValidators.DeadBranches | src/validators.py:21-36 | the `+38`-and-10-digits and `380`-and-9-digits branches are never reached, because the `+`-and-12-digits and 12-digits branches take those numbers first; the function equals one without them |
| SrcValidators.StripPhoneAppend | src/validators.py:6 | stripping distributes over concatenation |
| SrcValidators.KeepsEveryPlus | src/validators.py:6 | a `+` anywhere in the input survives stripping |
| SrcValidators.StripPhoneClean | src/validators.py:6 | a string of digits and `+` is left as it is |
| SrcValidators.StripPhoneNone | src/validators.py:6 | a string with no digit and no `+` strips to the empty string |
| SrcValidators.StripPhoneIdempotent | src/validators.py:6 | stripping twice is stripping once |
| SrcValidators.CanonicalIsFixedPoint | src/validators.py:21-22 | a canonical number normalises to itself |
| SrcValidators.NormalizeIdempotent | src/validators.py:4-40 | normalising an accepted number again changes nothing |
| SrcValidators.SameDigitsSameNumber | src/validators.py:6 | two inputs with the same kept characters normalise alike, so separators never matter |
| SrcValidators.SeparatorIgnored | src/validators.py:6 | inserting a separator character anywhere leaves the result unchanged |
| SrcValidators.TenDigitsShape | src/validators.py:13-14 | ten digits get the `+38` prefix |
| SrcValidators.PlusZeroShape | src/validators.py:15-16 | `+0` and nine digits become `+380` and the nine digits |
| SrcValidators.PlusNineDigitsShape | src/validators.py:17-18 | `+` and nine digits become `+380` and the nine digits |
| SrcValidators.ZeroTenDigitsShape | src/validators.py:37-38 | `0` and ten digits become `+38` and the ten digits |
| SrcValidators.TwelveDigitsShape | src/validators.py:19-20 | twelve digits get a leading `+` |
| SrcValidators.ExampleTooShort | src/validators.py:8-12 | "123" gives the too-short message |
| SrcValidators.ExampleNotAPhone | src/validators.py:6-12 | a text with no digits is rejected |
| PhValidators.NormalizePhone | personal_helper/validators.py:3-28 | always returns a value (the trailing `return None` is unreachable); that value is canonical or a rejection |
| PhValidators.SameAsSrc | personal_helper/validators.py:3-28 | the copy computes exactly what `src/validators.py` computes, for every input |
| PhValidators.NormalizeIdempotent | personal_helper/validators.py:3-28 | normalising an accepted number again changes nothing |
| SrcPhone.NormalizeAll | src/phone.py:32-42 | element-wise normalisation of the given list, in order |
| SrcPhone.Phone.constructor | src/phone.py:27-30 | the collection holds the normalised given numbers, in order |
| SrcPhone.Phone.NormalizeAllPhones | src/phone.py:32-42 | the normalised numbers are appended to what is already stored |
| SrcPhone.Phone.AddPhone | src/phone.py:47-59 | a rejected number raises `ValueError` and changes nothing; otherwise the normalised number is appended unless already present |
| SrcPhone.Phone.FindPhone | src/phone.py:61-63 | true exactly when the normalised number is stored |
| SrcPhone.Phone.EditPhone | src/phone.py:65-80 | false and no change when the old number is absent; `ValueError` and no change when the new one is rejected; otherwise the first occurrence is replaced in place |
| SrcPhone.Phone.RemovePhone | src/phone.py:82-87 | the first occurrence of the normalised number is removed; otherwise nothing changes |
| SrcPhone.AddAnyFormatOnce | src/phone.py:47-59 | adding the same number in two spellings stores it once |
| PhPhone.Phone.constructor | personal_helper/phone.py:7-10 | the collection holds the normalised given numbers |
| PhPhone.Phone.NormalizeAllPhones | personal_helper/phone.py:12-18 | the normalised numbers are appended to what is stored |
| PhPhone.Phone.AddPhone | personal_helper/phone.py:20-26 | as in `src/`: rejection raises `ValueError`, otherwise append if absent |
| PhPhone.Phone.FindPhone | personal_helper/phone.py:28-30 | true exactly when the normalised number is stored |
| PhPhone.Phone.EditPhone | personal_helper/phone.py:32-37 | only the first stored number is compared; it is replaced when it matches, and an empty list returns `None` |
| PhPhone.Phone.RemovePhone | personal_helper/phone.py:39-40 | the list becomes empty |
| Seqs.FirstIndex | src/phone.py:65-80 | `list.index`: the first position holding the value, or -1 exactly when it is absent |
| Seqs.RemoveFirst | src/phone.py:82-87 | `list.remove`: the first occurrence is cut out, leaving what was before and after it; the list is unchanged when the value is absent |
| Seqs.Count | src/phone.py:47-59 | occurrences of a value; zero exactly when absent |
| Seqs.CountAppend | src/phone.py:47-59 | counts add up over concatenation |
| Seqs.NoDupCount | src/phone.py:47-59 | in a list without duplicates each value occurs at most once |
| Seqs.AppendIfAbsent | src/phone.py:53-54 | the old list is a prefix, the value is present afterwards, and nothing else is added |
| Seqs.AppendIfAbsentIdempotent | src/phone.py:53-54 | adding twice is adding once |
| Seqs.AppendIfAbsentNoDup | src/contact_book.py:12-16 | adding keeps a duplicate-free key order duplicate-free |
| Seqs.RemoveUndoesAppend | src/phone.py:82-87 | removing a value just appended restores the list |
| Seqs.RemoveFirstNoDup | src/contact_book.py:59-63 | removing a key from a duplicate-free order leaves it duplicate-free, without the key, and with every other key |
| Outcomes.KeepIfTruthy | src/contact_book.py:127-134 | Python truthiness of an optional string: `None` and "" count as unset |
| Text.Lower | src/contact_book.py:32-47 | `str.lower`, character by character, same length |
| Text.LowerIdempotent | src/contact_book.py:103-116 | lower-casing twice is lower-casing once |
| Text.Strip | src/contact_book.py:103-116 | `str.strip`: no leading or trailing whitespace is left |
| Text.StripNoSpace | src/contact_book.py:103-116 | a word without whitespace is its own strip |
| Text.StripKeepsOut | src/helper.py:298-313 | stripping adds no character |
| Text.Title | src/contact_book.py:105 | `str.title` keeps the length |
| Text.SplitWhitespace | personal_helper/helper.py:10-14 | `str.split()` yields non-empty words without whitespace |
| Text.SplitJoin | personal_helper/helper.py:10-14 | splitting words joined by single spaces gives the words back |
| Text.IndexOfChar | src/helper.py:298-313 | `str.index`: the first position of the character, or -1 exactly when absent |
| Text.LastIndexOfChar | src/contact_book.py:137 | the last position of the character, or -1 exactly when absent |
| Text.StrLeTotal | src/notes_manager.py:73-76 | string order is total |
| Text.StrLeTransitive | src/notes_manager.py:73-76 | string order is transitive |
| Text.StrLeAntisymmetric | src/notes_manager.py:73-76 | string order is antisymmetric |
| Patterns.EmailFromParts | src/contact_book.py:137 | a local part, a domain and a two-letter-or-longer top-level domain of the allowed characters form a matching email |
| Patterns.EmailToParts | src/contact_book.py:137 | every matching email splits into such parts, so the predicate is exactly the regular expression |
| Patterns.DomainFromParts | src/contact_book.py:137 | a domain and a letters-only top-level domain form a valid domain tail |
| Patterns.LastDotAt | src/contact_book.py:137 | the top-level domain starts after the last dot |
| Patterns.KindsDisjoint | src/helper.py:177-200 | a token is never both a phone and a date, and neither is an email |
| Dates.ParseDate | personal_helper/birthday.py:10-16 | `strptime(v, "%d.%m.%Y")` yields only real calendar dates, and a date it yields is read from one- or two-digit day and month fields and a four-digit year separated by dots |
| Dates.ParseFields | personal_helper/birthday.py:10-16 | well-shaped fields parse to the date they spell exactly when that date exists, and are refused otherwise |
| Dates.DayPastMonthEndRefused | personal_helper/birthday.py:10-16 | a day past the end of its month is refused |
| Dates.ThirtyFirstFebruaryRefused | personal_helper/birthday.py:10-16 | "31.02.2024" is refused |
| Dates.LeapDayNeedsLeapYear | personal_helper/birthday.py:10-16 | "29.02.2023" is refused |
| Dates.LeapDayInLeapYear | personal_helper/birthday.py:10-16 | "29.02.2024" is 29 February 2024 |
| Dates.OneDigitFields | personal_helper/birthday.py:10-16 | "1.3.2024" is 1 March 2024 |
| Dates.FormatDate | personal_helper/birthday.py:59-61 | `strftime("%d.%m.%Y")` gives ten characters |
| Dates.ParseFormat | personal_helper/birthday.py:49-61 | parsing a formatted date gives the date back |
| Dates.ValuePad2 | personal_helper/birthday.py:59-61 | a two-digit zero-padded field reads back as its value |
| Dates.ValuePad4 | personal_helper/birthday.py:59-61 | a four-digit zero-padded year reads back as its value |
| Dates.DaysBeforeNextYear | personal_helper/birthday.py:46 | day ordinals advance by the year's length from one year to the next |
| Dates.DaysBeforeMonthBound | personal_helper/birthday.py:52-55 | a month's days fit inside its year |
| Dates.MonthsGrow | personal_helper/birthday.py:52-55 | later months start later |
| Dates.NextYearIsLater | personal_helper/birthday.py:52-53 | any date of the next year is later than any date of this year |
| PhBirthday.ValidateBirthday | personal_helper/birthday.py:10-16 | the value comes back exactly when `strptime` accepts it; otherwise `ValueError` |
| PhBirthday.FormattedDateValidates | personal_helper/birthday.py:10-16 | every formatted calendar date validates |
| PhBirthday.Birthday.New | personal_helper/birthday.py:7-8 | creation fails with `ValueError` exactly for a value `strptime` refuses, and stores the value otherwise |
| PhBirthday.Birthday.RemoveBirthday | personal_helper/birthday.py:39-40 | the value becomes `None` |
| PhBirthday.Replace | personal_helper/birthday.py:50 | `date.replace(year=y)` succeeds exactly when day and month exist in that year; otherwise `ValueError` |
| PhBirthday.Candidate | personal_helper/birthday.py:50-53 | the next anniversary keeps day and month and is not before today; it falls this year exactly when this year's date exists and is not past, next year exactly when this year's date is past and next year's exists, and any failure is `ValueError` |
| PhBirthday.NextYearCandidateLater | personal_helper/birthday.py:52-53 | the next-year anniversary is strictly after today |
| PhBirthday.CandidateExists | personal_helper/birthday.py:50-53 | every birthday other than 29 February has an anniversary |
| PhBirthday.LeapDayFails | personal_helper/birthday.py:50 | a 29 February birthday in a non-leap year raises `ValueError` |
| PhBirthday.EntryOutcome | personal_helper/birthday.py:47-63 | a contact without a birthday adds nothing; `AttributeError` exactly for a bare-string birthday, `TypeError` exactly for a removed one, `ValueError` exactly when parsing or placing the date fails; otherwise the name and the formatted anniversary are listed exactly when the anniversary lies within `[today, today + days]` |
| PhBirthday.Step | personal_helper/birthday.py:47-63 | the first error stops the loop; a skipped contact leaves the list as it was |
| PhBirthday.ContactOutcomes | personal_helper/birthday.py:47 | one outcome per contact, in dict order |
| PhBirthday.Fold | personal_helper/birthday.py:44-64 | succeeds exactly when no outcome is an error, and otherwise fails with the first error; every listed pair comes from some outcome, and every listed outcome is in the list |
| PhBirthday.Upcoming | personal_helper/birthday.py:43-64 | `OverflowError` when `today + days` leaves the date range; otherwise it fails exactly when some contact raises, with the first such error; on success the list holds exactly the pairs the contacts contribute |
| PhBirthday.GetUpcomingBirthdays | personal_helper/birthday.py:43-64 | the loop computes the fold of the contacts' outcomes |
| PhBirthday.ErrorPersists | personal_helper/birthday.py:47-63 | once a contact raises, the report raises that error whatever follows |
| PhBirthday.FoldAppend | personal_helper/birthday.py:47-63 | the report of two runs of contacts is the concatenation of their reports |
| PhBirthday.StepShift | personal_helper/birthday.py:56-63 | one step appends independently of what came before |
| PhBirthday.UpcomingAppend | personal_helper/birthday.py:43-64 | the report is compositional in the contacts, in order |
| PhBirthday.UpcomingInWindow | personal_helper/birthday.py:55 | every listed date lies within `[today, today + days]`; a negative window lists nobody |
| PhBirthday.UpcomingComplete | personal_helper/birthday.py:47-63 | when the report succeeds, every contact whose anniversary lies within `[today, today + days]` is listed with that date |
| Records.EmailAfterAdd | src/contact_book.py:136-157 | a non-matching email changes nothing; a matching one replaces the email, except that a stored bare string raises `AttributeError` |
| Records.EmailAddIdempotent | src/contact_book.py:136-157 | adding the same email twice is adding it once |
| Records.FirstNameMatch | src/contact_book.py:32-47 | the first record, in dict order, whose name matches case-insensitively, or -1 when none does |
| Records.FirstNameMatchIgnoresCase | src/contact_book.py:103-116 | lower-casing the query does not change the match |
| Records.FirstNameMatchSameKey | src/contact_book.py:32-47 | queries equal up to case find the same record |
| Records.BirthdayPart | src/contact_book.py:266-273 | rendering fails exactly when the birthday is a non-empty bare string |
| Records.Describe | src/contact_book.py:266-273 | the text starts with the name and the joined phones, and fails exactly for a non-empty bare-string birthday |
| Records.DescribeBare | src/contact_book.py:266-273 | with no birthday, email or address the text is just name and phones |
| Records.DescribeAddressLast | src/contact_book.py:271-272 | a set address is appended last |
| Records.DescribeBirthdayAndEmail | src/contact_book.py:266-273 | a birthday and a non-empty email are printed in that order after name and phones |
| Records.DescribeEmptyEmail | src/contact_book.py:266-273 | an email object with the empty address prints as "No email" |
| Records.DescribeNoAddress | personal_helper/address_book.py:87-91 | this record's text has no address part, fails exactly for a non-empty bare-string birthday, and is just name and phones when nothing else is set |
| Records.DescribeNoAddressEmail | personal_helper/address_book.py:87-91 | a non-empty plain email prints after name and phones |
| Records.DescribeNoAddressBirthdayAndEmail | personal_helper/address_book.py:87-91 | a birthday and a non-empty plain email print in that order |
| SrcContactBook.InitialBirthday | src/contact_book.py:127-134 | a falsy birthday argument leaves the birthday unset |
| SrcContactBook.InitialEmail | src/contact_book.py:127-134 | a falsy email argument leaves the email unset |
| SrcContactBook.Record.constructor | src/contact_book.py:127-134 | name as given, phones normalised, optional fields set only when truthy |
| SrcContactBook.Record.AddEmail | src/contact_book.py:136-157 | the new email is `EmailAfterAdd` of the old, with its error; the other fields are unchanged |
| SrcContactBook.Record.ChangeEmail | src/contact_book.py:159-164 | a matching email is stored as a bare string; otherwise nothing changes |
| SrcContactBook.Record.AddBirthday | src/contact_book.py:166-167 | the birthday is replaced unchecked |
| SrcContactBook.Record.ChangeBirthday | src/contact_book.py:169-179 | a `DD.MM.YYYY`-shaped value is stored as a bare string; otherwise nothing changes |
| SrcContactBook.Record.DeletePhone | src/contact_book.py:209-219 | the first occurrence of the normalised number is removed |
| SrcContactBook.Record.AddAddress | src/contact_book.py:221-222 | the address is set; the other fields are unchanged |
| SrcContactBook.Record.DeleteAddress | src/contact_book.py:244-256 | a set address is cleared |
| SrcContactBook.Record.DeleteBirthday | src/contact_book.py:258-264 | a set birthday is cleared |
| SrcContactBook.Record.Str | src/contact_book.py:266-273 | the text starts with the name and the joined phones, and fails exactly for a non-empty bare-string birthday |
| SrcContactBook.RemoveEmail | src/contact_book.py:289-293 | the email is cleared exactly when one is set, and the result says so |
| SrcContactBook.AddressBook.constructor | src/contact_book.py:10 | an empty book |
| SrcContactBook.AddressBook.Names | src/contact_book.py:32-47 | the record names in dict order |
| SrcContactBook.AddressBook.AddAddress | src/contact_book.py:12-16 | the record is stored under its name, a new name goes last in the order, and the invariant holds |
| SrcContactBook.AddressBook.Lookup | src/contact_book.py:32-47 | a phone-like query raises `AttributeError` exactly when some record has a phone, and finds nothing otherwise; a name query finds the first record in dict order whose name matches up to case, or finds nothing only when no name matches |
| SrcContactBook.AddressBook.FindAddress | src/contact_book.py:32-47 | the loop returns exactly `Lookup` |
| SrcContactBook.AddressBook.EditAddress | src/contact_book.py:49-50 | the record is stored under the given key |
| SrcContactBook.AddressBook.DeleteContact | src/contact_book.py:59-63 | true exactly when the key existed; the key leaves the map and the order |
| SrcContactBook.AddressBook.DeleteAddress | src/contact_book.py:65-71 | the named record's set address is cleared; its other fields are unchanged |
| SrcContactBook.AddressBook.DeleteBirthday | src/contact_book.py:96-101 | the named record's set birthday is cleared; its other fields are unchanged |
| SrcContactBook.AddressBook.DeletePhone | src/contact_book.py:80-94 | true exactly when the record exists and holds the number, which is then removed |
| SrcContactBook.AddressBook.ChangeName | src/contact_book.py:103-116 | the first record whose name matches the stripped old name up to case gets the title-cased stripped new name and the book is saved once; nothing else changes, and no match changes nothing |
| PhContactBook.Record.New | personal_helper/contact_book.py:104-111 | creation fails with `ValueError` exactly for a birthday `strptime` refuses; otherwise the fields are as given |
| PhContactBook.Record.AddEmail | personal_helper/contact_book.py:113-130 | as `src/`: `EmailAfterAdd` of the old email |
| PhContactBook.Record.ChangeEmail | personal_helper/contact_book.py:132-137 | a matching email is stored as a bare string |
| PhContactBook.Record.AddBirthday | personal_helper/contact_book.py:139-140 | `ValueError` and no change for an unparsable date; otherwise the validated birthday is stored |
| PhContactBook.Record.ChangeBirthday | personal_helper/contact_book.py:142-148 | a `DD.MM.YYYY`-shaped value is stored as a bare string |
| PhContactBook.Record.DeletePhone | personal_helper/contact_book.py:178-184 | `TypeError` exactly when the number is present |
| PhContactBook.Record.AddAddress | personal_helper/contact_book.py:186-187 | the address is set |
| PhContactBook.Record.DeleteAddress | personal_helper/contact_book.py:205-213 | a set address is cleared |
| PhContactBook.Record.DeleteBirthday | personal_helper/contact_book.py:215-220 | a set birthday is cleared |
| PhContactBook.Record.Str | personal_helper/contact_book.py:222-227 | starts with name and phones; fails exactly for a non-empty bare-string birthday |
| PhContactBook.RemoveEmail | personal_helper/contact_book.py:243-247 | clears the email exactly when the stored object holds that address; a bare string raises `AttributeError` |
| PhContactBook.AddressBook.constructor | personal_helper/contact_book.py:9 | an empty book |
| PhContactBook.AddressBook.Names | personal_helper/contact_book.py:91-99 | the record names in dict order |
| PhContactBook.AddressBook.AddAddress | personal_helper/contact_book.py:10-14 | the record is stored under its name; the invariant holds |
| PhContactBook.AddressBook.Lookup | personal_helper/contact_book.py:28-39 | a phone-like query raises `TypeError` exactly when the book is not empty; a name query is an exact key lookup |
| PhContactBook.AddressBook.FindAddress | personal_helper/contact_book.py:28-39 | the method returns exactly `Lookup` |
| PhContactBook.AddressBook.EditAddress | personal_helper/contact_book.py:41-42 | the record is stored under the given key |
| PhContactBook.AddressBook.DeleteContact | personal_helper/contact_book.py:51-55 | true exactly when the key existed; it leaves map and order |
| PhContactBook.AddressBook.DeleteAddress | personal_helper/contact_book.py:57-63 | the named record's set address is cleared; its other fields are unchanged |
| PhContactBook.AddressBook.DeleteBirthday | personal_helper/contact_book.py:84-89 | the named record's set birthday is cleared; its other fields are unchanged |
| PhContactBook.AddressBook.DeletePhone | personal_helper/contact_book.py:72-82 | `TypeError` exactly when the record exists and holds the number |
| PhContactBook.AddressBook.ChangeName | personal_helper/contact_book.py:91-99 | the first case-insensitive match gets the stripped new name, without title-casing or saving |
| PhAddressBook.Record.New | personal_helper/address_book.py:48-55 | creation fails with `ValueError` exactly for a birthday `strptime` refuses |
| PhAddressBook.Record.AddBirthday | personal_helper/address_book.py:58-59 | `ValueError` and no change for an unparsable date; otherwise stored |
| PhAddressBook.Record.AddEmail | personal_helper/address_book.py:80-81 | the email is set |
| PhAddressBook.Record.Str | personal_helper/address_book.py:87-91 | name and phones first; just those when nothing else is set |
| PhAddressBook.AddressBook.constructor | personal_helper/address_book.py:10 | an empty book |
| PhAddressBook.AddressBook.AddAddress | personal_helper/address_book.py:11-15 | the record is stored under its name |
| PhAddressBook.AddressBook.Lookup | personal_helper/address_book.py:26-37 | `TypeError` exactly for a phone-like query on a non-empty book; otherwise an exact key lookup |
| PhAddressBook.AddressBook.FindAddress | personal_helper/address_book.py:26-37 | the method returns exactly `Lookup` |
| PhAddressBook.AddressBook.EditAddress | personal_helper/address_book.py:39-40 | the record is stored under the given key |
| PhAddressBook.AddressBook.DeleteAddress | personal_helper/address_book.py:42-44 | the key leaves map and order; a missing key changes nothing |
| SrcHelper.ParseInput | src/helper.py:103-113 | a command is recognised exactly when the first word, lower-cased, is a known command; the rest are its arguments |
| SrcHelper.ParseInputIgnoresCase | src/helper.py:103-113 | the command word is case-insensitive |
| SrcHelper.OfKind | src/helper.py:177-200 | the tokens of one kind, in order |
| SrcHelper.ClassifyPhone | src/helper.py:177-184 | the second phone is the first phone-like token; later ones are ignored |
| SrcHelper.ClassifyBirthday | src/helper.py:187-190 | the birthday is the last date-shaped token |
| SrcHelper.ClassifyEmail | src/helper.py:191-194 | the email is the last email token |
| SrcHelper.ClassifyAddress | src/helper.py:195-200 | the address is every other token, joined by single spaces |
| SrcHelper.ClassifyPartition | src/helper.py:177-200 | every token falls into exactly one of the four kinds |
| SrcHelper.PlusNumberIsAddress | src/helper.py:178 | a `+`-prefixed number is not a phone token, so it ends up in the address |
| SrcHelper.ClassifyExtras | src/helper.py:177-200 | the loop computes the classification |
| SrcHelper.MergedPhones | src/helper.py:214-242 | the normalised phone is added, and so is a valid second phone, each only if absent; nothing rejected is added |
| SrcHelper.MergedPhonesNoDup | src/helper.py:214-242 | merging keeps the phone list duplicate-free and is idempotent |
| SrcHelper.Merge | src/helper.py:213-272 | an existing contact receives the phones, birthday, email and address as `MergedInto` describes, with the errors the record raises |
| SrcHelper.AddContact | src/helper.py:160-292 | too few arguments or a rejected phone change nothing; a lookup error changes nothing; a new name creates a record from the classified tokens and leaves every existing record and phone collection unchanged; a known name is merged and every other record, and every phone collection but its own, stays unchanged; the book is never saved |
| SrcHelper.CreateContact | src/helper.py:274-283 | the phone and a truthy second phone go to a fresh record with the classified fields, stored under its name without a save; existing records are untouched |
| SrcHelper.ParseRename | src/helper.py:298-313 | a rename is parsed exactly when there are at least two tokens, the joined text holds a `\|`, and the stripped text before and after its first `\|` are both non-empty; the names are those two stripped sides |
| SrcHelper.RenameRoundTrip | src/helper.py:298-313 | `old \| new` parses back to the two names |
| SrcHelper.RenameWordsRoundTrip | src/helper.py:298-313 | old-name words, a `\|` token and new-name words parse back to the two names joined by single spaces, for any number of words on each side |
| SrcHelper.ParseAddressChange | src/helper.py:611-640 | an address change needs a name, a `\|` and three or more words |
| SrcHelper.AddressChangeRoundTrip | src/helper.py:611-640 | name, old words, `\|`, new words parse back to the two addresses |
| SrcHelper.ChangeAddress | src/helper.py:611-640 | the contact's address is replaced only when it equals the old address; nothing else changes |
| SrcHelper.ChangeBirthday | src/helper.py:441-473 | a `DD.MM.YYYY`-shaped birthday is stored on the found contact; other records are unchanged |
| PhHelper.ParseInput | personal_helper/helper.py:10-14 | blank input raises `IndexError`; otherwise the lower-cased first word and the rest |
| PhHelper.ParseInputWords | personal_helper/helper.py:10-14 | words joined by spaces parse back into command and arguments |
| PhHelper.BlankInputFails | personal_helper/helper.py:10-14 | whitespace-only input raises `IndexError` |
| PhHelper.OfKind | personal_helper/helper.py:57-68 | the tokens of one kind, in order |
| PhHelper.ClassifyPhone | personal_helper/helper.py:58-62 | the second phone is the first phone-like token |
| PhHelper.ClassifyBirthday | personal_helper/helper.py:63-64 | the birthday is the last date-shaped token |
| PhHelper.ClassifyEmail | personal_helper/helper.py:65-66 | the email is the last loosely email-shaped token |
| PhHelper.IgnoredTokensDropOut | personal_helper/helper.py:67-68 | any other token has no effect |
| PhHelper.ClassifyExtras | personal_helper/helper.py:57-68 | the loop computes the classification |
| PhHelper.Merge | personal_helper/helper.py:75-95 | an existing contact receives the phones, birthday and email as `MergedInto` describes |
| PhHelper.AddContact | personal_helper/helper.py:44-106 | too few arguments or a rejected phone change nothing; a lookup error changes nothing; a new name creates a record, or fails with `ValueError` on a bad birthday, and either way leaves every existing record and phone collection unchanged; a known name is merged and every other record, and every phone collection but its own, stays unchanged |
| PhHelper.CreateContact | personal_helper/helper.py:97-102 | a new record with the phones, birthday and email is stored under its name, or `ValueError` on a birthday that does not parse, with the book unchanged; existing records are untouched |
| PhNotes.Note.constructor | personal_helper/notes.py:3-6 | title and content as given, no tags when none are given |
| PhNotes.Note.EditTitle | personal_helper/notes.py:8-9 | only the title changes |
| PhNotes.Note.EditContent | personal_helper/notes.py:11-12 | only the content changes |
| PhNotes.Note.EditTags | personal_helper/notes.py:14-15 | only the tags change |
| SrcNotesManager.WithTag | src/notes_manager.py:57-59 | exactly the notes carrying the tag, up to case |
| SrcNotesManager.WithTagKeepsOrder | src/notes_manager.py:57-59 | the filter keeps list order |
| SrcNotesManager.WithTagIgnoresCase | src/notes_manager.py:57-59 | the tag's case does not matter |
| SrcNotesManager.UntaggedFirst | src/notes_manager.py:74-76 | untagged notes sort first |
| SrcNotesManager.NotesManager.constructor | src/notes_manager.py:9-10 | the loaded notes, nothing saved yet |
| SrcNotesManager.NotesManager.Titles | src/notes_manager.py:36-41 | the titles, in list order |
| SrcNotesManager.NotesManager.Keys | src/notes_manager.py:74-76 | the sort keys, in list order |
| SrcNotesManager.NotesManager.AddNote | src/notes_manager.py:12-15 | a fresh note is appended and the list saved once |
| SrcNotesManager.NotesManager.FindNoteByTitle | src/notes_manager.py:36-41 | the first note with the title, or `None` |
| SrcNotesManager.NotesManager.EditNote | src/notes_manager.py:18-25 | the first note with the title has one field set and the list is saved; no match changes nothing |
| SrcNotesManager.NotesManager.DeleteNoteByTitle | src/notes_manager.py:27-34 | the first note with the title leaves the list and the list is saved; no match changes nothing |
| SrcNotesManager.NotesManager.FindNotesByTag | src/notes_manager.py:55-59 | exactly the notes carrying the tag, up to case |
| SrcNotesManager.NotesManager.SortedByTag | src/notes_manager.py:73-76 | a permutation of the notes, ordered by lower-cased first tag, picked along a stable arrangement, so notes with equal keys keep their list order |
| StableSort.Sort | src/notes_manager.py:74-76 | insertion sort of positions: a permutation |
| StableSort.Insert | src/notes_manager.py:74-76 | inserting adds exactly one position |
| StableSort.InsertSorted | src/notes_manager.py:74-76 | inserting into a sorted list keeps it sorted |
| StableSort.SortSorted | src/notes_manager.py:74-76 | the result is sorted by key, ties by position |
| StableSort.BeforeTotal | src/notes_manager.py:74-76 | the key-then-position order is total |
| StableSort.BeforeTransitive | src/notes_manager.py:74-76 | the key-then-position order is transitive |
| StableSort.StableOrder | src/notes_manager.py:74-76 | a sorted permutation of all positions |
| StableSort.StableOrderMeaning | src/notes_manager.py:74-76 | equal keys keep their original order (stability) |
| StableSort.StableOrderKeys | src/notes_manager.py:74-76 | keys are non-decreasing along the order, and equal keys keep their original order |
| StableSort.StableOrderIsStable | src/notes_manager.py:74-76 | the stable order is a stable arrangement: every position once, keys non-decreasing, ties in original order |
| StableSort.StableSortFacts | src/notes_manager.py:74-76 | picking the list along the stable order of its keys permutes it, along a stable arrangement |
| StableSort.PositionsOnce | src/notes_manager.py:74-76 | each position occurs once |
| StableSort.Pick | src/notes_manager.py:74-76 | picks the elements at the given positions |
| StableSort.PickPermutation | src/notes_manager.py:74-76 | picking along a permutation of positions is a permutation of the list |
| Commands.AddContact | commands.py:56-63 | the phone is appended, duplicates included; a new name gets a contact with just that phone; other contacts are untouched |
| Commands.ChangeContact | commands.py:79-94 | succeeds exactly for an existing contact, field `phone` and a present old value, which moves out while the new value goes last |
| Commands.ChangePhoneSwaps | commands.py:79-94 | the phone count is kept and one old value is swapped for the new |
| Commands.DeleteContact | commands.py:109-116 | succeeds exactly for an existing name, which is removed |
| Commands.AddBirthday | commands.py:131-138 | succeeds exactly for an existing name, whose birthday is set |
| Commands.AddEmail | commands.py:157-166 | succeeds exactly for an existing name; the email is appended to its list, which is created when missing, duplicates included; nothing else changes |
| Commands.ChangeEmail | commands.py:181-193 | succeeds exactly when the old email is listed; it is replaced |
| Commands.DeleteEmail | commands.py:196-207 | succeeds exactly when the email is listed; one fewer email |
| Commands.DeleteUndoesAdd | commands.py:157-207 | deleting an email just added restores the contacts |
| Commands.AddAddress | commands.py:210-217 | succeeds exactly for an existing name; the address is set |
| Commands.DeleteAddress | commands.py:232-239 | succeeds exactly when the contact has an address, which is removed |
| Commands.DeleteAfterAddAddress | commands.py:210-239 | deleting right after adding leaves no address |
| Commands.ContactStore.constructor | commands.py:57 | the stored contacts, nothing written |
| Commands.ContactStore.Write | commands.py:62 | the file holds the given contacts, one more write |
| Commands.ContactStore.CommandAddContact | commands.py:56-63 | the file becomes `AddContact` of the old contacts, one write |
| Commands.ContactStore.CommandChangeContact | commands.py:79-94 | writes exactly when `ChangeContact` succeeds, storing its result |
| Commands.ContactStore.CommandDeleteContact | commands.py:109-116 | writes exactly when `DeleteContact` succeeds |
| Commands.ContactStore.CommandAddBirthday | commands.py:131-138 | writes exactly when `AddBirthday` succeeds |
| Commands.ContactStore.CommandAddEmail | commands.py:157-166 | writes exactly when `AddEmail` succeeds |
| Commands.ContactStore.CommandChangeEmail | commands.py:181-193 | writes exactly when `ChangeEmail` succeeds |
| Commands.ContactStore.CommandDeleteEmail | commands.py:196-207 | writes exactly when `DeleteEmail` succeeds |
| Commands.ContactStore.CommandAddAddress | commands.py:210-217 | writes exactly when `AddAddress` succeeds |
| Commands.ContactStore.CommandDeleteAddress | commands.py:232-239 | writes exactly when `DeleteAddress` succeeds |

## Left out

- The REPL loops, prompts, printing, colours and tables (`main` in both `helper.py` files, `display_all_notes`, the `show_*` and listing commands in `commands.py`, `command_help`, `command_hello`, `command_exit`, the note commands and menus of `commands.py`). They only present data.
- Persistence (`load_data`, `save_data`, `Storage`, `read_contacts`, `write_contacts`, pickle and JSON). Saving is a counter (`saves`, `writes`), and loading is the constructor's argument.
- The clock: `datetime.now()` in `get_upcoming_birthdays` is the `today` parameter.
- `add_contact`, `update_address` and `change_address` of the books, and `Record.change_address`: they are thin wrappers over the modelled map updates, or are not reached from the modelled commands.
- `add_number`, `find_number`, `edit_number`, `remove_number` and `add_record`, `find_record`, `edit_record`, `remove_record`: they forward to the phone collection, whose methods are modelled.
- `Birthday.change_birthday`, `add_birthday_to_contact` and `show_birthday_of_contact`: they forward to `_validate_birthday` and `add_birthday`, or only format text.
- `src/birthday.py`, `src/notes.py`, `field.py` and `personal_helper/email.py` are not part of this model. A `src/` birthday is kept as its text. The `src/` note is taken to be the `personal_helper/notes.py` one.
- Python's dynamic typing: names are strings, and the `TypeError` of non-string arguments is not modelled.
- `setattr(note, field, value)` with a field other than title, content or tags (`EditNote`'s `NoteEdit` has only those three).
- Object identity in `list.remove(note)`: notes are removed by position, so two equal-looking notes cannot be confused.
- Dates.ParseDate: does not model `strptime`'s acceptance of space-padded day and month fields, nor how `strftime` writes years below 1000.
- Patterns: `$` in a Python regular expression also matches before a trailing newline. Tokens never hold a newline after `split()`, so this is ignored. Character classes are ASCII only; no Unicode case folding.
- Text.Title: states only the length; the word-boundary rule of `str.title` is defined but has no separate lemma.
- Commands: every stored contact is assumed to have a `phones` key, since `command_add_contact` is the only place that creates one.
- Concurrency and file races between reads and writes of the contacts file.
