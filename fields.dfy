/** The form-field check applied before a record is added or updated:
    the student name must not be blank and the phone number must be ten
    digits. Python's `str.strip` and `str.isdigit` are modelled on
    characters. */
module Fields {

  /** The characters Python's `str.isspace` accepts (and `str.strip` with no
      argument removes): U+0009..U+000D, U+001C..U+001F, the space, U+0085,
      U+00A0, U+1680, U+2000..U+200A, U+2028, U+2029, U+202F, U+205F and
      U+3000. */
  predicate IsSpace(c: char) {
    ('\U{9}' <= c <= '\U{D}') || ('\U{1C}' <= c <= '\U{20}') ||
    c == '\U{85}' || c == '\U{A0}' || c == '\U{1680}' ||
    ('\U{2000}' <= c <= '\U{200A}') || c == '\U{2028}' || c == '\U{2029}' ||
    c == '\U{202F}' || c == '\U{205F}' || c == '\U{3000}'
  }

  /** A decimal digit, as `str.isdigit` sees ASCII text. */
  predicate IsDigit(c: char) {
    '0' <= c <= '9'
  }

  /** The string holds nothing but whitespace (the empty string included). */
  predicate Blank(s: string) {
    forall i :: 0 <= i < |s| ==> IsSpace(s[i])
  }

  /** The number of whitespace characters at the start of `s`. */
  function LeadingSpaces(s: string): (k: nat)
    ensures k <= |s|
    ensures forall i :: 0 <= i < k ==> IsSpace(s[i])
    ensures k < |s| ==> !IsSpace(s[k])
  {
    if |s| > 0 && IsSpace(s[0]) then 1 + LeadingSpaces(s[1..]) else 0
  }

  /** The number of whitespace characters at the end of `s`. */
  function TrailingSpaces(s: string): (k: nat)
    ensures k <= |s|
    ensures forall i :: |s| - k <= i < |s| ==> IsSpace(s[i])
    ensures k < |s| ==> !IsSpace(s[|s| - 1 - k])
  {
    if |s| > 0 && IsSpace(s[|s| - 1]) then 1 + TrailingSpaces(s[..|s| - 1]) else 0
  }

  /** Python's `s.strip()`: the slice of `s` left after dropping its
      leading and trailing whitespace; it neither starts nor ends with
      whitespace, and is empty exactly when `s` is blank. */
  function Strip(s: string): (r: string)
    ensures var k := LeadingSpaces(s);
              k + |r| <= |s| && r == s[k..k + |r|] &&
              (forall i :: 0 <= i < k ==> IsSpace(s[i])) &&
              (forall i :: k + |r| <= i < |s| ==> IsSpace(s[i]))
    ensures r != [] ==> !IsSpace(r[0]) && !IsSpace(r[|r| - 1])
    ensures r == [] <==> Blank(s)
  {
    var lo := LeadingSpaces(s);
    if lo == |s| then []
    else
      var hi := |s| - TrailingSpaces(s);
      // s[lo] is not whitespace, and everything from hi on is
      assert lo < hi;
      s[lo..hi]
  }

  /** Python's `str.isdigit` on ASCII text: non-empty and all digits. */
  predicate IsDigits(s: string) {
    |s| > 0 && forall i :: 0 <= i < |s| ==> IsDigit(s[i])
  }

  /** Which of the two checks of the field validator rejects the input;
      the name is examined first. */
  datatype FieldCheck = Accepted | EmptyName | BadPhone

  function CheckFields(studentName: string, phoneNumber: string): (r: FieldCheck)
    ensures r == EmptyName <==> Blank(studentName)
    ensures r == BadPhone <==>
              !Blank(studentName) && !(|phoneNumber| == 10 && IsDigits(phoneNumber))
    ensures r == Accepted <==>
              !Blank(studentName) && |phoneNumber| == 10 &&
              forall i :: 0 <= i < |phoneNumber| ==> IsDigit(phoneNumber[i])
  {
    if Strip(studentName) == [] then EmptyName
    else if !IsDigits(phoneNumber) || |phoneNumber| != 10 then BadPhone
    else Accepted
  }

  /** The validator's verdict: true iff the name has a non-whitespace
      character and the phone number is exactly ten digits. */
  function ValidateFields(studentName: string, phoneNumber: string): (ok: bool)
    ensures ok <==>
              (exists i :: 0 <= i < |studentName| && !IsSpace(studentName[i])) &&
              |phoneNumber| == 10 &&
              forall i :: 0 <= i < |phoneNumber| ==> IsDigit(phoneNumber[i])
  {
    CheckFields(studentName, phoneNumber) == Accepted
  }

  /** A blank name is rejected whatever the phone number, and then the
      phone number is never looked at. */
  lemma NameCheckedFirst(studentName: string, phone1: string, phone2: string)
    requires Blank(studentName)
    ensures CheckFields(studentName, phone1) == CheckFields(studentName, phone2) == EmptyName
  {
  }
}
