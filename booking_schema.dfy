// The patient-details form of the booking wizard: each field's rules and the
// list of issues a submission raises, in field order and, within a field, in
// the order its checks are declared (string checks do not stop at the first
// failure).  Whether a text is an e-mail address is left to a predicate the
// caller supplies.
module BookingSchema {
  import opened Wrappers

  datatype Form = Form(firstName: string, lastName: string, email: string,
                       countryCode: string, phone: string, notes: Option<string>)

  /** One complaint about one field. */
  datatype Issue = Issue(field: string, message: string)

  const FIRST_NAME_SHORT := "El nombre debe tener al menos 2 letras."
  const FIRST_NAME_LETTERS := "El nombre solo puede contener letras."
  const LAST_NAME_SHORT := "El apellido debe tener al menos 2 letras."
  const LAST_NAME_LETTERS := "El apellido solo puede contener letras."
  const EMAIL_INVALID := "Por favor ingresa un email válido (ej. nombre@correo.com)."
  const COUNTRY_MISSING := "Selecciona un país."
  const PHONE_SHORT := "El teléfono debe tener al menos 6 dígitos."
  const PHONE_LONG := "El teléfono es demasiado largo."
  const PHONE_DIGITS := "El teléfono solo puede contener números."

  /** The characters of the regular-expression class `\s`. */
  predicate Whitespace(c: char)
  {
    c in {'\t', '\n', '\U{b}', '\U{c}', '\r', ' ', '\U{a0}', '\U{1680}', '\U{2028}', '\U{2029}',
          '\U{202f}', '\U{205f}', '\U{3000}', '\U{feff}'}
    || '\U{2000}' <= c <= '\U{200a}'
  }

  /** The characters a name may use: Latin letters, Spanish accented vowels, ñ and whitespace. */
  predicate NameChar(c: char)
  {
    'a' <= c <= 'z' || 'A' <= c <= 'Z' || c in "áéíóúÁÉÍÓÚñÑ" || Whitespace(c)
  }

  predicate AllNameChars(s: string)
  {
    forall i :: 0 <= i < |s| ==> NameChar(s[i])
  }

  predicate AllDigits(s: string)
  {
    forall i :: 0 <= i < |s| ==> '0' <= s[i] <= '9'
  }

  /** Issues of a name field: too short, then not letters (the pattern also needs one character). */
  function NameIssues(field: string, s: string, short: string, letters: string): (issues: seq<Issue>)
    ensures issues == [] <==> |s| >= 2 && AllNameChars(s)
    ensures forall k :: 0 <= k < |issues| ==> issues[k].field == field
    ensures |s| < 2 ==> issues[0] == Issue(field, short)
    ensures |s| >= 2 ==> forall k :: 0 <= k < |issues| ==> issues[k].message == letters
  {
    (if |s| < 2 then [Issue(field, short)] else [])
      + (if |s| > 0 && AllNameChars(s) then [] else [Issue(field, letters)])
  }

  /** Issues of the phone field: too short, too long, not digits. */
  function PhoneIssues(s: string): (issues: seq<Issue>)
    ensures issues == [] <==> 6 <= |s| <= 15 && AllDigits(s)
    ensures forall k :: 0 <= k < |issues| ==> issues[k].field == "phone"
  {
    (if |s| < 6 then [Issue("phone", PHONE_SHORT)] else [])
      + (if |s| > 15 then [Issue("phone", PHONE_LONG)] else [])
      + (if |s| > 0 && AllDigits(s) then [] else [Issue("phone", PHONE_DIGITS)])
  }

  /** Every rule of the form holds. */
  predicate Valid(f: Form, isEmail: string -> bool)
  {
    && |f.firstName| >= 2 && AllNameChars(f.firstName)
    && |f.lastName| >= 2 && AllNameChars(f.lastName)
    && isEmail(f.email)
    && |f.countryCode| >= 1
    && 6 <= |f.phone| <= 15 && AllDigits(f.phone)
  }

  /** All issues of a submission, field by field; the notes are optional and free. */
  function Issues(f: Form, isEmail: string -> bool): (issues: seq<Issue>)
    ensures issues == [] <==> Valid(f, isEmail)
    ensures forall k :: 0 <= k < |issues| ==>
      issues[k].field in {"firstName", "lastName", "email", "countryCode", "phone"}
  {
    var first := NameIssues("firstName", f.firstName, FIRST_NAME_SHORT, FIRST_NAME_LETTERS);
    var last := NameIssues("lastName", f.lastName, LAST_NAME_SHORT, LAST_NAME_LETTERS);
    var email := if isEmail(f.email) then [] else [Issue("email", EMAIL_INVALID)];
    var country := if |f.countryCode| >= 1 then [] else [Issue("countryCode", COUNTRY_MISSING)];
    var phone := PhoneIssues(f.phone);
    var all := first + last + email + country + phone;
    assert forall k :: 0 <= k < |all| ==> all[k] in first || all[k] in last || all[k] in email || all[k] in country || all[k] in phone;
    all
  }

  /** The notes never decide validity. */
  lemma NotesAreFree(f: Form, notes: Option<string>, isEmail: string -> bool)
    ensures Issues(f.(notes := notes), isEmail) == Issues(f, isEmail)
  {
  }

  /** Accented names pass; a single letter and a digit fail; a phone of six digits passes, a prefixed one fails. */
  lemma FieldSamples()
    ensures NameIssues("firstName", "José María", FIRST_NAME_SHORT, FIRST_NAME_LETTERS) == []
    ensures NameIssues("firstName", "J", FIRST_NAME_SHORT, FIRST_NAME_LETTERS) == [Issue("firstName", FIRST_NAME_SHORT)]
    ensures NameIssues("lastName", "Núñez2", LAST_NAME_SHORT, LAST_NAME_LETTERS) == [Issue("lastName", LAST_NAME_LETTERS)]
    ensures NameIssues("lastName", "", LAST_NAME_SHORT, LAST_NAME_LETTERS)
            == [Issue("lastName", LAST_NAME_SHORT), Issue("lastName", LAST_NAME_LETTERS)]
    ensures PhoneIssues("123456") == []
    ensures PhoneIssues("+50761234567") == [Issue("phone", PHONE_DIGITS)]
    ensures PhoneIssues("1234567890123456") == [Issue("phone", PHONE_LONG)]
  {
    assert "J"[0] == 'J';
    assert !NameChar("Núñez2"[5]);
    assert "+50761234567"[0] == '+';
    assert AllDigits("1234567890123456");
  }
}
