/** The registration rules (validateUserRegistration) and the `validate`
    middleware that answers 400 when any of them failed.

    Each rule is a chain of checks on one body field. Every check of every
    chain runs, so one field can contribute several messages, and the
    messages come in the order the chains and their checks are written.
    A missing field is checked as the empty string. */
module UserValidators {
  import opened Base
  import opened Js
  import opened UsersService

  /** The registration body. `address` is the field the account is created
      from; `adress` is the misspelt name the as-written rule checks. */
  datatype Registration = Registration(
    firstName: Option<string>,
    lastName: Option<string>,
    email: Option<string>,
    password: Option<string>,
    address: Field,
    adress: Field,
    pic: PicInput)

  /** validator.js's `isEmail` and `normalizeEmail`, which are not modelled. */
  datatype EmailRules = EmailRules(isEmail: string -> bool, normalize: string -> string)

  datatype Message =
    | FirstNameRequired
    | FirstNameLength
    | LastNameRequired
    | LastNameLength
    | EmailInvalid
    | PasswordLength
    | PasswordUppercase
    | PasswordDigit
    | PasswordSpecial
    | AddressNotString

  // ---------------------------------------------------------------------------
  // Character classes of the password rules
  // ---------------------------------------------------------------------------

  /** The bracket expressions `[A-Z]`, `[0-9]` and `[!@#$%^&*(),.?":{}|<>]`. */
  datatype CharClass = Upper | Digit | Special

  predicate InClass(c: char, k: CharClass) {
    match k
    case Upper => 'A' <= c <= 'Z'
    case Digit => '0' <= c <= '9'
    case Special => c in "!@#$%^&*(),.?\":{}|<>"
  }

  /** `/[...]/.test(s)`, scanning from the left: a one-character pattern
      matches exactly when some character of `s` is in the class. */
  function Matches(s: string, k: CharClass): (found: bool)
    ensures found <==> exists i :: 0 <= i < |s| && InClass(s[i], k)
  {
    if s == [] then false
    else if InClass(s[0], k) then true
    else
      var rest := Matches(s[1..], k);
      assert forall i :: 1 <= i < |s| ==> s[i] == s[1..][i - 1];
      rest
  }

  // ---------------------------------------------------------------------------
  // The chains
  // ---------------------------------------------------------------------------

  /** The value a standard validator sees: a missing field reads as "". */
  function TextOf(f: Option<string>): (s: string)
    ensures f.Some? ==> s == f.value
    ensures f.None? ==> s == ""
  {
    if f.Some? then f.value else ""
  }

  /** `.notEmpty()` then `.isLength({ min: 2, max: 50 })`. */
  function NameErrors(name: string, required: Message, length: Message): (errs: seq<Message>)
    requires required != length
    ensures errs == [] <==> 2 <= |name| <= 50
    ensures required in errs ==> name == ""
    ensures name == "" ==> errs == [required, length]
    ensures length in errs <==> !(2 <= |name| <= 50)
    ensures forall m :: m in errs ==> m == required || m == length
  {
    (if name == "" then [required] else []) + (if 2 <= |name| <= 50 then [] else [length])
  }

  function EmailErrors(email: string, rules: EmailRules): (errs: seq<Message>)
    ensures errs == [] <==> rules.isEmail(email)
  {
    if rules.isEmail(email) then [] else [EmailInvalid]
  }

  /** 8 to 50 characters, among them an upper-case letter, a digit and a
      special character. */
  predicate StrongPassword(p: string) {
    && 8 <= |p| <= 50
    && (exists i :: 0 <= i < |p| && InClass(p[i], Upper))
    && (exists i :: 0 <= i < |p| && InClass(p[i], Digit))
    && (exists i :: 0 <= i < |p| && InClass(p[i], Special))
  }

  /** `.isLength({ min: 8, max: 50 })` and the three `.matches` checks. */
  function PasswordErrors(password: string): (errs: seq<Message>)
    ensures errs == [] <==> StrongPassword(password)
    ensures PasswordLength in errs <==> !(8 <= |password| <= 50)
    ensures PasswordUppercase in errs <==> forall i :: 0 <= i < |password| ==> !InClass(password[i], Upper)
    ensures PasswordDigit in errs <==> forall i :: 0 <= i < |password| ==> !InClass(password[i], Digit)
    ensures PasswordSpecial in errs <==> forall i :: 0 <= i < |password| ==> !InClass(password[i], Special)
    ensures forall m :: m in errs ==> m in {PasswordLength, PasswordUppercase, PasswordDigit, PasswordSpecial}
  {
    (if 8 <= |password| <= 50 then [] else [PasswordLength])
    + (if Matches(password, Upper) then [] else [PasswordUppercase])
    + (if Matches(password, Digit) then [] else [PasswordDigit])
    + (if Matches(password, Special) then [] else [PasswordSpecial])
  }

  /** `.optional().isString()`: only a missing field is skipped, so a
      string passes and any other value, `null` included, fails. */
  function OptionalStringErrors(f: Field): (errs: seq<Message>)
    ensures errs == [] <==> f.Absent? || f.Text?
    ensures f.Null? ==> errs == [AddressNotString]
  {
    if f.Absent? || f.Text? then [] else [AddressNotString]
  }

  /** All the chains, with the optional-string rule applied to `checked`. */
  function ChainErrors(body: Registration, rules: EmailRules, checked: Field): seq<Message> {
    NameErrors(TextOf(body.firstName), FirstNameRequired, FirstNameLength)
    + NameErrors(TextOf(body.lastName), LastNameRequired, LastNameLength)
    + EmailErrors(TextOf(body.email), rules)
    + PasswordErrors(TextOf(body.password))
    + OptionalStringErrors(checked)
  }

  /** The chains raise nothing exactly when no chain raises anything. */
  lemma ChainErrorsEmpty(body: Registration, rules: EmailRules, checked: Field)
    ensures ChainErrors(body, rules, checked) == [] <==>
              && NameErrors(TextOf(body.firstName), FirstNameRequired, FirstNameLength) == []
              && NameErrors(TextOf(body.lastName), LastNameRequired, LastNameLength) == []
              && EmailErrors(TextOf(body.email), rules) == []
              && PasswordErrors(TextOf(body.password)) == []
              && OptionalStringErrors(checked) == []
  {
    var errs := ChainErrors(body, rules, checked);
    assert |errs| == |NameErrors(TextOf(body.firstName), FirstNameRequired, FirstNameLength)|
                     + |NameErrors(TextOf(body.lastName), LastNameRequired, LastNameLength)|
                     + |EmailErrors(TextOf(body.email), rules)|
                     + |PasswordErrors(TextOf(body.password))|
                     + |OptionalStringErrors(checked)|;
  }

  /** Only the optional-string rule raises the not-a-string message. */
  lemma ChainAddressMessage(body: Registration, rules: EmailRules, checked: Field)
    ensures AddressNotString in ChainErrors(body, rules, checked) <==> checked.Null? || checked.Other?
  {
    var first := NameErrors(TextOf(body.firstName), FirstNameRequired, FirstNameLength);
    var last := NameErrors(TextOf(body.lastName), LastNameRequired, LastNameLength);
    var email := EmailErrors(TextOf(body.email), rules);
    var password := PasswordErrors(TextOf(body.password));
    var optional := OptionalStringErrors(checked);
    assert AddressNotString !in first && AddressNotString !in last;
    assert email == [] || email == [EmailInvalid];
    assert AddressNotString !in password;
    assert AddressNotString in optional <==> checked.Null? || checked.Other?;
    assert ChainErrors(body, rules, checked) == first + last + email + password + optional;
  }

  // ---------------------------------------------------------------------------
  // The rules as written, and as intended
  // ---------------------------------------------------------------------------

  /** validateUserRegistration as written: the optional-string rule names
      the field `adress`, which the account is not created from. */
  function RegistrationErrorsAsWritten(body: Registration, rules: EmailRules): (errs: seq<Message>)
    ensures AddressNotString in errs <==> body.adress.Null? || body.adress.Other?
  {
    ChainAddressMessage(body, rules, body.adress);
    ChainErrors(body, rules, body.adress)
  }

  /** The rules with the optional-string check on `address`, the field
      createUser stores. */
  function RegistrationErrors(body: Registration, rules: EmailRules): (errs: seq<Message>)
    ensures AddressNotString in errs <==> body.address.Null? || body.address.Other?
  {
    ChainAddressMessage(body, rules, body.address);
    ChainErrors(body, rules, body.address)
  }

  /** What an acceptable registration is, stated field by field, with the
      optional-string rule on `checked` (the e-mail is handed to `isEmail`
      as the empty string when it is missing). */
  predicate WellFormedFor(body: Registration, rules: EmailRules, checked: Field) {
    && body.firstName.Some? && 2 <= |body.firstName.value| <= 50
    && body.lastName.Some? && 2 <= |body.lastName.value| <= 50
    && rules.isEmail(TextOf(body.email))
    && body.password.Some? && StrongPassword(body.password.value)
    && (checked.Absent? || checked.Text?)
  }

  /** An acceptable registration, with the rule on the field the account
      is created from. */
  predicate WellFormed(body: Registration, rules: EmailRules) {
    WellFormedFor(body, rules, body.address)
  }

  /** The chains raise no message exactly when the body is well formed:
      names present and 2 to 50 characters, a valid e-mail, a password of 8
      to 50 characters with an upper-case letter, a digit and a special
      character, and a checked field that is a string when it is given. */
  lemma ChainErrorsWellFormed(body: Registration, rules: EmailRules, checked: Field)
    ensures ChainErrors(body, rules, checked) == [] <==> WellFormedFor(body, rules, checked)
  {
    ChainErrorsEmpty(body, rules, checked);
    if body.password.None? {
      assert !StrongPassword(TextOf(body.password));
    } else {
      assert TextOf(body.password) == body.password.value;
    }
    assert NameErrors(TextOf(body.firstName), FirstNameRequired, FirstNameLength) == [] <==>
           body.firstName.Some? && 2 <= |body.firstName.value| <= 50;
    assert NameErrors(TextOf(body.lastName), LastNameRequired, LastNameLength) == [] <==>
           body.lastName.Some? && 2 <= |body.lastName.value| <= 50;
  }

  /** The rules as written raise no message exactly when the body is well
      formed with the optional-string rule on `adress`: whatever `address`
      holds. */
  lemma RegistrationErrorsAsWrittenEmpty(body: Registration, rules: EmailRules)
    ensures RegistrationErrorsAsWritten(body, rules) == [] <==> WellFormedFor(body, rules, body.adress)
  {
    ChainErrorsWellFormed(body, rules, body.adress);
  }

  /** The corrected rules raise no message exactly when the body is well
      formed, its `address` included. */
  lemma RegistrationErrorsEmpty(body: Registration, rules: EmailRules)
    ensures RegistrationErrors(body, rules) == [] <==> WellFormed(body, rules)
  {
    ChainErrorsWellFormed(body, rules, body.address);
  }

  /** The as-written rules let a registration through whose `address` is
      not a string, and check a field the account ignores instead. */
  lemma AdressTypoLetsNonStringAddressThrough(rules: EmailRules)
    requires rules.isEmail("ada@example.org")
    ensures var body := Registration(Some("Ada"), Some("Lovelace"), Some("ada@example.org"),
                                     Some("Analytic1!"), Other, Absent, PicNull);
            && RegistrationErrorsAsWritten(body, rules) == []
            && RegistrationErrors(body, rules) == [AddressNotString]
  {
    var p := "Analytic1!";
    assert InClass(p[0], Upper) && InClass(p[8], Digit) && InClass(p[9], Special);
  }

  // ---------------------------------------------------------------------------
  // validate
  // ---------------------------------------------------------------------------

  datatype ValidateReply = Rejected(errors: seq<Message>) | Proceed
  {
    function Status(): Option<int> {
      match this
      case Rejected(_) => Some(400)
      case Proceed => None
    }
  }

  /** validate: 400 with every message when any rule failed, `next` otherwise. */
  function Validate(errors: seq<Message>): (reply: ValidateReply)
    ensures reply == Proceed <==> errors == []
    ensures reply.Rejected? ==> reply.errors == errors
  {
    if errors == [] then Proceed else Rejected(errors)
  }

  /** A request goes past `validate` on the registration route exactly when
      it is well formed with the rule on `adress`. */
  lemma ValidateAcceptsWellFormed(body: Registration, rules: EmailRules)
    ensures Validate(RegistrationErrorsAsWritten(body, rules)) == Proceed <==> WellFormedFor(body, rules, body.adress)
  {
    RegistrationErrorsAsWrittenEmpty(body, rules);
  }

  // ---------------------------------------------------------------------------
  // The second run of the rules inside register
  // ---------------------------------------------------------------------------

  /** The body once the rules have run over it: `normalizeEmail` has
      replaced the e-mail in place. */
  function Sanitized(body: Registration, rules: EmailRules): (b: Registration)
    ensures b.email == Some(rules.normalize(TextOf(body.email)))
    ensures b.(email := body.email) == body
  {
    body.(email := Some(rules.normalize(TextOf(body.email))))
  }

  /** When the rules pass, running them again over the sanitised body can
      only complain about the e-mail, and does so exactly when the
      normalised address is not one `isEmail` accepts. */
  lemma SecondRunChecksNormalisedEmail(body: Registration, rules: EmailRules)
    requires RegistrationErrorsAsWritten(body, rules) == []
    ensures RegistrationErrorsAsWritten(Sanitized(body, rules), rules)
            == (if rules.isEmail(rules.normalize(TextOf(body.email))) then [] else [EmailInvalid])
  {
    var b := Sanitized(body, rules);
    ChainErrorsEmpty(body, rules, body.adress);
    assert TextOf(b.email) == rules.normalize(TextOf(body.email));
  }
}
