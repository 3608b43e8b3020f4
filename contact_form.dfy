/** The contact form's client-side checks, run before anything is sent. */
module ContactForm {
  import opened Wrappers
  import opened Text
  import opened Sequences

  /** A character of `[^\s@]`. */
  predicate EmailChar(c: char) {
    !IsSpace(c) && c != '@'
  }

  predicate AllEmailChars(s: string) {
    forall k :: 0 <= k < |s| ==> EmailChar(s[k])
  }

  /** `s` splits as `[^\s@]+ @ [^\s@]+ \. [^\s@]+`, with the `@` at index
      `at` and the literal dot at index `dot`. */
  ghost predicate EmailShape(s: string, at: nat, dot: nat) {
    && 0 < at && at + 1 < dot && dot + 1 < |s|
    && s[at] == '@' && s[dot] == '.'
    && forall k :: 0 <= k < |s| && k != at ==> EmailChar(s[k])
  }

  /** What `/^[^\s@]+@[^\s@]+\.[^\s@]+$/` accepts. */
  ghost predicate MatchesEmailPattern(s: string) {
    exists at: nat, dot: nat :: EmailShape(s, at, dot)
  }

  /** The checks once the first `@` is found at `at`: a non-empty local part;
      a domain of `[^\s@]` characters with a dot that is neither its first nor
      its last character; no white space anywhere. */
  predicate EmailPartsValid(s: string, at: nat)
    requires at < |s|
  {
    var domain := s[at + 1..];
    && at > 0 && AllEmailChars(s[..at]) && AllEmailChars(domain)
    && |domain| >= 3 && '.' in domain[1..|domain| - 1]
  }

  /** Around the first `@`, the checks hold exactly when the regular expression matches. */
  lemma EmailPartsValidIff(s: string, at: nat)
    requires at < |s| && s[at] == '@'
    requires forall k :: 0 <= k < at ==> s[k] != '@'
    ensures EmailPartsValid(s, at) <==> MatchesEmailPattern(s)
  {
    var domain := s[at + 1..];
    if EmailPartsValid(s, at) {
      var inner := domain[1..|domain| - 1];
      var i :| 0 <= i < |inner| && inner[i] == '.';
      var dot := at + 2 + i;
      assert s[dot] == '.' by { assert inner[i] == domain[i + 1] == s[at + 1 + i + 1]; }
      forall k | 0 <= k < |s| && k != at ensures EmailChar(s[k]) {
        if k < at { assert s[..at][k] == s[k]; } else { assert domain[k - at - 1] == s[k]; }
      }
      assert EmailShape(s, at, dot);
    }
    if MatchesEmailPattern(s) {
      var at': nat, dot: nat :| EmailShape(s, at', dot);
      assert at' == at;
      assert AllEmailChars(s[..at]) by {
        forall k | 0 <= k < at ensures EmailChar(s[..at][k]) { assert s[..at][k] == s[k]; }
      }
      assert AllEmailChars(domain) by {
        forall k | 0 <= k < |domain| ensures EmailChar(domain[k]) { assert domain[k] == s[at + 1 + k]; }
      }
      assert domain[1..|domain| - 1][dot - at - 2] == s[dot];
    }
  }

  /** The email check: find the first `@`, then check the parts around it.
      It accepts exactly the strings the regular expression matches. */
  function IsValidEmail(s: string): (b: bool)
    ensures b <==> MatchesEmailPattern(s)
  {
    match FindFirst(s, (c: char) => c == '@')
    case None => false
    case Some(at) =>
      EmailPartsValidIff(s, at);
      EmailPartsValid(s, at)
  }

  /** Addresses the pattern accepts, the second with a dot opening the domain's first part. */
  lemma EmailExamplesAccepted()
    ensures IsValidEmail("a@b.c") && IsValidEmail("a@..c")
  {
    assert EmailShape("a@b.c", 1, 3);
    assert EmailShape("a@..c", 1, 3);
  }

  /** Addresses without a dotted domain, or with an empty part. */
  lemma EmailExamplesMissingPart()
    ensures !IsValidEmail("a@b") && !IsValidEmail("@b.c") && !IsValidEmail("a@.c") && !IsValidEmail("a@b.")
  {
    assert FindFirst("a@b", (c: char) => c == '@') == Some(1);
    assert FindFirst("@b.c", (c: char) => c == '@') == Some(0);
    assert FindFirst("a@.c", (c: char) => c == '@') == Some(1);
    assert FindFirst("a@b.", (c: char) => c == '@') == Some(1);
    assert "a@b."[2..][1..1] == [];
  }

  /** Addresses with white space or a second `@`. */
  lemma EmailExamplesBadCharacter()
    ensures !IsValidEmail("a b@c.d") && !IsValidEmail("a@b@c.d")
  {
    assert FindFirst("a b@c.d", (c: char) => c == '@') == Some(3);
    assert "a b@c.d"[..3][1] == ' ';
    assert FindFirst("a@b@c.d", (c: char) => c == '@') == Some(1);
    assert "a@b@c.d"[2..][1] == '@';
  }

  /** The form's fields, trimmed, as they would be sent. */
  datatype FormData = FormData(name: string, phone: string, to: string, comment: string)

  datatype FormError = MissingRequired | InvalidEmail

  /** The text `showFormMessage` shows for each failure. */
  function ErrorMessage(e: FormError): string {
    match e
    case MissingRequired => RequiredFieldsMessage
    case InvalidEmail => InvalidEmailMessage
  }

  /** The submit handler's checks: trim every field; name, phone and email
      are required; then the email must match the pattern. */
  function ValidateForm(name: string, phone: string, email: string, comment: string): (r: Result<FormData, FormError>)
    ensures r == Failure(MissingRequired) <==> AllSpace(name) || AllSpace(phone) || AllSpace(email)
    ensures r == Failure(InvalidEmail) <==>
      !AllSpace(name) && !AllSpace(phone) && !AllSpace(email) && !MatchesEmailPattern(Trim(email))
    ensures r.Success? ==>
      r.value == FormData(Trim(name), Trim(phone), Trim(email), Trim(comment)) && MatchesEmailPattern(r.value.to)
  {
    TrimEmptyIff(name);
    TrimEmptyIff(phone);
    TrimEmptyIff(email);
    var data := FormData(Trim(name), Trim(phone), Trim(email), Trim(comment));
    if data.name == "" || data.phone == "" || data.to == "" then Failure(MissingRequired)
    else if !IsValidEmail(data.to) then Failure(InvalidEmail)
    else Success(data)
  }

  const RequiredFieldsMessage := "Пожалуйста, заполните все обязательные поля"
  const InvalidEmailMessage := "Пожалуйста, введите корректный email адрес"

  /** The error the submit handler shows before it returns: the
      required-fields message when a required field is blank, otherwise the
      email message when the email does not match, and none when the form
      is sent. */
  function SubmitError(name: string, phone: string, email: string, comment: string): (m: Option<string>)
    ensures m == Some(RequiredFieldsMessage) <==> AllSpace(name) || AllSpace(phone) || AllSpace(email)
    ensures m == Some(InvalidEmailMessage) <==>
      !AllSpace(name) && !AllSpace(phone) && !AllSpace(email) && !MatchesEmailPattern(Trim(email))
    ensures m.None? <==> ValidateForm(name, phone, email, comment).Success?
  {
    assert RequiredFieldsMessage[14] != InvalidEmailMessage[14];
    match ValidateForm(name, phone, email, comment)
    case Failure(e) => Some(ErrorMessage(e))
    case Success(_) => None
  }
}
