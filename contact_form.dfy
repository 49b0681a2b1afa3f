/**
 * The public contact form: field rules with their messages in priority
 * order, the change handler that clears a field's error, and the submit
 * cycle with its three outcomes.
 */
module ContactForm {
  import opened Base
  import opened Strings

  /** No white space and no `@`: the class `[^\s@]`. */
  predicate Plain(s: string) {
    forall i :: 0 <= i < |s| ==> !IsSpace(s[i]) && s[i] != '@'
  }

  /**
   * The strings `/^[^\s@]+@[^\s@]+\.[^\s@]+$/` accepts: a non-empty local
   * part, `@`, a non-empty part, a dot, and a non-empty last part, no part
   * holding white space or `@` (the middle part may hold dots).
   */
  ghost predicate EmailShape(s: string) {
    exists i, j :: 0 < i && i + 1 < j && j + 1 < |s| && s[i] == '@' && s[j] == '.'
      && Plain(s[..i]) && Plain(s[i + 1..j]) && Plain(s[j + 1..])
  }

  /** The regular expression decided left to right: split at the `@`, then look for an inner dot. */
  predicate MatchesEmail(s: string)
    ensures MatchesEmail(s) ==> exists i :: 0 < i < |s| - 3 && s[i] == '@'
  {
    '@' in s &&
    var i := IndexOf(s, '@');
    i > 0 && Plain(s[..i]) &&
    var r := s[i + 1..];
    Plain(r) && |r| >= 3 && '.' in r[1..|r| - 1]
  }

  lemma IndexOfFirst(s: string, c: char, i: nat)
    requires i < |s| && s[i] == c && forall m :: 0 <= m < i ==> s[m] != c
    ensures IndexOf(s, c) == i
  {
    var k := IndexOf(s, c);
    assert forall m :: 0 <= m < k ==> s[m] != c by {
      forall m | 0 <= m < k ensures s[m] != c {
        assert s[..k][m] == s[m];
      }
    }
  }

  lemma PlainSlice(s: string, a: nat, b: nat)
    requires a <= b <= |s| && Plain(s)
    ensures Plain(s[a..b])
  {
    assert forall m :: 0 <= m < b - a ==> s[a..b][m] == s[a + m];
  }

  lemma MatchesEmailShape(s: string)
    requires MatchesEmail(s)
    ensures EmailShape(s)
  {
    var i := IndexOf(s, '@');
    var r := s[i + 1..];
    var inner := r[1..|r| - 1];
    var k := IndexOf(inner, '.') + 1;
    var j := i + 1 + k;
    assert s[j] == r[k] == inner[k - 1] == '.';
    assert s[i + 1..j] == r[..k];
    assert s[j + 1..] == r[k + 1..];
    PlainSlice(r, 0, k);
    PlainSlice(r, k + 1, |r|);
  }

  lemma ShapeMatchesEmail(s: string, i: nat, j: nat)
    requires 0 < i && i + 1 < j && j + 1 < |s| && s[i] == '@' && s[j] == '.'
    requires Plain(s[..i]) && Plain(s[i + 1..j]) && Plain(s[j + 1..])
    ensures MatchesEmail(s)
  {
    assert forall m :: 0 <= m < i ==> s[m] == s[..i][m];
    IndexOfFirst(s, '@', i);
    var r := s[i + 1..];
    assert forall m :: 0 <= m < |r| ==> r[m] == s[i + 1 + m];
    forall m | 0 <= m < |r| ensures !IsSpace(r[m]) && r[m] != '@' {
      if m < j - i - 1 {
        assert s[i + 1..j][m] == r[m];
      } else if m > j - i - 1 {
        assert s[j + 1..][m - (j - i)] == r[m];
      }
    }
    assert r[1..|r| - 1][j - i - 2] == '.';
  }

  /** The executable test and the description of the pattern agree on every string. */
  lemma MatchesEmailIffShape(s: string)
    ensures MatchesEmail(s) <==> EmailShape(s)
  {
    if MatchesEmail(s) {
      MatchesEmailShape(s);
    }
    forall i, j | 0 < i && i + 1 < j && j + 1 < |s| && s[i] == '@' && s[j] == '.'
      && Plain(s[..i]) && Plain(s[i + 1..j]) && Plain(s[j + 1..])
      ensures MatchesEmail(s)
    {
      ShapeMatchesEmail(s, i, j);
    }
  }

  datatype Field = Name | Email | ProjectType | Message | PrivacyAccepted | MarketingConsent

  datatype FormData = FormData(
    name: string, email: string, projectType: string, message: string,
    privacyAccepted: bool, marketingConsent: bool)

  const InitialData := FormData("", "", "", "", false, false)

  function NameError(name: string): (e: Option<string>)
    ensures e.None? <==> 2 <= |Trim(name)| <= 100
    ensures Trim(name) == "" ==> e == Some("Name is required")
    ensures |Trim(name)| == 1 ==> e == Some("Name must be at least 2 characters long")
    ensures |Trim(name)| > 100 ==> e == Some("Name must be less than 100 characters")
  {
    var t := Trim(name);
    if t == "" then Some("Name is required")
    else if |t| < 2 then Some("Name must be at least 2 characters long")
    else if |t| > 100 then Some("Name must be less than 100 characters")
    else None
  }

  /** The pattern is tried on the untrimmed address, and the length limit only after it. */
  function EmailError(email: string): (e: Option<string>)
    ensures e.None? <==> Trim(email) != "" && MatchesEmail(email) && |email| <= 254
    ensures Trim(email) == "" ==> e == Some("Email is required")
    ensures Trim(email) != "" && !MatchesEmail(email) ==> e == Some("Please enter a valid email address")
    ensures Trim(email) != "" && MatchesEmail(email) && |email| > 254 ==> e == Some("Email address is too long")
  {
    if Trim(email) == "" then Some("Email is required")
    else if !MatchesEmail(email) then Some("Please enter a valid email address")
    else if |email| > 254 then Some("Email address is too long")
    else None
  }

  function ProjectTypeError(projectType: string): (e: Option<string>)
    ensures e.None? <==> Trim(projectType) != ""
    ensures e.Some? ==> e.value == "Project type is required"
  {
    if Trim(projectType) == "" then Some("Project type is required") else None
  }

  function MessageError(message: string): (e: Option<string>)
    ensures e.None? <==> 10 <= |Trim(message)| <= 2000
    ensures Trim(message) == "" ==> e == Some("Message is required")
    ensures 0 < |Trim(message)| < 10 ==> e == Some("Message must be at least 10 characters long")
    ensures |Trim(message)| > 2000 ==> e == Some("Message must be less than 2000 characters")
  {
    var t := Trim(message);
    if t == "" then Some("Message is required")
    else if |t| < 10 then Some("Message must be at least 10 characters long")
    else if |t| > 2000 then Some("Message must be less than 2000 characters")
    else None
  }

  function PrivacyError(accepted: bool): (e: Option<string>)
    ensures e.None? <==> accepted
    ensures e.Some? ==> e.value == "You must accept the privacy policy to continue"
  {
    if accepted then None else Some("You must accept the privacy policy to continue")
  }

  /** The rule for one field; the marketing consent has none. */
  function ErrorOf(d: FormData, field: Field): (r: Option<string>)
    ensures field.Name? ==> (r.None? <==> 2 <= |Trim(d.name)| <= 100)
    ensures field.Email? ==> (r.None? <==> Trim(d.email) != "" && MatchesEmail(d.email) && |d.email| <= 254)
    ensures field.ProjectType? ==> (r.None? <==> Trim(d.projectType) != "")
    ensures field.Message? ==> (r.None? <==> 10 <= |Trim(d.message)| <= 2000)
    ensures field.PrivacyAccepted? ==> (r.None? <==> d.privacyAccepted)
    ensures field.MarketingConsent? ==> r.None?
  {
    match field
    case Name => NameError(d.name)
    case Email => EmailError(d.email)
    case ProjectType => ProjectTypeError(d.projectType)
    case Message => MessageError(d.message)
    case PrivacyAccepted => PrivacyError(d.privacyAccepted)
    case MarketingConsent => None
  }

  const AllFields: set<Field> := {Name, Email, ProjectType, Message, PrivacyAccepted, MarketingConsent}

  /** `validateForm`'s `newErrors`: one message for each field whose rule fails. */
  function Validate(d: FormData): (errors: map<Field, string>)
    ensures MarketingConsent !in errors
    ensures forall f :: f in errors <==> ErrorOf(d, f).Some?
    ensures forall f :: f in errors ==> errors[f] == ErrorOf(d, f).value
  {
    map f | f in AllFields && ErrorOf(d, f).Some? :: ErrorOf(d, f).value
  }

  /** The form the rules accept, stated field by field. */
  ghost predicate Acceptable(d: FormData) {
    2 <= |Trim(d.name)| <= 100
    && Trim(d.email) != "" && EmailShape(d.email) && |d.email| <= 254
    && Trim(d.projectType) != ""
    && 10 <= |Trim(d.message)| <= 2000
    && d.privacyAccepted
  }

  lemma NoErrorsAcceptable(d: FormData)
    requires ErrorOf(d, Name).None? && ErrorOf(d, Email).None? && ErrorOf(d, ProjectType).None?
    requires ErrorOf(d, Message).None? && ErrorOf(d, PrivacyAccepted).None?
    ensures Acceptable(d)
  {
    MatchesEmailIffShape(d.email);
  }

  lemma AcceptableNoErrors(d: FormData, f: Field)
    requires Acceptable(d)
    ensures ErrorOf(d, f).None?
  {
    MatchesEmailIffShape(d.email);
  }

  /** `validateForm()` answers true exactly for the acceptable forms. */
  lemma ValidateIffAcceptable(d: FormData)
    ensures Validate(d) == map[] <==> Acceptable(d)
  {
    var e := Validate(d);
    if e == map[] {
      assert Name !in e && Email !in e && ProjectType !in e && Message !in e && PrivacyAccepted !in e;
      NoErrorsAcceptable(d);
    }
    if Acceptable(d) {
      forall f ensures f !in e {
        AcceptableNoErrors(d, f);
      }
      assert e.Keys == {};
    }
  }

  /** Whatever else is filled in, a submission without the privacy consent is refused. */
  lemma PrivacyRequired(d: FormData)
    requires !d.privacyAccepted
    ensures Validate(d) != map[]
  {
    assert PrivacyAccepted in Validate(d);
  }

  datatype Status = Idle | Succeeded | Errored

  /** How the POST to `/api/contact` ended. */
  datatype SubmitResult =
    | Accepted
    | Refused(errorField: Option<string>)   // `errorData.error`, if the body had one
    | Thrown                                // the request, or reading the refusal, threw

  /** `errorData.error ||` the generic apology. */
  function RefusalMessage(error: Option<string>): (m: string)
    ensures m != ""
    ensures error.Some? && error.value != "" ==> m == error.value
    ensures error.None? || error.value == "" ==> m == "An unexpected error occurred. Please try again."
  {
    if error.Some? && error.value != "" then error.value else "An unexpected error occurred. Please try again."
  }

  class Form {
    var data: FormData
    var isSubmitting: bool
    var status: Status
    var submitError: string
    var errors: map<Field, string>

    constructor ()
      ensures data == InitialData && !isSubmitting && status == Idle && submitError == "" && errors == map[]
    {
      data := InitialData;
      isSubmitting := false;
      status := Idle;
      submitError := "";
      errors := map[];
    }

    /** The send button is disabled while sending and until the privacy policy is accepted. */
    predicate SubmitDisabled()
      reads this
      ensures isSubmitting ==> SubmitDisabled()
      ensures !data.privacyAccepted ==> SubmitDisabled()
      ensures !isSubmitting && data.privacyAccepted ==> !SubmitDisabled()
    {
      isSubmitting || !data.privacyAccepted
    }

    /** `handleChange(field, value)` for one of the four text fields. */
    method ChangeText(field: Field, value: string)
      requires field in {Name, Email, ProjectType, Message}
      modifies this
      ensures data == match field
        case Name => old(data).(name := value)
        case Email => old(data).(email := value)
        case ProjectType => old(data).(projectType := value)
        case _ => old(data).(message := value)
      ensures errors == old(errors) - {field}
      ensures isSubmitting == old(isSubmitting) && status == old(status) && submitError == old(submitError)
    {
      if field == Name {
        data := data.(name := value);
      } else if field == Email {
        data := data.(email := value);
      } else if field == ProjectType {
        data := data.(projectType := value);
      } else {
        data := data.(message := value);
      }
      errors := errors - {field};
    }

    /** `handleChange(field, value)` for one of the two check boxes. */
    method ChangeCheck(field: Field, value: bool)
      requires field in {PrivacyAccepted, MarketingConsent}
      modifies this
      ensures data == if field == PrivacyAccepted then old(data).(privacyAccepted := value)
                      else old(data).(marketingConsent := value)
      ensures errors == old(errors) - {field}
      ensures isSubmitting == old(isSubmitting) && status == old(status) && submitError == old(submitError)
    {
      if field == PrivacyAccepted {
        data := data.(privacyAccepted := value);
      } else {
        data := data.(marketingConsent := value);
      }
      errors := errors - {field};
    }

    /**
     * `handleSubmit`: validate, then send `data` unless there are errors;
     * `sent` says whether the request went out.
     */
    method Submit(result: SubmitResult) returns (sent: bool)
      modifies this
      ensures sent <==> Validate(old(data)) == map[]
      ensures !sent ==> errors == Validate(old(data))
      ensures !sent ==> data == old(data) && status == old(status)
      ensures !sent ==> submitError == old(submitError) && isSubmitting == old(isSubmitting)
      ensures sent ==> !isSubmitting && errors == map[]
      ensures sent && result.Accepted? ==> status == Succeeded && data == InitialData && submitError == ""
      ensures sent && !result.Accepted? ==> status == Errored && data == old(data)
      ensures sent && result.Refused? ==> submitError == RefusalMessage(result.errorField)
      ensures sent && result.Thrown? ==> submitError == "Network error. Please check your connection and try again."
    {
      errors := Validate(data);
      if errors != map[] {
        return false;
      }
      sent := true;
      isSubmitting := true;
      status := Idle;
      submitError := "";
      match result {
        case Accepted =>
          status := Succeeded;
          data := InitialData;
          errors := map[];
        case Refused(e) =>
          status := Errored;
          submitError := RefusalMessage(e);
        case Thrown =>
          status := Errored;
          submitError := "Network error. Please check your connection and try again.";
      }
      isSubmitting := false;
    }

    /** "Send another message" after a success, "Try again" after an error: back to the form. */
    method ResetStatus()
      modifies this
      ensures status == Idle
      ensures data == old(data) && isSubmitting == old(isSubmitting)
      ensures submitError == old(submitError) && errors == old(errors)
    {
      status := Idle;
    }
  }
}
