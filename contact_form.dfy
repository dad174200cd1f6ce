/**
 * The contact form of the page: its three fields, the validator that maps
 * them to per-field error messages, and the form state the submit and
 * change handlers update.
 */
module ContactForm {
  import opened JsText
  import opened EmailPattern

  /** The `name` attribute of each form control. */
  datatype Field = Name | Email | Message

  /** The three text fields of the form. */
  datatype FormData = FormData(name: string, email: string, message: string) {

    function Get(f: Field): string
    {
      match f
      case Name => name
      case Email => email
      case Message => message
    }

    /** `{ ...prev, [f]: v }`: the field f replaced, the others kept. */
    function With(f: Field, v: string): (r: FormData)
      ensures r.Get(f) == v
      ensures forall g: Field | g != f :: r.Get(g) == Get(g)
    {
      match f
      case Name => this.(name := v)
      case Email => this.(email := v)
      case Message => this.(message := v)
    }
  }

  const EmptyForm := FormData("", "", "")

  const NameRequired := "Name is required"
  const EmailRequired := "Email is required"
  const EmailInvalid := "Email is invalid"
  const MessageRequired := "Message is required"

  /** The messages the validator can put under a field. */
  function Messages(f: Field): set<string>
  {
    match f
    case Name => {NameRequired}
    case Email => {EmailRequired, EmailInvalid}
    case Message => {MessageRequired}
  }

  /** Every stored error is one of its field's messages, or the empty string
      that an edit leaves behind. */
  ghost predicate ErrorsWellFormed(errors: map<Field, string>)
  {
    forall f | f in errors :: errors[f] == "" || errors[f] in Messages(f)
  }

  /** `!value.trim()`: the text is blank. */
  function IsBlank(value: string): (b: bool)
    ensures b <==> AllWhiteSpace(value)
  {
    Trim(value) == ""
  }

  /** `/\S+@\S+\.\S+/.test(value)`. */
  function LooksLikeEmail(value: string): (b: bool)
    ensures b <==> ContainsMatch(value)
  {
    TestIsRegexSearch(value);
    Test(value)
  }

  /** The name check: a blank name is reported as required. */
  function CheckName(form: FormData, errors: map<Field, string>): map<Field, string>
  {
    if IsBlank(form.name) then errors[Name := NameRequired] else errors
  }

  /** The e-mail check: a blank address is required, otherwise one that does
      not contain the pattern is invalid. */
  function CheckEmail(form: FormData, errors: map<Field, string>): map<Field, string>
  {
    if IsBlank(form.email) then errors[Email := EmailRequired]
    else if !LooksLikeEmail(form.email) then errors[Email := EmailInvalid]
    else errors
  }

  /** The message check: a blank message is reported as required. */
  function CheckMessage(form: FormData, errors: map<Field, string>): map<Field, string>
  {
    if IsBlank(form.message) then errors[Message := MessageRequired] else errors
  }

  /** The validator: a field is reported when it is blank after trimming; the
      e-mail is reported as required when blank and otherwise as invalid when
      it contains no `\S+@\S+\.\S+`, which is searched in the untrimmed text. */
  function Validate(form: FormData): (errors: map<Field, string>)
    ensures Name in errors <==> AllWhiteSpace(form.name)
    ensures Email in errors <==> AllWhiteSpace(form.email) || !ContainsMatch(form.email)
    ensures Message in errors <==> AllWhiteSpace(form.message)
    ensures Name in errors ==> errors[Name] == NameRequired
    ensures Email in errors ==> errors[Email] == if AllWhiteSpace(form.email) then EmailRequired else EmailInvalid
    ensures Message in errors ==> errors[Message] == MessageRequired
  {
    CheckMessage(form, CheckEmail(form, CheckName(form, map[])))
  }

  /** An all-blank form yields exactly the three "required" errors. */
  lemma AllBlankGivesThreeErrors(form: FormData)
    requires AllWhiteSpace(form.name) && AllWhiteSpace(form.email) && AllWhiteSpace(form.message)
    ensures Validate(form) == map[Name := NameRequired, Email := EmailRequired, Message := MessageRequired]
  {
    var errors := Validate(form);
    assert errors.Keys == {Name, Email, Message};
  }

  /** "Email is invalid" is reported exactly for a non-blank address in
      which the pattern does not occur; a blank one is always "required". */
  lemma EmailInvalidExactly(form: FormData)
    ensures (Email in Validate(form) && Validate(form)[Email] == EmailInvalid)
            <==> !AllWhiteSpace(form.email) && !ContainsMatch(form.email)
    ensures AllWhiteSpace(form.email) ==> Email in Validate(form) && Validate(form)[Email] == EmailRequired
  {
  }

  /** The form is accepted exactly when name and message are not blank and
      the e-mail contains the pattern. */
  lemma AcceptedExactly(form: FormData)
    ensures Validate(form) == map[]
            <==> !AllWhiteSpace(form.name) && !AllWhiteSpace(form.message) && ContainsMatch(form.email)
  {
    var errors := Validate(form);
    if ContainsMatch(form.email) && !AllWhiteSpace(form.email) {
      if !AllWhiteSpace(form.name) && !AllWhiteSpace(form.message) {
        assert errors.Keys == {};
      }
    } else if ContainsMatch(form.email) {
      BlankNeverMatches(form.email);
    } else {
      assert Email in errors;
    }
  }

  /** Name and message filled in, an address with no '@': the e-mail error
      is the only one. */
  lemma AddressWithoutAtSign(form: FormData)
    requires !AllWhiteSpace(form.name) && !AllWhiteSpace(form.message) && !AllWhiteSpace(form.email)
    requires forall k | 0 <= k < |form.email| :: form.email[k] != '@'
    ensures Validate(form) == map[Email := EmailInvalid]
  {
    NoAtNoMatch(form.email);
    var errors := Validate(form);
    assert errors.Keys == {Email};
  }

  /** The validator's output is well formed and carries no empty message. */
  lemma ValidateWellFormed(form: FormData)
    ensures ErrorsWellFormed(Validate(form))
    ensures forall f | f in Validate(form) :: Validate(form)[f] in Messages(f)
  {
  }

  /** The state of the contact form: `formData`, `formErrors`,
      `isSubmitting`, and the number of submissions still waiting for their
      simulated delay to end. */
  class FormState {
    var formData: FormData
    var formErrors: map<Field, string>
    var isSubmitting: bool
    var pendingSends: nat

    ghost predicate Valid()
      reads this
    {
      (isSubmitting ==> pendingSends > 0) && ErrorsWellFormed(formErrors)
    }

    constructor ()
      ensures Valid()
      ensures formData == EmptyForm && formErrors == map[]
      ensures !isSubmitting && pendingSends == 0
    {
      formData := EmptyForm;
      formErrors := map[];
      isSubmitting := false;
      pendingSends := 0;
    }

    /** `validateForm`: fills an error dictionary field by field. */
    method ValidateForm() returns (errors: map<Field, string>)
      ensures errors == Validate(formData)
    {
      errors := map[];
      if IsBlank(formData.name) {
        errors := errors[Name := NameRequired];
      }
      assert errors == CheckName(formData, map[]);
      if IsBlank(formData.email) {
        errors := errors[Email := EmailRequired];
      } else if !LooksLikeEmail(formData.email) {
        errors := errors[Email := EmailInvalid];
      }
      assert errors == CheckEmail(formData, CheckName(formData, map[]));
      if IsBlank(formData.message) {
        errors := errors[Message := MessageRequired];
      }
    }

    /** `handleSubmit` up to its `await`: either the errors are recorded and
        nothing else changes, or the form enters the submitting state with no
        errors and one more completion is pending. */
    method HandleSubmit()
      requires Valid()
      modifies this
      ensures Valid()
      ensures formData == old(formData)
      ensures Validate(old(formData)) != map[] ==>
                formErrors == Validate(old(formData))
                && isSubmitting == old(isSubmitting) && pendingSends == old(pendingSends)
      ensures Validate(old(formData)) == map[] ==>
                isSubmitting && formErrors == map[] && pendingSends == old(pendingSends) + 1
    {
      var errors := ValidateForm();
      if |errors| > 0 {
        ValidateWellFormed(formData);
        formErrors := errors;
        return;
      }
      isSubmitting := true;
      formErrors := map[];
      pendingSends := pendingSends + 1;
    }

    /** The rest of `handleSubmit`, once the delay has passed: the fields are
        cleared and the form leaves the submitting state. */
    method CompleteSubmission()
      requires Valid() && pendingSends > 0
      modifies this
      ensures Valid()
      ensures formData == EmptyForm && !isSubmitting
      ensures formErrors == old(formErrors) && pendingSends == old(pendingSends) - 1
    {
      formData := FormData("", "", "");
      isSubmitting := false;
      pendingSends := pendingSends - 1;
    }

    /** `handleInputChange`: the edited field takes the new value, and a
        non-empty error under it is blanked; nothing else changes. */
    method HandleInputChange(field: Field, value: string)
      requires Valid()
      modifies this`formData, this`formErrors
      ensures Valid()
      ensures formData == old(formData).With(field, value)
      ensures if field in old(formErrors) && old(formErrors)[field] != ""
              then formErrors == old(formErrors)[field := ""]
              else formErrors == old(formErrors)
    {
      formData := formData.With(field, value);
      if field in formErrors && formErrors[field] != "" {
        formErrors := formErrors[field := ""];
      }
    }
  }

  /** A valid form submitted and left to finish ends empty, not submitting,
      and with no errors, also when a field is edited during the delay (the
      inputs stay enabled while the form is submitting). */
  method SubmitValidForm(form: FormState, edit: bool, field: Field, value: string)
    requires form.Valid() && Validate(form.formData) == map[]
    modifies form
    ensures form.Valid()
    ensures form.formData == EmptyForm && !form.isSubmitting && form.formErrors == map[]
    ensures form.pendingSends == old(form.pendingSends)
  {
    form.HandleSubmit();
    if edit {
      form.HandleInputChange(field, value);
    }
    form.CompleteSubmission();
  }

  /** An all-blank form submitted records the three "required" errors and
      leaves the fields and the submitting flag as they were. */
  method SubmitBlankForm(form: FormState)
    requires form.Valid()
    requires AllWhiteSpace(form.formData.name) && AllWhiteSpace(form.formData.email)
    requires AllWhiteSpace(form.formData.message)
    modifies form
    ensures form.formErrors == map[Name := NameRequired, Email := EmailRequired, Message := MessageRequired]
    ensures form.formData == old(form.formData) && form.isSubmitting == old(form.isSubmitting)
    ensures form.pendingSends == old(form.pendingSends)
  {
    AllBlankGivesThreeErrors(form.formData);
    form.HandleSubmit();
  }
}
