/**
 * The contact form's client-side schema, `contactFormSchema`: a name of at
 * least 2, a subject of at least 5 and a message of at least 10 UTF-16 code
 * units, and an email address the email check accepts. Each field is
 * checked on its own and every failing field reports its own message.
 * zod's email pattern is the parameter `isEmail`.
 */
module ContactForm {
  import opened Wrappers
  import opened Schema
  import JsBuiltins

  /** The four text inputs of the form. */
  datatype ContactFormData = ContactFormData(name: string, email: string, subject: string, message: string)

  /** One failed check: the field's name and the message shown under it. */
  datatype FieldError = FieldError(field: string, message: string)

  const NameMin: nat := 2
  const SubjectMin: nat := 5
  const MessageMin: nat := 10

  const NameTooShort := FieldError("name", "Name must be at least 2 characters.")
  const EmailInvalid := FieldError("email", "Please enter a valid email address.")
  const SubjectTooShort := FieldError("subject", "Subject must be at least 5 characters.")
  const MessageTooShort := FieldError("message", "Message must be at least 10 characters.")

  /** `z.string().min(n, { message })`: too short is measured in UTF-16 code units. */
  function MinLength(value: string, n: nat, error: FieldError): (r: seq<FieldError>)
    ensures r == [] <==> JsBuiltins.Utf16Length(value) >= n
    ensures r != [] ==> r == [error]
  {
    if JsBuiltins.Utf16Length(value) < n then [error] else []
  }

  /** `z.string().email({ message })`. */
  function EmailFormat(value: string, isEmail: string -> bool): (r: seq<FieldError>)
    ensures r == [] <==> isEmail(value)
    ensures r != [] ==> r == [EmailInvalid]
  {
    if isEmail(value) then [] else [EmailInvalid]
  }

  /** The messages the form shows: each present exactly when its own check fails. */
  function FormErrors(form: ContactFormData, isEmail: string -> bool): (errors: seq<FieldError>)
    ensures NameTooShort in errors <==> JsBuiltins.Utf16Length(form.name) < NameMin
    ensures EmailInvalid in errors <==> !isEmail(form.email)
    ensures SubjectTooShort in errors <==> JsBuiltins.Utf16Length(form.subject) < SubjectMin
    ensures MessageTooShort in errors <==> JsBuiltins.Utf16Length(form.message) < MessageMin
  {
    var a := MinLength(form.name, NameMin, NameTooShort);
    var b := EmailFormat(form.email, isEmail);
    var c := MinLength(form.subject, SubjectMin, SubjectTooShort);
    var d := MinLength(form.message, MessageMin, MessageTooShort);
    assert forall e :: e in a + b + c + d <==> e in a || e in b || e in c || e in d;
    a + b + c + d
  }

  /** Nothing else is shown: every message is one of the four, and there are at most four. */
  lemma FormErrorsKnown(form: ContactFormData, isEmail: string -> bool)
    ensures forall e :: e in FormErrors(form, isEmail) ==> e in [NameTooShort, EmailInvalid, SubjectTooShort, MessageTooShort]
    ensures |FormErrors(form, isEmail)| <= 4
  {
    var a := MinLength(form.name, NameMin, NameTooShort);
    var b := EmailFormat(form.email, isEmail);
    var c := MinLength(form.subject, SubjectMin, SubjectTooShort);
    var d := MinLength(form.message, MessageMin, MessageTooShort);
    assert FormErrors(form, isEmail) == a + b + c + d;
  }

  /**
   * `contactFormSchema.safeParse(form)`: the data itself when every check
   * passes, else the messages of the failing fields.
   */
  function Validate(form: ContactFormData, isEmail: string -> bool): (r: Result<ContactFormData, seq<FieldError>>)
    ensures r.Ok? <==>
      && JsBuiltins.Utf16Length(form.name) >= NameMin
      && isEmail(form.email)
      && JsBuiltins.Utf16Length(form.subject) >= SubjectMin
      && JsBuiltins.Utf16Length(form.message) >= MessageMin
    ensures r.Ok? ==> r.value == form
    ensures r.Err? ==> r.error != [] && r.error == FormErrors(form, isEmail)
  {
    var errors := FormErrors(form, isEmail);
    if errors == [] then Ok(form) else Err(errors)
  }

  /** A form is submitted exactly when it shows no message. */
  lemma ValidateIffNoErrors(form: ContactFormData, isEmail: string -> bool)
    ensures Validate(form, isEmail).Ok? <==> FormErrors(form, isEmail) == []
  {
  }

  /**
   * The checks are independent: a field's message depends on that field
   * only, so editing one field changes no other field's message.
   */
  lemma ErrorsIndependent(a: ContactFormData, b: ContactFormData, isEmail: string -> bool)
    ensures a.name == b.name ==> (NameTooShort in FormErrors(a, isEmail) <==> NameTooShort in FormErrors(b, isEmail))
    ensures a.email == b.email ==> (EmailInvalid in FormErrors(a, isEmail) <==> EmailInvalid in FormErrors(b, isEmail))
    ensures a.subject == b.subject ==>
      (SubjectTooShort in FormErrors(a, isEmail) <==> SubjectTooShort in FormErrors(b, isEmail))
    ensures a.message == b.message ==>
      (MessageTooShort in FormErrors(a, isEmail) <==> MessageTooShort in FormErrors(b, isEmail))
  {
  }

  /** Text without characters outside the Basic Multilingual Plane is as long in code units as in characters. */
  predicate InBmp(s: string) {
    forall i :: 0 <= i < |s| ==> s[i] < '\U{10000}'
  }

  /**
   * The boundaries on text of plain characters: a name of exactly 2, a
   * subject of exactly 5 and a message of exactly 10 characters pass, one
   * character fewer fails.
   */
  lemma LengthBoundaries(form: ContactFormData, isEmail: string -> bool)
    requires InBmp(form.name) && InBmp(form.subject) && InBmp(form.message)
    ensures NameTooShort in FormErrors(form, isEmail) <==> |form.name| < 2
    ensures SubjectTooShort in FormErrors(form, isEmail) <==> |form.subject| < 5
    ensures MessageTooShort in FormErrors(form, isEmail) <==> |form.message| < 10
  {
  }

  /** An emoji outside the Basic Multilingual Plane counts twice: a one-character name of one passes. */
  lemma AstralNamePasses(form: ContactFormData, isEmail: string -> bool)
    requires |form.name| == 1 && form.name[0] >= '\U{10000}'
    ensures NameTooShort !in FormErrors(form, isEmail)
  {
    assert JsBuiltins.Utf16Length(form.name) == 2 + JsBuiltins.Utf16Length(form.name[1..]);
  }

  /** The JSON body the form posts to `/api/contact`. */
  function ToJson(form: ContactFormData): (body: Json)
    ensures body.JObject? && body.fields.Keys == {"name", "email", "subject", "message"}
  {
    JObject(map["name" := JString(form.name), "email" := JString(form.email),
                "subject" := JString(form.subject), "message" := JString(form.message)])
  }

  /** The server stores whatever four strings the form posts, including ones the form would refuse. */
  lemma ServerAcceptsAnyForm(form: ContactFormData)
    ensures ParseInsertContact(ToJson(form)) == Ok(InsertContact(form.name, form.email, form.subject, form.message))
  {
    var f := ToJson(form).fields;
    assert HasString(ToJson(form), "name") && f["name"].s == form.name;
    assert HasString(ToJson(form), "email") && f["email"].s == form.email;
    assert HasString(ToJson(form), "subject") && f["subject"].s == form.subject;
    assert HasString(ToJson(form), "message") && f["message"].s == form.message;
  }

  /** A form the client submits is stored by the server with the same four values. */
  lemma SubmittedIsStored(form: ContactFormData, isEmail: string -> bool)
    requires Validate(form, isEmail).Ok?
    ensures var v := Validate(form, isEmail).value;
      ParseInsertContact(ToJson(v)) == Ok(InsertContact(v.name, v.email, v.subject, v.message))
  {
    ServerAcceptsAnyForm(Validate(form, isEmail).value);
  }

  /**
   * The length rules live in the client only: a one-character name is
   * refused by the form but accepted by the server's schema.
   */
  lemma ShortNameOnlyClientRefuses(form: ContactFormData, isEmail: string -> bool)
    requires JsBuiltins.Utf16Length(form.name) < NameMin
    ensures Validate(form, isEmail).Err? && NameTooShort in Validate(form, isEmail).error
    ensures ParseInsertContact(ToJson(form)).Ok?
  {
    ServerAcceptsAnyForm(form);
  }
}
