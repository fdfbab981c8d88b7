/**
 * The contact schemas `CREATE` and `UPDATE`. Zod's email check is the
 * uninterpreted parameter `isEmail`.
 */
module ContactValidation {
  import opened Wrappers
  import opened Exceptions
  import opened Schema

  const NameMaxLength: nat := 100
  const EmailMaxLength: nat := 100
  const PhoneMaxLength: nat := 20

  /**
   * A contact body as received. `username` is not part of the schema; it
   * stands for a client that sends one anyway, and validation drops it.
   */
  datatype CreateContactPayload = CreateContactPayload(
    firstName: Option<string>, lastName: Option<string>, email: Option<string>,
    phone: Option<string>, username: Option<string>)

  /** The typed request once `CREATE` passed. */
  datatype CreateContactRequest = CreateContactRequest(
    firstName: string, lastName: Option<string>, email: Option<string>, phone: Option<string>)

  /** An update body as received; `id` is a JSON number. */
  datatype UpdateContactPayload = UpdateContactPayload(
    id: Option<real>, firstName: Option<string>, lastName: Option<string>,
    email: Option<string>, phone: Option<string>)

  /** `z.string().min(1).max(100).email().optional()`. */
  predicate EmailField(email: Option<string>, isEmail: string -> bool) {
    Optional(email, EmailMaxLength) && (email.Some? ==> isEmail(email.value))
  }

  predicate CreateValid(p: CreateContactPayload, isEmail: string -> bool) {
    && Required(p.firstName, NameMaxLength)
    && Optional(p.lastName, NameMaxLength)
    && EmailField(p.email, isEmail)
    && Optional(p.phone, PhoneMaxLength)
  }

  /** `UPDATE` is `CREATE` plus a required positive `id`. */
  predicate UpdateValid(p: UpdateContactPayload, isEmail: string -> bool) {
    && p.id.Some? && p.id.value > 0.0
    && Required(p.firstName, NameMaxLength)
    && Optional(p.lastName, NameMaxLength)
    && EmailField(p.email, isEmail)
    && Optional(p.phone, PhoneMaxLength)
  }

  /** `validate(ContactValidation.CREATE, request)`. */
  function ValidateCreate(p: CreateContactPayload, isEmail: string -> bool): (r: Result<CreateContactRequest, Failure>)
    ensures r.Success? <==> CreateValid(p, isEmail)
    ensures r.Success? ==>
      r.value == CreateContactRequest(p.firstName.value, p.lastName, p.email, p.phone)
    ensures r.Failure? ==> r.error.ZodError? && r.error.issues != []
    ensures r.Failure? ==>
      && ("first_name" in r.error.issues <==> !Required(p.firstName, NameMaxLength))
      && ("last_name" in r.error.issues <==> !Optional(p.lastName, NameMaxLength))
      && ("email" in r.error.issues <==> !EmailField(p.email, isEmail))
      && ("phone" in r.error.issues <==> !Optional(p.phone, PhoneMaxLength))
      && forall f :: f in r.error.issues ==> f in ["first_name", "last_name", "email", "phone"]
  {
    var issues :=
      Issue(Required(p.firstName, NameMaxLength), "first_name") +
      Issue(Optional(p.lastName, NameMaxLength), "last_name") +
      Issue(EmailField(p.email, isEmail), "email") +
      Issue(Optional(p.phone, PhoneMaxLength), "phone");
    if issues == [] then
      Success(CreateContactRequest(p.firstName.value, p.lastName, p.email, p.phone))
    else
      Failure(ZodError(issues))
  }

  /** An update payload with its `id` left out, as a create payload. */
  function WithoutId(p: UpdateContactPayload): CreateContactPayload
  {
    CreateContactPayload(p.firstName, p.lastName, p.email, p.phone, None)
  }

  /** Every payload `UPDATE` accepts is, without its `id`, one `CREATE` accepts. */
  lemma UpdateValidIsCreateValid(p: UpdateContactPayload, isEmail: string -> bool)
    requires UpdateValid(p, isEmail)
    ensures CreateValid(WithoutId(p), isEmail)
  {
  }

  /** `UPDATE` rejects a missing, zero or negative `id` whatever the other fields. */
  lemma UpdateNeedsPositiveId(p: UpdateContactPayload, isEmail: string -> bool)
    requires p.id.None? || p.id.value <= 0.0
    ensures !UpdateValid(p, isEmail)
  {
  }

  /**
   * Of the optional fields, an email must also pass the email check; the
   * others only their lengths, in UTF-16 code units.
   */
  lemma FieldBounds(p: CreateContactPayload, isEmail: string -> bool)
    requires CreateValid(p, isEmail)
    ensures 1 <= Utf16Length(p.firstName.value) <= 100
    ensures p.lastName.Some? ==> 1 <= Utf16Length(p.lastName.value) <= 100
    ensures p.email.Some? ==> 1 <= Utf16Length(p.email.value) <= 100 && isEmail(p.email.value)
    ensures p.phone.Some? ==> 1 <= Utf16Length(p.phone.value) <= 20
  {
  }
}
