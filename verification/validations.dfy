/**
 * The input schemas of src/lib/validations.ts: the pet form (`petFormSchema`,
 * with its default-image transform), the credentials (`authScema`) and the pet
 * identifier (`petIdSchema`). The schema library's URL, e-mail and CUID
 * recognisers are not modelled; they are supplied as uninterpreted predicates.
 */
module Validations {
  import opened Wrappers
  import opened Text

  /** The schema library's string recognisers `url()`, `email()` and `cuid()`. */
  datatype Recognisers = Recognisers(
    isUrl: string -> bool,
    isEmail: string -> bool,
    isCuid: string -> bool)

  /**
   * One field of an untrusted input object: a string, or anything else
   * (missing, a number, an uploaded file, ...).
   */
  datatype RawField = Str(s: string) | NotText

  /**
   * What `Number(value)` makes of the submitted age: an integer, or
   * something else (NaN, a fraction, infinity).
   */
  datatype RawAge = Whole(n: int) | NotWhole

  /** The untrusted pet payload a form or a client sends. */
  datatype RawPet =
    | PetObject(name: RawField, ownerName: RawField, imageUrl: RawField, age: RawAge, notes: RawField)
    | NotAnObject

  /** The pet fields a form edits (`PetEssentials` in the application). */
  datatype PetEssentials = PetEssentials(name: string, ownerName: string, imageUrl: string, age: int, notes: string)

  datatype PetField = Name | OwnerName | ImageUrl | Age | Notes

  /** Why a pet payload was refused: not an object at all, or the set of fields that failed. */
  datatype PetIssue = PayloadNotAnObject | BadPetFields(fields: set<PetField>)

  /**
   * The placeholder image stored when the form leaves the image URL empty.
   * Its value is defined in src/lib/constants.ts, which is not part of this
   * model, so the string below is a stand-in, not the application's value;
   * the model relies only on it being a non-empty string.
   */
  const DefaultPetImage: string := "/pet-placeholder.png"

  const MaxNameLength := 100
  const MaxAge := 999
  const MaxNotesLength := 1000
  const MaxEmailLength := 100
  const MaxPasswordLength := 100

  /** `z.string().trim().min(1).max(100)`, the rule for both the name and the owner's name. */
  predicate NameRule(f: RawField)
  {
    f.Str? && 1 <= Utf16Length(Trim(f.s)) <= MaxNameLength
  }

  /** `z.union([z.string().trim().url(), z.literal("")])`. */
  predicate ImageUrlRule(f: RawField, z: Recognisers)
  {
    f.Str? && (z.isUrl(Trim(f.s)) || f.s == "")
  }

  /** `z.coerce.number().int().positive().max(999)`. */
  predicate AgeRule(a: RawAge)
  {
    a.Whole? && 1 <= a.n <= MaxAge
  }

  /** `z.union([z.string().trim().max(1000), z.literal("")])`. */
  predicate NotesRule(f: RawField)
  {
    f.Str? && Utf16Length(Trim(f.s)) <= MaxNotesLength
  }

  /** The name as the schema outputs it: trimmed. */
  function CheckName(f: RawField): Option<string>
  {
    if NameRule(f) then Some(Trim(f.s)) else None
  }

  /**
   * The image URL as the schema outputs it: the first union branch that
   * accepts decides, so a URL comes out trimmed and "" only through the literal.
   */
  function CheckImageUrl(f: RawField, z: Recognisers): Option<string>
  {
    if f.Str? && z.isUrl(Trim(f.s)) then Some(Trim(f.s))
    else if f == Str("") then Some("")
    else None
  }

  function CheckAge(a: RawAge): Option<int>
  {
    if AgeRule(a) then Some(a.n) else None
  }

  /** The notes as the schema outputs them: trimmed ("" from the literal branch trims to itself). */
  function CheckNotes(f: RawField): Option<string>
  {
    if NotesRule(f) then Some(Trim(f.s)) else None
  }

  /** The fields of an object payload whose rules fail; the schema reports them all at once. */
  function FailingPetFields(p: RawPet, z: Recognisers): set<PetField>
    requires p.PetObject?
  {
    (if NameRule(p.name) then {} else {Name})
    + (if NameRule(p.ownerName) then {} else {OwnerName})
    + (if ImageUrlRule(p.imageUrl, z) then {} else {ImageUrl})
    + (if AgeRule(p.age) then {} else {Age})
    + (if NotesRule(p.notes) then {} else {Notes})
  }

  /** The schema's `.transform`: an empty image URL becomes the placeholder. */
  function WithDefaultImage(d: PetEssentials): (r: PetEssentials)
    ensures r.name == d.name && r.ownerName == d.ownerName && r.age == d.age && r.notes == d.notes
    ensures r.imageUrl != ""
    ensures d.imageUrl == "" ==> r.imageUrl == DefaultPetImage
    ensures d.imageUrl != "" ==> r.imageUrl == d.imageUrl
  {
    d.(imageUrl := if d.imageUrl == "" then DefaultPetImage else d.imageUrl)
  }

  /** `petFormSchema.safeParse`: the normalised pet, or what was wrong with the payload. */
  function ValidatePet(p: RawPet, z: Recognisers): (r: Result<PetEssentials, PetIssue>)
    ensures p.NotAnObject? ==> r == Failure(PayloadNotAnObject)
    ensures p.PetObject? ==> (r.Success? <==>
      NameRule(p.name) && NameRule(p.ownerName) && ImageUrlRule(p.imageUrl, z) && AgeRule(p.age) && NotesRule(p.notes))
    ensures r.Failure? && p.PetObject? ==>
      && r.error.BadPetFields? && r.error.fields != {}
      && (Name in r.error.fields <==> !NameRule(p.name))
      && (OwnerName in r.error.fields <==> !NameRule(p.ownerName))
      && (ImageUrl in r.error.fields <==> !ImageUrlRule(p.imageUrl, z))
      && (Age in r.error.fields <==> !AgeRule(p.age))
      && (Notes in r.error.fields <==> !NotesRule(p.notes))
    ensures r.Success? ==>
      && p.PetObject?
      && r.value.name == Trim(p.name.s) && 1 <= Utf16Length(r.value.name) <= MaxNameLength
      && r.value.ownerName == Trim(p.ownerName.s) && 1 <= Utf16Length(r.value.ownerName) <= MaxNameLength
      && r.value.imageUrl != ""
      && (r.value.imageUrl == DefaultPetImage || (r.value.imageUrl == Trim(p.imageUrl.s) && z.isUrl(r.value.imageUrl)))
      && (p.imageUrl.s == "" ==> r.value.imageUrl == DefaultPetImage)
      && (Trim(p.imageUrl.s) != "" ==> r.value.imageUrl == Trim(p.imageUrl.s) && z.isUrl(r.value.imageUrl))
      && p.age == Whole(r.value.age) && 1 <= r.value.age <= MaxAge
      && r.value.notes == Trim(p.notes.s) && Utf16Length(r.value.notes) <= MaxNotesLength
  {
    if p.NotAnObject? then Failure(PayloadNotAnObject)
    else
      var bad := FailingPetFields(p, z);
      if bad != {} then Failure(BadPetFields(bad))
      else
        Success(WithDefaultImage(PetEssentials(
          CheckName(p.name).value,
          CheckName(p.ownerName).value,
          CheckImageUrl(p.imageUrl, z).value,
          CheckAge(p.age).value,
          CheckNotes(p.notes).value)))
  }

  /** `petIdSchema.safeParse`: a string the CUID recogniser accepts, untrimmed. */
  function ValidatePetId(f: RawField, z: Recognisers): (r: Option<string>)
    ensures r.Some? <==> f.Str? && z.isCuid(f.s)
    ensures r.Some? ==> r.value == f.s
  {
    if f.Str? && z.isCuid(f.s) then Some(f.s) else None
  }

  /** The credential fields of a submitted form, after `Object.fromEntries`. */
  datatype RawAuth = RawAuth(email: RawField, password: RawField)

  datatype Credentials = Credentials(email: string, password: string)

  datatype AuthField = Email | Password

  /** `authScema.safeParse`: neither field is trimmed, and the password may be empty. */
  function ValidateAuth(a: RawAuth, z: Recognisers): (r: Result<Credentials, set<AuthField>>)
    ensures r.Success? <==>
      && a.email.Str? && z.isEmail(a.email.s) && Utf16Length(a.email.s) <= MaxEmailLength
      && a.password.Str? && Utf16Length(a.password.s) <= MaxPasswordLength
    ensures r.Success? ==> r.value == Credentials(a.email.s, a.password.s)
    ensures r.Failure? ==>
      && r.error != {}
      && (Email in r.error <==> !(a.email.Str? && z.isEmail(a.email.s) && Utf16Length(a.email.s) <= MaxEmailLength))
      && (Password in r.error <==> !(a.password.Str? && Utf16Length(a.password.s) <= MaxPasswordLength))
  {
    var emailOk := a.email.Str? && z.isEmail(a.email.s) && Utf16Length(a.email.s) <= MaxEmailLength;
    var passwordOk := a.password.Str? && Utf16Length(a.password.s) <= MaxPasswordLength;
    if emailOk && passwordOk then Success(Credentials(a.email.s, a.password.s))
    else Failure((if emailOk then {} else {Email}) + (if passwordOk then {} else {Password}))
  }

  // ---- properties of the schemas ----

  /** An accepted name has no surrounding whitespace; a whitespace-only name is refused. */
  lemma AcceptedNameIsTrimmed(f: RawField)
    ensures CheckName(f).Some? ==>
      var n := CheckName(f).value;
      n != [] && !IsWhitespace(n[0]) && !IsWhitespace(n[|n| - 1])
    ensures f.Str? && AllWhitespace(f.s) ==> CheckName(f).None?
  {
    if f.Str? {
      TrimSpec(f.s);
    }
  }

  /**
   * A non-empty, whitespace-only image URL is refused: it trims to "", which
   * the URL recogniser refuses, and it is not the literal "".
   */
  lemma WhitespaceImageUrlRejected(p: RawPet, z: Recognisers)
    requires !z.isUrl("")
    requires p.PetObject? && p.imageUrl.Str? && p.imageUrl.s != "" && AllWhitespace(p.imageUrl.s)
    ensures ValidatePet(p, z).Failure?
    ensures ImageUrl in ValidatePet(p, z).error.fields
  {
    TrimEmptyIffWhitespace(p.imageUrl.s);
  }

  /** Whitespace-only notes are accepted and stored as "". */
  lemma WhitespaceNotesBecomeEmpty(p: RawPet, z: Recognisers)
    requires p.PetObject? && p.notes.Str? && AllWhitespace(p.notes.s)
    requires ValidatePet(p, z).Success?
    ensures ValidatePet(p, z).value.notes == ""
  {
    TrimEmptyIffWhitespace(p.notes.s);
  }

  /** A pet submitted without an image gets the placeholder, never an empty URL. */
  lemma NoImageGetsPlaceholder(z: Recognisers)
    ensures ValidatePet(PetObject(Str("Rex"), Str("Ann"), Str(""), Whole(3), Str("")), z)
      == Success(PetEssentials("Rex", "Ann", DefaultPetImage, 3, ""))
  {
  }

  /** An empty password is acceptable as long as the e-mail is. */
  lemma EmptyPasswordAccepted(email: string, z: Recognisers)
    requires z.isEmail(email) && Utf16Length(email) <= MaxEmailLength
    ensures ValidateAuth(RawAuth(Str(email), Str("")), z) == Success(Credentials(email, ""))
  {
  }
}
