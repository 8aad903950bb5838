/**
 * The server actions of src/actions/actions.ts. Every pet action runs the same
 * gates in the same order: authenticate (no session user means a redirect to
 * the login page), validate, look the pet up and check its owner, and only
 * then write. What the framework and the libraries do is supplied by the
 * caller: the session, the sign-in outcome, the password hash, the id the
 * database assigns and any unforeseeable database fault.
 */
module Actions {
  import opened Wrappers
  import opened Validations
  import opened Persistence
  import opened Text

  /** What an action hands back to the page. */
  datatype Outcome =
    | Done                    // the action returned nothing: it succeeded
    | Message(text: string)   // `{ message }`, shown to the user
    | Redirect(to: string)    // the framework's `redirect`
    | Thrown                  // an error the action did not catch

  /** The user the authentication library reports for the current request. */
  datatype SessionUser = SessionUser(id: UserId, email: string, hasAccess: bool)

  datatype Reply = Reply(outcome: Outcome, db: Db)

  const LoginPage := "/login"
  const Dashboard := "/app/dashboard"

  /** A submitted form value: text or an uploaded file. */
  datatype FormValue = TextValue(s: string) | FileValue

  /** An action argument: a `FormData` object, or anything else. */
  datatype Payload = FormData(entries: map<string, FormValue>) | NotFormData

  /** What the authentication library's `signIn` did. */
  datatype SignInError = AuthError(kind: string) | OtherError
  datatype SignIn = SignInReturned | SignInThrew(error: SignInError)

  datatype LoginReply = LoginReply(outcome: Outcome, calledSignIn: bool)
  datatype SignupReply = SignupReply(outcome: Outcome, db: Db, calledSignIn: bool)

  /** A form field after `Object.fromEntries`: text, or missing / a file. */
  function Field(entries: map<string, FormValue>, key: string): (f: RawField)
    ensures f.Str? <==> key in entries && entries[key].TextValue?
    ensures f.Str? ==> f.s == entries[key].s
  {
    if key in entries && entries[key].TextValue? then Str(entries[key].s) else NotText
  }

  // ---- user actions ----

  /**
   * `login`: anything but form data is refused before the authentication
   * library is called; its failures are classified, and on success the user
   * is sent to the dashboard.
   */
  function Login(authData: Payload, signIn: SignIn): (r: LoginReply)
    ensures authData.NotFormData? ==> r == LoginReply(Message("Invalid form data"), false)
    ensures authData.FormData? ==> r.calledSignIn
    ensures authData.FormData? ==>
      && (signIn.SignInReturned? <==> r.outcome == Redirect(Dashboard))
      && (signIn == SignInThrew(AuthError("CredentialsSignin")) <==> r.outcome == Message("Invalid credentials"))
      && ((signIn.SignInThrew? && signIn.error.AuthError? && signIn.error.kind != "CredentialsSignin")
          <==> r.outcome == Message("Failed to sign in"))
      && (signIn == SignInThrew(OtherError) <==> r.outcome == Thrown)
  {
    if authData.NotFormData? then LoginReply(Message("Invalid form data"), false)
    else
      match signIn
      case SignInReturned => LoginReply(Redirect(Dashboard), true)
      case SignInThrew(AuthError(kind)) =>
        LoginReply(Message(if kind == "CredentialsSignin" then "Invalid credentials" else "Failed to sign in"), true)
      case SignInThrew(OtherError) => LoginReply(Thrown, true)
  }

  /**
   * `signup`: validate the credentials, store the user with a hashed
   * password, then sign in. A database error the client does not classify is
   * swallowed and sign-in is attempted anyway, with no user stored.
   */
  function Signup(db: Db, authData: Payload, z: Recognisers, hash: string -> string,
                  newUserId: UserId, fault: Option<DbError>, signIn: SignIn): (r: SignupReply)
    ensures authData.NotFormData? ==> r == SignupReply(Message("Invalid form data"), db, false)
    ensures !r.calledSignIn ==> r.db == db && r.outcome.Message?
    ensures r.calledSignIn ==> (r.outcome == Done <==> signIn.SignInReturned?) && (r.outcome == Thrown <==> signIn.SignInThrew?)
    ensures authData.FormData? ==>
      var c := ValidateAuth(RawAuth(Field(authData.entries, "email"), Field(authData.entries, "password")), z);
      && (c.Failure? ==> r == SignupReply(Message("Invalid form data"), db, false))
      && (c.Success? ==>
            var created := CreateUser(db, newUserId, c.value.email, hash(c.value.password), fault);
            && (created == Failure(KnownRequest(UniqueViolation)) ==> r == SignupReply(Message("Email already exists"), db, false))
            && ((created.Failure? && created.error.KnownRequest? && created.error.code != UniqueViolation) ==>
                  r == SignupReply(Message("Failed to sign up"), db, false))
            && (created == Failure(OtherFailure) ==> r.calledSignIn && r.db == db)
            && (created.Success? ==> r.calledSignIn && r.db == created.value))
  {
    if authData.NotFormData? then SignupReply(Message("Invalid form data"), db, false)
    else
      var raw := RawAuth(Field(authData.entries, "email"), Field(authData.entries, "password"));
      var c := ValidateAuth(raw, z);
      if c.Failure? then SignupReply(Message("Invalid form data"), db, false)
      else
        var created := CreateUser(db, newUserId, c.value.email, hash(c.value.password), fault);
        if created.Failure? && created.error == KnownRequest(UniqueViolation) then
          SignupReply(Message("Email already exists"), db, false)
        else if created.Failure? && created.error.KnownRequest? then
          SignupReply(Message("Failed to sign up"), db, false)
        else
          var db' := if created.Success? then created.value else db;
          SignupReply(if signIn.SignInReturned? then Done else Thrown, db', true)
  }

  // ---- pet actions ----

  /** `addPet`: authenticate, validate, then create the pet for the session user. */
  function AddPet(db: Db, session: Option<SessionUser>, pet: RawPet, z: Recognisers,
                  newId: PetId, fault: Option<DbError>): (r: Reply)
    ensures session.None? ==> r == Reply(Redirect(LoginPage), db)
    ensures r.outcome != Done ==> r.db == db
    ensures r.outcome == Message("Invalid pet data") <==> session.Some? && ValidatePet(pet, z).Failure?
    ensures r.outcome == Message("Failed to add pet") <==>
      session.Some? && ValidatePet(pet, z).Success? && (fault.Some? || newId in db.pets || session.value.id !in db.users)
    ensures r.outcome.Redirect? <==> session.None?
    ensures r.outcome in {Redirect(LoginPage), Message("Invalid pet data"), Message("Failed to add pet"), Done}
    ensures (session.Some? && ValidatePet(pet, z).Success? && fault.None? && newId !in db.pets
             && session.value.id in db.users) ==> r.outcome == Done
    ensures r.outcome == Done ==>
      && session.Some? && ValidatePet(pet, z).Success?
      && r.db.users == db.users
      && newId !in db.pets
      && r.db.pets.Keys == db.pets.Keys + {newId}
      && (forall p :: p in db.pets ==> r.db.pets[p] == db.pets[p])
      && r.db.pets[newId] == Pet(newId, ValidatePet(pet, z).value, session.value.id)
  {
    if session.None? then Reply(Redirect(LoginPage), db)
    else
      var validated := ValidatePet(pet, z);
      if validated.Failure? then Reply(Message("Invalid pet data"), db)
      else
        var created := CreatePet(db, newId, validated.value, session.value.id, fault);
        if created.Failure? then Reply(Message("Failed to add pet"), db)
        else Reply(Done, created.value)
  }

  /**
   * `editPet`: authenticate, validate pet and id, find the pet, check its
   * owner, then update it. The lookup runs outside the `try` that guards the
   * update, so a lookup fault escapes the action.
   */
  function EditPet(db: Db, session: Option<SessionUser>, petId: RawField, pet: RawPet, z: Recognisers,
                   lookupFault: bool, fault: Option<DbError>): (r: Reply)
    ensures session.None? ==> r == Reply(Redirect(LoginPage), db)
    ensures r.outcome != Done ==> r.db == db
    ensures r.outcome == Message("Invalid pet data") <==>
      session.Some? && (ValidatePet(pet, z).Failure? || ValidatePetId(petId, z).None?)
    ensures r.outcome == Thrown <==>
      session.Some? && ValidatePet(pet, z).Success? && ValidatePetId(petId, z).Some? && lookupFault
    ensures r.outcome == Message("Pet not found") <==>
      && session.Some? && ValidatePet(pet, z).Success? && ValidatePetId(petId, z).Some?
      && !lookupFault && petId.s !in db.pets
    ensures r.outcome == Message("Unauthorized") <==>
      && session.Some? && ValidatePet(pet, z).Success? && ValidatePetId(petId, z).Some?
      && !lookupFault && petId.s in db.pets && db.pets[petId.s].userId != session.value.id
    ensures r.outcome.Redirect? <==> session.None?
    ensures r.outcome == Message("Failed to edit pet") <==>
      && session.Some? && ValidatePet(pet, z).Success? && ValidatePetId(petId, z).Some?
      && !lookupFault && petId.s in db.pets && db.pets[petId.s].userId == session.value.id
      && fault.Some?
    ensures r.outcome in {Redirect(LoginPage), Message("Invalid pet data"), Thrown, Message("Pet not found"),
                          Message("Unauthorized"), Message("Failed to edit pet"), Done}
    ensures r.outcome == Done ==>
      && session.Some? && ValidatePet(pet, z).Success? && ValidatePetId(petId, z).Some? && !lookupFault
      && var id := petId.s;
      && id in db.pets && db.pets[id].userId == session.value.id
      && r.db.users == db.users
      && r.db.pets.Keys == db.pets.Keys
      && (forall p :: p in db.pets && p != id ==> r.db.pets[p] == db.pets[p])
      && r.db.pets[id] == Pet(db.pets[id].id, ValidatePet(pet, z).value, db.pets[id].userId)
  {
    if session.None? then Reply(Redirect(LoginPage), db)
    else
      var validated := ValidatePet(pet, z);
      var validId := ValidatePetId(petId, z);
      if validated.Failure? || validId.None? then Reply(Message("Invalid pet data"), db)
      else if lookupFault then Reply(Thrown, db)
      else
        var found := GetPetById(db, validId.value);
        if found.None? then Reply(Message("Pet not found"), db)
        else if found.value.userId != session.value.id then Reply(Message("Unauthorized"), db)
        else
          var updated := UpdatePet(db, validId.value, validated.value, fault);
          if updated.Failure? then Reply(Message("Failed to edit pet"), db)
          else Reply(Done, updated.value)
  }

  /**
   * `deletePet`: authenticate, validate the id, find the pet, check its
   * owner, then delete it. As in `editPet`, a lookup fault escapes the action.
   */
  function DeletePetAction(db: Db, session: Option<SessionUser>, petId: RawField, z: Recognisers,
                           lookupFault: bool, fault: Option<DbError>): (r: Reply)
    ensures session.None? ==> r == Reply(Redirect(LoginPage), db)
    ensures r.outcome != Done ==> r.db == db
    ensures r.outcome == Message("Invalid pet ID") <==> session.Some? && ValidatePetId(petId, z).None?
    ensures r.outcome == Thrown <==> session.Some? && ValidatePetId(petId, z).Some? && lookupFault
    ensures r.outcome == Message("Pet not found") <==>
      session.Some? && ValidatePetId(petId, z).Some? && !lookupFault && petId.s !in db.pets
    ensures r.outcome == Message("Unauthorized") <==>
      && session.Some? && ValidatePetId(petId, z).Some?
      && !lookupFault && petId.s in db.pets && db.pets[petId.s].userId != session.value.id
    ensures r.outcome.Redirect? <==> session.None?
    ensures r.outcome == Message("Failed to delete pet") <==>
      && session.Some? && ValidatePetId(petId, z).Some?
      && !lookupFault && petId.s in db.pets && db.pets[petId.s].userId == session.value.id
      && fault.Some?
    ensures r.outcome in {Redirect(LoginPage), Message("Invalid pet ID"), Thrown, Message("Pet not found"),
                          Message("Unauthorized"), Message("Failed to delete pet"), Done}
    ensures r.outcome == Done ==>
      && session.Some? && ValidatePetId(petId, z).Some? && !lookupFault
      && petId.s in db.pets && db.pets[petId.s].userId == session.value.id
      && r.db.users == db.users
      && r.db.pets.Keys == db.pets.Keys - {petId.s}
      && (forall p :: p in r.db.pets ==> r.db.pets[p] == db.pets[p])
  {
    if session.None? then Reply(Redirect(LoginPage), db)
    else
      var validId := ValidatePetId(petId, z);
      if validId.None? then Reply(Message("Invalid pet ID"), db)
      else if lookupFault then Reply(Thrown, db)
      else
        var found := GetPetById(db, validId.value);
        if found.None? then Reply(Message("Pet not found"), db)
        else if found.value.userId != session.value.id then Reply(Message("Unauthorized"), db)
        else
          var deleted := DeletePet(db, validId.value, fault);
          if deleted.Failure? then Reply(Message("Failed to delete pet"), db)
          else Reply(Done, deleted.value)
  }

  // ---- properties of the actions ----

  /**
   * Between `db` and `db'` only pets owned by `owner` were created, changed
   * or removed, and the users are as they were.
   */
  ghost predicate OnlyOwnPetsChanged(db: Db, db': Db, owner: UserId)
  {
    && db'.users == db.users
    && (forall p :: p in db.pets && db.pets[p].userId != owner ==> p in db'.pets && db'.pets[p] == db.pets[p])
    && (forall p :: p in db'.pets && db'.pets[p].userId != owner ==> p in db.pets && db.pets[p] == db'.pets[p])
  }

  /** `addPet` by a signed-in user touches no other user's pets, whatever it returns. */
  lemma AddPetTouchesOnlyOwnPets(db: Db, user: SessionUser, pet: RawPet, z: Recognisers,
                                 newId: PetId, fault: Option<DbError>)
    ensures OnlyOwnPetsChanged(db, AddPet(db, Some(user), pet, z, newId, fault).db, user.id)
  {
  }

  /** `editPet` by a signed-in user touches no other user's pets, whatever it returns. */
  lemma EditPetTouchesOnlyOwnPets(db: Db, user: SessionUser, petId: RawField, pet: RawPet, z: Recognisers,
                                  lookupFault: bool, fault: Option<DbError>)
    ensures OnlyOwnPetsChanged(db, EditPet(db, Some(user), petId, pet, z, lookupFault, fault).db, user.id)
  {
  }

  /** `deletePet` by a signed-in user touches no other user's pets, whatever it returns. */
  lemma DeletePetTouchesOnlyOwnPets(db: Db, user: SessionUser, petId: RawField, z: Recognisers,
                                    lookupFault: bool, fault: Option<DbError>)
    ensures OnlyOwnPetsChanged(db, DeletePetAction(db, Some(user), petId, z, lookupFault, fault).db, user.id)
  {
  }

  /** The pet actions keep the database consistent with its schema. */
  lemma AddPetPreservesValid(db: Db, session: Option<SessionUser>, pet: RawPet,
                             z: Recognisers, newId: PetId, fault: Option<DbError>)
    requires Valid(db)
    ensures Valid(AddPet(db, session, pet, z, newId, fault).db)
  {
  }

  lemma EditPetPreservesValid(db: Db, session: Option<SessionUser>, petId: RawField, pet: RawPet,
                              z: Recognisers, lookupFault: bool, fault: Option<DbError>)
    requires Valid(db)
    ensures Valid(EditPet(db, session, petId, pet, z, lookupFault, fault).db)
  {
  }

  lemma DeletePetPreservesValid(db: Db, session: Option<SessionUser>, petId: RawField,
                                z: Recognisers, lookupFault: bool, fault: Option<DbError>)
    requires Valid(db)
    ensures Valid(DeletePetAction(db, session, petId, z, lookupFault, fault).db)
  {
  }

  /** Signing up never stores a second user with the same e-mail address. */
  lemma SignupPreservesValid(db: Db, authData: Payload, z: Recognisers, hash: string -> string,
                             newUserId: UserId, fault: Option<DbError>, signIn: SignIn)
    requires Valid(db)
    ensures Valid(Signup(db, authData, z, hash, newUserId, fault, signIn).db)
  {
  }

  /**
   * Signing up with an address that is already registered reports it, stores
   * nothing and does not sign in.
   */
  lemma SignupExistingEmail(db: Db, email: string, password: string, z: Recognisers, hash: string -> string,
                            newUserId: UserId, signIn: SignIn)
    requires EmailTaken(db, email)
    requires ValidateAuth(RawAuth(Str(email), Str(password)), z).Success?
    ensures var r := Signup(db, FormData(map["email" := TextValue(email), "password" := TextValue(password)]),
                            z, hash, newUserId, None, signIn);
      r == SignupReply(Message("Email already exists"), db, false)
  {
  }

  /**
   * A failure the database client does not classify is swallowed: nothing is
   * stored, yet sign-in is still attempted.
   */
  lemma SignupSwallowsUnclassifiedError(db: Db, authData: Payload, z: Recognisers, hash: string -> string,
                                        newUserId: UserId, signIn: SignIn)
    requires authData.FormData?
    requires ValidateAuth(RawAuth(Field(authData.entries, "email"), Field(authData.entries, "password")), z).Success?
    ensures var r := Signup(db, authData, z, hash, newUserId, Some(OtherFailure), signIn);
      r.calledSignIn && r.db == db
  {
  }

  /** A successful sign-up stores exactly one new user: the hashed password, without access. */
  lemma SignupStoresOneUser(db: Db, authData: Payload, z: Recognisers, hash: string -> string,
                            newUserId: UserId, fault: Option<DbError>, signIn: SignIn)
    requires Signup(db, authData, z, hash, newUserId, fault, signIn).db != db
    ensures var r := Signup(db, authData, z, hash, newUserId, fault, signIn);
      var c := ValidateAuth(RawAuth(Field(authData.entries, "email"), Field(authData.entries, "password")), z).value;
      && r.calledSignIn
      && r.db.pets == db.pets
      && r.db.users.Keys == db.users.Keys + {newUserId}
      && newUserId !in db.users
      && r.db.users[newUserId] == User(newUserId, c.email, hash(c.password), false)
  {
  }

  /**
   * Every user that signing up stores passed the credential schema: its
   * address is one the e-mail recogniser accepts, at most 100 UTF-16 units
   * long, and its stored password is the hash of the submitted password,
   * itself at most 100 units long.
   */
  lemma SignupStoresValidCredentials(db: Db, authData: Payload, z: Recognisers, hash: string -> string,
                                     newUserId: UserId, fault: Option<DbError>, signIn: SignIn)
    ensures var r := Signup(db, authData, z, hash, newUserId, fault, signIn);
      forall id :: id in r.db.users && id !in db.users ==>
        && authData.FormData?
        && var email := Field(authData.entries, "email");
        && var password := Field(authData.entries, "password");
        && email.Str? && r.db.users[id].email == email.s
        && z.isEmail(email.s) && Utf16Length(email.s) <= MaxEmailLength
        && password.Str? && Utf16Length(password.s) <= MaxPasswordLength
        && r.db.users[id].hashedPassword == hash(password.s)
  {
  }

  /**
   * `login` hands the submitted form to the sign-in provider without reading
   * it: for any two forms, the action answers the same given the same sign-in
   * outcome.
   */
  lemma LoginIgnoresFormContents(e1: map<string, FormValue>, e2: map<string, FormValue>, signIn: SignIn)
    ensures Login(FormData(e1), signIn) == Login(FormData(e2), signIn)
  {
  }

  /**
   * `signup` as its error handling evidently intends: every failure to store
   * the user is reported, so sign-in is only attempted for a stored user.
   */
  function SignupReportingAllErrors(db: Db, authData: Payload, z: Recognisers, hash: string -> string,
                                    newUserId: UserId, fault: Option<DbError>, signIn: SignIn): (r: SignupReply)
    ensures r.calledSignIn ==> newUserId !in db.users && newUserId in r.db.users
    ensures !r.calledSignIn ==> r.db == db && r.outcome.Message?
    ensures authData.NotFormData? ==> r == SignupReply(Message("Invalid form data"), db, false)
    ensures authData.FormData? ==>
      var c := ValidateAuth(RawAuth(Field(authData.entries, "email"), Field(authData.entries, "password")), z);
      && (c.Failure? ==> r == SignupReply(Message("Invalid form data"), db, false))
      && (c.Success? ==>
            var created := CreateUser(db, newUserId, c.value.email, hash(c.value.password), fault);
            && (created == Failure(KnownRequest(UniqueViolation)) ==> r == SignupReply(Message("Email already exists"), db, false))
            && ((created.Failure? && created != Failure(KnownRequest(UniqueViolation))) ==>
                  r == SignupReply(Message("Failed to sign up"), db, false))
            && (created.Success? ==>
                  r.calledSignIn && r.db == created.value && (r.outcome == Done <==> signIn.SignInReturned?)))
  {
    if authData.NotFormData? then SignupReply(Message("Invalid form data"), db, false)
    else
      var raw := RawAuth(Field(authData.entries, "email"), Field(authData.entries, "password"));
      var c := ValidateAuth(raw, z);
      if c.Failure? then SignupReply(Message("Invalid form data"), db, false)
      else
        var created := CreateUser(db, newUserId, c.value.email, hash(c.value.password), fault);
        if created.Failure? && created.error == KnownRequest(UniqueViolation) then
          SignupReply(Message("Email already exists"), db, false)
        else if created.Failure? then
          SignupReply(Message("Failed to sign up"), db, false)
        else
          SignupReply(if signIn.SignInReturned? then Done else Thrown, created.value, true)
  }

  /** The correction changes only the unclassified-error case; everywhere else the two agree. */
  lemma SignupCorrectionIsLocal(db: Db, authData: Payload, z: Recognisers, hash: string -> string,
                                newUserId: UserId, fault: Option<DbError>, signIn: SignIn)
    requires fault != Some(OtherFailure)
    ensures SignupReportingAllErrors(db, authData, z, hash, newUserId, fault, signIn)
         == Signup(db, authData, z, hash, newUserId, fault, signIn)
  {
  }
}
