/**
 * The database behind the server actions, reduced to the two tables the
 * actions touch and the single-row operations they issue. Each write either
 * succeeds or fails with the error the database client would raise; a fault
 * the model cannot predict (a lost connection, a timeout) is supplied by the
 * caller as `fault`.
 */
module Persistence {
  import opened Wrappers
  import opened Validations

  type UserId = string
  type PetId = string

  datatype User = User(id: UserId, email: string, hashedPassword: string, hasAccess: bool)

  datatype Pet = Pet(id: PetId, details: PetEssentials, userId: UserId)

  datatype Db = Db(users: map<UserId, User>, pets: map<PetId, Pet>)

  /**
   * A database error: one the client classifies with a code
   * (`PrismaClientKnownRequestError`), or any other failure.
   */
  datatype DbError = KnownRequest(code: string) | OtherFailure

  /** The client's code for a unique-constraint violation. */
  const UniqueViolation := "P2002"
  /** The client's code for a write that needs a record that does not exist. */
  const RecordNotFound := "P2025"

  /**
   * The schema's guarantees: rows are keyed by their id, e-mail addresses are
   * unique, and every pet belongs to an existing user.
   */
  ghost predicate Valid(db: Db)
  {
    && (forall u :: u in db.users ==> db.users[u].id == u)
    && (forall u, v :: u in db.users && v in db.users && db.users[u].email == db.users[v].email ==> u == v)
    && (forall p :: p in db.pets ==> db.pets[p].id == p && db.pets[p].userId in db.users)
  }

  predicate EmailTaken(db: Db, email: string)
  {
    exists u :: u in db.users && db.users[u].email == email
  }

  /** `getPetById`: the pet with that id, if there is one. */
  function GetPetById(db: Db, id: PetId): (r: Option<Pet>)
    ensures r.Some? <==> id in db.pets
    ensures r.Some? ==> r.value == db.pets[id]
  {
    if id in db.pets then Some(db.pets[id]) else None
  }

  /** `prisma.user.create`: a new user without access, unless the id or e-mail is taken. */
  function CreateUser(db: Db, id: UserId, email: string, hashedPassword: string, fault: Option<DbError>): (r: Result<Db, DbError>)
    ensures r.Success? <==> fault.None? && id !in db.users && !EmailTaken(db, email)
    ensures r.Failure? && fault.None? ==> r.error == KnownRequest(UniqueViolation)
    ensures r.Failure? && fault.Some? ==> r.error == fault.value
    ensures r.Success? ==>
      && id !in db.users && !EmailTaken(db, email)
      && r.value.pets == db.pets
      && r.value.users.Keys == db.users.Keys + {id}
      && (forall u :: u in db.users ==> r.value.users[u] == db.users[u])
      && r.value.users[id] == User(id, email, hashedPassword, false)
  {
    if fault.Some? then Failure(fault.value)
    else if id in db.users || EmailTaken(db, email) then Failure(KnownRequest(UniqueViolation))
    else Success(db.(users := db.users[id := User(id, email, hashedPassword, false)]))
  }

  /** `prisma.pet.create`, connecting the new pet to its owner. */
  function CreatePet(db: Db, id: PetId, details: PetEssentials, owner: UserId, fault: Option<DbError>): (r: Result<Db, DbError>)
    ensures r.Success? <==> fault.None? && id !in db.pets && owner in db.users
    ensures r.Success? ==>
      && r.value.users == db.users
      && r.value.pets.Keys == db.pets.Keys + {id}
      && (forall p :: p in db.pets ==> r.value.pets[p] == db.pets[p])
      && r.value.pets[id] == Pet(id, details, owner)
  {
    if fault.Some? then Failure(fault.value)
    else if id in db.pets then Failure(KnownRequest(UniqueViolation))
    else if owner !in db.users then Failure(KnownRequest(RecordNotFound))
    else Success(db.(pets := db.pets[id := Pet(id, details, owner)]))
  }

  /** `prisma.pet.update`: overwrites the form fields of one pet. */
  function UpdatePet(db: Db, id: PetId, details: PetEssentials, fault: Option<DbError>): (r: Result<Db, DbError>)
    ensures r.Success? <==> fault.None? && id in db.pets
    ensures r.Success? ==>
      && r.value.users == db.users
      && r.value.pets.Keys == db.pets.Keys
      && (forall p :: p in db.pets && p != id ==> r.value.pets[p] == db.pets[p])
      && r.value.pets[id] == db.pets[id].(details := details)
  {
    if fault.Some? then Failure(fault.value)
    else if id !in db.pets then Failure(KnownRequest(RecordNotFound))
    else Success(db.(pets := db.pets[id := db.pets[id].(details := details)]))
  }

  /** `prisma.pet.delete`: removes one pet. */
  function DeletePet(db: Db, id: PetId, fault: Option<DbError>): (r: Result<Db, DbError>)
    ensures r.Success? <==> fault.None? && id in db.pets
    ensures r.Success? ==>
      && r.value.users == db.users
      && r.value.pets.Keys == db.pets.Keys - {id}
      && (forall p :: p in r.value.pets ==> r.value.pets[p] == db.pets[p])
  {
    if fault.Some? then Failure(fault.value)
    else if id !in db.pets then Failure(KnownRequest(RecordNotFound))
    else Success(db.(pets := db.pets - {id}))
  }
}
