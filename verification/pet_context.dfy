/**
 * The client-side pet state of src/contexts/pet-context-provider.tsx: the
 * optimistic list reducer, the derived selection and count, and the handlers
 * that apply an optimistic change and then report the server's answer. The
 * temporary id of an optimistically added pet (a random number in the
 * application) is supplied by the caller, and the server's reply is an input.
 */
module PetContext {
  import opened Wrappers
  import opened Validations
  import opened Persistence
  import opened Sequences
  import Actions

  /** A pet as the client holds it; an optimistically added one has no owner yet. */
  datatype ListPet = ListPet(id: PetId, details: PetEssentials, userId: Option<UserId>)

  /** The client's copy of a stored pet. */
  function FromStored(p: Pet): ListPet
  {
    ListPet(p.id, p.details, Some(p.userId))
  }

  /** The messages the reducer understands, plus anything else. */
  datatype PetAction =
    | Add(payload: PetEssentials, tempId: PetId)
    | Edit(id: PetId, editedPet: PetEssentials)
    | Delete(id: PetId)
    | Unknown

  /** `state.map(pet => pet.id === id ? { ...pet, ...editedPet } : pet)`. */
  function EditPets(s: seq<ListPet>, id: PetId, edited: PetEssentials): (r: seq<ListPet>)
    ensures |r| == |s|
    ensures forall i :: 0 <= i < |s| ==> r[i].id == s[i].id && r[i].userId == s[i].userId
    ensures forall i :: 0 <= i < |s| && s[i].id != id ==> r[i] == s[i]
    ensures forall i :: 0 <= i < |s| && s[i].id == id ==> r[i].details == edited
  {
    if s == [] then []
    else [if s[0].id == id then s[0].(details := edited) else s[0]] + EditPets(s[1..], id, edited)
  }

  /** `state.filter(pet => pet.id !== id)`. */
  function WithoutPet(s: seq<ListPet>, id: PetId): (r: seq<ListPet>)
    ensures IsSubsequence(r, s)
    ensures forall p :: p in r ==> p.id != id
    ensures forall p: ListPet :: p.id != id ==> multiset(r)[p] == multiset(s)[p]
    ensures |r| == |s| <==> !HasPet(s, id)
  {
    var keep := (p: ListPet) => p.id != id;
    FilterIsSubsequence(s, keep);
    FilterCountsAll(s, keep);
    FilterKeepsAll(s, keep);
    Filter(s, keep)
  }

  predicate HasPet(s: seq<ListPet>, id: PetId)
  {
    exists i :: 0 <= i < |s| && s[i].id == id
  }

  /** The `useOptimistic` update function. */
  function Reduce(state: seq<ListPet>, action: PetAction): (r: seq<ListPet>)
    ensures action.Add? ==>
      && |r| == |state| + 1
      && r[..|state|] == state
      && r[|state|] == ListPet(action.tempId, action.payload, None)
    ensures action.Edit? ==>
      && |r| == |state|
      && (forall i :: 0 <= i < |state| ==> r[i].id == state[i].id && r[i].userId == state[i].userId)
      && (forall i :: 0 <= i < |state| && state[i].id != action.id ==> r[i] == state[i])
      && (forall i :: 0 <= i < |state| && state[i].id == action.id ==> r[i].details == action.editedPet)
    ensures action.Delete? ==>
      && IsSubsequence(r, state)
      && (forall p :: p in r ==> p.id != action.id)
      && (forall p: ListPet :: p.id != action.id ==> multiset(r)[p] == multiset(state)[p])
    ensures action.Unknown? ==> r == state
  {
    match action
    case Add(payload, tempId) => state + [ListPet(tempId, payload, None)]
    case Edit(id, edited) => EditPets(state, id, edited)
    case Delete(id) => WithoutPet(state, id)
    case Unknown => state
  }

  /** Editing or deleting a pet the list does not hold leaves the list as it was. */
  lemma AbsentIdLeavesListUnchanged(state: seq<ListPet>, action: PetAction)
    requires action.Edit? || action.Delete?
    requires !HasPet(state, action.id)
    ensures Reduce(state, action) == state
  {
    if action.Delete? {
      FilterKeepsAll(state, (p: ListPet) => p.id != action.id);
    }
  }

  /** The first pet with the given id, as `Array.prototype.find` returns it. */
  function FirstIndexOf(pets: seq<ListPet>, id: PetId): (k: nat)
    ensures k <= |pets|
    ensures forall j :: 0 <= j < k ==> pets[j].id != id
    ensures k < |pets| ==> pets[k].id == id
  {
    if pets == [] then 0
    else if pets[0].id == id then 0
    else 1 + FirstIndexOf(pets[1..], id)
  }

  /** The context's state: the optimistic list and the selected pet's id (`null` is None). */
  datatype State = State(pets: seq<ListPet>, selectedPetId: Option<PetId>)

  /** `selectedPet`: the first listed pet whose id is the selected one; none when nothing is selected. */
  function SelectedPet(s: State): (r: Option<ListPet>)
    ensures r.None? <==> s.selectedPetId.None? || !HasPet(s.pets, s.selectedPetId.value)
    ensures r.Some? ==> Some(r.value.id) == s.selectedPetId
    ensures r.Some? ==> exists k :: (0 <= k < |s.pets| && s.pets[k] == r.value
      && forall j :: 0 <= j < k ==> s.pets[j].id != r.value.id)
  {
    if s.selectedPetId.None? then None
    else
      var k := FirstIndexOf(s.pets, s.selectedPetId.value);
      if k < |s.pets| then Some(s.pets[k]) else None
  }

  /**
   * The state the provider starts from: the server's pets in the server's
   * order, each still owned, and nothing selected.
   */
  function InitialState(data: seq<Pet>): (s: State)
    ensures NumberOfPets(s) == |data|
    ensures s.selectedPetId.None? && SelectedPet(s).None?
    ensures forall i :: 0 <= i < |data| ==>
      && s.pets[i].id == data[i].id
      && s.pets[i].details == data[i].details
      && s.pets[i].userId == Some(data[i].userId)
  {
    State(seq(|data|, i requires 0 <= i < |data| => FromStored(data[i])), None)
  }

  /** `numberOfPets`: the length of the optimistic list; a selected pet means it is not zero. */
  function NumberOfPets(s: State): (n: nat)
    ensures n == 0 <==> s.pets == []
    ensures SelectedPet(s).Some? ==> n > 0
  {
    |s.pets|
  }

  /**
   * How the count moves: up by one on add, unchanged on edit and on unknown
   * messages, and down on delete exactly when a pet with that id was listed.
   */
  lemma NumberOfPetsAfter(s: State, action: PetAction)
    ensures var n := NumberOfPets(s.(pets := Reduce(s.pets, action)));
      && (action.Add? ==> n == NumberOfPets(s) + 1)
      && (action.Edit? || action.Unknown? ==> n == NumberOfPets(s))
      && (action.Delete? ==> (n < NumberOfPets(s) <==> HasPet(s.pets, action.id)))
  {
  }

  /** What a handler leaves behind: the new state and the warning toast, if any. */
  datatype Handled = Handled(state: State, warning: Option<string>)

  /** The toast shown for a server reply: its message, if it carries one. */
  function Warning(reply: Actions.Outcome): (w: Option<string>)
    ensures w.Some? <==> reply.Message?
  {
    if reply.Message? then Some(reply.text) else None
  }

  /** `handleAddPet`: the optimistic add stays whatever the server answers; a failure only raises a toast. */
  function HandleAddPet(s: State, newPet: PetEssentials, tempId: PetId, reply: Actions.Outcome): (r: Handled)
    ensures r.state.selectedPetId == s.selectedPetId
    ensures r.state.pets == Reduce(s.pets, Add(newPet, tempId))
    ensures r.warning.Some? <==> reply.Message?
    ensures reply.Message? ==> r.warning == Some(reply.text)
  {
    Handled(State(Reduce(s.pets, Add(newPet, tempId)), s.selectedPetId), Warning(reply))
  }

  /**
   * A refused add is not rolled back: the optimistic pet stays at the end of
   * the list and the server's message is shown.
   */
  lemma FailedAddIsNotRolledBack(s: State, newPet: PetEssentials, tempId: PetId, message: string)
    ensures var r := HandleAddPet(s, newPet, tempId, Actions.Message(message));
      && r.warning == Some(message)
      && NumberOfPets(r.state) == NumberOfPets(s) + 1
      && r.state.pets[..|s.pets|] == s.pets
      && r.state.pets[|s.pets|] == ListPet(tempId, newPet, None)
  {
  }

  /** `handleEditPet`: the optimistic edit stays whatever the server answers; a failure only raises a toast. */
  function HandleEditPet(s: State, petId: PetId, editedPet: PetEssentials, reply: Actions.Outcome): (r: Handled)
    ensures r.state.selectedPetId == s.selectedPetId
    ensures r.state.pets == Reduce(s.pets, Edit(petId, editedPet))
    ensures r.warning.Some? <==> reply.Message?
    ensures reply.Message? ==> r.warning == Some(reply.text)
  {
    Handled(State(Reduce(s.pets, Edit(petId, editedPet)), s.selectedPetId), Warning(reply))
  }

  /**
   * `handleCheckoutPet`: delete optimistically, wait for the server, then
   * clear the selection. A redirect or an error escaping the server action
   * ends the handler before the selection is cleared.
   */
  function HandleCheckoutPet(s: State, id: PetId, reply: Actions.Outcome): (r: State)
    ensures r.pets == Reduce(s.pets, Delete(id))
    ensures !(reply.Redirect? || reply.Thrown?) ==> r.selectedPetId.None? && SelectedPet(r).None?
    ensures reply.Redirect? || reply.Thrown? ==> r.selectedPetId == s.selectedPetId
  {
    var pets := Reduce(s.pets, Delete(id));
    if reply.Redirect? || reply.Thrown? then State(pets, s.selectedPetId) else State(pets, None)
  }

  /**
   * Checking out a pet whose lookup faults on the server keeps the selection:
   * the error escapes `deletePet`, so the handler never clears it. A refusal
   * with a message is silent and still clears it.
   */
  lemma CheckoutSelectionAfterDelete(s: State, id: PetId, db: Db, user: Actions.SessionUser, petId: RawField,
                                     z: Recognisers, lookupFault: bool, fault: Option<DbError>)
    ensures var r := Actions.DeletePetAction(db, Some(user), petId, z, lookupFault, fault);
      var after := HandleCheckoutPet(s, id, r.outcome);
      && (ValidatePetId(petId, z).Some? && lookupFault ==> after.selectedPetId == s.selectedPetId)
      && (!lookupFault ==> after.selectedPetId.None?)
  {
  }

  /** `handleChangeSelectPetId`. */
  function HandleChangeSelectPetId(s: State, id: PetId): (r: State)
    ensures r.pets == s.pets && r.selectedPetId == Some(id)
  {
    s.(selectedPetId := Some(id))
  }
}
