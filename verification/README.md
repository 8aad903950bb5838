# Pet-care app: a Dafny model of its rules

This project models the parts of the pet-tracking web application that hold
actual logic. Everything around them is framework and service glue, and is
left out.

- **Validation** (`Validations`): the pet form schema and the credential
  schema. The pet form schema trims the names, bounds the lengths, accepts
  ages 1 to 999 and puts in a placeholder image. The schema library's URL,
  e-mail and CUID recognisers are uninterpreted predicates, bundled in
  `Recognisers`.
- **Server actions** (`Actions`, over `Persistence`):
  - `login` and `signup`, with their error classification.
  - `addPet`, `editPet` and `deletePet`. Each runs its gates in a fixed
    order: authenticate, validate, look up and authorise, then write. The
    database is an immutable `Db` value holding users and pets.
  - The outside world comes in as parameters: the session, the sign-in
    result, the password hash, new ids, a fault of the pet lookup in
    `editPet` and `deletePet` (which escapes the action, since the lookup runs
    outside any `try`), and a fault of each write.
- **Optimistic pet list** (`PetContext`): the reducer given to
  `useOptimistic`, the derived `selectedPet` and `numberOfPets`, and the
  handlers. The add and edit handlers apply their change, then show the
  server's message as a warning toast, and do not roll the change back. The
  checkout handler deletes optimistically and ignores the server's message: a
  refused checkout is silent and still clears the selection. Only an error
  escaping `deletePet` leaves the selection in place. Changing the selection
  makes no server call.
- **Search** (`PetList`): a case-insensitive filter that keeps list order and
  matches on a substring of the pet's name.

Shared pieces:

- `Text`: JavaScript's `trim` with its exact whitespace set, `length` in
  UTF-16 code units, ASCII `toLowerCase` and `includes`.
- `Sequences`: an order-preserving `filter`.
- `Wrappers`: `Option` and `Result`.

Two behaviours of the code are easy to miss, and the model keeps both:

- `signup` reports only the database errors that the client classifies with
  a code. Any other error is swallowed, and sign-in runs for a user that was
  never stored (see Findings).
- The image URL is trimmed before the URL check, and only the literal `""`
  counts as empty. So `"  "` is refused and `" https://x "` is stored
  trimmed.

## Model

| member | source | states |
|---|---|---|
| Text.Trim | src/lib/validations.ts:8-12 | Trimming never makes a string longer. Its full characterisation is stated by `Text.TrimSpec`. |
| Text.TrimSpec | src/lib/validations.ts:8-12 | The trimmed value is the part of the input between a whitespace prefix and a whitespace suffix. It neither starts nor ends with whitespace, and it is empty exactly when the input is all whitespace. |
| Text.TrimEmptyIffWhitespace | src/lib/validations.ts:18-21 | A string trims to "" if and only if it is all whitespace. |
| Text.LowerChar | src/components/pet-list.tsx:15 | An upper-case ASCII letter maps to its lower-case letter, 32 code points on. Every other character is unchanged. |
| Text.Lower | src/components/pet-list.tsx:15 | Lower-casing keeps the length and maps each character on its own. |
| Text.LowerIdempotent | src/components/pet-list.tsx:15 | Lower-casing a lower-cased string changes nothing. |
| Text.Includes | src/components/pet-list.tsx:15 | `includes` holds exactly when the query occurs in the string at some position. |
| Text.IncludesEmpty | src/contexts/search-context-provider.tsx:18 | Every string includes the empty query. |
| Sequences.Filter | src/components/pet-list.tsx:14-16 | The filtered sequence is no longer than the input, and each of its elements is in the input and satisfies the test. |
| Sequences.FilterIsSubsequence | src/components/pet-list.tsx:14-16 | The filtered sequence keeps the input's order: it is a subsequence of the input. |
| Sequences.FilterCounts | src/components/pet-list.tsx:14-16 | An element that passes the test occurs as often as in the input, and any other element does not occur. |
| Sequences.FilterKeepsAll | src/contexts/pet-context-provider.tsx:39-40 | Filtering keeps the full length exactly when every element passes, and then it returns the input itself. |
| Text.Utf16Length | src/lib/validations.ts:11-12 | The length the bounds check uses lies between the number of code points and twice that. It is zero only for the empty string. |
| Text.Utf16LengthOfChar | src/lib/validations.ts:11-12 | A character above U+FFFF counts two units against the length limits, and any other character counts one. |
| Text.Utf16LengthAppend | src/lib/validations.ts:11-12 | The length of a concatenation is the sum of the parts' lengths. So a string's length is the sum of its characters' units. |
| Validations.WithDefaultImage | src/lib/validations.ts:32-35 | The transform changes only the image URL. An empty URL becomes the placeholder, a non-empty URL is kept, and so the result's URL is never empty. |
| Validations.ValidatePet | src/lib/validations.ts:6-35 | A pet is accepted exactly when all five field rules hold. On refusal the failing fields are listed: all of them and only them. An accepted pet has trimmed names of length 1 to 100, an age from 1 to 999, trimmed notes of at most 1000, and a non-empty image URL. An empty URL gives the placeholder. A URL that does not trim to "" is stored trimmed, and satisfies the URL predicate. A payload that is not an object is refused as such. |
| Validations.AcceptedNameIsTrimmed | src/lib/validations.ts:8-17 | An accepted name is non-empty and has no whitespace at either end. A whitespace-only name is refused. |
| Validations.WhitespaceImageUrlRejected | src/lib/validations.ts:18-21 | A non-empty, whitespace-only image URL is refused with the image field listed. This assumes only that the URL predicate refuses "". |
| Validations.WhitespaceNotesBecomeEmpty | src/lib/validations.ts:27-30 | Whitespace-only notes are stored as "". |
| Validations.NoImageGetsPlaceholder | src/lib/validations.ts:6-35 | The pet Rex, owner Ann, age 3, with no image and no notes, is stored with the placeholder image. |
| Validations.ValidatePetId | src/lib/validations.ts:4 | An id is accepted exactly when it is a string the CUID predicate accepts. It is not trimmed. |
| Validations.ValidateAuth | src/lib/validations.ts:39-42 | Credentials are accepted exactly when the e-mail satisfies the e-mail predicate and has length at most 100, and the password has length at most 100. Neither is trimmed. A refusal lists exactly the failing fields. |
| Validations.EmptyPasswordAccepted | src/lib/validations.ts:41 | An empty password passes the credential schema. |
| Persistence.GetPetById | src/lib/server-utils.ts:27-35 | The lookup finds a pet exactly when its id is stored, and what it finds is the stored pet. |
| Persistence.CreateUser | src/actions/actions.ts:74-80 | The create succeeds exactly when there is no fault, the id is free and the e-mail is not taken. Without a fault, a failure carries the unique-constraint code; with one, it carries the fault. On success, exactly one user is added, without access, and nothing else changes. |
| Persistence.CreatePet | src/actions/actions.ts:112-122 | The create succeeds exactly when there is no fault, the id is free and the owner exists. It adds one pet and keeps every other row. |
| Persistence.UpdatePet | src/actions/actions.ts:162-167 | The update succeeds exactly when there is no fault and the pet exists. It rewrites only that pet's form fields. |
| Persistence.DeletePet | src/actions/actions.ts:207-211 | The delete succeeds exactly when there is no fault and the pet exists. It removes only that pet. |
| Actions.Field | src/actions/actions.ts:61 | A form field is text exactly when the key is present with a text value, and then it is that submitted text, unchanged. Anything else reaches the schema as a non-string. |
| Actions.LoginIgnoresFormContents | src/actions/actions.ts:26 | login passes the form to sign-in without reading it, so any two forms give the same reply for the same sign-in outcome. |
| Actions.Login | src/actions/actions.ts:17-46 | A payload that is not form data gives "Invalid form data" without calling sign-in. Otherwise: success redirects to the dashboard; `CredentialsSignin` gives "Invalid credentials"; any other auth error gives "Failed to sign in"; a non-auth error is rethrown. Each of these holds in both directions. |
| Actions.Signup | src/actions/actions.ts:52-94 | A payload that is not form data, or credentials the schema refuses, give "Invalid form data". Given valid credentials, the unique-constraint code gives "Email already exists" and any other classified code gives "Failed to sign up"; neither stores anything or calls sign-in. An unclassified error calls sign-in with the store unchanged. A successful create is kept and sign-in is called. Once sign-in is called, the outcome follows it. |
| Actions.SignupExistingEmail | src/actions/actions.ts:81-87 | An address that is already registered gives "Email already exists". No user is stored and sign-in is not called. |
| Actions.SignupStoresOneUser | src/actions/actions.ts:71-80 | A signup that changes the store adds exactly one user: a fresh id, the submitted e-mail, the hash of the password and no access. It then signs in. |
| Actions.SignupStoresValidCredentials | src/actions/actions.ts:61-80 | Every user that signup stores passed the credential schema: the e-mail is the submitted text, which the e-mail predicate accepts and is at most 100 units long, and the stored password is the hash of the submitted password, at most 100 units long. |
| Actions.SignupPreservesValid | src/actions/actions.ts:52-94 | Signup never stores two users with the same e-mail. |
| Actions.SignupSwallowsUnclassifiedError | src/actions/actions.ts:81-93 | An unclassified database error stores nothing, yet sign-in is still called. |
| Actions.SignupReportingAllErrors | src/actions/actions.ts:81-93 | Corrected signup: sign-in is reached exactly when a new user was stored. The unique-constraint code gives "Email already exists", and every other failure, classified or not, gives "Failed to sign up". Every path without sign-in leaves the store unchanged. |
| Actions.SignupCorrectionIsLocal | src/actions/actions.ts:81-93 | The corrected signup agrees with the code on every input except an unclassified database error. |
| Actions.AddPet | src/actions/actions.ts:98-130 | The result is a redirect to /login exactly when there is no session user, and then nothing changes. A rejected payload gives "Invalid pet data", and a failed write gives "Failed to add pet"; both hold in both directions. A write that succeeds gives no message. Every failure leaves the store unchanged. On success exactly one pet is added: the validated data, owned by the session user. |
| Actions.EditPet | src/actions/actions.ts:132-176 | The checks run in order and each holds in both directions: redirect exactly when there is no session user, then "Invalid pet data" (pet or id), then an escaping error exactly when the lookup faults, then "Pet not found", then "Unauthorized", then "Failed to edit pet" exactly when every gate passes and the write faults. When every gate passes and there is no fault, the edit is done. Failures leave the store unchanged. On success only the target's form fields change; its id and owner stay. |
| Actions.DeletePetAction | src/actions/actions.ts:178-220 | The checks run in order and each holds in both directions: redirect exactly when there is no session user, then "Invalid pet ID", then an escaping error exactly when the lookup faults, then "Pet not found", then "Unauthorized", then "Failed to delete pet" exactly when every gate passes and the write faults. When every gate passes and there is no fault, the delete is done. Failures leave the store unchanged. On success exactly the session user's target pet is removed. |
| Actions.AddPetTouchesOnlyOwnPets | src/actions/actions.ts:112-122 | Whatever addPet returns, no other user's pet is created, changed or removed, and users are unchanged. |
| Actions.EditPetTouchesOnlyOwnPets | src/actions/actions.ts:155-168 | Whatever editPet returns, no other user's pet is created, changed or removed. |
| Actions.DeletePetTouchesOnlyOwnPets | src/actions/actions.ts:200-212 | Whatever deletePet returns, no other user's pet is created, changed or removed. |
| Actions.AddPetPreservesValid | src/actions/actions.ts:98-130 | addPet keeps rows keyed by id, e-mails unique, and every pet owned by an existing user. |
| Actions.EditPetPreservesValid | src/actions/actions.ts:132-176 | editPet keeps the database consistent with its schema. |
| Actions.DeletePetPreservesValid | src/actions/actions.ts:178-220 | deletePet keeps the database consistent with its schema. |
| PetContext.InitialState | src/contexts/pet-context-provider.tsx:27-46 | The provider starts from the server's pets: same count, same order, the same ids, details and owners. The selected id starts null, so no pet is selected. |
| PetContext.EditPets | src/contexts/pet-context-provider.tsx:35-38 | The edit map keeps length, order, ids and owners. Pets with another id are untouched. Every pet with the id gets the edited fields. |
| PetContext.Reduce | src/contexts/pet-context-provider.tsx:29-45 | `add` appends one pet: the payload with the temporary id and no owner, after an unchanged prefix. `edit` is as `EditPets`. `delete` leaves an order-preserving subsequence with no pet of that id, and every other pet keeps its multiplicity. Any other message changes nothing. |
| PetContext.WithoutPet | src/contexts/pet-context-provider.tsx:39-40 | Deleting leaves an order-preserving subsequence with no pet of that id. Every other pet keeps its multiplicity, and the length stays the same exactly when no pet had the id. |
| PetContext.AbsentIdLeavesListUnchanged | src/contexts/pet-context-provider.tsx:35-40 | Editing or deleting an id not in the list leaves the list as it was. |
| PetContext.FirstIndexOf | src/contexts/pet-context-provider.tsx:49 | The search stops at the first pet with the id, or at the end when there is none. |
| PetContext.SelectedPet | src/contexts/pet-context-provider.tsx:49 | The selection is empty exactly when nothing is selected or no listed pet has the id. Otherwise it is the first listed pet with that id. |
| PetContext.NumberOfPets | src/contexts/pet-context-provider.tsx:50 | The count is zero exactly when the list is empty, and it is positive whenever a pet is selected. |
| PetContext.NumberOfPetsAfter | src/contexts/pet-context-provider.tsx:50 | The count grows by one on add. It stays the same on edit and on unknown messages. It drops on delete exactly when a pet with that id was listed. |
| PetContext.Warning | src/contexts/pet-context-provider.tsx:56-58 | A toast is shown exactly when the server replied with a message. |
| PetContext.HandleAddPet | src/contexts/pet-context-provider.tsx:53-60 | The list becomes the optimistic add whatever the server answers. The selection is kept, and the toast carries the server's message. |
| PetContext.FailedAddIsNotRolledBack | src/contexts/pet-context-provider.tsx:53-60 | After a refused add the optimistic pet is still last in the list and the message is shown. |
| PetContext.HandleEditPet | src/contexts/pet-context-provider.tsx:62-70 | The list becomes the optimistic edit whatever the server answers. The selection is kept, and the toast carries the server's message. |
| PetContext.HandleCheckoutPet | src/contexts/pet-context-provider.tsx:72-76 | The pet is deleted optimistically. Once the server call returns, the selection is cleared and no pet is selected. A redirect or an escaping error leaves the selection as it was. |
| PetContext.CheckoutSelectionAfterDelete | src/contexts/pet-context-provider.tsx:72-76 | Checking out against the model's `deletePet`: a fault in the server's lookup of a valid id escapes, so the selection stays; without a lookup fault the selection is always cleared, even when the server refuses with a message. |
| PetContext.HandleChangeSelectPetId | src/contexts/pet-context-provider.tsx:78-80 | Only the selected id changes. |
| PetList.FilteredPets | src/components/pet-list.tsx:12-18 | The result is an order-preserving subsequence of the pets and no longer. Every kept pet's lower-cased name contains the lower-cased query. Every matching pet is kept, with its multiplicity. |
| PetList.InitialQueryListsAll | src/contexts/search-context-provider.tsx:18 | With the initial empty query every pet is listed. |
| PetList.FilteredPetsIdempotent | src/components/pet-list.tsx:14-16 | Filtering the filtered list by the same query changes nothing. |
| PetList.CaseInsensitive | src/components/pet-list.tsx:15 | Lower-casing the query first does not change the result. |
| PetList.NameCaseInsensitive | src/components/pet-list.tsx:15 | Lower-casing a pet's name does not change whether it matches a query. |
| PetList.SearchExample | src/components/pet-list.tsx:14-16 | Searching "re" among Rex and Bella lists only Rex. |

## Left out

- `createCheckoutSession` (src/actions/actions.ts:224-244): a call to the
  payment gateway followed by a redirect.
- `logout`: a single call into the authentication library.
- `revalidatePath`: cache invalidation with no effect on the data.
- `checkAuth`: modelled as an optional session user; its redirect is the
  outcome `Redirect("/login")`. `getUserByEmail` and `getPetsByUserId` are not
  used by the modelled code.
- The password hash, the result of `signIn`, the ids the database assigns,
  the temporary id of an optimistic add, and unforeseeable database faults
  are parameters. The hash is salted and the temporary id is random, so
  neither is deterministic. Nothing makes temporary ids unique.
- Text.Lower: lower-cases ASCII letters only; JavaScript's `toLowerCase`
  applies the full Unicode case mapping.
- Validations.Recognisers: the schema library's URL, e-mail and CUID checks
  are uninterpreted. The model uses only the fact that the URL check refuses
  "", and only in `WhitespaceImageUrlRejected`.
- Age coercion is reduced to "an integer, or not" (`RawAge`). JavaScript's
  `Number` conversion and floating point are not modelled.
- `DEFAULT_PET_IMAGE` is defined in src/lib/constants.ts, which is not part
  of this model. `DefaultPetImage` stands for it, and only its non-emptiness
  is used.
- Schema refusals report the set of failing fields, not the library's message
  texts. The actions use only success or failure.
- `Object.fromEntries` keeps the last value of a repeated form key. The model
  gets one value per key.
- The timing of optimistic updates against server replies, and React's
  reverting of the overlay when a transition ends, are left out.
- Persistence.CreatePet: the error code for a missing owner is not observable,
  because `addPet` catches every error. Only success or failure matters.

## Findings

| source | as written | input that shows it | evidently intended | confidence | as-written member | corrected member |
|---|---|---|---|---|---|---|
| src/actions/actions.ts:81-93 | The catch block handles only errors the database client classifies. Any other error falls through, and `signIn` runs for a user that was never stored. | Valid credentials, and `prisma.user.create` fails with an unclassified error such as a lost connection. | Report "Failed to sign up" and skip sign-in. | medium; not executed | Actions.SignupSwallowsUnclassifiedError | Actions.SignupReportingAllErrors |
