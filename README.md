# Monexus: expense splits, balance writes and group creation

Monexus is a mobile expense-sharing client. Nearly all of it is screens and
calls to a hosted document database. This project models the two places where
it has logic of its own:

- **`FirebaseUtils`** (`firebase_utils.dfy`) models `utils/firebaseUtils.js`:
  - the three split helpers, which turn an amount and a participant list into
    `{ userId, contribution }` records;
  - the balance writes that `addExpense` queues in its write batch. Each
    participant sets `users/{participant}/balances/{createdBy}` to their
    contribution. The batch is modelled as a map keyed by
    `(participant, createdBy)`;
  - the pure part of `fetchContacts`: keep the device contacts that have a
    phone number, normalise them, and tag them with `hasApp`.
- **`CreateGroup`** (`create_group.dfy`) models `screens/CreateGroup.js`. The
  class `CreateGroupScreen` holds the screen's state: the selected contacts,
  the error message, the email field and its visibility, the group name and
  image, and the loaded contact list. Its methods are the event handlers. The
  list updates of toggle and remove are functions with lemmas (`ToggleTwice`,
  `WithoutIdAppend`). The entry that add-by-email appends, create-group
  validation and the `members` list are functions with contracts of their
  own; the append itself happens inside `HandleAddByEmail`. It also
  models the order in which contacts are listed after loading.
- **`Wrappers`** (`wrappers.dfy`) holds `Option` and `Result`.

Amounts are Dafny `real`, which is exact. The sum facts below are facts about
the formulas, not about JavaScript floating point.

Inputs that the source obtains from outside the code are parameters:

- `FetchContacts` takes:
  - whether the contacts permission was granted;
  - the address book;
  - the user document, or `None` when it does not exist;
  - the phone numbers of the friend documents the query returns.
- `HandleCreateGroup` takes `saved`, which says whether the `createGroup`
  write succeeded.
- `localeCompare` is a comparison function `nameCmp`. The sort requires only
  that it is total and transitive.

The code has no netting, settlement or cross-group summary, so none is
modelled. The balance write overwrites the previous amount rather than adding
to it. An expense creator who is also a participant gets a balance entry
against themselves. An unequal split by amount or by percentage is never
checked against the total. The model follows the code on all of these, and
lemmas state each one.

## Model

| member | source | states |
|---|---|---|
| FirebaseUtils.SplitExpenseEqually | utils/firebaseUtils.js:240-244 | one record per participant, in input order and with that participant's id; each contribution times the participant count is the amount; an empty list gives no records |
| FirebaseUtils.SplitExpenseEquallyTotal | utils/firebaseUtils.js:241-244 | for a non-empty participant list the equal shares add up to the amount exactly |
| FirebaseUtils.SplitExpenseEquallyUniform | utils/firebaseUtils.js:242-243 | every record of an equal split carries the same contribution |
| FirebaseUtils.SplitExpenseUnequallyByAmount | utils/firebaseUtils.js:246-249 | each `[userId, contribution]` entry passes through unchanged, same length and order |
| FirebaseUtils.SplitExpenseUnequallyByAmountTotal | utils/firebaseUtils.js:247-249 | the records add up to the entries' sum whatever the amount is; the amount is not consulted |
| FirebaseUtils.SplitExpenseUnequallyByAmountUnchecked | utils/firebaseUtils.js:247-249 | entries of 40 and 50 against an amount of 100 go through and total 90: nothing is rejected |
| FirebaseUtils.SplitExpenseUnequallyByPercentage | utils/firebaseUtils.js:251-257 | each entry gives that user `amount * percentage / 100`; same length and order |
| FirebaseUtils.SplitExpenseUnequallyByPercentageTotal | utils/firebaseUtils.js:252-257 | the contributions add up to `amount * (sum of percentages) / 100` |
| FirebaseUtils.SplitExpenseUnequallyByPercentageReconciles | utils/firebaseUtils.js:252-257 | for a non-zero amount the contributions add up to the amount if and only if the percentages add up to 100 |
| FirebaseUtils.WriteBalances | utils/firebaseUtils.js:84-87 | the batch fold: no existing key is dropped, and the key of the last participant holds that participant's contribution |
| FirebaseUtils.WriteBalancesKeys | utils/firebaseUtils.js:84-87 | after the writes the keys are the old keys plus `(participant, createdBy)` for each participant |
| FirebaseUtils.WriteBalancesOtherKeys | utils/firebaseUtils.js:84-87 | a key that no participant writes keeps its amount |
| FirebaseUtils.WriteBalancesLastWins | utils/firebaseUtils.js:84-87 | the amount under a participant's key is the contribution of the last participant with that user id |
| FirebaseUtils.WriteBalancesOverwrite | utils/firebaseUtils.js:85-86 | the amount left under a written key does not depend on the amount before: writes overwrite, they do not accumulate |
| FirebaseUtils.WriteBalancesSelfEntry | utils/firebaseUtils.js:84-86 | a creator who is also a participant gets an entry `(createdBy, createdBy)` |
| FirebaseUtils.AddExpenseBalances | utils/firebaseUtils.js:83-87 | the loop over participants produces the fold `WriteBalances`, with its keys, last-write-wins amounts and untouched other keys |
| FirebaseUtils.ToContact | utils/firebaseUtils.js:145-150 | id kept; the number of the first phone entry (missing when that entry has none); name defaults to "Unknown" when missing or empty; image is the contact's when available, otherwise the placeholder; not tagged |
| FirebaseUtils.NormaliseContacts | utils/firebaseUtils.js:143-150 | every result comes from a device contact with a phone number and every such contact appears; results are untagged and have a non-empty name |
| FirebaseUtils.NormaliseContactsAppend | utils/firebaseUtils.js:143-144 | normalisation distributes over concatenation, so it keeps the original order |
| FirebaseUtils.TagHasApp | utils/firebaseUtils.js:169-174 | every contact is tagged with the boolean "its number is among the friends' numbers": true exactly when the contact's number is among the friends' numbers; every other field is unchanged |
| FirebaseUtils.TagNoApp | utils/firebaseUtils.js:161-163 | every contact gets `hasApp` false, nothing else changes |
| FirebaseUtils.FetchContacts | utils/firebaseUtils.js:128-179 | no permission gives no contacts; a missing user document gives the untagged normalised contacts; no friends tags all false; otherwise each contact gets `hasApp` true when its number is among the friends' numbers and false when it is not |
| FirebaseUtils.FetchContactsMissingNumberMatches | utils/firebaseUtils.js:148-174 | for every address book, when the user has friends and some friend document has no phone number, every contact without a phone number gets `hasApp` true |
| FirebaseUtils.FetchContactsMissingNumberExample | utils/firebaseUtils.js:145-174 | an example: a single device contact whose only phone entry has no number becomes a contact without a number, tagged `hasApp` true against friend numbers `[None]` |
| FirebaseUtils.FetchContactsUniformlyTagged | utils/firebaseUtils.js:155-174 | either all contacts returned are tagged or none is |
| CreateGroup.WithoutId | screens/CreateGroup.js:138-140 | no entry with the id remains; every other entry remains; nothing is added; an absent id leaves the list unchanged |
| CreateGroup.WithoutIdAppend | screens/CreateGroup.js:139 | removal distributes over concatenation, so the remaining entries keep their order |
| CreateGroup.Toggle | screens/CreateGroup.js:101-107 | the id is selected afterwards if and only if it was not before; an unselected contact is appended at the end; a selected id loses all its entries and the result is exactly `WithoutId`, so the others stay in their order |
| CreateGroup.EmailContact | screens/CreateGroup.js:125-130 | the entry added by email has the email as id and name, the default icon, no phone number and `hasApp` false, so it cannot be toggled from the list |
| CreateGroup.ToggleTwice | screens/CreateGroup.js:102-106 | toggling a not-yet-selected contact twice restores the selection |
| CreateGroup.MemberIds | screens/CreateGroup.js:86 | `members` is the creator followed by the selected ids in selection order |
| CreateGroup.ValidateGroup | screens/CreateGroup.js:69-88 | an empty name fails with "Please enter a group name" before the selection is checked; an empty selection fails with "Please select at least one contact"; otherwise the group data carries the name, the image, `createdBy` and the members |
| CreateGroup.CompareContacts | screens/CreateGroup.js:31-36 | contacts with equal `hasApp` compare by name; otherwise the result is non-zero and negative exactly when the first contact has the app |
| CreateGroup.BeforeTotal | screens/CreateGroup.js:31-36 | on contacts tagged alike the loading comparator is total |
| CreateGroup.BeforeTransitive | screens/CreateGroup.js:31-36 | on contacts tagged alike the loading comparator is transitive |
| CreateGroup.InsertContactSorted | screens/CreateGroup.js:31-36 | inserting a contact into a list sorted by the comparator keeps it sorted |
| CreateGroup.SortContacts | screens/CreateGroup.js:31-36 | the sorted list is a permutation of the fetched contacts, ordered by the comparator |
| CreateGroup.SortedContactsOrder | screens/CreateGroup.js:31-36 | in a sorted list every contact with the app precedes every one without it, and contacts alike in `hasApp` are in name order |
| CreateGroup.CreateGroupScreen.constructor | screens/CreateGroup.js:13-21 | the initial state: empty name, default image, nothing selected, no error, empty and hidden email field |
| CreateGroup.CreateGroupScreen.SetGroupName | screens/CreateGroup.js:211-212 | the group name field takes the typed text |
| CreateGroup.CreateGroupScreen.SetEmail | screens/CreateGroup.js:241-242 | the email field takes the typed text |
| CreateGroup.CreateGroupScreen.ToggleEmailInput | screens/CreateGroup.js:227-229 | the email field's visibility flips |
| CreateGroup.CreateGroupScreen.LoadContacts | screens/CreateGroup.js:27-43 | the listed contacts are a permutation of what fetchContacts returns, app users first and names in order within each group |
| CreateGroup.CreateGroupScreen.ToggleContactSelection | screens/CreateGroup.js:101-107 | the selection becomes `Toggle` of the old one; the contact's id is selected afterwards if and only if it was not before |
| CreateGroup.CreateGroupScreen.PressContact | screens/CreateGroup.js:148 | pressing a contact with the app toggles it; pressing any other contact leaves the selection unchanged |
| CreateGroup.CreateGroupScreen.RemoveContact | screens/CreateGroup.js:138-140 | the selection loses every entry with the id and nothing else; an absent id changes nothing |
| CreateGroup.CreateGroupScreen.HandleAddByEmail | screens/CreateGroup.js:119-136 | an empty email sets "Please enter a valid email address" and changes nothing else; otherwise an entry with id and name equal to the email and `hasApp` false is appended even if already selected, the field is cleared and hidden, and the error is left as it was |
| CreateGroup.CreateGroupScreen.HandleCreateGroup | screens/CreateGroup.js:69-99 | the validation errors are set and no group is built; otherwise the error is cleared and the group data is returned, and a failed write sets "Failed to create group. Please try again." |

## Left out

- Every Firestore, Storage and Auth call is left out: `addDoc`, `getDoc`, `getDocs`, `writeBatch` and its commit, and the other helpers of `utils/firebaseUtils.js`. They are network I/O against a library outside this code. Their results enter the model as parameters.
- `addExpense` is modelled only for its balance writes. The expense document, the creator's activity entry and the server timestamps are database I/O. Each balance document is reduced to its `amount` field: the merge keeps any other fields, and those are not modelled.
- `uploadImage` and `pickImage` are left out. They are asynchronous file, network and image-picker I/O.
- The contacts permission request and the address-book read are platform APIs. Their outcome is a parameter. The `catch` of `fetchContacts` is modelled only for a refused permission, which yields no contacts.
- The friend query is a parameter: the phone numbers of the friend documents it returns. Its `in` filter limits are not modelled.
- `LoadContacts` does not model its `catch` branch, because `fetchContacts` already catches every error and returns a list. The loading flag is not modelled either.
- `ToggleContactSelection` omits the 300 ms debounce: the toggle happens at once. In the source only the last press of a burst within 300 ms takes effect, so two quick presses toggle once; `ToggleTwice` describes presses more than 300 ms apart.
- `SortContacts` replaces `localeCompare` with a comparison that is assumed total and transitive. It is modelled as a stable insertion sort. Stability itself is not proved.
- `SortContacts` requires contacts that are all tagged or all untagged. With a mix of untagged and `hasApp: false` contacts the source's comparator is inconsistent, and the order JavaScript produces is then unspecified. `fetchContacts` never returns such a mix (`FetchContactsUniformlyTagged`).
- NormaliseContacts: does not promise that every contact has a phone number, because the source takes the number of the first phone entry without checking that it has one.
- Split entries are a sequence of pairs. The key uniqueness and key order of `Object.entries` are not modelled.
- Amounts use exact `real` arithmetic. Binary floating-point rounding is not modelled.
- `HandleCreateGroup` does not model the navigation back or the loading indicator. These are UI effects.
- `HandleAddByEmail` does not model the alert it shows after adding an email (screens/CreateGroup.js:135). It is a UI effect.
- `handleInvite` (screens/CreateGroup.js:109-117) is not modelled: it only opens the share sheet, a UI effect.
- The other screens, the navigation, the user context and `firebase/` are not part of this model. They are UI, persistence wiring, or figures that are hard-coded or random.
