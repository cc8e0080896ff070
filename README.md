# To-do list of the study-finder home screen

A Dafny model of the per-user to-do list in `components/HomeScreen.js`. The
list screen (`MainScreen`) holds the fetched projection of the signed-in user's
documents in `userData/{uid}/todoList`. It re-fetches on focus and when the
user changes. It deletes a document only after a "예" in a confirmation dialog,
and then fetches again. The creation screen (`NewTodoScreen`) holds a draft
(`textTitle`, `textDetail`). Saving goes through a confirmation, then a
non-empty check, then one write stamped with `createdAt`, then back
navigation. Discarding (the X button or the hardware back press) goes through
the same kind of confirmation and never writes.

The project has three modules:

- `TodoRecords` (`todo_records.dfy`) holds the values and the pure logic:
  documents and records, the document-to-record mapping, the `createdAt`
  ordering of a query, removal by id, and the non-empty check.
- `TodoStore` (`todo_store.dfy`) is the remote store as a class. It keeps a
  map from uid to that user's documents in write order. A counter stands in
  for the server timestamp and another for the auto-generated document id.
  Its invariant `Valid` says that stamps increase along every collection and
  ids are unique.
- `HomeScreen` (`home_screen.dfy`) holds the two screens as classes whose
  handlers update their fields. A dialog's answer is a `bool` parameter
  (`true` for "예"). A transport failure is a `bool` parameter too.
  Navigation is the `nav` field (`Editing` or `WentBack`). `Scenario` walks one
  user through sign-in, create, list, delete and the empty prompt.

Behaviour of the code worth noting:

- Documents are written and rendered with the fields `textTitle` and
  `textDetail` (components/HomeScreen.js:201-202, 156).
- On an authentication event the list screen fetches whenever `currentUser`
  takes a new non-null value, including a switch from one user to another.
  The effect depends on `currentUser` (line 58) and runs again on every
  change.
- A delete of a missing id succeeds, removes nothing and is followed by the
  same re-fetch as any other delete (lines 75-77).
- Failed fetches, writes and deletes are caught and logged (lines 67-68,
  78-79, 209-210). The model keeps their state effect: nothing changes.
- The initial projection is the empty object `{}` (line 31), modelled as
  `Unfetched`. Its `length` is undefined, so the empty-state prompt (line
  146) appears only after a fetch that returned no records.
- Going back from the creation screen unmounts it (lines 208, 224, 250), and
  its listeners are removed (lines 186, 235). Its handlers therefore require
  `nav == Editing`: none of them runs after the screen has gone back.

## Model

| member | source | states |
|---|---|---|
| `TodoRecords.IsComplete` | components/HomeScreen.js:193 | a draft may be saved exactly when both the title and the detail are non-empty |
| `TodoRecords.ToRecords` | components/HomeScreen.js:65 | one record per document, in the same order; each record carries its document's id and exactly its document's data (splitting it back gives the document) |
| `TodoRecords.SortByCreatedAt` | components/HomeScreen.js:63 | the query ordered by `createdAt` ascending returns the same documents, each as often as stored, in non-decreasing stamp order |
| `TodoRecords.SortAscendingIsIdentity` | components/HomeScreen.js:63 | ordering documents that are already in stamp order returns them unchanged |
| `TodoRecords.AscendingRecords` | components/HomeScreen.js:63-66 | the records made from an ascending query are in creation order |
| `TodoRecords.RemoveId` | components/HomeScreen.js:75 | after removing an id, a document remains exactly when it was there and has another id |
| `TodoRecords.RemoveAbsentId` | components/HomeScreen.js:75 | deleting an id that no document carries leaves the collection unchanged |
| `TodoRecords.RemovePresentId` | components/HomeScreen.js:75 | with unique ids, deleting a stored document's id removes that document and nothing else (the count drops by exactly one) |
| `TodoRecords.RemoveIdKeepsOrder` | components/HomeScreen.js:75 | deleting keeps the remaining documents' stamps strictly increasing and their ids unique |
| `TodoRecords.AppendKeepsWellFormed` | components/HomeScreen.js:199-206 | appending a document with the current stamp and the next id keeps a collection well formed once both counters advance |
| `TodoStore.Store.Collection` | components/HomeScreen.js:63 | a user's collection (empty if never written) is stamped in write order, with unique ids, and stamps and ids already issued |
| `TodoStore.Store.OrderedByCreatedAt` | components/HomeScreen.js:63 | the `createdAt`-ordered query of a valid store lists the user's collection in write order |
| `TodoStore.Store.Add` | components/HomeScreen.js:199-206 | `add` appends exactly one document (fresh id, current stamp) to that user's collection; no other collection changes; the store stays valid |
| `TodoStore.Store.Delete` | components/HomeScreen.js:74-75 | `delete` removes the user's documents with that id and changes no other collection; the store stays valid |
| `HomeScreen.ShowsEmptyPrompt` | components/HomeScreen.js:146 | the empty prompt shows exactly for a fetched, empty projection; never for the initial `{}` |
| `HomeScreen.MainScreen.constructor` | components/HomeScreen.js:30-37 | the list screen mounts with no user and an unfetched projection, which does not show the empty prompt |
| `HomeScreen.MainScreen.GetUsers` | components/HomeScreen.js:61-70 | a successful fetch sets the projection to the user's records in ascending `createdAt` order, tagged with their ids; a failure or a missing user leaves it unchanged |
| `HomeScreen.MainScreen.OnFocus` | components/HomeScreen.js:34-43 | regaining focus (like the mount effect) fetches exactly when a user is present |
| `HomeScreen.MainScreen.OnAuthStateChanged` | components/HomeScreen.js:45-58 | an auth event sets `currentUser`; a fetch follows exactly when the user changed to a non-null one |
| `HomeScreen.MainScreen.DeleteTodo` | components/HomeScreen.js:72-81 | a successful delete removes that id from the user's collection only; the re-fetch then shows the store, with no record of that id; a failed delete changes nothing; no blank record appears |
| `HomeScreen.MainScreen.HandleTodoDelete` | components/HomeScreen.js:96-107 | the store and the projection change only after "예"; then the outcome is `DeleteTodo`'s, with the counters unchanged |
| `HomeScreen.NewTodoScreen.constructor` | components/HomeScreen.js:171-174 | the creation screen starts editing (`nav == Editing`) an empty draft with no user |
| `HomeScreen.NewTodoScreen.OnAuthStateChanged` | components/HomeScreen.js:176-187 | an auth event sets `currentUser` and nothing else |
| `HomeScreen.NewTodoScreen.OnChangeTextTitle` | components/HomeScreen.js:189 | the title setter changes the title only |
| `HomeScreen.NewTodoScreen.OnChangeTextDetail` | components/HomeScreen.js:190 | the detail setter changes the detail only |
| `HomeScreen.NewTodoScreen.AddTodo` | components/HomeScreen.js:192-212 | an empty title or detail, a missing user or a failed write leaves the store and the screen unchanged; otherwise exactly one document with the draft's fields and a fresh stamp is appended to that user's collection, it lists last, and the screen goes back; no blank record is ever stored |
| `HomeScreen.NewTodoScreen.HandleCompleteButton` | components/HomeScreen.js:256-271 | the save runs only after "예", with `AddTodo`'s outcome; after "아니오" the draft, the store and the screen are unchanged |
| `HomeScreen.NewTodoScreen.HandleBackButton` | components/HomeScreen.js:239-254 | the X button goes back only after "예" and never writes the draft |
| `HomeScreen.NewTodoScreen.BackAction` | components/HomeScreen.js:214-237 | the hardware back handler always reports the press as handled, goes back only after "예" and never writes the draft |

## Left out

- Firebase initialisation and the module-level store and auth handles (components/HomeScreen.js:18-26). The store is the `Store` object that both screens share.
- The server timestamp is a counter that each write advances. Firestore's tie-breaking by document id on equal `createdAt` values is not modelled, since the counter never produces two equal stamps. Pending-write timestamps seen before the server answers are not modelled either.
- Auto-generated document ids are a counter. Real ids are random strings, so their uniqueness is probabilistic.
- Subscribing to and unsubscribing from the auth listener (components/HomeScreen.js:45-57) is not modelled. Only its effect is: an event sets `currentUser`. Uid equality stands in for the identity of the user object.
- Installing and removing the back-press and auth listeners (components/HomeScreen.js:176-187, 230-235) are not modelled as operations. They appear only as the `nav == Editing` precondition of the creation screen's handlers.
- Async interleavings: a handler runs as one atomic step. A second tap while a write or delete is still pending is not modelled.
- Alerts, their message strings, and `console.error` logging.
- `handleNewBtn`, `handleButtonOnline` and `handleButtonOffline` (components/HomeScreen.js:83-94) are not modelled. They only navigate to other screens.
- JSX rendering, styles and `Dimensions` arithmetic (components/HomeScreen.js:110-168, 273-304, 319-468), apart from the empty-state test of line 146 (`ShowsEmptyPrompt`).
- The stack navigator `HomeScreen` (components/HomeScreen.js:306-317) and `components/BottomTabNavigationApp.js` are not modelled. They are navigation configuration.
