/**
 * The two screens of the home stack that work on a signed-in user's to-do
 * list: the list screen (`MainScreen`), which fetches the user's documents
 * and deletes one after a yes/no confirmation, and the creation screen
 * (`NewTodoScreen`), which edits a draft and saves or discards it, each only
 * after a yes/no confirmation.
 *
 * Each event handler runs as one atomic step. A dialog's answer is a `bool`
 * parameter (`true` for "예", `false` for "아니오"); a transport failure of the
 * store is a `bool` parameter as well. A handler that dereferences a missing
 * user inside its `try` block fails like a transport failure.
 */
module HomeScreen {
  import opened TodoRecords
  import opened TodoStore

  datatype Option<T> = None | Some(value: T)

  /**
   * What the list screen holds in `todos`: the empty object it starts with,
   * then the records of the latest successful fetch.
   */
  datatype Projection = Unfetched | Fetched(records: seq<Record>)

  /** Whether the creation screen is still shown or has gone back. */
  datatype Nav = Editing | WentBack

  /**
   * The list screen's empty-state test `todos.length === 0`: the empty object
   * it starts with has no length, so the prompt appears only after a fetch
   * that returned no records.
   */
  predicate ShowsEmptyPrompt(todos: Projection): (shown: bool)
    ensures shown <==> todos == Fetched([])
    ensures todos == Unfetched ==> !shown
  {
    todos.Fetched? && |todos.records| == 0
  }

  class MainScreen {
    const db: Store
    var todos: Projection
    var currentUser: Option<Uid>

    /** Mounting: no user yet, so the mount effect fetches nothing. */
    constructor (db: Store)
      ensures this.db == db && currentUser == None
      ensures todos == Unfetched && !ShowsEmptyPrompt(todos)
    {
      this.db := db;
      todos := Unfetched;
      currentUser := None;
    }

    /**
     * `getUsers`: on success `todos` becomes the user's records ordered by
     * `createdAt` ascending, each tagged with its document id; on failure
     * (or without a user) `todos` stays as it was.
     */
    method GetUsers(fetchFails: bool)
      requires db.Valid()
      modifies this`todos
      ensures if currentUser.Some? && !fetchFails then
          && todos == Fetched(ToRecords(db.OrderedByCreatedAt(currentUser.value)))
          && todos.records == ToRecords(db.Collection(currentUser.value))
          && InCreationOrder(todos.records)
        else todos == old(todos)
    {
      if currentUser.Some? && !fetchFails {
        var docs := db.OrderedByCreatedAt(currentUser.value);
        AscendingRecords(docs);
        todos := Fetched(ToRecords(docs));
      }
    }

    /**
     * The screen regains focus (and the mount effect, which has the same
     * body): a fetch is issued exactly when a user is present.
     */
    method OnFocus(fetchFails: bool) returns (fetchIssued: bool)
      requires db.Valid()
      modifies this`todos
      ensures fetchIssued <==> currentUser.Some?
      ensures if fetchIssued && !fetchFails then
          todos == Fetched(ToRecords(db.Collection(currentUser.value)))
        else todos == old(todos)
    {
      fetchIssued := currentUser.Some?;
      if fetchIssued {
        GetUsers(fetchFails);
      }
    }

    /**
     * An authentication event sets `currentUser`. When that changes its
     * value, the effect that depends on it runs again and fetches if a user
     * is now present; the same user again triggers nothing.
     */
    method OnAuthStateChanged(user: Option<Uid>, fetchFails: bool) returns (fetchIssued: bool)
      requires db.Valid()
      modifies this`currentUser, this`todos
      ensures currentUser == user
      ensures fetchIssued <==> user != old(currentUser) && user.Some?
      ensures if fetchIssued && !fetchFails then
          todos == Fetched(ToRecords(db.Collection(user.value)))
        else todos == old(todos)
    {
      var changed := user != currentUser;
      currentUser := user;
      fetchIssued := false;
      if changed {
        fetchIssued := OnFocus(fetchFails);
      }
    }

    /**
     * `deleteTodo`: removes the user's document `todoId`, then fetches again;
     * the projection is never edited locally. A failed delete (or a missing
     * user) changes neither the store nor `todos`.
     */
    method DeleteTodo(todoId: DocId, deleteFails: bool, fetchFails: bool)
      requires db.Valid()
      modifies db, this`todos
      ensures db.Valid()
      ensures old(db.NoBlankRecords()) ==> db.NoBlankRecords()
      ensures currentUser.None? || deleteFails ==> unchanged(db) && todos == old(todos)
      ensures currentUser.Some? && !deleteFails ==>
        && db.collections == old(db.collections)[currentUser.value := RemoveId(old(db.Collection(currentUser.value)), todoId)]
        && db.clock == old(db.clock) && db.nextId == old(db.nextId)
        && (fetchFails ==> todos == old(todos))
        && (!fetchFails ==> todos == Fetched(ToRecords(db.Collection(currentUser.value))))
        && (!fetchFails ==> forall r :: r in todos.records ==> r.id != todoId)
    {
      if currentUser.Some? && !deleteFails {
        var uid := currentUser.value;
        db.Delete(uid, todoId);
        GetUsers(fetchFails);
        if !fetchFails {
          forall r | r in todos.records ensures r.id != todoId {
            var i :| 0 <= i < |todos.records| && todos.records[i] == r;
            assert ToDoc(r) in db.Collection(uid);
          }
        }
      }
    }

    /**
     * The trash button: asks for confirmation and deletes only on "예";
     * on "아니오" nothing changes.
     */
    method HandleTodoDelete(todoId: DocId, confirmed: bool, deleteFails: bool, fetchFails: bool)
      requires db.Valid()
      modifies db, this`todos
      ensures db.Valid()
      ensures old(db.NoBlankRecords()) ==> db.NoBlankRecords()
      ensures !confirmed || currentUser.None? || deleteFails ==> unchanged(db) && todos == old(todos)
      ensures confirmed && currentUser.Some? && !deleteFails ==>
        && db.collections == old(db.collections)[currentUser.value := RemoveId(old(db.Collection(currentUser.value)), todoId)]
        && db.clock == old(db.clock) && db.nextId == old(db.nextId)
        && (fetchFails ==> todos == old(todos))
        && (!fetchFails ==> todos == Fetched(ToRecords(db.Collection(currentUser.value))))
    {
      if confirmed {
        DeleteTodo(todoId, deleteFails, fetchFails);
      }
    }
  }

  class NewTodoScreen {
    const db: Store
    var textTitle: string
    var textDetail: string
    var currentUser: Option<Uid>
    var nav: Nav

    /**
     * Mounting: an empty draft, no user yet, still editing. Every handler
     * below requires `nav == Editing`: going back unmounts the screen, which
     * removes its auth listener and its back-press listener, so none of its
     * handlers runs afterwards.
     */
    constructor (db: Store)
      ensures this.db == db && currentUser == None && nav == Editing
      ensures textTitle == "" && textDetail == ""
    {
      this.db := db;
      textTitle := "";
      textDetail := "";
      currentUser := None;
      nav := Editing;
    }

    /** An authentication event sets `currentUser`. */
    method OnAuthStateChanged(user: Option<Uid>)
      requires nav == Editing
      modifies this`currentUser
      ensures currentUser == user
    {
      currentUser := user;
    }

    /** The title field's setter: only the title changes. */
    method OnChangeTextTitle(payload: string)
      requires nav == Editing
      modifies this`textTitle
      ensures textTitle == payload
    {
      textTitle := payload;
    }

    /** The detail field's setter: only the detail changes. */
    method OnChangeTextDetail(payload: string)
      requires nav == Editing
      modifies this`textDetail
      ensures textDetail == payload
    {
      textDetail := payload;
    }

    /**
     * `addTodo`: a draft with an empty field is refused before the store is
     * touched; otherwise one document with the draft's title and detail and a
     * fresh server stamp is appended to the user's collection, where it is
     * the newest, and the screen goes back. A failed write (or a missing
     * user) changes nothing and stays on the screen.
     */
    method AddTodo(writeFails: bool)
      requires db.Valid() && nav == Editing
      modifies db, this`nav
      ensures db.Valid()
      ensures old(db.NoBlankRecords()) ==> db.NoBlankRecords()
      ensures !IsComplete(textTitle, textDetail) || currentUser.None? || writeFails ==>
        unchanged(db) && nav == Editing
      ensures IsComplete(textTitle, textDetail) && currentUser.Some? && !writeFails ==>
        var uid := currentUser.value;
        var added := Doc(old(db.nextId), TodoData(textTitle, textDetail, old(db.clock)));
        && nav == WentBack
        && db.clock == old(db.clock) + 1 && db.nextId == old(db.nextId) + 1
        && db.collections == old(db.collections)[uid := old(db.Collection(uid)) + [added]]
        && db.OrderedByCreatedAt(uid) == old(db.OrderedByCreatedAt(uid)) + [added]
    {
      if !IsComplete(textTitle, textDetail) {
        return;
      }
      if currentUser.Some? && !writeFails {
        var _ := db.Add(currentUser.value, textTitle, textDetail);
        nav := WentBack;
      }
    }

    /**
     * The check button: asks for confirmation and runs `addTodo` only on
     * "예"; on "아니오" the store and the screen stay as they are.
     */
    method HandleCompleteButton(confirmed: bool, writeFails: bool)
      requires db.Valid() && nav == Editing
      modifies db, this`nav
      ensures db.Valid()
      ensures old(db.NoBlankRecords()) ==> db.NoBlankRecords()
      ensures !confirmed || !IsComplete(textTitle, textDetail) || currentUser.None? || writeFails ==>
        unchanged(db) && nav == Editing
      ensures confirmed && IsComplete(textTitle, textDetail) && currentUser.Some? && !writeFails ==>
        var uid := currentUser.value;
        var added := Doc(old(db.nextId), TodoData(textTitle, textDetail, old(db.clock)));
        && nav == WentBack
        && db.clock == old(db.clock) + 1 && db.nextId == old(db.nextId) + 1
        && db.collections == old(db.collections)[uid := old(db.Collection(uid)) + [added]]
        && db.OrderedByCreatedAt(uid) == old(db.OrderedByCreatedAt(uid)) + [added]
    {
      if confirmed {
        AddTodo(writeFails);
      }
    }

    /**
     * The X button: asks for confirmation and goes back only on "예"; the
     * draft is never written (the store is not in the frame; the last
     * ensures only spells that out).
     */
    method HandleBackButton(confirmed: bool)
      requires nav == Editing
      modifies this`nav
      ensures nav == if confirmed then WentBack else Editing
      ensures unchanged(db)
    {
      if confirmed {
        nav := WentBack;
      }
    }

    /**
     * The hardware back press: the same confirmation as the X button, and
     * the handler always reports the press as handled, so the platform's
     * default back action never runs while the screen is shown. As with the
     * X button, the store is not in the frame; the last ensures spells it out.
     */
    method BackAction(confirmed: bool) returns (handled: bool)
      requires nav == Editing
      modifies this`nav
      ensures handled
      ensures nav == if confirmed then WentBack else Editing
      ensures unchanged(db)
    {
      if confirmed {
        nav := WentBack;
      }
      handled := true;
    }
  }

  /**
   * A user with no to-dos signs in, adds one, sees it listed after going
   * back, deletes it and sees the empty prompt again.
   */
  method Scenario() {
    var db := new Store();
    var list := new MainScreen(db);
    assert !ShowsEmptyPrompt(list.todos);
    var issued := list.OnAuthStateChanged(Some("u1"), false);
    assert issued && ShowsEmptyPrompt(list.todos);

    var editor := new NewTodoScreen(db);
    editor.OnAuthStateChanged(Some("u1"));
    editor.OnChangeTextTitle("Read");
    editor.OnChangeTextDetail("Ch.1");
    editor.HandleCompleteButton(true, false);
    assert editor.nav == WentBack;

    issued := list.OnFocus(false);
    assert |list.todos.records| == 1 && list.todos.records[0].textTitle == "Read";

    var id := list.todos.records[0].id;
    list.HandleTodoDelete(id, true, false, false);
    assert ShowsEmptyPrompt(list.todos);
  }
}
