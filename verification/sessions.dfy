/** The session tool: one JSON blob of conversation state per user, saved with
    `create` or `update` and read back with `get`. The blob is opaque text. */
module Sessions {
  import opened Wrappers
  import opened Models

  /** The text stored for a save: the given context, or `"{}"` when it is
      absent or empty. */
  function StoredBlob(contextData: Option<string>): (b: string)
    ensures b != ""
    ensures contextData.Some? && contextData.value != "" ==> b == contextData.value
    ensures contextData.None? || contextData.value == "" ==> b == "{}"
  {
    OrElse(contextData, "{}")
  }

  /** What `get` reads: the blob of the user's first session, or `"{}"`. */
  function Blob(store: Store, userId: nat): (b: string)
    ensures SessionIndex(store, userId).None? ==> b == "{}"
    ensures SessionIndex(store, userId).Some? ==>
              b == store.sessions[SessionIndex(store, userId).value].sessionData
  {
    match SessionIndex(store, userId)
    case None => "{}"
    case Some(k) => store.sessions[k].sessionData
  }

  datatype SessionReply =
    | Saved(action: string)
    | Loaded(data: string)
    /** An action other than `create`, `update` or `get`: the tool returns nothing. */
    | NoReply
    /** Saving for a user id with no account: the foreign key refuses the insert. */
    | UnknownUser

  datatype SessionResult = SessionResult(store: Store, reply: SessionReply)

  predicate IsSave(action: string) {
    action == "create" || action == "update"
  }

  /** `manage_session(user_id, action, context_data)`. */
  function Manage(store: Store, userId: nat, action: string, contextData: Option<string>,
                  now: int): (r: SessionResult)
    ensures !IsSave(action) ==> r.store == store
    ensures action == "get" ==> r.reply == Loaded(Blob(store, userId))
    ensures !IsSave(action) && action != "get" ==> r.reply == NoReply
    ensures IsSave(action) ==>
              (r.reply.UnknownUser? <==> SessionIndex(store, userId).None? && !HasUser(store, userId))
    ensures IsSave(action) && r.reply.UnknownUser? ==> r.store == store
    ensures IsSave(action) && !r.reply.UnknownUser? ==>
              && r.reply == Saved(action)
              && Blob(r.store, userId) == StoredBlob(contextData)
              && (forall u :: u != userId ==> Blob(r.store, u) == Blob(store, u))
              && r.store.users == store.users && r.store.doctors == store.doctors
              && r.store.appointments == store.appointments
    ensures WellFormed(store) ==> WellFormed(r.store)
  {
    if IsSave(action) then
      var data := StoredBlob(contextData);
      match SessionIndex(store, userId)
      case None =>
        (match InsertSession(store, userId, data, now)
         case Refused(_) => SessionResult(store, UnknownUser)
         case Committed(s', row) =>
           SessionAppended(store, row);
           SessionResult(s', Saved(action)))
      case Some(k) =>
        var row := store.sessions[k].(sessionData := data, updatedAt := now);
        var s' := store.(sessions := store.sessions[k := row]);
        SessionUpdated(store, k, row);
        SessionResult(s', Saved(action))
    else if action == "get" then
      SessionResult(store, Loaded(Blob(store, userId)))
    else
      SessionResult(store, NoReply)
  }

  /** Appending the first session of `row.userId` makes it that user's blob and
      leaves every other user's blob alone. */
  lemma SessionAppended(store: Store, row: ChatSession)
    requires SessionIndex(store, row.userId).None?
    ensures var s' := store.(sessions := store.sessions + [row]);
      && Blob(s', row.userId) == row.sessionData
      && forall u :: u != row.userId ==> Blob(s', u) == Blob(store, u)
  {
    var s' := store.(sessions := store.sessions + [row]);
    forall u
      ensures SessionIndex(s', u) ==
                (if SessionIndex(store, u).None? && u == row.userId then Some(|store.sessions|)
                 else SessionIndex(store, u))
    {
      FirstIndexAppend(store.sessions, row, (c: ChatSession) => c.userId == u);
    }
    assert s'.sessions[|store.sessions|] == row;
    forall u | u != row.userId
      ensures Blob(s', u) == Blob(store, u)
    {
      if SessionIndex(store, u).Some? {
        assert s'.sessions[SessionIndex(store, u).value]
            == store.sessions[SessionIndex(store, u).value];
      }
    }
  }

  /** Overwriting the session at `k` with a row of the same user changes only
      that user's blob. */
  lemma SessionUpdated(store: Store, k: nat, row: ChatSession)
    requires k < |store.sessions| && SessionIndex(store, store.sessions[k].userId) == Some(k)
    requires row.userId == store.sessions[k].userId
    ensures var s' := store.(sessions := store.sessions[k := row]);
      && Blob(s', row.userId) == row.sessionData
      && forall u :: u != row.userId ==> Blob(s', u) == Blob(store, u)
  {
    var s' := store.(sessions := store.sessions[k := row]);
    forall u
      ensures SessionIndex(s', u) == SessionIndex(store, u)
    {
      FirstIndexSamePattern(store.sessions, s'.sessions, (c: ChatSession) => c.userId == u);
    }
    forall u | u != row.userId
      ensures Blob(s', u) == Blob(store, u)
    {
      if SessionIndex(store, u).Some? {
        assert SessionIndex(store, u).value != k;
      }
    }
  }

  /** A save followed by a get returns what was saved; a second save replaces
      the first. */
  lemma SaveThenGet(store: Store, userId: nat, action: string, action': string,
                    first: Option<string>, second: Option<string>, now: int, now': int)
    requires IsSave(action) && IsSave(action')
    requires HasUser(store, userId)
    ensures var s1 := Manage(store, userId, action, first, now).store;
      && Manage(s1, userId, "get", None, now').reply == Loaded(StoredBlob(first))
      && var s2 := Manage(s1, userId, action', second, now').store;
         Manage(s2, userId, "get", None, now').reply == Loaded(StoredBlob(second))
  {
    var s1 := Manage(store, userId, action, first, now).store;
    assert s1.users == store.users;
    assert HasUser(s1, userId);
  }

  /** A user who never saved reads the empty object. */
  lemma NeverSavedReadsEmpty(store: Store, userId: nat, now: int)
    requires forall i :: 0 <= i < |store.sessions| ==> store.sessions[i].userId != userId
    ensures Manage(store, userId, "get", None, now).reply == Loaded("{}")
  {
  }
}
