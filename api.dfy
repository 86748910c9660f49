/** The request handlers of backend/app.py that put the session registry in
    front of the field synchronisation engine: each resolves the session
    first and answers a missing session without touching any field record. */
module Api {
  import opened Common
  import opened FieldRecord
  import opened Sessions
  import opened FieldSync

  predicate SessionExists(dirs: map<SessionCode, SessionDir>, code: SessionCode)
  {
    code in dirs && dirs[code].meta.Some?
  }

  /** POST /api/fields/lock: a missing session is refused. */
  method LockRequest(store: SessionStore, code: SessionCode, f: FieldId, u: UserId, now: int) returns (success: bool)
    modifies store
    ensures store.index == old(store.index)
    ensures !SessionExists(old(store.dirs), code) ==> !success && store.dirs == old(store.dirs)
    ensures SessionExists(old(store.dirs), code) ==>
              success == LockGranted(Load(old(store.dirs), code, now).fields, f, u, now)
    ensures success ==>
              store.dirs == Save(old(store.dirs), code, Locked(Load(old(store.dirs), code, now), f, u, now), now)
    ensures !success ==> store.dirs == old(store.dirs)
  {
    var session := store.GetSession(code, false, now);
    if session.None? {
      return false;
    }
    success := LockField(store, code, f, u, now);
  }

  /** POST /api/fields/unlock: always answers success. */
  method UnlockRequest(store: SessionStore, code: SessionCode, f: FieldId, u: UserId, now: int) returns (success: bool)
    modifies store
    ensures success
    ensures store.index == old(store.index)
    ensures !SessionExists(old(store.dirs), code) ==> store.dirs == old(store.dirs)
    ensures SessionExists(old(store.dirs), code) ==>
              store.dirs == Save(old(store.dirs), code, Unlocked(Load(old(store.dirs), code, now), f), now)
  {
    var session := store.GetSession(code, false, now);
    if session.Some? {
      UnlockField(store, code, f, u, now);
    }
    success := true;
  }

  /** POST /api/fields/update: a missing session is refused; otherwise the
      session's access time is refreshed before the update gate is asked. */
  method UpdateRequest(store: SessionStore, code: SessionCode, f: FieldId, value: string, u: UserId, now: int)
    returns (success: bool)
    modifies store
    ensures store.index == old(store.index)
    ensures !SessionExists(old(store.dirs), code) ==> !success && store.dirs == old(store.dirs)
    ensures SessionExists(old(store.dirs), code) ==>
              success == UpdateAccepted(Load(old(store.dirs), code, now).fields, f, u)
              && code in store.dirs
              && store.dirs[code].meta == Some(old(store.dirs)[code].meta.value.(lastAccessedAt := now))
    ensures SessionExists(old(store.dirs), code) ==>
              var touched := old(store.dirs)[code := old(store.dirs)[code].(meta := Some(old(store.dirs)[code].meta.value.(lastAccessedAt := now)))];
              store.dirs == if success then Save(touched, code, Updated(Load(old(store.dirs), code, now), f, value, u, now), now)
                            else touched
  {
    var session := store.GetSession(code, true, now);
    if session.None? {
      return false;
    }
    success := UpdateFieldValue(store, code, f, value, u, now);
  }

  /** GET /api/fields/{code}/updates: a missing session gets the empty answer
      stamped `since`; otherwise the passive sweep runs before the poll. */
  method PollRequest(store: SessionStore, code: SessionCode, since: int, now: int) returns (r: FieldState)
    modifies store
    ensures store.index == old(store.index)
    ensures !SessionExists(old(store.dirs), code) ==>
              r == FieldState(map[], map[], since) && store.dirs == old(store.dirs)
    ensures SessionExists(old(store.dirs), code) ==>
              r == Poll(Swept(Load(old(store.dirs), code, now), now), since)
    ensures SessionExists(old(store.dirs), code) ==>
              var s := Load(old(store.dirs), code, now);
              store.dirs == if ExpiredIds(s.fields, now) == {} then old(store.dirs)
                            else Save(old(store.dirs), code, Swept(s, now), now)
  {
    var session := store.GetSession(code, false, now);
    if session.None? {
      return FieldState(map[], map[], since);
    }
    CleanupExpiredLocks(store, code, now);
    r := GetFieldUpdates(store, code, since, now);
  }

  /** The answer of POST /api/fields/{code}/cleanup. */
  datatype CleanupResponse = Removed(count: nat) | HttpError(status: int)

  /** The handler as written: the 404 it raises for a missing session is
      caught by its own catch-all handler and re-raised as a 400. */
  function CleanupOutcomeAsWritten(session: Option<Session>, removed: nat): CleanupResponse
  {
    if session.None? then HttpError(400) else Removed(removed)
  }

  /** The handler as intended: a missing session is a not-found failure. */
  function CleanupOutcome(session: Option<Session>, removed: nat): CleanupResponse
  {
    if session.None? then HttpError(404) else Removed(removed)
  }

  lemma CleanupMissingSessionStatus()
    ensures CleanupOutcomeAsWritten(None, 0) == HttpError(400)
    ensures CleanupOutcome(None, 0) == HttpError(404)
  {
  }

  method CleanupRequestAsWritten(store: SessionStore, code: SessionCode, now: int) returns (r: CleanupResponse)
    modifies store
    ensures store.index == old(store.index)
    ensures !SessionExists(old(store.dirs), code) ==> r == HttpError(400) && store.dirs == old(store.dirs)
    ensures SessionExists(old(store.dirs), code) ==> r == Removed(|StaleIds(Load(old(store.dirs), code, now).fields)|)
    ensures SessionExists(old(store.dirs), code) ==>
              var s := Load(old(store.dirs), code, now);
              store.dirs == if StaleIds(s.fields) == {} then old(store.dirs)
                            else Save(old(store.dirs), code, s.(fields := Without(s.fields, StaleIds(s.fields))), now)
  {
    var session := store.GetSession(code, false, now);
    var removed := 0;
    if session.Some? {
      removed := CleanupAllStaleLocks(store, code, now);
    }
    r := CleanupOutcomeAsWritten(session, removed);
  }

  method CleanupRequest(store: SessionStore, code: SessionCode, now: int) returns (r: CleanupResponse)
    modifies store
    ensures store.index == old(store.index)
    ensures !SessionExists(old(store.dirs), code) ==> r == HttpError(404) && store.dirs == old(store.dirs)
    ensures SessionExists(old(store.dirs), code) ==> r == Removed(|StaleIds(Load(old(store.dirs), code, now).fields)|)
    ensures SessionExists(old(store.dirs), code) ==>
              var s := Load(old(store.dirs), code, now);
              store.dirs == if StaleIds(s.fields) == {} then old(store.dirs)
                            else Save(old(store.dirs), code, s.(fields := Without(s.fields, StaleIds(s.fields))), now)
  {
    var session := store.GetSession(code, false, now);
    var removed := 0;
    if session.Some? {
      removed := CleanupAllStaleLocks(store, code, now);
    }
    r := CleanupOutcome(session, removed);
  }

  datatype LeaveResponse = Left | LeftAndDeleted | LeaveNotFound

  /** POST /api/sessions/{code}/leave: one participant fewer; a session left
      with no participant is deleted with its field record. */
  method LeaveRequest(store: SessionStore, code: SessionCode, now: int) returns (r: LeaveResponse)
    modifies store
    ensures !SessionExists(old(store.dirs), code) ==>
              r == LeaveNotFound && store.dirs == old(store.dirs) && store.index == old(store.index)
    ensures SessionExists(old(store.dirs), code) ==>
              var s := old(store.dirs)[code].meta.value;
              var left := s.(participantCount := Decremented(s.participantCount), lastAccessedAt := now);
              var index := ReplaceFirstSpec(old(store.index), code, left);
              if s.participantCount <= 1 then
                r == LeftAndDeleted && store.dirs == old(store.dirs) - {code} && store.index == WithoutCode(index, code)
              else
                r == Left && store.dirs == old(store.dirs)[code := old(store.dirs)[code].(meta := Some(left))]
                && store.index == index
    ensures SessionExists(old(store.dirs), code) && old(store.dirs)[code].meta.value.participantCount <= 1 ==>
              r == LeftAndDeleted && code !in store.dirs
              && forall s | s in store.index :: s.code != code
    ensures SessionExists(old(store.dirs), code) && old(store.dirs)[code].meta.value.code == code
            && old(store.dirs)[code].meta.value.participantCount <= 1 ==>
              store.index == WithoutCode(old(store.index), code)
    ensures SessionExists(old(store.dirs), code) && old(store.dirs)[code].meta.value.participantCount > 1 ==>
              r == Left && code in store.dirs
              && store.dirs[code].meta.Some?
              && store.dirs[code].meta.value.participantCount == old(store.dirs)[code].meta.value.participantCount - 1
              && store.dirs[code].meta.value.lastAccessedAt == now
              && store.dirs[code].fieldStates == old(store.dirs)[code].fieldStates
  {
    var session := store.GetSession(code, true, now);
    if session.None? {
      return LeaveNotFound;
    }
    ghost var s := old(store.dirs)[code].meta.value;
    ghost var left := s.(participantCount := Decremented(s.participantCount), lastAccessedAt := now);
    assert store.dirs == old(store.dirs)[code := old(store.dirs)[code].(meta := Some(session.value))];
    store.DecrementParticipantCount(code, now);
    assert store.dirs == old(store.dirs)[code := old(store.dirs)[code].(meta := Some(left))];
    assert store.index == ReplaceFirstSpec(old(store.index), code, left);
    var updated := store.GetSession(code, false, now);
    assert updated == Some(left);
    if updated.Some? && updated.value.participantCount <= 0 {
      var _ := store.DeleteSession(code);
      if updated.value.code == code {
        WithoutReplacedFirst(old(store.index), code, updated.value);
      }
      return LeftAndDeleted;
    }
    return Left;
  }
}
