/** The field synchronisation engine (backend/modules/realtime_sync.py):
    every operation loads the session's field record, changes its lock or
    value table, and saves it back. The record lives in the session's
    directory of a `Sessions.SessionStore`; the clock is the `now` parameter. */
module FieldSync {
  import opened Common
  import opened FieldRecord
  import opened Sessions

  /** Age in seconds after which another user may take a lock over. */
  const TakeoverAge := 120
  /** Age in seconds after which the passive sweep drops a lock. */
  const ExpiryAge := 300

  // ---------------------------------------------------------------------
  // Persistence

  /** load_field_states: the stored record, or the empty record stamped
      `now` when the session directory or its record file is missing,
      blank or unreadable. */
  function Load(dirs: map<SessionCode, SessionDir>, code: SessionCode, now: int): FieldState
  {
    if code in dirs && dirs[code].fieldStates.Some? then dirs[code].fieldStates.value
    else EmptyState(now)
  }

  /** save_field_states: stamps `lastUpdate` with `now` and writes the
      record; nothing is written when the session directory is missing. */
  function Save(dirs: map<SessionCode, SessionDir>, code: SessionCode, s: FieldState, now: int): map<SessionCode, SessionDir>
  {
    if code in dirs then dirs[code := dirs[code].(fieldStates := Some(s.(lastUpdate := now)))]
    else dirs
  }

  /** What is saved is what the next load sees, with the save's time stamp;
      no other session's directory changes. */
  lemma SaveThenLoad(dirs: map<SessionCode, SessionDir>, code: SessionCode, s: FieldState, now: int, later: int)
    requires code in dirs
    ensures Load(Save(dirs, code, s, now), code, later) == s.(lastUpdate := now)
    ensures Save(dirs, code, s, now).Keys == dirs.Keys
    ensures forall c | c in dirs && c != code :: Save(dirs, code, s, now)[c] == dirs[c]
    ensures Save(dirs, code, s, now)[code].meta == dirs[code].meta
  {
  }

  /** A session without a directory loads as the empty record and never
      gets one by saving. */
  lemma MissingSessionLoadsEmpty(dirs: map<SessionCode, SessionDir>, code: SessionCode, s: FieldState, now: int)
    requires code !in dirs
    ensures Load(dirs, code, now) == FieldState(map[], map[], now)
    ensures Save(dirs, code, s, now) == dirs
  {
  }

  // ---------------------------------------------------------------------
  // Lock table

  /** The entry has no owner: absent, or an empty `lockedBy`. */
  predicate Unowned(fields: map<FieldId, FieldLock>, f: FieldId)
  {
    f !in fields || fields[f].lockedBy == ""
  }

  /** lock_field's decision: free, renewal by the owner, or takeover of a
      lock older than `TakeoverAge`. */
  predicate LockGranted(fields: map<FieldId, FieldLock>, f: FieldId, u: UserId, now: int)
  {
    Unowned(fields, f) || fields[f].lockedBy == u || now - fields[f].lockTime > TakeoverAge
  }

  /** The record after a granted lock: every grant writes the same entry. */
  function Locked(s: FieldState, f: FieldId, u: UserId, now: int): FieldState
  {
    s.(fields := s.fields[f := FieldLock(u, now, true)])
  }

  /** unlock_field: the entry is gone, whoever held it. */
  function Unlocked(s: FieldState, f: FieldId): FieldState
  {
    s.(fields := s.fields - {f})
  }

  // ---------------------------------------------------------------------
  // Value table

  /** update_field_value's gate: the caller holds the lock, or the entry
      is not active (an absent entry counts as not active). */
  predicate UpdateAccepted(fields: map<FieldId, FieldLock>, f: FieldId, u: UserId)
  {
    f !in fields || fields[f].lockedBy == u || !fields[f].isActive
  }

  function Updated(s: FieldState, f: FieldId, value: string, u: UserId, now: int): FieldState
  {
    s.(values := s.values[f := FieldValue(value, u, now)])
  }

  /** get_field_updates: the whole lock table, the values written strictly
      after `since`, and the record's time stamp. */
  function Poll(s: FieldState, since: int): FieldState
  {
    FieldState(s.fields, map f | f in s.values && s.values[f].updateTime > since :: s.values[f], s.lastUpdate)
  }

  // ---------------------------------------------------------------------
  // Sweeps

  /** cleanup_expired_locks drops an entry older than `ExpiryAge`, inactive or ownerless. */
  predicate Expired(l: FieldLock, now: int)
  {
    now - l.lockTime > ExpiryAge || !l.isActive || l.lockedBy == ""
  }

  /** cleanup_all_stale_locks drops an entry that is inactive or ownerless, whatever its age. */
  predicate Stale(l: FieldLock)
  {
    !l.isActive || l.lockedBy == ""
  }

  function ExpiredIds(fields: map<FieldId, FieldLock>, now: int): set<FieldId>
  {
    set f | f in fields && Expired(fields[f], now)
  }

  function StaleIds(fields: map<FieldId, FieldLock>): set<FieldId>
  {
    set f | f in fields && Stale(fields[f])
  }

  function Without(fields: map<FieldId, FieldLock>, ids: set<FieldId>): (r: map<FieldId, FieldLock>)
    ensures r.Keys == fields.Keys - ids
    ensures forall f | f in r :: r[f] == fields[f]
  {
    map f | f in fields && f !in ids :: fields[f]
  }

  /** The loop of cleanup_expired_locks that collects the ids to remove. */
  method CollectExpired(fields: map<FieldId, FieldLock>, now: int) returns (ids: set<FieldId>)
    ensures ids <= fields.Keys
    ensures forall f | f in fields :: f in ids <==> Expired(fields[f], now)
  {
    ids := {};
    var pending := fields.Keys;
    while pending != {}
      invariant pending <= fields.Keys
      invariant ids <= fields.Keys - pending
      invariant forall f | f in fields && f !in pending :: f in ids <==> Expired(fields[f], now)
      decreases |pending|
    {
      var f :| f in pending;
      if Expired(fields[f], now) {
        ids := ids + {f};
      }
      pending := pending - {f};
    }
  }

  /** The loop of cleanup_all_stale_locks that collects the ids to remove. */
  method CollectStale(fields: map<FieldId, FieldLock>) returns (ids: set<FieldId>)
    ensures ids <= fields.Keys
    ensures forall f | f in fields :: f in ids <==> Stale(fields[f])
  {
    ids := {};
    var pending := fields.Keys;
    while pending != {}
      invariant pending <= fields.Keys
      invariant ids <= fields.Keys - pending
      invariant forall f | f in fields && f !in pending :: f in ids <==> Stale(fields[f])
      decreases |pending|
    {
      var f :| f in pending;
      if Stale(fields[f]) {
        ids := ids + {f};
      }
      pending := pending - {f};
    }
  }

  // ---------------------------------------------------------------------
  // Operations on the store

  /** lock_field. A denied request writes nothing. */
  method LockField(store: SessionStore, code: SessionCode, f: FieldId, u: UserId, now: int) returns (granted: bool)
    modifies store
    ensures store.index == old(store.index)
    ensures granted == LockGranted(Load(old(store.dirs), code, now).fields, f, u, now)
    ensures granted ==> store.dirs == Save(old(store.dirs), code, Locked(Load(old(store.dirs), code, now), f, u, now), now)
    ensures !granted ==> store.dirs == old(store.dirs)
  {
    var states := Load(store.dirs, code, now);
    if f !in states.fields || states.fields[f].lockedBy == "" {
      store.dirs := Save(store.dirs, code, states.(fields := states.fields[f := FieldLock(u, now, true)]), now);
      return true;
    }
    if states.fields[f].lockedBy == u {
      var renewed := states.fields[f].(lockTime := now, isActive := true);
      store.dirs := Save(store.dirs, code, states.(fields := states.fields[f := renewed]), now);
      return true;
    }
    if now - states.fields[f].lockTime > TakeoverAge {
      store.dirs := Save(store.dirs, code, states.(fields := states.fields[f := FieldLock(u, now, true)]), now);
      return true;
    }
    return false;
  }

  /** unlock_field: removes the entry if there is one and always saves. */
  method UnlockField(store: SessionStore, code: SessionCode, f: FieldId, u: UserId, now: int)
    modifies store
    ensures store.index == old(store.index)
    ensures store.dirs == Save(old(store.dirs), code, Unlocked(Load(old(store.dirs), code, now), f), now)
  {
    var states := Load(store.dirs, code, now);
    if f in states.fields {
      states := states.(fields := states.fields - {f});
    } else {
      assert states.fields - {f} == states.fields;
    }
    states := states.(lastUpdate := now);
    store.dirs := Save(store.dirs, code, states, now);
  }

  /** update_field_value. A rejected update writes nothing. */
  method UpdateFieldValue(store: SessionStore, code: SessionCode, f: FieldId, value: string, u: UserId, now: int)
    returns (accepted: bool)
    modifies store
    ensures store.index == old(store.index)
    ensures accepted == UpdateAccepted(Load(old(store.dirs), code, now).fields, f, u)
    ensures accepted ==> store.dirs == Save(old(store.dirs), code, Updated(Load(old(store.dirs), code, now), f, value, u, now), now)
    ensures !accepted ==> store.dirs == old(store.dirs)
  {
    var states := Load(store.dirs, code, now);
    if f !in states.fields || states.fields[f].lockedBy == u || !states.fields[f].isActive {
      states := states.(values := states.values[f := FieldValue(value, u, now)]);
      store.dirs := Save(store.dirs, code, states, now);
      return true;
    }
    return false;
  }

  /** get_field_updates: reads the record and filters its values. */
  method GetFieldUpdates(store: SessionStore, code: SessionCode, since: int, now: int) returns (r: FieldState)
    ensures r == Poll(Load(store.dirs, code, now), since)
  {
    var states := Load(store.dirs, code, now);
    var newer: map<FieldId, FieldValue> := map[];
    var pending := states.values.Keys;
    while pending != {}
      invariant pending <= states.values.Keys
      invariant newer.Keys <= states.values.Keys - pending
      invariant forall f | f in states.values && f !in pending :: (f in newer <==> states.values[f].updateTime > since)
      invariant forall f | f in newer :: newer[f] == states.values[f]
      decreases |pending|
    {
      var f :| f in pending;
      if states.values[f].updateTime > since {
        newer := newer[f := states.values[f]];
      }
      pending := pending - {f};
    }
    r := FieldState(states.fields, newer, states.lastUpdate);
  }

  /** The record as cleanup_expired_locks leaves it: unchanged when nothing
      expired, otherwise without the expired entries and stamped `now`. */
  function Swept(s: FieldState, now: int): FieldState
  {
    if ExpiredIds(s.fields, now) == {} then s
    else FieldState(Without(s.fields, ExpiredIds(s.fields, now)), s.values, now)
  }

  /** cleanup_expired_locks: saves only when something was removed. */
  method CleanupExpiredLocks(store: SessionStore, code: SessionCode, now: int)
    modifies store
    ensures store.index == old(store.index)
    ensures var s := Load(old(store.dirs), code, now);
            store.dirs == if ExpiredIds(s.fields, now) == {} then old(store.dirs)
                          else Save(old(store.dirs), code, Swept(s, now), now)
  {
    var states := Load(store.dirs, code, now);
    var ids := CollectExpired(states.fields, now);
    assert ids == ExpiredIds(states.fields, now);
    if ids != {} {
      store.dirs := Save(store.dirs, code, states.(fields := Without(states.fields, ids)), now);
    }
  }

  /** cleanup_all_stale_locks: returns how many entries it removed. */
  method CleanupAllStaleLocks(store: SessionStore, code: SessionCode, now: int) returns (removed: nat)
    modifies store
    ensures store.index == old(store.index)
    ensures var s := Load(old(store.dirs), code, now);
            removed == |StaleIds(s.fields)|
            && store.dirs == if removed == 0 then old(store.dirs)
                             else Save(old(store.dirs), code, s.(fields := Without(s.fields, StaleIds(s.fields))), now)
  {
    var states := Load(store.dirs, code, now);
    var ids := CollectStale(states.fields);
    assert ids == StaleIds(states.fields);
    if ids != {} {
      store.dirs := Save(store.dirs, code, states.(fields := Without(states.fields, ids)), now);
    }
    removed := |ids|;
  }

  // ---------------------------------------------------------------------
  // Properties of the lock protocol

  /** Granting writes the caller as active owner stamped `now`, for a free
      field, a renewal and a takeover alike, and touches nothing else. */
  lemma GrantWritesOwner(s: FieldState, f: FieldId, u: UserId, now: int)
    ensures Locked(s, f, u, now).fields[f] == FieldLock(u, now, true)
    ensures forall g | g in s.fields && g != f :: Locked(s, f, u, now).fields[g] == s.fields[g]
    ensures Locked(s, f, u, now).values == s.values
  {
  }

  /** The owner may always renew, and renewing keeps the owner. */
  lemma OwnerAlwaysRenews(s: FieldState, f: FieldId, u: UserId, t: int, now: int)
    ensures LockGranted(Locked(s, f, u, t).fields, f, u, now)
    ensures Locked(Locked(s, f, u, t), f, u, now).fields[f].lockedBy == u
  {
  }

  /** Within `TakeoverAge` seconds of a grant to a non-empty user, every
      other user is refused the lock and the update. */
  lemma ExclusiveWindow(s: FieldState, f: FieldId, u: UserId, t: int, v: UserId, now: int)
    requires u != "" && v != u
    requires now - t <= TakeoverAge
    ensures !LockGranted(Locked(s, f, u, t).fields, f, v, now)
    ensures !UpdateAccepted(Locked(s, f, u, t).fields, f, v)
  {
  }

  /** Past `TakeoverAge` seconds anyone may take the lock over, and the
      former owner is then the one refused. */
  lemma TakeoverAfterWindow(s: FieldState, f: FieldId, u: UserId, t: int, v: UserId, now: int)
    requires now - t > TakeoverAge
    ensures LockGranted(Locked(s, f, u, t).fields, f, v, now)
    ensures v != "" && v != u ==> !LockGranted(Locked(Locked(s, f, u, t), f, v, now).fields, f, u, now)
  {
  }

  /** After unlocking, anyone may lock and update; unlocking twice is the
      same as once, and values are untouched. */
  lemma UnlockFreesField(s: FieldState, f: FieldId, v: UserId, now: int)
    ensures f !in Unlocked(s, f).fields
    ensures LockGranted(Unlocked(s, f).fields, f, v, now)
    ensures UpdateAccepted(Unlocked(s, f).fields, f, v)
    ensures Unlocked(Unlocked(s, f), f) == Unlocked(s, f)
    ensures Unlocked(s, f).values == s.values
  {
  }

  /** An accepted update is what the next poll reports, exactly when the
      poll asks for changes strictly before the update time. */
  lemma PollSeesUpdate(s: FieldState, f: FieldId, value: string, u: UserId, t: int, since: int)
    ensures f in Poll(Updated(s, f, value, u, t), since).values <==> since < t
    ensures since < t ==> Poll(Updated(s, f, value, u, t), since).values[f] == FieldValue(value, u, t)
    ensures Poll(Updated(s, f, value, u, t), since).fields == s.fields
  {
  }

  /** A poll with an older watermark sees at least what a newer one sees. */
  lemma PollMonotone(s: FieldState, since1: int, since2: int)
    requires since1 <= since2
    ensures Poll(s, since2).values.Keys <= Poll(s, since1).values.Keys
  {
  }

  /** After the passive sweep no entry is expired, a second sweep changes
      nothing, and the forced sweep has nothing left to remove. */
  lemma PassiveSweepClean(fields: map<FieldId, FieldLock>, now: int)
    ensures ExpiredIds(Without(fields, ExpiredIds(fields, now)), now) == {}
    ensures StaleIds(Without(fields, ExpiredIds(fields, now))) == {}
  {
  }

  /** The forced sweep removes a subset of what the passive one does. */
  lemma StaleIsExpired(fields: map<FieldId, FieldLock>, now: int)
    ensures StaleIds(fields) <= ExpiredIds(fields, now)
  {
  }

  /** A lock granted to a non-empty user survives the passive sweep for
      `ExpiryAge` seconds. */
  lemma FreshLockSurvivesSweep(s: FieldState, f: FieldId, u: UserId, t: int, now: int)
    requires u != "" && now - t <= ExpiryAge
    ensures f in Without(Locked(s, f, u, t).fields, ExpiredIds(Locked(s, f, u, t).fields, now))
  {
  }

  /** The scenario: A locks at 0; B is refused the lock and the update at
      10; B takes the lock over at 130, after which A's renewal is refused. */
  lemma TwoUserScenario(s: FieldState, f: FieldId)
    ensures var a, b := "userA", "userB";
            var s0 := Locked(s, f, a, 0);
            !LockGranted(s0.fields, f, b, 10)
            && !UpdateAccepted(s0.fields, f, b)
            && LockGranted(s0.fields, f, b, 130)
            && !LockGranted(Locked(s0, f, b, 130).fields, f, a, 130)
  {
  }
}
