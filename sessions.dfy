/** The session registry (backend/modules/session_manager.py): one directory
    per session holding its metadata file and its field record, plus a global
    index file listing the sessions. */
module Sessions {
  import opened Common
  import opened FieldRecord

  type SessionCode = string

  datatype Session = Session(
    code: SessionCode,
    name: string,
    description: string,
    createdAt: int,
    lastAccessedAt: int,
    participantCount: int)

  /** A session directory. `meta` is None when session_meta.json is missing,
      blank or unreadable; `fieldStates` is None when field_states.json is. */
  datatype SessionDir = SessionDir(meta: Option<Session>, fieldStates: Option<FieldState>)

  /** The sessions that survive cleanup_empty_sessions, in index order. */
  function Active(list: seq<Session>): (r: seq<Session>)
    ensures |r| <= |list|
  {
    if list == [] then []
    else
      var last := list[|list| - 1];
      Active(list[..|list| - 1]) + (if last.participantCount > 0 then [last] else [])
  }

  /** The surviving entries are exactly the entries with a participant. */
  lemma {:induction false} ActiveMembers(list: seq<Session>, s: Session)
    ensures s in Active(list) <==> s in list && s.participantCount > 0
  {
    if list != [] {
      var n := |list| - 1;
      ActiveMembers(list[..n], s);
      assert list == list[..n] + [list[n]];
    }
  }

  /** The codes of the index entries that cleanup_empty_sessions removes. */
  function EmptyCodes(list: seq<Session>): set<SessionCode>
  {
    if list == [] then {}
    else
      var last := list[|list| - 1];
      EmptyCodes(list[..|list| - 1]) + (if last.participantCount <= 0 then {last.code} else {})
  }

  /** The removed codes are exactly those of the entries with no participant. */
  lemma {:induction false} EmptyCodesMembers(list: seq<Session>, c: SessionCode)
    ensures c in EmptyCodes(list) <==> exists i | 0 <= i < |list| :: list[i].participantCount <= 0 && list[i].code == c
  {
    if list != [] {
      var n := |list| - 1;
      EmptyCodesMembers(list[..n], c);
      if c in EmptyCodes(list[..n]) {
        var i :| 0 <= i < n && list[..n][i].participantCount <= 0 && list[..n][i].code == c;
        assert list[i] == list[..n][i];
      }
      if i :| 0 <= i < |list| && list[i].participantCount <= 0 && list[i].code == c {
        if i < n {
          assert list[..n][i] == list[i];
        }
      }
    }
  }

  function RemoveCodes(dirs: map<SessionCode, SessionDir>, codes: set<SessionCode>): (r: map<SessionCode, SessionDir>)
    ensures r.Keys == dirs.Keys - codes
    ensures forall c | c in r :: r[c] == dirs[c]
  {
    map c | c in dirs && c !in codes :: dirs[c]
  }

  function WithoutCode(list: seq<Session>, code: SessionCode): (r: seq<Session>)
    ensures forall s | s in r :: s in list && s.code != code
    ensures forall s | s in list && s.code != code :: s in r
  {
    if list == [] then []
    else (if list[0].code != code then [list[0]] else []) + WithoutCode(list[1..], code)
  }

  function Codes(list: seq<Session>): set<SessionCode>
  {
    set s | s in list :: s.code
  }

  lemma SameCodes(a: seq<Session>, b: seq<Session>)
    requires multiset(a) == multiset(b)
    ensures Codes(a) == Codes(b)
  {
    forall c | c in Codes(a) ensures c in Codes(b) {
      var s :| s in a && s.code == c;
      assert s in multiset(b);
    }
    forall c | c in Codes(b) ensures c in Codes(a) {
      var s :| s in b && s.code == c;
      assert s in multiset(a);
    }
  }

  /** Sorted by createdAt, newest first. */
  predicate NewestFirst(list: seq<Session>)
  {
    forall i, j | 0 <= i < j < |list| :: list[i].createdAt >= list[j].createdAt
  }

  /** Inserts `x` in front of the first entry that is not newer than it. */
  function InsertNewestFirst(x: Session, list: seq<Session>): (r: seq<Session>)
  {
    if list == [] || list[0].createdAt <= x.createdAt then [x] + list
    else [list[0]] + InsertNewestFirst(x, list[1..])
  }

  /** Python `sorted(list, key=createdAt, reverse=True)`, a stable insertion sort. */
  function SortNewestFirst(list: seq<Session>): seq<Session>
  {
    if list == [] then [] else InsertNewestFirst(list[0], SortNewestFirst(list[1..]))
  }

  lemma {:induction false} InsertNewestFirstPerm(x: Session, list: seq<Session>)
    ensures multiset(InsertNewestFirst(x, list)) == multiset(list) + multiset{x}
  {
    if list != [] && list[0].createdAt > x.createdAt {
      InsertNewestFirstPerm(x, list[1..]);
      assert list == [list[0]] + list[1..];
    }
  }

  lemma {:induction false} InsertNewestFirstCorrect(x: Session, list: seq<Session>)
    requires NewestFirst(list)
    ensures NewestFirst(InsertNewestFirst(x, list))
    ensures multiset(InsertNewestFirst(x, list)) == multiset(list) + multiset{x}
  {
    InsertNewestFirstPerm(x, list);
    if list == [] || list[0].createdAt <= x.createdAt {
      SortedCons(x, list);
    } else {
      var tail := InsertNewestFirst(x, list[1..]);
      InsertNewestFirstCorrect(x, list[1..]);
      forall k | 0 <= k < |tail| ensures list[0].createdAt >= tail[k].createdAt {
        assert tail[k] in multiset(list[1..]) + multiset{x};
        if tail[k] != x {
          assert tail[k] in list[1..];
        }
      }
      SortedCons(list[0], tail);
    }
  }

  /** The entries created at time `t`, in list order. */
  function CreatedAt(list: seq<Session>, t: int): (r: seq<Session>)
    ensures |r| <= |list|
  {
    if list == [] then []
    else (if list[0].createdAt == t then [list[0]] else []) + CreatedAt(list[1..], t)
  }

  /** Insertion puts `x` in front of the entries created at its own time,
      and keeps the order of every time's entries. */
  lemma {:induction false} InsertNewestFirstStable(x: Session, list: seq<Session>, t: int)
    ensures CreatedAt(InsertNewestFirst(x, list), t)
            == (if x.createdAt == t then [x] else []) + CreatedAt(list, t)
  {
    if list == [] || list[0].createdAt <= x.createdAt {
      var r := [x] + list;
      assert r[0] == x && r[1..] == list;
    } else {
      var r := [list[0]] + InsertNewestFirst(x, list[1..]);
      assert r[0] == list[0] && r[1..] == InsertNewestFirst(x, list[1..]);
      InsertNewestFirstStable(x, list[1..], t);
    }
  }

  /** The sort is stable: the entries created at any one time keep their
      input order, as Python's `sorted` guarantees with `reverse=True`. */
  lemma {:induction false} SortNewestFirstStable(list: seq<Session>, t: int)
    ensures CreatedAt(SortNewestFirst(list), t) == CreatedAt(list, t)
  {
    if list != [] {
      SortNewestFirstStable(list[1..], t);
      InsertNewestFirstStable(list[0], SortNewestFirst(list[1..]), t);
    }
  }

  lemma SortedCons(h: Session, tail: seq<Session>)
    requires NewestFirst(tail)
    requires forall k | 0 <= k < |tail| :: h.createdAt >= tail[k].createdAt
    ensures NewestFirst([h] + tail)
  {
    var l := [h] + tail;
    forall i, j | 0 <= i < j < |l| ensures l[i].createdAt >= l[j].createdAt {
      if i > 0 {
        assert l[i] == tail[i - 1] && l[j] == tail[j - 1];
      } else {
        assert l[j] == tail[j - 1];
      }
    }
  }

  /** The list_sessions ordering: newest first, and the same entries. */
  lemma {:induction false} SortNewestFirstCorrect(list: seq<Session>)
    ensures NewestFirst(SortNewestFirst(list))
    ensures multiset(SortNewestFirst(list)) == multiset(list)
  {
    if list != [] {
      SortNewestFirstCorrect(list[1..]);
      InsertNewestFirstCorrect(list[0], SortNewestFirst(list[1..]));
      assert list == [list[0]] + list[1..];
    }
  }

  class SessionStore {
    /** The session directories that exist. */
    var dirs: map<SessionCode, SessionDir>
    /** The entries of sessions_index.json, in file order. */
    var index: seq<Session>

    constructor ()
      ensures dirs == map[] && index == []
    {
      dirs := map[];
      index := [];
    }

    /** get_session: reads the metadata file; rewrites its lastAccessedAt only
        when `updateAccessTime` is set. The index file is never touched. */
    method GetSession(code: SessionCode, updateAccessTime: bool, now: int) returns (r: Option<Session>)
      modifies this
      ensures index == old(index)
      ensures r.Some? <==> code in old(dirs) && old(dirs)[code].meta.Some?
      ensures r.Some? ==> r.value == (var s := old(dirs)[code].meta.value;
                                      if updateAccessTime then s.(lastAccessedAt := now) else s)
      ensures r.Some? && updateAccessTime ==> dirs == old(dirs)[code := old(dirs)[code].(meta := r)]
      ensures r.None? || !updateAccessTime ==> dirs == old(dirs)
    {
      if code !in dirs || dirs[code].meta.None? {
        return None;
      }
      var session := dirs[code].meta.value;
      if updateAccessTime {
        session := session.(lastAccessedAt := now);
        dirs := dirs[code := dirs[code].(meta := Some(session))];
      }
      r := Some(session);
    }

    /** increment_participant_count: one more participant, access time now;
        the first index entry with the same code is replaced by the new metadata. */
    method IncrementParticipantCount(code: SessionCode, now: int)
      modifies this
      ensures code !in old(dirs) || old(dirs)[code].meta.None? ==> dirs == old(dirs) && index == old(index)
      ensures code in old(dirs) && old(dirs)[code].meta.Some? ==>
        var s := old(dirs)[code].meta.value;
        var s' := s.(participantCount := s.participantCount + 1, lastAccessedAt := now);
        dirs == old(dirs)[code := old(dirs)[code].(meta := Some(s'))]
        && index == ReplaceFirstSpec(old(index), code, s')
    {
      if code !in dirs || dirs[code].meta.None? {
        return;
      }
      var s := dirs[code].meta.value;
      var updated := s.(participantCount := s.participantCount + 1, lastAccessedAt := now);
      dirs := dirs[code := dirs[code].(meta := Some(updated))];
      index := ReplaceFirst(index, code, updated);
    }

    /** decrement_participant_count: one participant fewer but never below
        zero, access time now; the index entry is replaced as for increment. */
    method DecrementParticipantCount(code: SessionCode, now: int)
      modifies this
      ensures code !in old(dirs) || old(dirs)[code].meta.None? ==> dirs == old(dirs) && index == old(index)
      ensures code in old(dirs) && old(dirs)[code].meta.Some? ==>
        var s := old(dirs)[code].meta.value;
        var s' := s.(participantCount := Decremented(s.participantCount), lastAccessedAt := now);
        dirs == old(dirs)[code := old(dirs)[code].(meta := Some(s'))]
        && index == ReplaceFirstSpec(old(index), code, s')
    {
      if code !in dirs || dirs[code].meta.None? {
        return;
      }
      var s := dirs[code].meta.value;
      var updated := s.(participantCount := Decremented(s.participantCount), lastAccessedAt := now);
      dirs := dirs[code := dirs[code].(meta := Some(updated))];
      index := ReplaceFirst(index, code, updated);
    }

    /** cleanup_empty_sessions: removes the directory of every indexed session
        with no participant, keeps exactly the others in the index, and
        returns how many index entries were dropped. */
    method CleanupEmptySessions() returns (removed: nat)
      modifies this
      ensures index == Active(old(index))
      ensures removed == |old(index)| - |index|
      ensures dirs == RemoveCodes(old(dirs), EmptyCodes(old(index)))
    {
      var sessions := index;
      var active: seq<Session> := [];
      ghost var gone: set<SessionCode> := {};
      removed := 0;
      var i := 0;
      while i < |sessions|
        invariant 0 <= i <= |sessions|
        invariant active == Active(sessions[..i])
        invariant removed == i - |active|
        invariant gone == EmptyCodes(sessions[..i])
        invariant dirs == RemoveCodes(old(dirs), gone)
        invariant index == sessions
      {
        CleanupStep(sessions, i);
        var s := sessions[i];
        if s.participantCount <= 0 {
          RemoveOneMore(old(dirs), gone, dirs, s.code);
          if s.code in dirs {
            dirs := dirs - {s.code};
          }
          gone := gone + {s.code};
          removed := removed + 1;
        } else {
          active := active + [s];
        }
        i := i + 1;
      }
      assert sessions[..i] == sessions;
      if removed > 0 {
        index := active;
      } else {
        ActiveAll(sessions);
      }
    }

    /** list_sessions: after the cleanup, the sessions with at least one
        participant, newest first. */
    method ListSessions() returns (r: seq<Session>)
      modifies this
      ensures index == Active(old(index))
      ensures dirs == RemoveCodes(old(dirs), EmptyCodes(old(index)))
      ensures forall s | s in r :: s.participantCount >= 1
      ensures NewestFirst(r)
      ensures multiset(r) == multiset(Active(old(index)))
      ensures forall t :: CreatedAt(r, t) == CreatedAt(Active(old(index)), t)
    {
      var _ := CleanupEmptySessions();
      forall s | s in index ensures s.participantCount > 0 {
        ActiveMembers(old(index), s);
      }
      var live := AtLeastOne(index);
      AtLeastOneKeepsPositive(index);
      r := SortNewestFirst(live);
      SortNewestFirstCorrect(live);
      forall t ensures CreatedAt(r, t) == CreatedAt(Active(old(index)), t) {
        SortNewestFirstStable(live, t);
      }
      forall s | s in r ensures s.participantCount >= 1 {
        assert s in multiset(r);
        assert s in live;
      }
    }

    /** create_session: draws codes until one is not used by a listed session,
        then writes the metadata (one participant, created and accessed now)
        and appends it to the index. `draws` stands for the random code
        generator; the model returns None only if every draw collides. */
    method CreateSession(name: string, description: Option<string>, now: int, draws: seq<SessionCode>)
      returns (r: Option<Session>)
      modifies this
      ensures r.Some? ==> r.value.code !in Codes(Active(old(index)))
      ensures r.Some? ==> r.value.participantCount == 1
      ensures r.Some? ==> r.value.createdAt == now && r.value.lastAccessedAt == now
      ensures r.Some? ==> r.value.name == name
      ensures r.Some? ==> r.value.description == (if description.Some? then description.value else "")
      ensures r.Some? ==> index == Active(old(index)) + [r.value]
      ensures r.Some? ==> r.value.code in dirs && dirs[r.value.code].meta == r
      ensures r.None? <==> forall d | d in draws :: d in Codes(Active(old(index)))
      ensures r.None? ==> index == Active(old(index)) && dirs == RemoveCodes(old(dirs), EmptyCodes(old(index)))
      ensures r.Some? ==>
                var cleaned := RemoveCodes(old(dirs), EmptyCodes(old(index)));
                dirs == cleaned[r.value.code := SessionDir(r, if r.value.code in cleaned then cleaned[r.value.code].fieldStates else None)]
    {
      var existing := ListSessions();
      var existingCodes := Codes(existing);
      SameCodes(existing, Active(old(index)));
      var drawn := DrawCode(draws, existingCodes);
      if drawn.None? {
        return None;
      }
      var code := drawn.value;
      var session := Session(code, name, if description.Some? then description.value else "", now, now, 1);
      var carried := if code in dirs then dirs[code].fieldStates else None;
      dirs := dirs[code := SessionDir(Some(session), carried)];
      index := index + [session];
      r := Some(session);
    }

    /** delete_session: false for a code with no directory; otherwise removes
        the directory (metadata and field record) and every index entry with
        that code. */
    method DeleteSession(code: SessionCode) returns (ok: bool)
      modifies this
      ensures ok <==> code in old(dirs)
      ensures !ok ==> dirs == old(dirs) && index == old(index)
      ensures ok ==> dirs == old(dirs) - {code} && index == WithoutCode(old(index), code)
    {
      if code !in dirs {
        return false;
      }
      dirs := dirs - {code};
      index := WithoutCode(index, code);
      ok := true;
    }
  }

  /** The `while session_code in existing_codes` loop of create_session:
      the first draw not among `taken`. `draws` stands for the successive
      results of the random code generator. */
  method DrawCode(draws: seq<SessionCode>, taken: set<SessionCode>) returns (r: Option<SessionCode>)
    ensures r.None? <==> forall d | d in draws :: d in taken
    ensures r.Some? ==> exists k | 0 <= k < |draws| :: draws[k] == r.value && r.value !in taken
                          && forall j | 0 <= j < k :: draws[j] in taken
  {
    if draws == [] {
      return None;
    }
    var k := 0;
    while draws[k] in taken
      invariant 0 <= k < |draws|
      invariant forall j | 0 <= j < k :: draws[j] in taken
      decreases |draws| - k
    {
      if k + 1 == |draws| {
        return None;
      }
      k := k + 1;
    }
    r := Some(draws[k]);
  }

  /** `max(0, count - 1)`. */
  function Decremented(count: int): (r: int)
    ensures r >= 0
    ensures count >= 1 ==> r == count - 1
    ensures count <= 0 ==> r == 0
  {
    if count - 1 < 0 then 0 else count - 1
  }

  /** The index after the first entry with `code` is replaced by `s`. */
  function ReplaceFirstSpec(list: seq<Session>, code: SessionCode, s: Session): seq<Session>
  {
    if list == [] then []
    else if list[0].code == code then [s] + list[1..]
    else [list[0]] + ReplaceFirstSpec(list[1..], code, s)
  }

  /** Dropping a code from the index forgets how its first entry was
      rewritten, as long as the new entry carries the same code. */
  lemma {:induction false} WithoutReplacedFirst(list: seq<Session>, code: SessionCode, s: Session)
    requires s.code == code
    ensures WithoutCode(ReplaceFirstSpec(list, code, s), code) == WithoutCode(list, code)
  {
    if list != [] {
      var r := ReplaceFirstSpec(list, code, s);
      if list[0].code == code {
        assert r[0] == s && r[1..] == list[1..];
        assert WithoutCode(r, code) == WithoutCode(list[1..], code);
      } else {
        assert r[0] == list[0] && r[1..] == ReplaceFirstSpec(list[1..], code, s);
        WithoutReplacedFirst(list[1..], code, s);
      }
    }
  }

  /** The loop of increment/decrement_participant_count that replaces the
      first index entry carrying `code` and stops. */
  method ReplaceFirst(list: seq<Session>, code: SessionCode, s: Session) returns (r: seq<Session>)
    ensures r == ReplaceFirstSpec(list, code, s)
  {
    r := list;
    var i := 0;
    while i < |list|
      invariant 0 <= i <= |list|
      invariant ReplaceFirstSpec(list, code, s) == list[..i] + ReplaceFirstSpec(list[i..], code, s)
    {
      ReplaceFirstStep(list, code, s, i);
      if list[i].code == code {
        r := list[i := s];
        return;
      }
      i := i + 1;
    }
    assert list[i..] == [];
  }

  /** One step of the loop: the entry at `i` is replaced and the loop
      stops, or it is kept and the search goes on. */
  lemma ReplaceFirstStep(list: seq<Session>, code: SessionCode, s: Session, i: nat)
    requires i < |list|
    requires ReplaceFirstSpec(list, code, s) == list[..i] + ReplaceFirstSpec(list[i..], code, s)
    ensures list[i].code == code ==> ReplaceFirstSpec(list, code, s) == list[i := s]
    ensures list[i].code != code ==> ReplaceFirstSpec(list, code, s) == list[..i + 1] + ReplaceFirstSpec(list[i + 1..], code, s)
  {
    assert list[i..] == [list[i]] + list[i + 1..];
    if list[i].code == code {
      assert list[i := s] == list[..i] + [s] + list[i + 1..];
    } else {
      assert list[..i + 1] == list[..i] + [list[i]];
    }
  }

  /** Replacing replaces the first entry with the code and nothing else; a
      list without the code is left as it is. */
  lemma {:induction false} ReplaceFirstSpecFirst(list: seq<Session>, code: SessionCode, s: Session, i: nat)
    requires i < |list| && list[i].code == code
    requires forall j | 0 <= j < i :: list[j].code != code
    ensures ReplaceFirstSpec(list, code, s) == list[i := s]
  {
    if i > 0 {
      ReplaceFirstSpecFirst(list[1..], code, s, i - 1);
      assert list[i := s] == [list[0]] + list[1..][i - 1 := s];
    }
  }

  lemma {:induction false} ReplaceFirstSpecAbsent(list: seq<Session>, code: SessionCode, s: Session)
    requires forall j | 0 <= j < |list| :: list[j].code != code
    ensures ReplaceFirstSpec(list, code, s) == list
  {
    if list != [] {
      ReplaceFirstSpecAbsent(list[1..], code, s);
      assert list == [list[0]] + list[1..];
    }
  }

  /** The list comprehension of list_sessions: entries with participantCount >= 1. */
  function AtLeastOne(list: seq<Session>): (r: seq<Session>)
    ensures forall s | s in r :: s in list && s.participantCount >= 1
  {
    if list == [] then []
    else (if list[0].participantCount >= 1 then [list[0]] else []) + AtLeastOne(list[1..])
  }

  lemma AtLeastOneKeepsPositive(list: seq<Session>)
    requires forall s | s in list :: s.participantCount > 0
    ensures AtLeastOne(list) == list
  {
    if list != [] {
      AtLeastOneKeepsPositive(list[1..]);
    }
  }

  lemma ActiveAppend(list: seq<Session>, s: Session)
    ensures Active(list + [s]) == Active(list) + (if s.participantCount > 0 then [s] else [])
  {
    assert (list + [s])[..|list|] == list;
  }

  /** Removing one more directory, if it still exists, is removing one
      more code. */
  lemma RemoveOneMore(dirs: map<SessionCode, SessionDir>, codes: set<SessionCode>,
                      current: map<SessionCode, SessionDir>, c: SessionCode)
    requires current == RemoveCodes(dirs, codes)
    ensures (if c in current then current - {c} else current) == RemoveCodes(dirs, codes + {c})
  {
  }

  lemma {:induction false} ActiveAll(list: seq<Session>)
    requires |Active(list)| == |list|
    ensures Active(list) == list
  {
    if list != [] {
      var n := |list| - 1;
      ActiveAll(list[..n]);
      assert list == list[..n] + [list[n]];
    }
  }

  /** What one more index entry adds to the kept entries and the removed codes. */
  lemma CleanupStep(sessions: seq<Session>, i: nat)
    requires i < |sessions|
    ensures Active(sessions[..i + 1]) == Active(sessions[..i]) + (if sessions[i].participantCount > 0 then [sessions[i]] else [])
    ensures sessions[i].participantCount <= 0 ==> EmptyCodes(sessions[..i + 1]) == EmptyCodes(sessions[..i]) + {sessions[i].code}
    ensures sessions[i].participantCount > 0 ==> EmptyCodes(sessions[..i + 1]) == EmptyCodes(sessions[..i])
  {
    assert sessions[..i + 1] == sessions[..i] + [sessions[i]];
    assert sessions[..i + 1][..i] == sessions[..i];
    ActiveAppend(sessions[..i], sessions[i]);
  }
}
