/**
 * The login session kept in the browser's `localStorage` under one key, and
 * the rule that decides, on page load, whether a stored session is restored.
 *
 * `localStorage` is a map from key to stored value; the client only ever
 * touches the entry under `SessionKey`. JSON encoding is not modelled: the
 * session is stored as a value.
 */
module Sessions {
  import opened Wrappers
  import opened Records

  const SessionKey := "zpoStrona_session"

  /** 24 hours in milliseconds: the oldest session that is still restored. */
  const MaxAge: int := 24 * 60 * 60 * 1000

  /**
   * The stored session. `student` is optional because the restore code
   * tests it before use; `attendances` is `None` until the first fetch
   * completes (JSON `null`).
   */
  datatype Session = Session(
    student: Option<Student>,
    loginTime: int,
    attendances: Option<seq<Attendance>>)

  /** The browser storage of the page's origin. */
  type Storage = map<string, Session>

  // ---------------------------------------------------------------------------
  // The four store operations, on the storage map
  // ---------------------------------------------------------------------------

  /** `getSession`: the session under the key, or `null`. */
  function Lookup(m: Storage): (r: Option<Session>)
    ensures r.Some? <==> SessionKey in m
    ensures r.Some? ==> r.value == m[SessionKey]
  {
    if SessionKey in m then Some(m[SessionKey]) else None
  }

  /** Every entry other than the session's is the same in `m` and `m'`. */
  ghost predicate OthersUnchanged(m: Storage, m': Storage) {
    forall k :: k != SessionKey ==> (k in m <==> k in m') && (k in m ==> m[k] == m'[k])
  }

  /**
   * `saveSession(student)` at time `now`: a fresh session with no cached
   * attendances replaces whatever was stored.
   */
  function Saved(m: Storage, student: Student, now: int): (m': Storage)
    ensures Lookup(m') == Some(Session(Some(student), now, None))
    ensures OthersUnchanged(m, m')
  {
    m[SessionKey := Session(Some(student), now, None)]
  }

  /** `clearSession`: the session entry is removed, unconditionally. */
  function Removed(m: Storage): (m': Storage)
    ensures Lookup(m') == None
    ensures OthersUnchanged(m, m')
  {
    m - {SessionKey}
  }

  /**
   * `updateSessionAttendances(records)`: when a session is stored, only its
   * attendance snapshot is replaced; with no session nothing happens.
   */
  function WithAttendances(m: Storage, records: seq<Attendance>): (m': Storage)
    ensures Lookup(m).None? ==> m' == m
    ensures Lookup(m).Some? ==> Lookup(m').Some?
                                && Lookup(m').value.student == Lookup(m).value.student
                                && Lookup(m').value.loginTime == Lookup(m).value.loginTime
                                && Lookup(m').value.attendances == Some(records)
    ensures OthersUnchanged(m, m')
  {
    match Lookup(m)
    case None => m
    case Some(session) => m[SessionKey := session.(attendances := Some(records))]
  }

  /** After a save, a first attendance update leaves a complete session behind. */
  lemma SaveThenUpdate(m: Storage, student: Student, now: int, records: seq<Attendance>)
    ensures Lookup(WithAttendances(Saved(m, student, now), records))
            == Some(Session(Some(student), now, Some(records)))
  {
  }

  /** A later save wins over an earlier one, whatever happened in between. */
  lemma SaveOverwrites(m: Storage, s1: Student, t1: int, records: seq<Attendance>, s2: Student, t2: int)
    ensures Saved(WithAttendances(Saved(m, s1, t1), records), s2, t2) == Saved(m, s2, t2)
  {
  }

  /** Once the session is cleared, updating attendances does not bring it back. */
  lemma UpdateAfterClear(m: Storage, records: seq<Attendance>)
    ensures WithAttendances(Removed(m), records) == Removed(m)
  {
  }

  /** Clearing twice is clearing once. */
  lemma ClearIdempotent(m: Storage)
    ensures Removed(Removed(m)) == Removed(m)
  {
  }

  // ---------------------------------------------------------------------------
  // The store as the page sees it
  // ---------------------------------------------------------------------------

  /** `localStorage`, updated in place by the session functions. */
  class SessionStore {
    var items: Storage

    /** The storage the page finds when it loads. */
    constructor (initial: Storage)
      ensures items == initial
    {
      items := initial;
    }

    /** The stored session, if any. */
    function Current(): (session: Option<Session>)
      reads this
    {
      Lookup(items)
    }

    method Save(student: Student, now: int)
      modifies this
      ensures items == Saved(old(items), student, now)
      ensures Current() == Some(Session(Some(student), now, None))
    {
      items := Saved(items, student, now);
    }

    method Get() returns (session: Option<Session>)
      ensures session == Current()
      ensures session.Some? <==> SessionKey in items
    {
      session := Lookup(items);
    }

    method Clear()
      modifies this
      ensures items == Removed(old(items))
      ensures Current() == None
    {
      items := Removed(items);
    }

    method UpdateAttendances(records: seq<Attendance>)
      modifies this
      ensures items == WithAttendances(old(items), records)
    {
      var session := Get();
      if session.Some? {
        items := items[SessionKey := session.value.(attendances := Some(records))];
      }
    }
  }

  // ---------------------------------------------------------------------------
  // Restoring a session on page load
  // ---------------------------------------------------------------------------

  /** What `restoreSession` does with what it finds in storage. */
  datatype RestoreAction =
    | NothingToRestore                    // no session, or one without a student
    | Expire                              // too old: clear it and stay logged out
    | ShowCached(records: seq<Attendance>) // restore and display the stored list
    | FetchFresh(indexNumber: string)     // restore and fetch the list anew

  predicate IsRestored(a: RestoreAction) {
    a.ShowCached? || a.FetchFresh?
  }

  /** Older than `MaxAge` at time `now`; exactly `MaxAge` old is still fine. */
  predicate Expired(session: Session, now: int) {
    now - session.loginTime > MaxAge
  }

  /**
   * The decision `restoreSession` takes at time `now`. A stored attendance
   * list, even an empty one, is displayed as it is (an array is truthy);
   * only a missing list leads to a fetch.
   */
  function RestoreDecision(stored: Option<Session>, now: int): (a: RestoreAction)
    ensures a == NothingToRestore <==> stored.None? || stored.value.student.None?
    ensures a == Expire <==> stored.Some? && stored.value.student.Some? && Expired(stored.value, now)
    ensures IsRestored(a) ==> stored.Some? && stored.value.student.Some?
                              && now - stored.value.loginTime <= MaxAge
    ensures a.ShowCached? <==> IsRestored(a) && stored.value.attendances.Some?
    ensures a.ShowCached? ==> a.records == stored.value.attendances.value
    ensures a.FetchFresh? ==> a.indexNumber == stored.value.student.value.indexNumber
  {
    match stored
    case None => NothingToRestore
    case Some(session) =>
      match session.student
      case None => NothingToRestore
      case Some(student) =>
        if Expired(session, now) then Expire
        else match session.attendances
          case Some(records) => ShowCached(records)
          case None => FetchFresh(student.indexNumber)
  }

  /** The boundary: a session is restored up to and including exactly 24 hours. */
  lemma ExpiryBoundary(session: Session)
    requires session.student.Some?
    ensures IsRestored(RestoreDecision(Some(session), session.loginTime + MaxAge))
    ensures RestoreDecision(Some(session), session.loginTime + MaxAge + 1) == Expire
  {
  }

  /** Once expired, a session stays expired as time goes on. */
  lemma ExpiryIsFinal(stored: Option<Session>, now: int, later: int)
    requires now <= later
    requires RestoreDecision(stored, now) == Expire
    ensures RestoreDecision(stored, later) == Expire
  {
  }

  /**
   * A list that came back empty (also what a failed fetch yields) is cached
   * like any other: restoring within the 24 hours shows it and fetches nothing.
   */
  lemma EmptyListIsNotRefetched(m: Storage, student: Student, now: int, later: int)
    requires now <= later <= now + MaxAge
    ensures RestoreDecision(Lookup(WithAttendances(Saved(m, student, now), [])), later) == ShowCached([])
  {
  }

  /** Saving and restoring within the 24 hours always leads to a fresh fetch. */
  lemma RestoreAfterSave(m: Storage, student: Student, now: int, later: int)
    requires now <= later <= now + MaxAge
    ensures RestoreDecision(Lookup(Saved(m, student, now)), later) == FetchFresh(student.indexNumber)
  {
  }
}
