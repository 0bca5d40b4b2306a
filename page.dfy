/**
 * The page's controller: which section is visible, the logout confirmation
 * dialog, the album number field, the single message banner, the statistics
 * panel and the attendance grid, driven by the page's event handlers.
 *
 * The clock and the backend's answers are parameters of the handlers. An
 * asynchronous continuation (the delayed `login`, a fetch that completes
 * later) is a separate method the caller invokes when it would run.
 */
module PageController {
  import opened Wrappers
  import opened Records
  import opened AttendanceView
  import opened AlbumNumber
  import opened Sessions

  /** The login section or the attendance section (with the user bar). */
  datatype Screen = LoginScreen | AttendanceScreen

  /** The single message slot: showing an error hides the success message and vice versa. */
  datatype Banner = NoBanner | ErrorBanner(text: string) | SuccessBanner(text: string)

  /** The attendance grid: the "no attendance recorded" placeholder or one card per record. */
  datatype Grid = NoAttendance | Cards(records: seq<Attendance>)

  const MsgEmptyAlbum := "Proszę wprowadzić numer albumu"
  const MsgMalformedAlbum := "Numer albumu musi składać się z dokładnie 6 cyfr (np. 123456)"
  const MsgStudentDataMissing := "Błąd pobierania danych studenta. Spróbuj ponownie."
  const MsgLoggedOut := "Zostałeś pomyślnie wylogowany"

  function MsgUnknownStudent(album: string): (text: string) {
    "Nieprawidłowy numer albumu. Student o numerze " + album + " nie istnieje w systemie."
  }

  function MsgWelcome(student: Student): (text: string) {
    "Witaj " + student.firstName + " " + student.lastName + "!"
  }

  /**
   * The banner the submit handler leaves: an error for every way it stops,
   * a greeting when the student was found.
   */
  function SubmitBanner(outcome: SubmitOutcome): (b: Banner)
    ensures b.SuccessBanner? <==> outcome.Welcome?
    ensures !outcome.Welcome? ==> b.ErrorBanner?
    ensures outcome.Rejected? ==> (b.text == MsgEmptyAlbum <==> outcome.reason == EmptyAlbum)
    ensures outcome.UnknownStudent? ==> b == ErrorBanner(MsgUnknownStudent(outcome.album))
    ensures outcome.Welcome? ==> b == SuccessBanner(MsgWelcome(outcome.student))
  {
    match outcome
    case Rejected(EmptyAlbum) => ErrorBanner(MsgEmptyAlbum)
    case Rejected(MalformedAlbum) => ErrorBanner(MsgMalformedAlbum)
    case UnknownStudent(album) => ErrorBanner(MsgUnknownStudent(album))
    case StudentDataMissing(_) => ErrorBanner(MsgStudentDataMissing)
    case Welcome(student) => SuccessBanner(MsgWelcome(student))
  }

  class Page {
    const store: SessionStore
    var screen: Screen
    var dialogOpen: bool
    var albumValue: string
    var banner: Banner
    var stats: Stats
    var grid: Grid

    /** The page as loaded: login section shown, dialog hidden, empty field. */
    constructor (store: SessionStore)
      ensures this.store == store
      ensures screen == LoginScreen && !dialogOpen && albumValue == [] && banner == NoBanner
      ensures stats == NoStats && grid == NoAttendance
    {
      this.store := store;
      screen := LoginScreen;
      dialogOpen := false;
      albumValue := [];
      banner := NoBanner;
      stats := NoStats;
      grid := NoAttendance;
    }

    /** The records on the grid, in the order they are shown. */
    function Shown(): (records: seq<Attendance>)
      reads this
    {
      match grid
      case NoAttendance => []
      case Cards(records) => records
    }

    /**
     * The statistics panel and the grid show `records`: the counts of the
     * list, and all of its records, most recent first.
     */
    ghost predicate Displays(records: seq<Attendance>)
      reads this
    {
      && stats == ComputeStats(records)
      && (grid == NoAttendance <==> records == [])
      && multiset(Shown()) == multiset(records)
      && SortedDesc(Shown())
    }

    // -------------------------------------------------------------------------
    // Album number field and login form
    // -------------------------------------------------------------------------

    /**
     * The `input` handler, after the browser has put `typed` into the field:
     * the field is replaced by its sanitised value and both messages are hidden.
     */
    method OnAlbumInput(typed: string)
      modifies this
      ensures albumValue == Sanitise(typed)
      ensures banner == NoBanner
      ensures screen == old(screen) && dialogOpen == old(dialogOpen)
      ensures stats == old(stats) && grid == old(grid)
    {
      albumValue := Sanitise(typed);
      banner := NoBanner;
    }

    /**
     * The `submit` handler. `studentExists` and `studentData` are the answers
     * of the two backend calls. Returns the student that the delayed `login`
     * will receive, if any. Nothing is stored yet.
     */
    method OnSubmit(studentExists: string -> bool, studentData: string -> Option<Student>)
      returns (pending: Option<Student>)
      modifies this
      ensures banner == SubmitBanner(Submit(old(albumValue), studentExists, studentData))
      ensures pending.Some? <==> Submit(old(albumValue), studentExists, studentData).Welcome?
      ensures pending.Some? ==> pending.value == Submit(old(albumValue), studentExists, studentData).student
      ensures screen == old(screen) && dialogOpen == old(dialogOpen) && albumValue == old(albumValue)
      ensures stats == old(stats) && grid == old(grid)
      ensures unchanged(store)
    {
      pending := None;
      var album := Trim(albumValue);
      if album == [] {
        banner := ErrorBanner(MsgEmptyAlbum);
        return;
      }
      if !ValidateAlbumNumber(album) {
        banner := ErrorBanner(MsgMalformedAlbum);
        return;
      }
      if !studentExists(album) {
        banner := ErrorBanner(MsgUnknownStudent(album));
        return;
      }
      var student := studentData(album);
      if student.None? {
        banner := ErrorBanner(MsgStudentDataMissing);
        return;
      }
      banner := SuccessBanner(MsgWelcome(student.value));
      pending := student;
    }

    /**
     * `login(student)` at time `now`, with `attendancesOf` the backend's answer
     * to the attendance request for an index number: saves a fresh session,
     * shows the attendance section, displays the student's list and caches it
     * in the session, in displayed order.
     */
    method Login(student: Student, now: int, attendancesOf: string -> seq<Attendance>)
      modifies this, store
      ensures screen == AttendanceScreen
      ensures Displays(attendancesOf(student.indexNumber))
      ensures store.items == WithAttendances(Saved(old(store.items), student, now), Shown())
      ensures store.Current() == Some(Session(Some(student), now, Some(Shown())))
      ensures dialogOpen == old(dialogOpen) && albumValue == old(albumValue) && banner == old(banner)
    {
      store.Save(student, now);
      screen := AttendanceScreen;
      LoadStudentAttendances(attendancesOf(student.indexNumber));
    }

    /**
     * `loadStudentAttendances` once the fetch has returned `fetched` (an empty
     * list when the request failed): displays it, then stores the same array,
     * which the display has sorted in place.
     */
    method LoadStudentAttendances(fetched: seq<Attendance>)
      modifies this, store
      ensures Displays(fetched)
      ensures store.items == WithAttendances(old(store.items), Shown())
      ensures screen == old(screen) && dialogOpen == old(dialogOpen)
      ensures albumValue == old(albumValue) && banner == old(banner)
    {
      var a := new Attendance[|fetched|](i requires 0 <= i < |fetched| => fetched[i]);
      assert a[..] == fetched;
      DisplayAttendances(a);
      store.UpdateAttendances(a[..]);
    }

    /**
     * `displayAttendances(a)`: the placeholder and zero statistics for an empty
     * array; otherwise the statistics of the array, then the array sorted in
     * place, most recent first, and one card per record in that order.
     */
    method DisplayAttendances(a: array<Attendance>)
      modifies this, a
      ensures Displays(old(a[..]))
      ensures a.Length == 0 ==> grid == NoAttendance && stats == NoStats
      ensures a.Length > 0 ==> grid == Cards(a[..])
      ensures screen == old(screen) && dialogOpen == old(dialogOpen)
      ensures albumValue == old(albumValue) && banner == old(banner)
    {
      if a.Length == 0 {
        grid := NoAttendance;
        stats := NoStats;
        return;
      }
      stats := ComputeStats(a[..]);
      SortByMarkedAtDesc(a);
      grid := Cards(a[..]);
    }

    // -------------------------------------------------------------------------
    // Session restore on page load
    // -------------------------------------------------------------------------

    /**
     * `restoreSession` at time `now`. Clears an expired session; restores a
     * fresh one, displaying its cached list or, when there is none, starting
     * a fetch for the returned index number (its completion is
     * `LoadStudentAttendances`).
     */
    method RestoreSession(now: int) returns (restored: bool, fetchFor: Option<string>)
      modifies this, store
      ensures restored == IsRestored(RestoreDecision(old(store.Current()), now))
      ensures RestoreDecision(old(store.Current()), now) == Expire ==> store.items == Removed(old(store.items))
      ensures RestoreDecision(old(store.Current()), now) != Expire ==> store.items == old(store.items)
      ensures restored ==> screen == AttendanceScreen
      ensures !restored ==> screen == old(screen) && stats == old(stats) && grid == old(grid)
      ensures RestoreDecision(old(store.Current()), now).ShowCached? ==>
                Displays(RestoreDecision(old(store.Current()), now).records)
      ensures RestoreDecision(old(store.Current()), now).FetchFresh? <==> fetchFor.Some?
      ensures fetchFor.Some? ==> fetchFor.value == RestoreDecision(old(store.Current()), now).indexNumber
      ensures fetchFor.Some? ==> stats == old(stats) && grid == old(grid)
      ensures dialogOpen == old(dialogOpen) && albumValue == old(albumValue) && banner == old(banner)
    {
      fetchFor := None;
      var session := store.Get();
      if session.None? || session.value.student.None? {
        return false, None;
      }
      var student := session.value.student.value;
      var sessionAge := now - session.value.loginTime;
      if sessionAge > MaxAge {
        store.Clear();
        return false, None;
      }
      screen := AttendanceScreen;
      match session.value.attendances {
        case Some(records) =>
          var a := new Attendance[|records|](i requires 0 <= i < |records| => records[i]);
          assert a[..] == records;
          DisplayAttendances(a);
        case None =>
          fetchFor := Some(student.indexNumber);
      }
      restored := true;
    }

    // -------------------------------------------------------------------------
    // Logout confirmation dialog
    // -------------------------------------------------------------------------

    method ShowLogoutConfirmation()
      modifies this
      ensures dialogOpen
      ensures screen == old(screen) && albumValue == old(albumValue) && banner == old(banner)
      ensures stats == old(stats) && grid == old(grid)
    {
      dialogOpen := true;
    }

    /** Closes the dialog; the session is not touched. */
    method CancelLogout()
      modifies this
      ensures !dialogOpen
      ensures screen == old(screen) && albumValue == old(albumValue) && banner == old(banner)
      ensures stats == old(stats) && grid == old(grid)
      ensures unchanged(store)
    {
      dialogOpen := false;
    }

    /** The `keydown` handler: Escape cancels the logout, and only while the dialog is open. */
    method OnKeyDown(key: string)
      modifies this
      ensures dialogOpen == (old(dialogOpen) && key != "Escape")
      ensures screen == old(screen) && albumValue == old(albumValue) && banner == old(banner)
      ensures stats == old(stats) && grid == old(grid)
      ensures unchanged(store)
    {
      if key == "Escape" {
        if dialogOpen {
          CancelLogout();
        }
      }
    }

    /** A click on the dialog: cancels only when it lands on the dimmed background itself. */
    method OnDialogClick(onBackground: bool)
      modifies this
      ensures dialogOpen == (old(dialogOpen) && !onBackground)
      ensures screen == old(screen) && albumValue == old(albumValue) && banner == old(banner)
      ensures stats == old(stats) && grid == old(grid)
      ensures unchanged(store)
    {
      if onBackground {
        CancelLogout();
      }
    }

    /**
     * `confirmLogout`: removes the session, closes the dialog, returns to an
     * empty login form and reports the logout.
     */
    method ConfirmLogout()
      modifies this, store
      ensures store.items == Removed(old(store.items))
      ensures store.Current() == None
      ensures !dialogOpen
      ensures screen == LoginScreen && albumValue == []
      ensures banner == SuccessBanner(MsgLoggedOut)
      ensures stats == old(stats) && grid == old(grid)
    {
      store.Clear();
      dialogOpen := false;
      ShowLogin();
      banner := SuccessBanner(MsgLoggedOut);
    }

    /** `showLogin`: the login section with an empty field and no message. */
    method ShowLogin()
      modifies this
      ensures screen == LoginScreen && albumValue == [] && banner == NoBanner
      ensures dialogOpen == old(dialogOpen) && stats == old(stats) && grid == old(grid)
    {
      screen := LoginScreen;
      albumValue := [];
      banner := NoBanner;
    }
  }
}
