/**
 * The computations under `displayAttendances`: counts by status, the status
 * lookup table used for each card, and the in-place sort that puts the most
 * recently marked record first.
 */
module AttendanceView {
  import opened Records

  // ---------------------------------------------------------------------------
  // Statistics
  // ---------------------------------------------------------------------------

  /** The four numbers written into the statistics panel. */
  datatype Stats = Stats(total: nat, present: nat, late: nat, absent: nat)

  const NoStats := Stats(0, 0, 0, 0)

  /** How many records carry exactly this status string (the filter count). */
  function Count(records: seq<Attendance>, status: string): (n: nat)
    ensures n <= |records|
    ensures n == 0 <==> forall i :: 0 <= i < |records| ==> records[i].status != status
  {
    if records == [] then 0
    else (if records[0].status == status then 1 else 0) + Count(records[1..], status)
  }

  /** The statuses of the records, in order. */
  function StatusesOf(records: seq<Attendance>): (r: seq<string>)
    ensures |r| == |records|
    ensures forall i :: 0 <= i < |records| ==> r[i] == records[i].status
  {
    seq(|records|, i requires 0 <= i < |records| => records[i].status)
  }

  /** A filter count is the multiplicity of the status among all statuses. */
  lemma {:induction false} CountIsMultiplicity(records: seq<Attendance>, status: string)
    ensures Count(records, status) == multiset(StatusesOf(records))[status]
  {
    if records != [] {
      CountIsMultiplicity(records[1..], status);
      assert StatusesOf(records) == [records[0].status] + StatusesOf(records[1..]);
    }
  }

  lemma {:induction false} CountAppend(x: seq<Attendance>, y: seq<Attendance>, status: string)
    ensures Count(x + y, status) == Count(x, status) + Count(y, status)
  {
    if x == [] {
      assert x + y == y;
    } else {
      assert (x + y)[1..] == x[1..] + y;
      CountAppend(x[1..], y, status);
    }
  }

  /** Removing the record at `i` removes its contribution to the count and nothing else. */
  lemma CountRemove(b: seq<Attendance>, i: nat, status: string)
    requires i < |b|
    ensures Count(b, status) == Count(b[..i] + b[i + 1..], status) + (if b[i].status == status then 1 else 0)
    ensures multiset(b[..i] + b[i + 1..]) == multiset(b) - multiset{b[i]}
  {
    assert b == b[..i] + ([b[i]] + b[i + 1..]);
    CountAppend(b[..i], [b[i]] + b[i + 1..], status);
    CountAppend([b[i]], b[i + 1..], status);
    CountAppend(b[..i], b[i + 1..], status);
    assert multiset(b) == multiset(b[..i]) + multiset{b[i]} + multiset(b[i + 1..]);
  }

  /** Counts do not depend on the order of the records. */
  lemma {:induction false} CountPermutation(a: seq<Attendance>, b: seq<Attendance>, status: string)
    requires multiset(a) == multiset(b)
    ensures Count(a, status) == Count(b, status)
  {
    if a == [] {
      assert |multiset(b)| == 0;
    } else {
      assert a == [a[0]] + a[1..];
      assert multiset(a[1..]) == multiset(a) - multiset{a[0]};
      assert a[0] in multiset(b);
      var i :| 0 <= i < |b| && b[i] == a[0];
      CountRemove(b, i, status);
      CountPermutation(a[1..], b[..i] + b[i + 1..], status);
    }
  }

  /**
   * The statistics `displayAttendances` shows: all zeros for an empty list
   * (its early return), otherwise the length and the three filter counts.
   */
  function ComputeStats(records: seq<Attendance>): (r: Stats)
    ensures r.total == |records|
    ensures r.present + r.late + r.absent <= r.total
    ensures records == [] ==> r == NoStats
  {
    if |records| == 0 then NoStats
    else
      RecognisedCountsBounded(records);
      Stats(|records|, Count(records, PRESENT), Count(records, LATE), Count(records, ABSENT))
  }

  /**
   * The three counts never exceed the total, and add up to it exactly when
   * every status is one of the three recognised ones.
   */
  lemma {:induction false} RecognisedCountsBounded(records: seq<Attendance>)
    ensures Count(records, PRESENT) + Count(records, LATE) + Count(records, ABSENT) <= |records|
    ensures (Count(records, PRESENT) + Count(records, LATE) + Count(records, ABSENT) == |records|)
            <==> (forall i :: 0 <= i < |records| ==> IsRecognised(records[i].status))
  {
    if records != [] {
      RecognisedCountsBounded(records[1..]);
      assert forall i :: 1 <= i < |records| ==> records[i] == records[1..][i - 1];
    }
  }

  /** The statistics of a record list say exactly how many records have each status. */
  lemma StatsAreMultiplicities(records: seq<Attendance>)
    ensures ComputeStats(records).present == multiset(StatusesOf(records))[PRESENT]
    ensures ComputeStats(records).late == multiset(StatusesOf(records))[LATE]
    ensures ComputeStats(records).absent == multiset(StatusesOf(records))[ABSENT]
  {
    CountIsMultiplicity(records, PRESENT);
    CountIsMultiplicity(records, LATE);
    CountIsMultiplicity(records, ABSENT);
  }

  /** Reordering the records, as the sort does, leaves the statistics unchanged. */
  lemma StatsPermutation(a: seq<Attendance>, b: seq<Attendance>)
    requires multiset(a) == multiset(b)
    ensures ComputeStats(a) == ComputeStats(b)
  {
    assert |a| == |multiset(a)| == |multiset(b)| == |b|;
    CountPermutation(a, b, PRESENT);
    CountPermutation(a, b, LATE);
    CountPermutation(a, b, ABSENT);
  }

  // ---------------------------------------------------------------------------
  // Status lookup table
  // ---------------------------------------------------------------------------

  /** The label and the CSS class of a status badge. */
  datatype StatusInfo = StatusInfo(text: string, cssClass: string)

  const LabelPresent := "Obecny"
  const LabelLate := "Spóźniony"
  const LabelAbsent := "Nieobecny"
  const LabelUnknown := "Nieznany"

  /** `getStatusInfo`: a fixed table; anything unrecognised is "unknown" in absent style. */
  function GetStatusInfo(status: string): (r: StatusInfo)
    ensures r.cssClass == "status-present" <==> status == PRESENT
    ensures r.cssClass == "status-late" <==> status == LATE
    ensures r.cssClass == "status-absent" <==> status != PRESENT && status != LATE
    ensures r.text == LabelUnknown <==> !IsRecognised(status)
    ensures status == PRESENT ==> r == StatusInfo(LabelPresent, "status-present")
    ensures status == LATE ==> r == StatusInfo(LabelLate, "status-late")
    ensures status == ABSENT ==> r == StatusInfo(LabelAbsent, "status-absent")
    ensures r.text in {LabelPresent, LabelLate, LabelAbsent, LabelUnknown}
  {
    match status
    case "PRESENT" => StatusInfo(LabelPresent, "status-present")
    case "LATE" => StatusInfo(LabelLate, "status-late")
    case "ABSENT" => StatusInfo(LabelAbsent, "status-absent")
    case _ => StatusInfo(LabelUnknown, "status-absent")
  }

  /** How many cards of the list carry the given badge label. */
  function CountLabel(records: seq<Attendance>, text: string): (n: nat)
    ensures n <= |records|
  {
    if records == [] then 0
    else (if GetStatusInfo(records[0].status).text == text then 1 else 0) + CountLabel(records[1..], text)
  }

  /**
   * The badges on the cards agree with the statistics panel: as many
   * "present" labels as the present count, and so on, and every record the
   * panel does not count is labelled unknown.
   */
  lemma {:induction false} LabelsAgreeWithStats(records: seq<Attendance>)
    ensures CountLabel(records, LabelPresent) == Count(records, PRESENT)
    ensures CountLabel(records, LabelLate) == Count(records, LATE)
    ensures CountLabel(records, LabelAbsent) == Count(records, ABSENT)
    ensures CountLabel(records, LabelUnknown)
            == |records| - Count(records, PRESENT) - Count(records, LATE) - Count(records, ABSENT)
  {
    if records != [] {
      LabelsAgreeWithStats(records[1..]);
      RecognisedCountsBounded(records[1..]);
    }
  }

  // ---------------------------------------------------------------------------
  // Ordering: most recent first
  // ---------------------------------------------------------------------------

  /** Every record is marked no earlier than every record after it. */
  ghost predicate SortedDesc(s: seq<Attendance>) {
    forall i, j :: 0 <= i < j < |s| ==> s[i].markedAt >= s[j].markedAt
  }

  /** Adjacent records are in non-increasing `markedAt` order. */
  ghost predicate AdjacentDesc(s: seq<Attendance>) {
    forall i :: 0 < i < |s| ==> s[i - 1].markedAt >= s[i].markedAt
  }

  /** The adjacent form and the all-pairs form of the order say the same. */
  lemma {:induction false} AdjacentDescIffSortedDesc(s: seq<Attendance>)
    ensures AdjacentDesc(s) <==> SortedDesc(s)
  {
    if AdjacentDesc(s) {
      forall i, j | 0 <= i < j < |s| ensures s[i].markedAt >= s[j].markedAt {
        var k := j;
        while k > i
          invariant i <= k <= j
          invariant s[k].markedAt >= s[j].markedAt
        {
          k := k - 1;
        }
      }
    }
  }

  /**
   * The sort of `displayAttendances`, whose comparator subtracts the first
   * record's `markedAt` from the second's: reorders the array in place so
   * that the most recently marked record comes first. The relative order of
   * records marked at the same time is not part of this contract.
   */
  method SortByMarkedAtDesc(a: array<Attendance>)
    modifies a
    ensures multiset(a[..]) == multiset(old(a[..]))
    ensures SortedDesc(a[..])
    ensures AdjacentDesc(a[..])
  {
    var i := 0;
    while i < a.Length
      invariant 0 <= i <= a.Length
      invariant SortedDesc(a[..i])
      invariant multiset(a[..]) == multiset(old(a[..]))
    {
      InsertBackwards(a, i);
      i := i + 1;
    }
    assert a[..a.Length] == a[..];
    AdjacentDescIffSortedDesc(a[..]);
  }

  /** One step of insertion: moves `a[i]` left past every strictly older record. */
  method InsertBackwards(a: array<Attendance>, i: nat)
    requires i < a.Length
    requires SortedDesc(a[..i])
    modifies a
    ensures SortedDesc(a[..i + 1])
    ensures multiset(a[..]) == multiset(old(a[..]))
    ensures forall k :: i < k < a.Length ==> a[k] == old(a[k])
  {
    var j := i;
    while j > 0 && a[j - 1].markedAt < a[j].markedAt
      invariant 0 <= j <= i
      invariant forall p, q :: 0 <= p < q <= i && p != j && q != j ==> a[p].markedAt >= a[q].markedAt
      invariant forall q :: j < q <= i ==> a[j].markedAt > a[q].markedAt
      invariant multiset(a[..]) == multiset(old(a[..]))
      invariant forall k :: i < k < a.Length ==> a[k] == old(a[k])
    {
      Swap(a, j - 1, j);
      j := j - 1;
    }
  }

  /** Exchanges two neighbouring records. */
  method Swap(a: array<Attendance>, p: nat, q: nat)
    requires p < q < a.Length
    modifies a
    ensures a[p] == old(a[q]) && a[q] == old(a[p])
    ensures forall k :: 0 <= k < a.Length && k != p && k != q ==> a[k] == old(a[k])
    ensures multiset(a[..]) == multiset(old(a[..]))
  {
    a[p], a[q] := a[q], a[p];
  }
}
