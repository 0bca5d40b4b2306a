/**
 * The album (student index) number field: the live sanitiser that keeps only
 * digits and at most six of them, the six-digit validator, and the checks the
 * login form's submit handler makes before it asks the backend anything.
 */
module AlbumNumber {
  import opened Wrappers
  import opened Records

  /** The number of digits in an album number. */
  const AlbumLength: nat := 6

  /** `\d` in a JavaScript regular expression without the `u` flag: ASCII digits only. */
  predicate IsDigit(c: char) {
    '0' <= c <= '9'
  }

  predicate AllDigits(s: string) {
    forall i :: 0 <= i < |s| ==> IsDigit(s[i])
  }

  /**
   * The characters `String.prototype.trim` removes: the ECMAScript WhiteSpace
   * and LineTerminator code points.
   */
  predicate IsJsWhitespace(c: char) {
    || c == '\t' || c == '\n' || c == '\U{000B}' || c == '\U{000C}' || c == '\r'
    || c == ' ' || c == '\U{00A0}' || c == '\U{1680}'
    || ('\U{2000}' <= c <= '\U{200A}')
    || c == '\U{2028}' || c == '\U{2029}' || c == '\U{202F}' || c == '\U{205F}'
    || c == '\U{3000}' || c == '\U{FEFF}'
  }

  /** The index of the first non-whitespace character at or after `from`, or `|s|`. */
  function SkipLeading(s: string, from: nat): (i: nat)
    requires from <= |s|
    ensures from <= i <= |s|
    ensures forall k :: from <= k < i ==> IsJsWhitespace(s[k])
    ensures i == |s| || !IsJsWhitespace(s[i])
    decreases |s| - from
  {
    if from < |s| && IsJsWhitespace(s[from]) then SkipLeading(s, from + 1) else from
  }

  /** One past the last non-whitespace character in `s[lo..to]`, or `lo`. */
  function SkipTrailing(s: string, lo: nat, to: nat): (j: nat)
    requires lo <= to <= |s|
    ensures lo <= j <= to
    ensures forall k :: j <= k < to ==> IsJsWhitespace(s[k])
    ensures j == lo || !IsJsWhitespace(s[j - 1])
  {
    if lo < to && IsJsWhitespace(s[to - 1]) then SkipTrailing(s, lo, to - 1) else to
  }

  /** `r` is the slice of `s` at `i`, and `s` holds only whitespace around it. */
  ghost predicate WhitespaceAround(s: string, i: nat, r: string) {
    && i + |r| <= |s|
    && r == s[i..i + |r|]
    && (forall k :: 0 <= k < i ==> IsJsWhitespace(s[k]))
    && (forall k :: i + |r| <= k < |s| ==> IsJsWhitespace(s[k]))
  }

  /**
   * `value.trim()`: the slice of `s` left after removing whitespace at both
   * ends; it neither starts nor ends with whitespace.
   */
  function Trim(s: string): (r: string)
    ensures exists i: nat :: WhitespaceAround(s, i, r)
    ensures r == [] || (!IsJsWhitespace(r[0]) && !IsJsWhitespace(r[|r| - 1]))
  {
    var i := SkipLeading(s, 0);
    var j := SkipTrailing(s, i, |s|);
    assert WhitespaceAround(s, i, s[i..j]);
    s[i..j]
  }

  /** A string with no whitespace at all is left as it is by `trim`. */
  lemma TrimNoWhitespace(s: string)
    requires forall i :: 0 <= i < |s| ==> !IsJsWhitespace(s[i])
    ensures Trim(s) == s
  {
    assert SkipLeading(s, 0) == 0;
    assert SkipTrailing(s, 0, |s|) == |s|;
  }

  // ---------------------------------------------------------------------------
  // The live sanitiser of the `input` event
  // ---------------------------------------------------------------------------

  /** Every non-digit removed: the digits of `s`, in their order. */
  function Digits(s: string): (r: string)
    ensures |r| <= |s|
    ensures AllDigits(r)
  {
    if s == [] then []
    else (if IsDigit(s[0]) then [s[0]] else []) + Digits(s[1..])
  }

  /** Removing non-digits works piece by piece: the digits of a joined text are joined. */
  lemma {:induction false} DigitsAppend(a: string, b: string)
    ensures Digits(a + b) == Digits(a) + Digits(b)
  {
    if a == [] {
      assert a + b == b;
    } else {
      assert (a + b)[1..] == a[1..] + b;
      DigitsAppend(a[1..], b);
    }
  }

  /** Every digit of the input survives, as often as it occurs; nothing else does. */
  lemma {:induction false} DigitMultiplicity(s: string, c: char)
    ensures multiset(Digits(s))[c] == if IsDigit(c) then multiset(s)[c] else 0
  {
    if s != [] {
      DigitMultiplicity(s[1..], c);
      assert s == [s[0]] + s[1..];
    }
  }

  /** A string of digits only is its own digit subsequence. */
  lemma {:induction false} DigitsOfDigits(s: string)
    requires AllDigits(s)
    ensures Digits(s) == s
  {
    if s != [] {
      DigitsOfDigits(s[1..]);
      assert s == [s[0]] + s[1..];
    }
  }

  /**
   * `validateAlbumNumber`: the pattern `^\d{6}$`, exactly six ASCII digits.
   * A valid number is six characters none of which the sanitiser removes, so
   * the sanitiser and `trim` both leave it as it is.
   */
  predicate ValidateAlbumNumber(s: string): (ok: bool)
    ensures ok <==> |s| == AlbumLength && Digits(s) == s
    ensures ok ==> Sanitise(s) == s && Trim(s) == s
  {
    if |s| == AlbumLength && AllDigits(s) then
      DigitsOfDigits(s);
      assert forall i :: 0 <= i < |s| ==> IsDigit(s[i]) && !IsJsWhitespace(s[i]);
      TrimNoWhitespace(s);
      true
    else
      false
  }

  function Min(a: nat, b: nat): (m: nat) {
    if a < b then a else b
  }

  /**
   * The value the `input` handler writes back into the field: the first
   * digits of the typed text, at most six of them.
   */
  function Sanitise(value: string): (r: string)
    ensures AllDigits(r)
    ensures |r| <= AlbumLength
    ensures r <= Digits(value)
    ensures |r| == Min(AlbumLength, |Digits(value)|)
  {
    var clean := Digits(value);
    if |clean| > AlbumLength then clean[..AlbumLength] else clean
  }

  /** Sanitising an already sanitised value changes nothing. */
  lemma SanitiseIdempotent(value: string)
    ensures Sanitise(Sanitise(value)) == Sanitise(value)
  {
    DigitsOfDigits(Sanitise(value));
  }

  /**
   * A sanitised value passes validation exactly when the typed text held at
   * least six digits, and trimming it before validation changes nothing.
   */
  lemma SanitisedIsValidIff(value: string)
    ensures Trim(Sanitise(value)) == Sanitise(value)
    ensures ValidateAlbumNumber(Sanitise(value)) <==> |Digits(value)| >= AlbumLength
  {
    var r := Sanitise(value);
    assert forall i :: 0 <= i < |r| ==> IsDigit(r[i]) && !IsJsWhitespace(r[i]);
    TrimNoWhitespace(r);
  }

  // ---------------------------------------------------------------------------
  // The submit handler
  // ---------------------------------------------------------------------------

  /** Why a submitted album number is refused without asking the backend. */
  datatype Rejection = EmptyAlbum | MalformedAlbum

  /**
   * The two early exits of the submit handler: an empty trimmed value, then a
   * trimmed value that is not six digits. Otherwise the trimmed value goes on
   * to the lookup.
   */
  function CheckAlbum(raw: string): (r: Result<string, Rejection>)
    ensures r.Success? <==> ValidateAlbumNumber(Trim(raw))
    ensures r.Success? ==> r.value == Trim(raw)
    ensures r == Failure(EmptyAlbum) <==> Trim(raw) == []
  {
    var album := Trim(raw);
    if album == [] then Failure(EmptyAlbum)
    else if !ValidateAlbumNumber(album) then Failure(MalformedAlbum)
    else Success(album)
  }

  /** Where a press of the login button ends up. */
  datatype SubmitOutcome =
    | Rejected(reason: Rejection)
    | UnknownStudent(album: string)
    | StudentDataMissing(album: string)
    | Welcome(student: Student)

  /**
   * The submit handler, with the two backend calls as parameters:
   * `studentExists` for `checkStudentExists` and `studentData` for
   * `getStudentData` (both already fold network errors into false / null).
   */
  function Submit(raw: string, studentExists: string -> bool, studentData: string -> Option<Student>)
    : (r: SubmitOutcome)
    ensures r.Rejected? <==> !ValidateAlbumNumber(Trim(raw))
    ensures r == Rejected(EmptyAlbum) <==> Trim(raw) == []
    ensures r.UnknownStudent? <==> ValidateAlbumNumber(Trim(raw)) && !studentExists(Trim(raw))
    ensures r.UnknownStudent? || r.StudentDataMissing? ==> r.album == Trim(raw)
    ensures r.Welcome? <==> ValidateAlbumNumber(Trim(raw)) && studentExists(Trim(raw))
                            && studentData(Trim(raw)).Some?
    ensures r.Welcome? ==> studentData(Trim(raw)) == Some(r.student)
  {
    match CheckAlbum(raw)
    case Failure(reason) => Rejected(reason)
    case Success(album) =>
      if !studentExists(album) then UnknownStudent(album)
      else match studentData(album)
        case None => StudentDataMissing(album)
        case Some(student) => Welcome(student)
  }

  /**
   * The backend is never consulted for a value that fails the early checks:
   * the outcome is a rejection whatever the backend would have answered.
   */
  lemma NoLookupUnlessValid(raw: string,
                            exists1: string -> bool, data1: string -> Option<Student>,
                            exists2: string -> bool, data2: string -> Option<Student>)
    requires !ValidateAlbumNumber(Trim(raw))
    ensures Submit(raw, exists1, data1) == Submit(raw, exists2, data2)
    ensures Submit(raw, exists1, data1).Rejected?
  {
  }

  /** Only the answers for the trimmed album number matter to the outcome. */
  lemma LookupUsesTrimmedAlbum(raw: string,
                               exists1: string -> bool, data1: string -> Option<Student>,
                               exists2: string -> bool, data2: string -> Option<Student>)
    requires exists1(Trim(raw)) == exists2(Trim(raw))
    requires data1(Trim(raw)) == data2(Trim(raw))
    ensures Submit(raw, exists1, data1) == Submit(raw, exists2, data2)
  {
  }
}
