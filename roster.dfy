/**
 * Reference data: students, the section table, and the 80-student demo
 * roster that both the browser client (when the backend is unreachable) and
 * the demo server's `/students` endpoint produce.
 */
module Roster {
  import opened Options
  import opened Text

  /**
   * A roster entry. Entries that come from the backend are stored unchecked,
   * so the section may be missing (`None`, JavaScript's `undefined`).
   */
  datatype Student = Student(id: int, name: string, faceId: string, section: Option<string>, idNumber: string)

  datatype Section = Section(id: int, name: string)

  /** The section table the client is built with. */
  const FixedSections: seq<Section> := [Section(1, "S33"), Section(2, "S34"), Section(3, "S35")]

  /** Demo student number `i` (counting from 1). */
  function SampleStudent(i: nat): Student
    requires i >= 1
  {
    Student(
      i,
      "Student " + PadStart(NatToString(i), 2, '0'),
      "FACE" + PadStart(NatToString(i), 3, '0'),
      Some(SampleSectionName(i)),
      "25000" + NatToString(32000 + i))
  }

  /** Thirty demo students per section, starting at S33. */
  function SampleSectionName(i: nat): string
    requires i >= 1
  {
    "S" + NatToString(33 + (i - 1) / 30)
  }

  /** The first `n` demo students, in order. */
  function SampleRoster(n: nat): (r: seq<Student>)
    ensures |r| == n
  {
    if n == 0 then [] else SampleRoster(n - 1) + [SampleStudent(n)]
  }

  /** Position `k` of the demo roster holds student `k + 1`: ids run 1, 2, ... in order. */
  lemma {:induction false} SampleRosterAt(n: nat, k: nat)
    requires k < n
    ensures SampleRoster(n)[k] == SampleStudent(k + 1) && SampleRoster(n)[k].id == k + 1
    decreases n
  {
    var prefix := SampleRoster(n - 1);
    assert SampleRoster(n) == prefix + [SampleStudent(n)];
    if k < n - 1 {
      SampleRosterAt(n - 1, k);
      assert SampleRoster(n)[k] == prefix[k];
    } else {
      assert SampleRoster(n)[k] == SampleStudent(n);
      assert SampleStudent(n).id == n;
    }
  }

  /** The demo roster loop: students 1 to `count` are pushed in order. */
  method GenerateSampleStudents(count: nat) returns (students: seq<Student>)
    ensures students == SampleRoster(count)
    ensures forall k :: 0 <= k < count ==> students[k].id == k + 1
  {
    students := [];
    var i := 1;
    while i <= count
      invariant 1 <= i <= count + 1
      invariant students == SampleRoster(i - 1)
    {
      assert SampleRoster(i) == students + [SampleStudent(i)];
      students := students + [SampleStudent(i)];
      i := i + 1;
    }
    SampleRosterIds(count);
  }

  /** Demo ids run 1, 2, ..., n in roster order. */
  lemma SampleRosterIds(n: nat)
    ensures forall k :: 0 <= k < n ==> SampleRoster(n)[k].id == k + 1
  {
    forall k | 0 <= k < n ensures SampleRoster(n)[k].id == k + 1 {
      SampleRosterAt(n, k);
    }
  }

  /** Students 1-30 are in S33, 31-60 in S34 and 61-90 in S35. */
  lemma SampleSection(i: nat)
    requires 1 <= i <= 90
    ensures SampleSectionName(i) == if i <= 30 then "S33" else if i <= 60 then "S34" else "S35"
  {
    var q := (i - 1) / 30;
    assert q == if i <= 30 then 0 else if i <= 60 then 1 else 2;
    assert NatToString(3) == "3";
    assert NatToString(33 + q) == NatToString(3) + [DigitChar(3 + q)];
  }

  /** For students 1-99 the name is "Student " and two digits that read back as the student number. */
  lemma SampleName(i: nat)
    requires 1 <= i <= 99
    ensures var name := SampleStudent(i).name;
      |name| == 10 && name[..8] == "Student " && AllDigits(name[8..]) && DigitsValue(name[8..]) == i
  {
    ZeroPaddedValue(i, 2);
    var name := SampleStudent(i).name;
    assert name[8..] == PadStart(NatToString(i), 2, '0');
  }

  /** For students 1-999 the face id is "FACE" and three digits that read back as the student number. */
  lemma SampleFaceId(i: nat)
    requires 1 <= i <= 999
    ensures var f := SampleStudent(i).faceId;
      |f| == 7 && f[..4] == "FACE" && AllDigits(f[4..]) && DigitsValue(f[4..]) == i
  {
    ZeroPaddedValue(i, 3);
    var f := SampleStudent(i).faceId;
    assert f[4..] == PadStart(NatToString(i), 3, '0');
  }

  /**
   * The id number is "25000" followed by the decimal digits of 32000 + i,
   * without leading zeros; for students up to 67999 that is five digits.
   */
  lemma SampleIdNumber(i: nat)
    requires i >= 1
    ensures var n := SampleStudent(i).idNumber;
      && |n| >= 10 && n[..5] == "25000" && AllDigits(n[5..]) && DigitsValue(n[5..]) == 32000 + i && n[5] != '0'
      && (i <= 67999 ==> |n| == 10)
  {
    var n := SampleStudent(i).idNumber;
    var tail := NatToString(32000 + i);
    assert n[5..] == tail;
    NatToStringValue(32000 + i);
    assert Pow10(4) == 10000 && Pow10(5) == 100000;
    NatToStringLengthAtLeast(32000 + i, 5);
    if i <= 67999 {
      NatToStringLength(32000 + i, 5);
    }
  }
}
