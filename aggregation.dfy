/**
 * The attendance table of a session and the two operations that change its
 * records: seeding it with the students of a section, and folding one capture's
 * detections into it.
 */
module Aggregation {
  import opened Options
  import opened Text
  import opened Attendance
  import opened OrderedMaps
  import opened Roster

  /** `attendanceData`: student id to record, in insertion order. */
  type Table = OrderedMap<int, Record>

  /** Every record is filed under its own student id and is consistent. */
  ghost predicate TableOK(t: Table, required: nat) {
    && t.Valid()
    && forall k :: k in t.entries ==> t.entries[k].studentId == k && Consistent(t.entries[k], required)
  }

  /**
   * Position of the first section whose id equals `key`, the section id
   * converted to a number (`s.id == sectionId` compares a number with a string
   * by converting the string).
   */
  function FindSection(sections: seq<Section>, key: Option<int>): (r: Option<nat>)
    ensures r.Some? ==> r.value < |sections| && key == Some(sections[r.value].id)
    ensures forall j :: 0 <= j < |sections| && (r.None? || j < r.value) ==> key != Some(sections[j].id)
    decreases |sections|
  {
    if sections == [] then None
    else if key == Some(sections[0].id) then Some(0)
    else
      match FindSection(sections[1..], key)
      case None => None
      case Some(i) => Some(i + 1)
  }

  /** The name of the first section whose id loosely equals the selected id, if any section does. */
  function SectionNameFor(sections: seq<Section>, sectionId: string): Option<string> {
    match FindSection(sections, JsNumber(sectionId))
    case None => None
    case Some(i) => Some(sections[i].name)
  }

  /** The fixed table resolves "1", "2" and "3" to S33, S34 and S35 and nothing else. */
  lemma FixedSectionLookup(sectionId: string)
    ensures SectionNameFor(FixedSections, sectionId) ==
      if JsNumber(sectionId) == Some(1) then Some("S33")
      else if JsNumber(sectionId) == Some(2) then Some("S34")
      else if JsNumber(sectionId) == Some(3) then Some("S35")
      else None
  {
    assert FixedSections[1..] == [Section(2, "S34"), Section(3, "S35")];
    assert FixedSections[1..][1..] == [Section(3, "S35")];
    assert FixedSections[1..][1..][1..] == [];
  }

  /**
   * The section filter is a strict comparison of the student's section with
   * the resolved name. When the name does not resolve, both sides can be
   * `undefined`, so exactly the students without a section match.
   */
  predicate InSection(s: Student, sectionName: Option<string>) {
    s.section == sectionName
  }

  function SeedRecord(s: Student): Record {
    FreshRecord(s.id, s.name, s.idNumber)
  }

  /** Seeding, one student at a time, in roster order; the table is never cleared first. */
  function Seed(t: Table, students: seq<Student>, sectionName: Option<string>): Table
    decreases |students|
  {
    if students == [] then t
    else
      var s := students[0];
      Seed(if InSection(s, sectionName) then t.Set(s.id, SeedRecord(s)) else t, students[1..], sectionName)
  }

  /** One step of `Seed`: the first student is handled, then the rest. */
  lemma SeedStep(t: Table, students: seq<Student>, sectionName: Option<string>)
    requires students != []
    ensures Seed(t, students, sectionName) ==
      Seed(if InSection(students[0], sectionName) then t.Set(students[0].id, SeedRecord(students[0])) else t, students[1..], sectionName)
  {
  }

  /** Ids of the roster students in the section. */
  function SectionIds(students: seq<Student>, sectionName: Option<string>): (ids: set<int>)
    ensures forall i :: 0 <= i < |students| && InSection(students[i], sectionName) ==> students[i].id in ids
    ensures forall k :: k in ids ==> exists i :: 0 <= i < |students| && InSection(students[i], sectionName) && students[i].id == k
    decreases |students|
  {
    if students == [] then {}
    else
      var rest := SectionIds(students[1..], sectionName);
      assert forall k :: k in rest ==> exists i :: 0 <= i < |students| && InSection(students[i], sectionName) && students[i].id == k by {
        forall k | k in rest ensures exists i :: 0 <= i < |students| && InSection(students[i], sectionName) && students[i].id == k {
          var j :| 0 <= j < |students[1..]| && InSection(students[1..][j], sectionName) && students[1..][j].id == k;
          assert students[j + 1] == students[1..][j];
        }
      }
      (if InSection(students[0], sectionName) then {students[0].id} else {}) + rest
  }

  /**
   * The ids seeding appends to a table whose keys are `keys`: the section's
   * students in roster order, each id taken only when it is not yet a key
   * (counting the ids taken before it).
   */
  function NewIds(keys: seq<int>, students: seq<Student>, sectionName: Option<string>): (ids: seq<int>)
    ensures forall i :: 0 <= i < |ids| ==> ids[i] !in keys
    ensures forall i, j :: 0 <= i < j < |ids| ==> ids[i] != ids[j]
    decreases |students|
  {
    if students == [] then []
    else
      var s := students[0];
      if InSection(s, sectionName) && s.id !in keys then
        var rest := NewIds(keys + [s.id], students[1..], sectionName);
        assert forall i :: 0 <= i < |rest| ==> rest[i] != s.id by {
          assert s.id in keys + [s.id];
        }
        [s.id] + rest
      else NewIds(keys, students[1..], sectionName)
  }

  /**
   * Seeding keeps the table well formed; the keys already present keep their
   * order, and the new ids follow them in roster order, each once.
   */
  lemma {:induction false} SeedKeepsTable(t: Table, students: seq<Student>, sectionName: Option<string>, required: nat)
    requires TableOK(t, required) && required > 0
    ensures var r := Seed(t, students, sectionName);
      TableOK(r, required) && t.keys <= r.keys && r.keys == t.keys + NewIds(t.keys, students, sectionName)
    decreases |students|
  {
    if students != [] {
      var s := students[0];
      var t1 := if InSection(s, sectionName) then t.Set(s.id, SeedRecord(s)) else t;
      SeedKeepsTable(t1, students[1..], sectionName, required);
    }
    SeedKeyOrder(t, students, sectionName);
  }

  /** The keys after seeding: the old keys, then the new ids in roster order. */
  lemma {:induction false} SeedKeyOrder(t: Table, students: seq<Student>, sectionName: Option<string>)
    ensures Seed(t, students, sectionName).keys == t.keys + NewIds(t.keys, students, sectionName)
    decreases |students|
  {
    if students != [] {
      var s := students[0];
      var t1 := if InSection(s, sectionName) then t.Set(s.id, SeedRecord(s)) else t;
      SeedKeyOrder(t1, students[1..], sectionName);
      if InSection(s, sectionName) && s.id !in t.keys {
        assert t1.keys == t.keys + [s.id];
        assert t1.keys + NewIds(t1.keys, students[1..], sectionName)
            == t.keys + ([s.id] + NewIds(t.keys + [s.id], students[1..], sectionName));
      }
    }
  }

  /**
   * Seeding gives every student of the section a zeroed record built from
   * one of the roster's entries for that id (the last one), and leaves every
   * other record as it was.
   */
  lemma SeedEntries(t: Table, students: seq<Student>, sectionName: Option<string>)
    ensures var r := Seed(t, students, sectionName);
      && r.entries.Keys == t.entries.Keys + SectionIds(students, sectionName)
      && (forall k :: k in SectionIds(students, sectionName) ==> Zeroed(r.entries[k]))
      && (forall k :: k in SectionIds(students, sectionName) ==>
            exists i :: 0 <= i < |students| && InSection(students[i], sectionName) && students[i].id == k
                        && r.entries[k] == SeedRecord(students[i]))
      && (forall k :: k in t.entries && k !in SectionIds(students, sectionName) ==> r.entries[k] == t.entries[k])
  {
    SeedKeysAndOthers(t, students, sectionName);
    SeedOwners(t, students, sectionName);
  }

  /** Seeding adds exactly the section's ids and leaves the records of other ids alone. */
  lemma {:induction false} SeedKeysAndOthers(t: Table, students: seq<Student>, sectionName: Option<string>)
    ensures var r := Seed(t, students, sectionName);
      && r.entries.Keys == t.entries.Keys + SectionIds(students, sectionName)
      && (forall k :: k in t.entries && k !in SectionIds(students, sectionName) ==> r.entries[k] == t.entries[k])
    decreases |students|
  {
    if students != [] {
      var s := students[0];
      var t1 := if InSection(s, sectionName) then t.Set(s.id, SeedRecord(s)) else t;
      SeedKeysAndOthers(t1, students[1..], sectionName);
    }
  }

  /** Each seeded record is the fresh record of a section student with that id. */
  lemma {:induction false} SeedOwners(t: Table, students: seq<Student>, sectionName: Option<string>)
    ensures var r := Seed(t, students, sectionName);
      forall k :: k in SectionIds(students, sectionName) ==>
        k in r.entries &&
        exists i :: 0 <= i < |students| && InSection(students[i], sectionName) && students[i].id == k
                    && r.entries[k] == SeedRecord(students[i])
    decreases |students|
  {
    SeedKeysAndOthers(t, students, sectionName);
    if students != [] {
      var s := students[0];
      var t1 := if InSection(s, sectionName) then t.Set(s.id, SeedRecord(s)) else t;
      var rest := students[1..];
      var r := Seed(t1, rest, sectionName);
      assert Seed(t, students, sectionName) == r;
      SeedOwners(t1, rest, sectionName);
      SeedKeysAndOthers(t1, rest, sectionName);
      forall k | k in SectionIds(students, sectionName)
        ensures exists i :: 0 <= i < |students| && InSection(students[i], sectionName) && students[i].id == k
                            && r.entries[k] == SeedRecord(students[i])
      {
        if k in SectionIds(rest, sectionName) {
          var j :| 0 <= j < |rest| && InSection(rest[j], sectionName) && rest[j].id == k && r.entries[k] == SeedRecord(rest[j]);
          assert students[j + 1] == rest[j];
        } else {
          assert r.entries[k] == t1.entries[k];
          assert students[0].id == k;
        }
      }
    }
  }

  /**
   * Without a resolved section name only students without a section are
   * seeded; when every student has one, nothing is.
   */
  lemma {:induction false} SeedUnknownSection(t: Table, students: seq<Student>)
    ensures forall i :: 0 <= i < |students| ==> (InSection(students[i], None) <==> students[i].section.None?)
    ensures (forall i :: 0 <= i < |students| ==> students[i].section.Some?) ==> Seed(t, students, None) == t
    decreases |students|
  {
    if students != [] {
      SeedUnknownSection(t, students[1..]);
      if forall i :: 0 <= i < |students| ==> students[i].section.Some? {
        assert students[0].section.Some?;
        assert forall i :: 0 <= i < |students[1..]| ==> students[1..][i].section.Some? by {
          forall i | 0 <= i < |students[1..]| ensures students[1..][i].section.Some? {
            assert students[1..][i] == students[i + 1];
          }
        }
      }
    }
  }

  /**
   * One capture with `n` detections: detection `i` goes to the `i`-th key in
   * insertion order, so exactly the first min(n, size) records get a detection.
   */
  function ApplyDetections(t: Table, n: nat, now: Timestamp, required: nat): Table {
    var m := if n < |t.keys| then n else |t.keys|;
    OrderedMap(t.keys, map k | k in t.entries :: if k in t.keys[..m] then RecordDetection(t.entries[k], now, required) else t.entries[k])
  }

  /** The record at key position `i` gets a detection exactly when `i < n`; keys and their order stay. */
  lemma ApplyDetectionsAt(t: Table, n: nat, now: Timestamp, required: nat, i: nat)
    requires t.Valid() && i < |t.keys|
    ensures var r := ApplyDetections(t, n, now, required);
      && r.keys == t.keys
      && r.entries.Keys == t.entries.Keys
      && r.entries[t.keys[i]] == (if i < n then RecordDetection(t.entries[t.keys[i]], now, required) else t.entries[t.keys[i]])
      && (r.entries[t.keys[i]] != t.entries[t.keys[i]] <==> i < n)
  {
    var m := if n < |t.keys| then n else |t.keys|;
    if i < n {
      assert t.keys[..m][i] == t.keys[i];
    } else {
      assert t.keys[i] !in t.keys[..m] by {
        forall j | 0 <= j < m ensures t.keys[..m][j] != t.keys[i] {
          assert t.keys[..m][j] == t.keys[j];
        }
      }
    }
  }

  /** Applying detections keeps the table well formed, and no count or status goes down. */
  lemma ApplyDetectionsKeepsTable(t: Table, n: nat, now: Timestamp, required: nat)
    requires TableOK(t, required)
    ensures var r := ApplyDetections(t, n, now, required);
      && TableOK(r, required)
      && forall k :: k in t.entries ==>
           r.entries[k].detections >= t.entries[k].detections && Rank(r.entries[k].status) >= Rank(t.entries[k].status)
  {
  }

  /** Zero detections change nothing. */
  lemma ApplyNoDetections(t: Table, now: Timestamp, required: nat)
    ensures ApplyDetections(t, 0, now, required) == t
  {
    var r := ApplyDetections(t, 0, now, required);
    assert r.entries == t.entries;
  }

  /** Detection `i` is folded in on top of the first `i`: the step of the per-detection loop. */
  lemma ApplyDetectionsStep(t: Table, i: nat, now: Timestamp, required: nat)
    requires t.Valid()
    ensures var p := ApplyDetections(t, i, now, required);
      ApplyDetections(t, i + 1, now, required) ==
        if i < |t.keys| then OrderedMap(p.keys, p.entries[t.keys[i] := RecordDetection(t.entries[t.keys[i]], now, required)])
        else p
  {
    var p := ApplyDetections(t, i, now, required);
    var q := ApplyDetections(t, i + 1, now, required);
    if i < |t.keys| {
      var k0 := t.keys[i];
      var want := p.entries[k0 := RecordDetection(t.entries[k0], now, required)];
      forall k | k in t.entries ensures q.entries[k] == want[k] {
        var j :| 0 <= j < |t.keys| && t.keys[j] == k;
        ApplyDetectionsAt(t, i, now, required, j);
        ApplyDetectionsAt(t, i + 1, now, required, j);
      }
      assert q.entries == want;
    }
  }
}
