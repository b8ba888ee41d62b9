/**
 * The schema editor page. Each form checks its required fields, builds one
 * `INSERT` statement from them and appends it to the schema text being
 * edited; the text can be loaded from a file and downloaded when it is not
 * blank. Form fields arrive as parameters (already read from the page), and
 * the encoding the browser's `btoa` performs is the parameter `encode`
 * (when it refuses its input is modelled).
 */
module SqlEditor {
  import opened Options
  import opened Text
  import opened Attendance

  /** A value of a `VALUES (...)` list: text in single quotes, or text written as is (an id, a number, `NULL`). */
  datatype Value = Quoted(text: string) | Bare(text: string)

  const Null: Value := Bare("NULL")

  function Render(v: Value): string {
    match v
    case Quoted(t) => "'" + t + "'"
    case Bare(t) => t
  }

  /** An optional text field: NULL when empty, otherwise the text in single quotes. */
  function OptionalQuoted(x: string): (v: Value)
    ensures v == Null <==> x == ""
    ensures x != "" ==> Render(v) == "'" + x + "'"
  {
    if x == "" then Null else Quoted(x)
  }

  /** An optional numeric field: NULL when empty, otherwise the text written unquoted. */
  function OptionalBare(x: string): (v: Value)
    ensures x == "" ==> v == Null
    ensures x != "" ==> v.Bare? && Render(v) == x
  {
    if x == "" then Null else Bare(x)
  }

  /** A numeric field that defaults to 0: an empty field is written as 0, any other unquoted. */
  function OrZero(x: string): (v: Value)
    ensures v.Bare? && Render(v) == if x == "" then "0" else x
  {
    Bare(if x == "" then "0" else x)
  }

  datatype Statement = Insert(table: string, columns: seq<string>, values: seq<Value>)

  /** `n` columns and one value for each. */
  predicate HasArity(st: Statement, n: nat) {
    |st.columns| == n && |st.values| == n
  }

  /** The values, rendered, with ", " between neighbours. */
  function RenderValues(vs: seq<Value>): string
    decreases |vs|
  {
    if |vs| == 0 then ""
    else if |vs| == 1 then Render(vs[0])
    else Render(vs[0]) + ", " + RenderValues(vs[1..])
  }

  /** `INSERT INTO table (c1, c2, ...) VALUES (v1, v2, ...);`. */
  function Sql(st: Statement): (s: string)
    ensures |s| >= 12 && s[..12] == "INSERT INTO "
  {
    "INSERT INTO " + st.table + " (" + Join(st.columns, ", ") + ") VALUES (" + RenderValues(st.values) + ");"
  }

  /** Text `btoa` accepts: every character is at most U+00FF; on any other text it throws. */
  predicate Latin1(s: string) {
    forall i :: 0 <= i < |s| ==> s[i] as int <= 0xFF
  }

  /**
   * `addPerson`: the trimmed name and id number are required; the encoded id
   * number is the password. Encoding throws on an id number outside Latin-1,
   * and then no statement is produced.
   */
  function PersonInsert(name: string, idNumber: string, rfid: string, role: string, encode: string -> string): (r: Option<Statement>)
    ensures r.Some? <==> Trim(name) != "" && Trim(idNumber) != "" && Latin1(Trim(idNumber))
    ensures r.Some? ==>
      && r.value.table == "persons" && r.value.columns == ["name", "id_number", "rfid_tag", "role", "password"]
      && HasArity(r.value, 5)
      && r.value.values[0] == Quoted(Trim(name)) && r.value.values[1] == Quoted(Trim(idNumber))
      && r.value.values[2] == OptionalQuoted(Trim(rfid)) && r.value.values[3] == Quoted(role)
      && r.value.values[4] == Quoted(encode(Trim(idNumber)))
  {
    var n := Trim(name);
    var idn := Trim(idNumber);
    if n == "" || idn == "" || !Latin1(idn) then None
    else
      Some(Insert("persons", ["name", "id_number", "rfid_tag", "role", "password"],
        [Quoted(n), Quoted(idn), OptionalQuoted(Trim(rfid)), Quoted(role), Quoted(encode(idn))]))
  }

  /** `addSection`: the trimmed section name is required. */
  function SectionInsert(name: string): (r: Option<Statement>)
    ensures r.Some? <==> Trim(name) != ""
    ensures r.Some? ==> r.value.table == "sections" && r.value.columns == ["section_name"] && HasArity(r.value, 1) && r.value.values[0] == Quoted(Trim(name))
  {
    var s := Trim(name);
    if s == "" then None
    else Some(Insert("sections", ["section_name"], [Quoted(s)]))
  }

  /** `addStudentSection` and `addTeacherSection`: both ids are required and written unquoted. */
  function LinkInsert(table: string, personId: string, sectionId: string): (r: Option<Statement>)
    ensures r.Some? <==> personId != "" && sectionId != ""
    ensures r.Some? ==> r.value.table == table && r.value.columns == ["person_id", "section_id"] && HasArity(r.value, 2) && r.value.values == [Bare(personId), Bare(sectionId)]
  {
    if personId == "" || sectionId == "" then None
    else Some(Insert(table, ["person_id", "section_id"], [Bare(personId), Bare(sectionId)]))
  }

  function StudentSectionInsert(personId: string, sectionId: string): Option<Statement> {
    LinkInsert("student_sections", personId, sectionId)
  }

  function TeacherSectionInsert(personId: string, sectionId: string): Option<Statement> {
    LinkInsert("teacher_sections", personId, sectionId)
  }

  /** `addClassroom`: the trimmed room number is required; location is optional, capacity optional and unquoted. */
  function ClassroomInsert(room: string, location: string, capacity: string): (r: Option<Statement>)
    ensures r.Some? <==> Trim(room) != ""
    ensures r.Some? ==>
      && r.value.table == "classrooms" && r.value.columns == ["room_number", "location", "capacity"]
      && HasArity(r.value, 3) && r.value.values[0] == Quoted(Trim(room))
      && r.value.values[1] == OptionalQuoted(Trim(location)) && r.value.values[2] == OptionalBare(capacity)
  {
    var rm := Trim(room);
    if rm == "" then None
    else Some(Insert("classrooms", ["room_number", "location", "capacity"],
      [Quoted(rm), OptionalQuoted(Trim(location)), OptionalBare(capacity)]))
  }

  /**
   * `addSchedule`: section, teacher and classroom ids, the trimmed subject and
   * both times are required; the day and the meeting type are not checked and
   * the trimmed meeting URL is optional.
   */
  function ScheduleInsert(sectionId: string, teacherId: string, classroomId: string, subject: string, day: string,
                          start: string, end: string, meetingType: string, meetingUrl: string): (r: Option<Statement>)
    ensures r.Some? <==> sectionId != "" && teacherId != "" && classroomId != "" && Trim(subject) != "" && start != "" && end != ""
    ensures r.Some? ==>
      && r.value.table == "schedule" && r.value.columns ==
        ["section_id", "teacher_id", "classroom_id", "subject_name", "day_of_week", "start_time", "end_time",
         "meeting_type", "meeting_url"]
      && HasArity(r.value, 9)
      && r.value.values[..3] == [Bare(sectionId), Bare(teacherId), Bare(classroomId)]
      && r.value.values[3] == Quoted(Trim(subject)) && r.value.values[4] == Quoted(day)
      && r.value.values[5] == Quoted(start) && r.value.values[6] == Quoted(end)
      && r.value.values[7] == Quoted(meetingType) && r.value.values[8] == OptionalQuoted(Trim(meetingUrl))
  {
    var subj := Trim(subject);
    if sectionId == "" || teacherId == "" || classroomId == "" || subj == "" || start == "" || end == "" then None
    else
      Some(Insert("schedule",
        ["section_id", "teacher_id", "classroom_id", "subject_name", "day_of_week", "start_time", "end_time", "meeting_type", "meeting_url"],
        [Bare(sectionId), Bare(teacherId), Bare(classroomId), Quoted(subj), Quoted(day), Quoted(start), Quoted(end),
         Quoted(meetingType), OptionalQuoted(Trim(meetingUrl))]))
  }

  /** `addAttendance`: person, schedule and time are required; the first `T` of the time becomes a space. */
  function AttendanceInsert(personId: string, scheduleId: string, time: string, kind: string): (r: Option<Statement>)
    ensures r.Some? <==> personId != "" && scheduleId != "" && time != ""
    ensures r.Some? ==>
      && r.value.table == "attendance" && r.value.columns == ["schedule_id", "person_id", "timestamp", "attendance_type"]
      && HasArity(r.value, 4)
      && r.value.values[0] == Bare(scheduleId) && r.value.values[1] == Bare(personId)
      && r.value.values[2].Quoted? && r.value.values[3] == Quoted(kind)
      && |r.value.values[2].text| == |time| && 'T' !in time[..IndexOfOrEnd(time, 'T')]
      && (forall j :: 0 <= j < |time| && j != IndexOfOrEnd(time, 'T') ==> r.value.values[2].text[j] == time[j])
      && ('T' in time ==> r.value.values[2].text[IndexOfOrEnd(time, 'T')] == ' ')
  {
    if personId == "" || scheduleId == "" || time == "" then None
    else
      Some(Insert("attendance", ["schedule_id", "person_id", "timestamp", "attendance_type"],
        [Bare(scheduleId), Bare(personId), Quoted(ReplaceFirst(time, 'T', ' ')), Quoted(kind)]))
  }

  /** Position of the first `c` in `s`, or `|s|` when there is none. */
  function IndexOfOrEnd(s: string, c: char): (i: nat)
    ensures i <= |s| && c !in s[..i] && (i < |s| ==> s[i] == c)
  {
    if c in s then IndexOf(s, c) else assert s[..|s|] == s; |s|
  }

  /** The detection count at which a face-attendance row is `present`, as in the browser client. */
  const PresentThreshold: int := 3

  /**
   * The status written for a face-attendance row: `present` from 3 detections
   * on, `partial` for a positive count below that, `absent` otherwise. The
   * field's text is compared as a number, and a text that is not a number
   * fails both comparisons.
   */
  function FaceStatus(detectionCount: string): (s: Status)
    ensures s == Present <==> JsNumber(detectionCount).Some? && JsNumber(detectionCount).value >= PresentThreshold
    ensures s == Partial <==> JsNumber(detectionCount).Some? && 0 < JsNumber(detectionCount).value < PresentThreshold
  {
    match JsNumber(detectionCount)
    case None => Absent
    case Some(v) => StatusRule(v, PresentThreshold)
  }

  /** The editor's status rule agrees with the session engine's rule for every count written in decimal. */
  lemma FaceStatusMatchesSession(n: nat)
    ensures FaceStatus(NatToString(n)) == StatusRule(n, PresentThreshold)
  {
    JsNumberOfDecimal(n);
  }

  /** A blank count is 0 detections, so `absent`. */
  lemma FaceStatusBlank()
    ensures FaceStatus("") == Absent
  {
    TrimSpec("");
  }

  /** `addFaceAttendance`: schedule, trimmed session id and person are required; a blank count or confidence is written as 0. */
  function FaceAttendanceInsert(scheduleId: string, sessionId: string, personId: string, detectionCount: string, confidence: string): (r: Option<Statement>)
    ensures r.Some? <==> scheduleId != "" && Trim(sessionId) != "" && personId != ""
    ensures r.Some? ==>
      && r.value.table == "face_attendance" && r.value.columns ==
        ["schedule_id", "person_id", "session_id", "detection_count", "confidence_avg", "status"]
      && HasArity(r.value, 6)
      && r.value.values[..3] == [Bare(scheduleId), Bare(personId), Quoted(Trim(sessionId))]
      && r.value.values[5] == Quoted(StatusName(FaceStatus(detectionCount)))
      && r.value.values[3] == OrZero(detectionCount) && r.value.values[4] == OrZero(confidence)
  {
    var sid := Trim(sessionId);
    if scheduleId == "" || sid == "" || personId == "" then None
    else
      Some(Insert("face_attendance", ["schedule_id", "person_id", "session_id", "detection_count", "confidence_avg", "status"],
        [Bare(scheduleId), Bare(personId), Quoted(sid), OrZero(detectionCount), OrZero(confidence),
         Quoted(StatusName(FaceStatus(detectionCount)))]))
  }

  /**
   * A value that reads back unambiguously: quoted text holds no quote (values
   * are not escaped), and bare text is non-empty, holds no comma and does not
   * start with a quote.
   */
  predicate Safe(v: Value) {
    match v
    case Quoted(t) => '\'' !in t
    case Bare(t) => t != "" && ',' !in t && t[0] != '\''
  }

  /** Reads one rendered value off the front of `s`, returning it and the text after it. */
  function ReadValue(s: string): (r: Option<(Value, string)>)
    ensures r.Some? ==> |r.value.1| <= |s|
  {
    if s == [] then None
    else if s[0] == '\'' then
      if '\'' in s[1..] then
        var j := IndexOf(s[1..], '\'');
        Some((Quoted(s[1..][..j]), s[1..][j + 1..]))
      else None
    else if ',' in s then
      var k := IndexOf(s, ',');
      Some((Bare(s[..k]), s[k..]))
    else Some((Bare(s), ""))
  }

  /** Reads a `v1, v2, ...` list. */
  function ReadValues(s: string): Option<seq<Value>>
    decreases |s|
  {
    match ReadValue(s)
    case None => None
    case Some((v, rest)) =>
      if rest == [] then Some([v])
      else if |rest| >= 2 && rest[..2] == ", " then
        match ReadValues(rest[2..])
        case None => None
        case Some(vs) => Some([v] + vs)
      else None
  }

  /** Quoted text without a quote reads back up to its closing quote. */
  lemma ReadQuoted(t: string, rest: string)
    requires '\'' !in t
    ensures ReadValue("'" + t + "'" + rest) == Some((Quoted(t), rest))
  {
    var s := "'" + t + "'" + rest;
    assert s[1..] == t + "'" + rest;
    assert s[1..][|t|] == '\'';
    var j := IndexOf(s[1..], '\'');
    assert s[1..][..j] == t;
  }

  /** Bare text without a comma reads back up to the comma that follows it, or to the end. */
  lemma ReadBare(t: string, rest: string)
    requires t != "" && ',' !in t && t[0] != '\''
    requires rest == [] || rest[0] == ','
    ensures ReadValue(t + rest) == Some((Bare(t), rest))
  {
    var s := t + rest;
    if rest == [] {
      assert s == t;
    } else {
      assert s[|t|] == ',';
      var k := IndexOf(s, ',');
      assert s[..k] == t;
    }
  }

  /** A safe value followed by nothing or by a comma is read back, with the rest left over. */
  lemma ReadRenderedValue(v: Value, rest: string)
    requires Safe(v) && (rest == [] || rest[0] == ',')
    ensures ReadValue(Render(v) + rest) == Some((v, rest))
  {
    match v
    case Quoted(t) => ReadQuoted(t, rest);
    case Bare(t) => ReadBare(t, rest);
  }

  /** Once a value and ", " have been read, the list goes on with whatever the rest reads as. */
  lemma ReadValuesCons(s: string, v: Value, tail: string)
    requires ReadValue(s) == Some((v, ", " + tail))
    ensures ReadValues(s) == if ReadValues(tail).Some? then Some([v] + ReadValues(tail).value) else None
  {
    assert (", " + tail)[..2] == ", ";
    assert (", " + tail)[2..] == tail;
  }

  /** A non-empty list of safe values reads back from its rendering. */
  lemma {:induction false} ReadRenderedValues(vs: seq<Value>)
    requires |vs| >= 1 && forall i :: 0 <= i < |vs| ==> Safe(vs[i])
    ensures ReadValues(RenderValues(vs)) == Some(vs)
    decreases |vs|
  {
    if |vs| == 1 {
      ReadRenderedValue(vs[0], "");
      assert Render(vs[0]) + "" == Render(vs[0]);
      assert [vs[0]] == vs;
    } else {
      var tail := RenderValues(vs[1..]);
      assert RenderValues(vs) == Render(vs[0]) + (", " + tail);
      ReadRenderedValue(vs[0], ", " + tail);
      ReadRenderedValues(vs[1..]);
      ReadValuesCons(RenderValues(vs), vs[0], tail);
      assert [vs[0]] + vs[1..] == vs;
    }
  }

  /** An appended statement makes the schema text non-blank, so it can be downloaded. */
  lemma AppendedNotBlank(content: string, st: Statement)
    ensures Trim(content + "\n" + Sql(st)) != ""
  {
    var s := content + "\n" + Sql(st);
    assert s[|content| + 1] == 'I';
    TrimSpec(s);
  }

  /** The schema text being edited (`schemaContent`). */
  class SchemaEditor {
    var schemaContent: string

    constructor ()
      ensures schemaContent == ""
    {
      schemaContent := "";
    }

    /** A schema file was read: its text replaces the buffer. */
    method LoadSchema(text: string)
      modifies this
      ensures schemaContent == text
    {
      schemaContent := text;
    }

    /** `appendSQL`: a newline and the statement go after the existing text, which is kept as it was. */
    method AppendSql(sql: string)
      modifies this
      ensures schemaContent == old(schemaContent) + "\n" + sql
      ensures old(schemaContent) <= schemaContent
    {
      schemaContent := schemaContent + "\n" + sql;
    }

    /** A form submission: the statement is appended when the form passed its checks; otherwise nothing changes. */
    method Submit(st: Option<Statement>) returns (appended: bool)
      modifies this
      ensures appended == st.Some?
      ensures schemaContent == if st.Some? then old(schemaContent) + "\n" + Sql(st.value) else old(schemaContent)
    {
      appended := st.Some?;
      if appended {
        AppendSql(Sql(st.value));
      }
    }

    method AddPerson(name: string, idNumber: string, rfid: string, role: string, encode: string -> string) returns (appended: bool)
      modifies this
      ensures appended <==> Trim(name) != "" && Trim(idNumber) != "" && Latin1(Trim(idNumber))
      ensures var st := PersonInsert(name, idNumber, rfid, role, encode);
        schemaContent == if st.Some? then old(schemaContent) + "\n" + Sql(st.value) else old(schemaContent)
    {
      appended := Submit(PersonInsert(name, idNumber, rfid, role, encode));
    }

    method AddSection(name: string) returns (appended: bool)
      modifies this
      ensures appended <==> Trim(name) != ""
      ensures var st := SectionInsert(name);
        schemaContent == if st.Some? then old(schemaContent) + "\n" + Sql(st.value) else old(schemaContent)
    {
      appended := Submit(SectionInsert(name));
    }

    method AddStudentSection(personId: string, sectionId: string) returns (appended: bool)
      modifies this
      ensures appended <==> personId != "" && sectionId != ""
      ensures var st := StudentSectionInsert(personId, sectionId);
        schemaContent == if st.Some? then old(schemaContent) + "\n" + Sql(st.value) else old(schemaContent)
    {
      appended := Submit(StudentSectionInsert(personId, sectionId));
    }

    method AddTeacherSection(personId: string, sectionId: string) returns (appended: bool)
      modifies this
      ensures appended <==> personId != "" && sectionId != ""
      ensures var st := TeacherSectionInsert(personId, sectionId);
        schemaContent == if st.Some? then old(schemaContent) + "\n" + Sql(st.value) else old(schemaContent)
    {
      appended := Submit(TeacherSectionInsert(personId, sectionId));
    }

    method AddClassroom(room: string, location: string, capacity: string) returns (appended: bool)
      modifies this
      ensures appended <==> Trim(room) != ""
      ensures var st := ClassroomInsert(room, location, capacity);
        schemaContent == if st.Some? then old(schemaContent) + "\n" + Sql(st.value) else old(schemaContent)
    {
      appended := Submit(ClassroomInsert(room, location, capacity));
    }

    method AddSchedule(sectionId: string, teacherId: string, classroomId: string, subject: string, day: string,
                       start: string, end: string, meetingType: string, meetingUrl: string) returns (appended: bool)
      modifies this
      ensures appended <==> sectionId != "" && teacherId != "" && classroomId != "" && Trim(subject) != "" && start != "" && end != ""
      ensures var st := ScheduleInsert(sectionId, teacherId, classroomId, subject, day, start, end, meetingType, meetingUrl);
        schemaContent == if st.Some? then old(schemaContent) + "\n" + Sql(st.value) else old(schemaContent)
    {
      appended := Submit(ScheduleInsert(sectionId, teacherId, classroomId, subject, day, start, end, meetingType, meetingUrl));
    }

    method AddAttendance(personId: string, scheduleId: string, time: string, kind: string) returns (appended: bool)
      modifies this
      ensures appended <==> personId != "" && scheduleId != "" && time != ""
      ensures var st := AttendanceInsert(personId, scheduleId, time, kind);
        schemaContent == if st.Some? then old(schemaContent) + "\n" + Sql(st.value) else old(schemaContent)
    {
      appended := Submit(AttendanceInsert(personId, scheduleId, time, kind));
    }

    method AddFaceAttendance(scheduleId: string, sessionId: string, personId: string, detectionCount: string, confidence: string)
      returns (appended: bool)
      modifies this
      ensures appended <==> scheduleId != "" && Trim(sessionId) != "" && personId != ""
      ensures var st := FaceAttendanceInsert(scheduleId, sessionId, personId, detectionCount, confidence);
        schemaContent == if st.Some? then old(schemaContent) + "\n" + Sql(st.value) else old(schemaContent)
    {
      appended := Submit(FaceAttendanceInsert(scheduleId, sessionId, personId, detectionCount, confidence));
    }

    /** `downloadFile`: refused while the text is blank; otherwise the whole text is offered. */
    method DownloadFile() returns (file: Option<string>)
      ensures file.None? <==> Trim(schemaContent) == ""
      ensures file.Some? ==> file.value == schemaContent
    {
      if Trim(schemaContent) == "" {
        return None;
      }
      file := Some(schemaContent);
    }
  }
}
