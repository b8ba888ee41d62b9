/**
 * The browser client's session engine (`FaceAttendanceSystem`): video source
 * selection, session start and end, the capture timer's callbacks, folding a
 * capture's detections into the attendance table, upload with a local-storage
 * fallback, login and logout.
 *
 * Outside inputs are parameters: the current time (`now`, milliseconds), the
 * user's answer to a camera or screen-share request (`granted`), the face
 * detector's result (`DetectionOutcome`), and the backend's answers.
 * Timers are explicit events: `Tick` is the interval callback and
 * `AutoEndFire` the session timeout callback.
 */
module SessionEngine {
  import opened Options
  import opened Text
  import opened Attendance
  import opened OrderedMaps
  import opened Roster
  import opened Aggregation
  import opened Auth

  /** Configuration: a 50-minute session, 5 captures, present from 3 detections. */
  const SessionDurationMs: nat := 3000000
  const RequiredDetections: nat := 3
  const TotalCaptures: nat := 5
  /** Size of the demo roster used when the backend has no student list. */
  const FallbackRosterSize: nat := 80

  datatype VideoSource = Screen | Webcam

  datatype SessionData = SessionData(
    id: string,
    subject: string,
    sectionId: string,
    startTime: Timestamp,
    videoSource: Option<VideoSource>)

  /** What the face detector produced for one frame: some number of faces, or an error. */
  datatype DetectionOutcome = Faces(count: nat) | DetectorFailed

  datatype StartResult = Started | NoVideoSource | MissingDetails

  /** The checks `startSession` makes before anything changes: a stream first, then subject and section. */
  function StartCheck(hasStream: bool, subject: string, sectionId: string): (r: StartResult)
    ensures r == NoVideoSource <==> !hasStream
    ensures r == MissingDetails <==> hasStream && (Trim(subject) == "" || sectionId == "")
    ensures r == Started <==> hasStream && Trim(subject) != "" && sectionId != ""
  {
    if !hasStream then NoVideoSource
    else if Trim(subject) == "" || sectionId == "" then MissingDetails
    else Started
  }

  /** A successful `/login` answer from the backend. */
  datatype LoginReply = LoginReply(user: User, token: string)

  /** The body posted to `/attendance/batch-submit`. */
  datatype Payload = Payload(
    sessionId: string,
    subject: string,
    sectionId: string,
    startTime: Timestamp,
    endTime: Timestamp,
    videoSource: Option<VideoSource>,
    totalCaptures: nat,
    attendanceData: seq<Record>)

  /** What is written to local storage when an upload fails. */
  datatype Snapshot = Snapshot(sessionData: SessionData, attendanceData: seq<(int, Record)>, timestamp: Timestamp)

  /** `NoSession`: there is no session data, so building the payload throws and nothing is saved. */
  datatype UploadResult = Uploaded | SavedLocally | NoSession

  function SessionId(now: Timestamp): string {
    "session_" + NatToString(now)
  }

  function StorageKey(sessionId: string): string {
    "attendance_" + sessionId
  }

  /** Sessions started at different milliseconds are saved under different local-storage keys. */
  lemma StorageKeysDistinct(a: Timestamp, b: Timestamp)
    ensures StorageKey(SessionId(a)) == StorageKey(SessionId(b)) ==> a == b
  {
    assert StorageKey(SessionId(a))[19..] == NatToString(a);
    assert StorageKey(SessionId(b))[19..] == NatToString(b);
    NatToStringInjective(a, b);
  }

  datatype Clock = Clock(minutes: nat, seconds: nat)

  /**
   * Remaining session time after `elapsed` milliseconds (never negative),
   * split into whole minutes and whole seconds.
   */
  function Countdown(elapsed: int): (c: Clock)
    ensures c.seconds < 60
    ensures var remaining := if SessionDurationMs > elapsed then SessionDurationMs - elapsed else 0;
      c.minutes * 60000 + c.seconds * 1000 <= remaining < c.minutes * 60000 + c.seconds * 1000 + 1000
    ensures elapsed >= 0 ==> c.minutes <= 50
  {
    var remaining := if SessionDurationMs > elapsed then SessionDurationMs - elapsed else 0;
    Clock(remaining / 60000, (remaining % 60000) / 1000)
  }

  /** The remaining-time display: the minutes, a colon, and the seconds padded to two digits. */
  function ClockText(c: Clock): string {
    NatToString(c.minutes) + ":" + PadStart(NatToString(c.seconds), 2, '0')
  }

  /** The displayed time ends in ':' and two digits that read back as the seconds. */
  lemma ClockTextShape(c: Clock)
    requires c.seconds < 60
    ensures var t := ClockText(c);
      |t| >= 4 && t[|t| - 3] == ':' && AllDigits(t[|t| - 2..]) && DigitsValue(t[|t| - 2..]) == c.seconds
      && t[..|t| - 3] == NatToString(c.minutes)
  {
    var m := NatToString(c.minutes);
    var p := PadStart(NatToString(c.seconds), 2, '0');
    assert |p| == 2 && AllDigits(p) && DigitsValue(p) == c.seconds by {
      assert Pow10(2) == 100;
      ZeroPaddedValue(c.seconds, 2);
    }
    ColonJoin(m, p);
  }

  lemma ColonJoin(m: string, p: string)
    requires |p| == 2
    ensures var t := m + ":" + p;
      |t| == |m| + 3 && t[|t| - 3] == ':' && t[|t| - 2..] == p && t[..|t| - 3] == m
  {
    var t := m + ":" + p;
    assert t[..|m|] == m;
    assert t[|m| + 1..] == p;
  }

  class FaceAttendanceSystem {
    /** `currentStream != null`. */
    var streamHeld: bool
    /** The held stream's tracks are running (not stopped). */
    var streamLive: bool
    var currentVideoSource: Option<VideoSource>
    var isSessionActive: bool
    var sessionData: Option<SessionData>
    /** `captureInterval != null` and `sessionTimer != null`. */
    var captureTimerSet: bool
    var sessionTimerSet: bool
    var attendanceData: Table
    var captureCount: nat
    var modelsLoaded: bool
    var processingDetection: bool
    var students: seq<Student>
    const sections: seq<Section>
    var currentUser: Option<User>
    var authToken: Option<string>
    /** The browser's local storage, as far as this client writes it. */
    var localStorage: map<string, Snapshot>

    ghost predicate Valid()
      reads this
    {
      && TableOK(attendanceData, RequiredDetections)
      && captureCount <= TotalCaptures
      && (streamLive ==> streamHeld)
      && (streamHeld ==> currentVideoSource.Some?)
      && captureTimerSet == isSessionActive
      && sessionTimerSet == isSessionActive
      && (isSessionActive ==> sessionData.Some?)
    }

    constructor (storage: map<string, Snapshot>)
      ensures Valid()
      ensures !streamHeld && !streamLive && currentVideoSource.None?
      ensures !isSessionActive && sessionData.None? && !captureTimerSet && !sessionTimerSet
      ensures attendanceData == Empty() && captureCount == 0 && !modelsLoaded && !processingDetection
      ensures students == [] && sections == FixedSections
      ensures currentUser.None? && authToken.None? && localStorage == storage
    {
      streamHeld, streamLive, currentVideoSource := false, false, None;
      isSessionActive, sessionData := false, None;
      captureTimerSet, sessionTimerSet := false, false;
      attendanceData := Empty();
      captureCount := 0;
      modelsLoaded, processingDetection := false, false;
      students := [];
      sections := FixedSections;
      currentUser, authToken := None, None;
      localStorage := storage;
    }

    /** Outcome of loading the face-detection models. */
    method LoadFaceModels(loaded: bool)
      modifies this`modelsLoaded
      ensures modelsLoaded == loaded
    {
      modelsLoaded := loaded;
    }

    /** The backend's student list if it sent one, otherwise the 80-student demo roster. */
    method LoadStudentsFromDatabase(reply: Option<seq<Student>>)
      modifies this`students
      ensures students == if reply.Some? then reply.value else SampleRoster(FallbackRosterSize)
    {
      if reply.Some? {
        students := reply.value;
      } else {
        students := GenerateSampleStudents(FallbackRosterSize);
      }
    }

    /**
     * Backend login first; when it fails, the fallback credentials log in a
     * teacher without a token (any earlier token is kept).
     */
    method HandleLogin(username: string, password: string, reply: Option<LoginReply>) returns (loggedIn: bool)
      modifies this`currentUser, this`authToken
      ensures reply.Some? ==> loggedIn && currentUser == Some(reply.value.user) && authToken == Some(reply.value.token)
      ensures reply.None? ==> loggedIn == IsFallbackCredential(username, password) && authToken == old(authToken)
      ensures reply.None? ==> currentUser == if loggedIn then Some(User(username, "teacher")) else old(currentUser)
    {
      if reply.Some? {
        currentUser, authToken := Some(reply.value.user), Some(reply.value.token);
        return true;
      }
      loggedIn := IsFallbackCredential(username, password);
      if loggedIn {
        currentUser := Some(User(username, "teacher"));
      }
    }

    /** The `Authorization` header every API call carries. */
    function RequestAuthorization(): (h: Option<string>)
      reads this
      ensures h.Some? <==> authToken.Some? && authToken.value != ""
      ensures h.Some? && ' ' !in authToken.value ==> ExtractToken(h) == authToken
    {
      var h := BearerHeader(authToken);
      if h.Some? && ' ' !in authToken.value then BearerRoundTrip(authToken.value); h else h
    }

    /**
     * Ask for a camera or screen stream. Any held stream is stopped first; if
     * the request is refused the stopped stream stays referenced.
     */
    method SelectVideoSource(kind: VideoSource, granted: bool) returns (ok: bool)
      requires Valid()
      modifies this`streamHeld, this`streamLive, this`currentVideoSource
      ensures Valid()
      ensures ok == granted
      ensures granted ==> streamHeld && streamLive && currentVideoSource == Some(kind)
      ensures !granted ==> streamHeld == old(streamHeld) && !streamLive && currentVideoSource == old(currentVideoSource)
    {
      if streamHeld {
        streamLive := false;
      }
      if !granted {
        return false;
      }
      streamHeld, streamLive := true, true;
      currentVideoSource := Some(kind);
      ok := true;
    }

    /** The stream ended from outside: it is dropped, but an active session keeps running. */
    method HandleStreamEnd()
      requires Valid()
      modifies this`streamHeld, this`streamLive, this`currentVideoSource
      ensures Valid()
      ensures !streamHeld && !streamLive && currentVideoSource.None?
    {
      streamHeld, streamLive := false, false;
      currentVideoSource := None;
    }

    /**
     * Start a session: needs a held stream, a subject that is not blank and a
     * section id. On success the table is seeded, the first capture begins at
     * once and both timers are armed; otherwise nothing changes.
     */
    method StartSession(subject: string, sectionId: string, now: Timestamp) returns (result: StartResult)
      requires Valid()
      modifies this`sessionData, this`isSessionActive, this`captureCount, this`attendanceData
      modifies this`processingDetection, this`captureTimerSet, this`sessionTimerSet
      ensures Valid()
      ensures result == StartCheck(streamHeld, subject, sectionId)
      ensures result != Started ==> unchanged(this)
      ensures result == Started ==> SessionOpened(SessionId(now), Trim(subject), sectionId, now)
    {
      result := StartCheck(streamHeld, subject, sectionId);
      if result == Started {
        OpenSession(SessionId(now), Trim(subject), sectionId, now);
      }
    }

    /** The state right after a session was opened with the given details. */
    twostate predicate SessionOpened(id: string, subject: string, sectionId: string, now: Timestamp)
      reads this
    {
      && isSessionActive && captureTimerSet && sessionTimerSet
      && sessionData == Some(SessionData(id, subject, sectionId, now, currentVideoSource))
      && attendanceData == Seed(old(attendanceData), students, SectionNameFor(sections, sectionId))
      && (if modelsLoaded && !old(processingDetection)
          then processingDetection && captureCount == 1
          else processingDetection == old(processingDetection) && captureCount == 0)
    }

    /** The part of `startSession` after its checks: record the session, seed the table, start capturing. */
    method OpenSession(id: string, subject: string, sectionId: string, now: Timestamp)
      requires Valid()
      modifies this`sessionData, this`isSessionActive, this`captureCount, this`attendanceData
      modifies this`processingDetection, this`captureTimerSet, this`sessionTimerSet
      ensures Valid()
      ensures SessionOpened(id, subject, sectionId, now)
    {
      sessionData := Some(SessionData(id, subject, sectionId, now, currentVideoSource));
      isSessionActive := true;
      captureCount := 0;
      InitializeAttendanceData(sectionId);
      StartCaptureTimer();
    }

    /** Give each roster student of the section a fresh record; nothing is removed. */
    method InitializeAttendanceData(sectionId: string)
      requires TableOK(attendanceData, RequiredDetections)
      modifies this`attendanceData
      ensures attendanceData == Seed(old(attendanceData), students, SectionNameFor(sections, sectionId))
      ensures TableOK(attendanceData, RequiredDetections)
    {
      var sectionName := SectionNameFor(sections, sectionId);
      SeedSection(sectionName);
    }

    /** The seeding loop over the roster, for an already resolved section name. */
    method SeedSection(sectionName: Option<string>)
      requires TableOK(attendanceData, RequiredDetections)
      modifies this`attendanceData
      ensures attendanceData == Seed(old(attendanceData), students, sectionName)
      ensures TableOK(attendanceData, RequiredDetections)
    {
      var i := 0;
      while i < |students|
        invariant 0 <= i <= |students|
        invariant Seed(attendanceData, students[i..], sectionName) == Seed(old(attendanceData), students, sectionName)
      {
        var student := students[i];
        SeedStep(attendanceData, students[i..], sectionName);
        assert students[i..][1..] == students[i + 1..];
        if InSection(student, sectionName) {
          attendanceData := attendanceData.Set(student.id, SeedRecord(student));
        }
        i := i + 1;
      }
      SeedKeepsTable(old(attendanceData), students, sectionName, RequiredDetections);
    }

    /** The immediate first capture, then the interval and the timeout are armed. */
    method StartCaptureTimer()
      modifies this`processingDetection, this`captureCount, this`captureTimerSet, this`sessionTimerSet
      ensures captureTimerSet && sessionTimerSet
      ensures if modelsLoaded && !old(processingDetection)
              then processingDetection && captureCount == old(captureCount) + 1
              else processingDetection == old(processingDetection) && captureCount == old(captureCount)
    {
      var _ := BeginDetection();
      captureTimerSet, sessionTimerSet := true, true;
    }

    /**
     * The synchronous start of a capture cycle: skipped when the models are not
     * loaded or a cycle is still running; otherwise the cycle is marked as
     * running and counted before the detector is even called.
     */
    method BeginDetection() returns (started: bool)
      modifies this`processingDetection, this`captureCount
      ensures started <==> modelsLoaded && !old(processingDetection)
      ensures started ==> processingDetection && captureCount == old(captureCount) + 1
      ensures !started ==> processingDetection == old(processingDetection) && captureCount == old(captureCount)
    {
      if !modelsLoaded || processingDetection {
        return false;
      }
      processingDetection := true;
      captureCount := captureCount + 1;
      started := true;
    }

    /**
     * The end of a running capture cycle, once the detector has answered:
     * found faces are folded into the table (even if the session ended in the
     * meantime), and the cycle is marked finished whatever the outcome.
     */
    method CompleteDetection(outcome: DetectionOutcome, now: Timestamp)
      requires Valid() && processingDetection
      modifies this`attendanceData, this`processingDetection
      ensures Valid() && !processingDetection
      ensures attendanceData ==
        if outcome.Faces? && outcome.count > 0 then ApplyDetections(old(attendanceData), outcome.count, now, RequiredDetections)
        else old(attendanceData)
    {
      if outcome.Faces? && outcome.count > 0 {
        ProcessFaceDetections(outcome.count, now);
      }
      processingDetection := false;
    }

    /** Detection `index` goes to the student at key position `index`, while there are students left. */
    method ProcessFaceDetections(n: nat, now: Timestamp)
      requires TableOK(attendanceData, RequiredDetections)
      modifies this`attendanceData
      ensures attendanceData == ApplyDetections(old(attendanceData), n, now, RequiredDetections)
      ensures TableOK(attendanceData, RequiredDetections)
    {
      ghost var t0 := attendanceData;
      var availableStudents := attendanceData.keys;
      ApplyNoDetections(t0, now, RequiredDetections);
      var index := 0;
      while index < n
        invariant 0 <= index <= n
        invariant attendanceData == ApplyDetections(t0, index, now, RequiredDetections)
      {
        ApplyDetectionsStep(t0, index, now, RequiredDetections);
        if index < |availableStudents| {
          ApplyDetectionsAt(t0, index, now, RequiredDetections, index);
          var studentId := availableStudents[index];
          var attendance := attendanceData.Get(studentId);
          if attendance.Some? {
            attendanceData := attendanceData.Set(studentId, RecordDetection(attendance.value, now, RequiredDetections));
          }
        }
        index := index + 1;
      }
      ApplyDetectionsKeepsTable(t0, n, now, RequiredDetections);
    }

    /** The interval callback: a capture only while the session is active and under the capture budget. */
    method Tick() returns (started: bool)
      requires Valid()
      modifies this`processingDetection, this`captureCount
      ensures Valid() && captureCount <= TotalCaptures
      ensures started <==> isSessionActive && old(captureCount) < TotalCaptures && modelsLoaded && !old(processingDetection)
      ensures started ==> processingDetection && captureCount == old(captureCount) + 1
      ensures !started ==> processingDetection == old(processingDetection) && captureCount == old(captureCount)
    {
      started := false;
      if isSessionActive && captureCount < TotalCaptures {
        started := BeginDetection();
      }
    }

    /** The session timeout callback: ends the session if it is still active. */
    method AutoEndFire()
      requires Valid()
      modifies this`isSessionActive, this`captureTimerSet, this`sessionTimerSet
      ensures Valid()
      ensures !isSessionActive && !captureTimerSet && !sessionTimerSet
    {
      if isSessionActive {
        EndSession();
      }
    }

    /** Clear the timer handles held and mark the session inactive; records are left as they are. */
    method EndSession()
      requires Valid()
      modifies this`isSessionActive, this`captureTimerSet, this`sessionTimerSet
      ensures Valid()
      ensures !isSessionActive && !captureTimerSet && !sessionTimerSet
      ensures !old(isSessionActive) ==> !old(captureTimerSet) && !old(sessionTimerSet)
    {
      if !isSessionActive {
        return;
      }
      captureTimerSet := false;
      sessionTimerSet := false;
      isSessionActive := false;
    }

    /** End any session, stop and drop the stream, forget the user, the token and the table. */
    method Logout()
      requires Valid()
      modifies this`isSessionActive, this`captureTimerSet, this`sessionTimerSet
      modifies this`streamHeld, this`streamLive, this`currentUser, this`authToken, this`attendanceData
      ensures Valid()
      ensures !isSessionActive && !captureTimerSet && !sessionTimerSet
      ensures !streamHeld && !streamLive
      ensures currentUser.None? && authToken.None? && attendanceData == Empty()
    {
      if isSessionActive {
        EndSession();
      }
      if streamHeld {
        streamLive := false;
        streamHeld := false;
      }
      currentUser, authToken := None, None;
      attendanceData := Empty();
    }

    /** The batch-submit body for the current session, records in insertion order. */
    function UploadPayload(now: Timestamp): (p: Payload)
      reads this
      requires sessionData.Some? && attendanceData.Valid()
      ensures p.sessionId == sessionData.value.id && p.totalCaptures == TotalCaptures
      ensures |p.attendanceData| == attendanceData.Size()
      ensures forall i :: 0 <= i < |p.attendanceData| ==> p.attendanceData[i] == attendanceData.entries[attendanceData.keys[i]]
    {
      var s := sessionData.value;
      Payload(s.id, s.subject, s.sectionId, s.startTime, now, s.videoSource, TotalCaptures, attendanceData.Values())
    }

    /**
     * Post the session's records. If the server does not confirm, the snapshot
     * is saved under `attendance_<session id>`, replacing an earlier one.
     */
    method UploadAttendance(serverAccepted: bool, now: Timestamp) returns (result: UploadResult, sent: Option<Payload>)
      requires Valid()
      modifies this`localStorage
      ensures sessionData.None? ==> result == NoSession && sent.None? && localStorage == old(localStorage)
      ensures sessionData.Some? ==> sent == Some(UploadPayload(now))
      ensures sessionData.Some? && serverAccepted ==> result == Uploaded && localStorage == old(localStorage)
      ensures sessionData.Some? && !serverAccepted ==>
        result == SavedLocally && localStorage == old(localStorage)[StorageKey(sessionData.value.id) := Snapshot(sessionData.value, attendanceData.Items(), now)]
    {
      if sessionData.None? {
        return NoSession, None;
      }
      sent := Some(UploadPayload(now));
      if serverAccepted {
        return Uploaded, sent;
      }
      SaveAttendanceLocally(now);
      result := SavedLocally;
    }

    method SaveAttendanceLocally(now: Timestamp)
      requires Valid() && sessionData.Some?
      modifies this`localStorage
      ensures localStorage == old(localStorage)[StorageKey(sessionData.value.id) := Snapshot(sessionData.value, attendanceData.Items(), now)]
    {
      localStorage := localStorage[StorageKey(sessionData.value.id) := Snapshot(sessionData.value, attendanceData.Items(), now)];
    }
  }
}
