# Face attendance system — a Dafny model

This project models the core of a classroom face-attendance system made of three JavaScript files:

- `app.js`: the browser client's `FaceAttendanceSystem` session engine. It handles:
  - video source selection;
  - session start and end;
  - the capture interval and the session timeout;
  - folding each capture's detections into a per-student attendance table;
  - the summary counts;
  - the countdown display;
  - upload with a local-storage fallback;
  - login and logout.
- `add_index_corrected.js`: the schema editor page. Each form validates its fields, builds one `INSERT` statement and appends it to the schema text. The text can be loaded from a file and downloaded.
- `face_attendance_api.js`: the demo API server. It provides:
  - fallback login;
  - the 80-student `/students` roster;
  - the batch-submit summary;
  - the `authenticateToken` bearer-token middleware, which is defined but mounted on no route.

The model has these modules:

- `Text`: the JavaScript string and number behaviour the code relies on: `trim`, `toString`, `padStart`, `split(' ')`, `replace` of the first match, and `Number(...)`.
- `Attendance`: the status rule, records and the summary.
- `OrderedMaps`: a `Map` with insertion order.
- `Roster`: students, the section table and the demo roster generator.
- `Aggregation`: the attendance table, seeding it for a section, and applying one capture.
- `Auth`: the fallback credentials, the `Authorization` header, and token extraction.
- `SessionEngine`: the `FaceAttendanceSystem` class, with one method per event.
- `SqlEditor`: the statement builders, the `SchemaEditor` class, and a reader for `VALUES` lists. The reader (`ReadValue`, `ReadValues`) is the model's own inverse of rendering; the page never parses SQL. It exists to state that a rendered list is unambiguous.
- `AttendanceApi`: the server's deterministic routes.

Outside inputs are parameters:

- the clock (`now`, in milliseconds);
- the user's answer to a camera or screen request;
- the detector's face count or failure;
- the backend's replies;
- the encoding `btoa` performs (when it throws is modelled: on a character above U+00FF);
- the JWT `sign`/`verify` functions.

Timer callbacks are separate events: `Tick` is the interval callback and `AutoEndFire` the timeout callback. They can arrive at any time, so they re-check their guards, as the source's callbacks do.

The model keeps these behaviours of the code, which a reader might not expect:

- Seeding a session does not clear the table. Records of students from an earlier session are kept.
- The section filter compares the student's section strictly with the resolved name. A section id that does not resolve therefore seeds exactly the students that have no section.
- `startSession` does not refuse to start while a session is active.
- Starting again while a session is active arms new timers without cancelling the old ones, and `endSession` clears only the handles it holds. The first session's interval keeps firing, and its timeout can end a later session early. The model keeps one flag per timer, so it does not show the orphaned timers. It stays sound because `Tick` and `AutoEndFire` may arrive at any time and re-check their guards.
- An in-flight detection that finishes after the session ended is still applied.
- A failed re-selection of the video source leaves the stopped stream referenced, so a session can still start.
- The fallback login sets no token, and the earlier token is kept.
- The demo server reports every submitted record as successful.
- Only the first `T` of an attendance time is replaced.

## Model

| member | source | states |
|---|---|---|
| Text.TrimStartSpec | app.js:266 | trimming the start removes exactly a whitespace prefix and leaves a result that is a suffix of the input and does not start with whitespace |
| Text.TrimEndSpec | app.js:266 | trimming the end removes exactly a whitespace suffix and leaves a prefix that does not end with whitespace |
| Text.TrimSpec | add_index_corrected.js:23 | `trim()` gives "" exactly when the text is all whitespace; a non-empty result has no whitespace at either end; text without whitespace is unchanged |
| Text.NatToString | app.js:101 | `toString()` of a non-negative integer is a non-empty digit string with no leading zero, one digit long exactly below 10 |
| Text.NatToStringLengthAtLeast | app.js:101 | a number of at least 10^(k-1) has at least k digits |
| Text.NatToStringValue | app.js:101 | the decimal digits read back as the number |
| Text.NatToStringRoundTrip | app.js:101 | parsing the decimal text of n gives n |
| Text.NatToStringInjective | app.js:276 | different numbers have different decimal texts |
| Text.PadStart | app.js:98 | `padStart(width, fill)` has length max(width, \|s\|), ends with s and is fill before it |
| Text.ZeroPaddedValue | app.js:98-99 | a number below 10^width, zero-padded to width, is exactly width digits with the same value |
| Text.LeadingZerosValue | app.js:465 | leading zeros do not change a digit string's value |
| Text.Split | face_attendance_api.js:37 | `split(' ')` gives at least one field and no field contains the separator |
| Text.SplitJoin | face_attendance_api.js:37 | joining the fields of a split with the separator gives back the original string |
| Text.SplitAtFirstSeparator | face_attendance_api.js:37 | the first field is everything before the first separator |
| Text.ReplaceFirst | add_index_corrected.js:153 | `replace("T", " ")` keeps the length and changes only the first occurrence, and nothing when there is none |
| Text.JsNumberOfDecimal | app.js:306 | `Number()` of a decimal integer's text is that integer |
| Attendance.StatusRule | app.js:401-405 | present iff count ≥ required, partial iff 0 < count < required, absent otherwise |
| Attendance.StatusRuleMonotone | app.js:401-405 | more detections never give a lower status |
| Attendance.FreshRecord | app.js:310-318 | a new record carries the student's id, name and id number, has zero detections, no timestamps or scores, status absent, and is consistent |
| Attendance.RecordDetection | app.js:395-405 | one detection adds 1 to the count, appends `now` and 0.85, keeps the identity fields, sets the status by the rule, keeps a consistent record consistent and never lowers the status |
| Attendance.StatusCountsCover | app.js:443-450 | present + partial + absent counts equal the number of records |
| Attendance.Summarize | app.js:443-450 | total is the table size; the present and partial counts are counts of those statuses; the absent count computed as total − present − partial equals the number of absent records |
| OrderedMaps.OrderedMap.Get | app.js:393 | `get` finds a value exactly for stored keys |
| OrderedMaps.OrderedMap.Set | app.js:310 | `set` stores the value, leaves other entries alone, keeps an existing key in place and appends a new key last |
| OrderedMaps.OrderedMap.Values | app.js:498 | `values()` lists the entries in key insertion order |
| OrderedMaps.OrderedMap.Items | app.js:532 | `entries()` lists key/value pairs in insertion order |
| OrderedMaps.Empty | app.js:10 | a new or cleared map has no keys |
| Roster.SampleRoster | app.js:93-105 | the demo roster of n students has length n |
| Roster.SampleRosterAt | app.js:95-97 | position k holds demo student k+1, whose id is k+1 |
| Roster.SampleRosterIds | app.js:97 | demo ids run 1, 2, …, n in order |
| Roster.GenerateSampleStudents | app.js:93-105 | the loop builds exactly the demo roster of `count` students, with ids 1..count in order |
| Roster.SampleSection | app.js:100 | students 1–30 are in S33, 31–60 in S34, 61–90 in S35 |
| Roster.SampleName | app.js:98 | the name is "Student " and two digits reading back as the number |
| Roster.SampleFaceId | app.js:99 | the face id is "FACE" and three digits reading back as the number |
| Roster.SampleIdNumber | app.js:101 | the id number is "25000" followed by the decimal digits of 32000 + i with no leading zero; ten characters for students up to 67999 |
| Aggregation.FindSection | app.js:306 | `find` returns the first section whose id equals the loosely converted key, and reports none only when no section matches |
| Aggregation.FixedSectionLookup | app.js:32-36 | the section table resolves "1", "2", "3" (as numbers) to S33, S34, S35 and anything else to nothing |
| Aggregation.SectionIds | app.js:305-307 | the ids of the section's roster students, both directions |
| Aggregation.NewIds | app.js:309-310 | the ids seeding appends: none already a key, none twice |
| Aggregation.SeedKeyOrder | app.js:303-319 | after seeding, the keys are the old keys followed by the section's new ids in roster order |
| Aggregation.SeedKeepsTable | app.js:303-319 | seeding keeps the table well formed; the existing keys stay first, in order, followed exactly by the section's new ids in roster order, each once |
| Aggregation.SeedEntries | app.js:303-319 | after seeding, the keys are the old keys plus the section's students; each section student's record is the fresh record built from a roster entry with that id (name and id number included); every other record is unchanged |
| Aggregation.SeedKeysAndOthers | app.js:305-319 | seeding adds exactly the section's ids and leaves the records of other ids alone |
| Aggregation.SeedOwners | app.js:309-318 | every seeded record is the fresh record of a section student with that id |
| Aggregation.SeedUnknownSection | app.js:306 | when the section id does not resolve, exactly the students without a section match the filter; when every student has a section, seeding changes nothing |
| Aggregation.ApplyDetectionsAt | app.js:388-410 | with n detections, the record at key position i gains one detection exactly when i < n; keys and their order stay |
| Aggregation.ApplyDetectionsKeepsTable | app.js:395-405 | a capture keeps the table well formed and no count or status goes down |
| Aggregation.ApplyNoDetections | app.js:367-369 | a capture with no faces changes nothing |
| Aggregation.ApplyDetectionsStep | app.js:390-410 | detection i is applied on top of the first i |
| Auth.BearerHeader | app.js:548-550 | a header is sent exactly when a non-empty token is held, and it is "Bearer " followed by the token |
| Auth.ExtractToken | face_attendance_api.js:36-37 | the server's token is the non-empty second space-separated field of the header |
| Auth.ExtractSecondField | face_attendance_api.js:37 | for `scheme token [rest]` the extracted token is `token` |
| Auth.BearerRoundTrip | face_attendance_api.js:36-41 | a space-free token sent by the client is exactly the token the server extracts |
| SessionEngine.StartCheck | app.js:260-272 | no stream gives the "select a source" error; with a stream, a blank subject or empty section gives "fill in details"; otherwise the session starts |
| SessionEngine.StorageKeysDistinct | app.js:276 | sessions started at different milliseconds are saved under different local-storage keys |
| SessionEngine.Countdown | app.js:462-464 | seconds < 60, minutes and seconds are the remaining time of the 50-minute session, clamped at 0 and rounded down to the second, and never more than 50 minutes |
| SessionEngine.ClockTextShape | app.js:465 | the display is the minutes, ':' and two digits reading back as the seconds |
| SessionEngine.FaceAttendanceSystem.constructor | app.js:3-36 | no stream, no session, no timers, empty table, no user, and the three fixed sections |
| SessionEngine.FaceAttendanceSystem.LoadFaceModels | app.js:48-71 | records whether the models loaded |
| SessionEngine.FaceAttendanceSystem.LoadStudentsFromDatabase | app.js:73-91 | the backend list if one arrived, otherwise the 80-student demo roster |
| SessionEngine.FaceAttendanceSystem.HandleLogin | app.js:142-167 | backend success sets the user and token; otherwise only the two fallback credentials log in, as a teacher, with the token unchanged |
| SessionEngine.FaceAttendanceSystem.RequestAuthorization | app.js:548-550 | the header is present iff a non-empty token is held, and the server reads back exactly that token |
| SessionEngine.FaceAttendanceSystem.SelectVideoSource | app.js:183-246 | the old stream is stopped first; granted access holds a live stream of the chosen kind; refusal leaves the stopped stream referenced |
| SessionEngine.FaceAttendanceSystem.HandleStreamEnd | app.js:248-258 | the stream and source are dropped; an active session is not ended |
| SessionEngine.FaceAttendanceSystem.StartSession | app.js:260-301 | the checks decide the result; on failure nothing changes; on success the session record, the seeded table, the first capture and both timers are set |
| SessionEngine.FaceAttendanceSystem.OpenSession | app.js:274-291 | the session data holds the id, trimmed subject, section, start time and source; the table is seeded; the first capture starts when possible; both timers are armed |
| SessionEngine.FaceAttendanceSystem.InitializeAttendanceData | app.js:303-322 | the table becomes the seeding of the old table with the roster for the section found by loose id match, and stays well formed |
| SessionEngine.FaceAttendanceSystem.SeedSection | app.js:305-319 | the loop over the roster yields exactly the seeded table |
| SessionEngine.FaceAttendanceSystem.StartCaptureTimer | app.js:324-341 | the immediate first capture and both timers armed |
| SessionEngine.FaceAttendanceSystem.BeginDetection | app.js:343-349 | a cycle starts iff the models are loaded and none is running; starting marks it running and counts the capture |
| SessionEngine.FaceAttendanceSystem.CompleteDetection | app.js:351-379 | found faces are applied to the table (even after the session ended); a failure or no faces leave it; the cycle is always marked finished |
| SessionEngine.FaceAttendanceSystem.ProcessFaceDetections | app.js:382-413 | the per-detection loop gives exactly one capture's application of n detections, and keeps the table well formed |
| SessionEngine.FaceAttendanceSystem.Tick | app.js:329-333 | a capture starts iff the session is active, fewer than 5 captures were taken, the models are loaded and no cycle is running; never more than 5 captures |
| SessionEngine.FaceAttendanceSystem.AutoEndFire | app.js:336-340 | the timeout ends an active session; afterwards no session and no timers |
| SessionEngine.FaceAttendanceSystem.EndSession | app.js:468-492 | the held timer handles are cleared and the session is inactive; the records are kept |
| SessionEngine.FaceAttendanceSystem.Logout | app.js:591-614 | any session is ended, the stream is stopped and dropped, and the user, token and table are cleared |
| SessionEngine.FaceAttendanceSystem.UploadPayload | app.js:498-508 | the payload carries the session's id, 5 captures, and every record in insertion order |
| SessionEngine.FaceAttendanceSystem.UploadAttendance | app.js:494-527 | without session data nothing is sent or saved; an accepted upload leaves storage alone; a refused one saves the snapshot under `attendance_<id>`, replacing an earlier one |
| SessionEngine.FaceAttendanceSystem.SaveAttendanceLocally | app.js:529-538 | the snapshot (session, entries in order, time) is stored under `attendance_<id>` and nothing else in storage changes |
| SqlEditor.OptionalQuoted | add_index_corrected.js:33 | an optional field is NULL exactly when empty, otherwise it is quoted |
| SqlEditor.OptionalBare | add_index_corrected.js:101 | an empty capacity is NULL, otherwise it is written unquoted |
| SqlEditor.OrZero | add_index_corrected.js:175 | `x \|\| 0`: an empty field is 0, otherwise it is written as is |
| SqlEditor.Sql | add_index_corrected.js:36 | every statement starts with "INSERT INTO " |
| SqlEditor.PersonInsert | add_index_corrected.js:22-43 | a statement is built iff the trimmed name and id number are non-empty and the id number is Latin-1 (otherwise `btoa` throws); a `persons` statement over name, id number, RFID tag, role and password, whose values are the quoted trimmed name and id number, NULL or the quoted trimmed RFID, the quoted role and the quoted encoded id number |
| SqlEditor.SectionInsert | add_index_corrected.js:45-56 | built iff the trimmed name is non-empty; a `sections` statement over `section_name` whose one value is the quoted trimmed name |
| SqlEditor.LinkInsert | add_index_corrected.js:58-88 | built iff both ids are non-empty; a statement on the given link table over `person_id`, `section_id` whose values are the two ids unquoted |
| SqlEditor.ClassroomInsert | add_index_corrected.js:90-109 | built iff the trimmed room is non-empty; a `classrooms` statement over room number, location and capacity whose values are the quoted trimmed room, NULL or the quoted trimmed location, and NULL or the bare capacity |
| SqlEditor.ScheduleInsert | add_index_corrected.js:111-140 | built iff the three ids, trimmed subject and both times are non-empty; a `schedule` statement over its nine columns whose values are the three ids unquoted, the quoted trimmed subject, the quoted day, start, end and meeting type, and NULL or the quoted trimmed URL |
| SqlEditor.AttendanceInsert | add_index_corrected.js:142-159 | built iff person, schedule and time are non-empty; an `attendance` statement over schedule, person, timestamp and type whose values are the two ids unquoted, the quoted time with only its first 'T' made a space, and the quoted type |
| SqlEditor.IndexOfOrEnd | add_index_corrected.js:153 | the position of the first occurrence, or the end when there is none |
| SqlEditor.FaceStatus | add_index_corrected.js:173 | present iff the count reads as a number ≥ 3, partial iff it reads as a number strictly between 0 and 3 |
| SqlEditor.FaceStatusMatchesSession | add_index_corrected.js:173 | for every decimal count the editor's status equals the session engine's rule |
| SqlEditor.FaceStatusBlank | add_index_corrected.js:173 | a blank count gives absent |
| SqlEditor.FaceAttendanceInsert | add_index_corrected.js:161-183 | built iff schedule, trimmed session and person are non-empty; a `face_attendance` statement over its six columns whose values are the two ids unquoted, the quoted trimmed session, the count and confidence bare or 0 when blank, and the quoted status from the count |
| SqlEditor.ReadQuoted | add_index_corrected.js:36 | a quoted value without a quote reads back |
| SqlEditor.ReadBare | add_index_corrected.js:67 | a bare id without a comma reads back |
| SqlEditor.ReadRenderedValue | add_index_corrected.js:36 | a safe value reads back from its rendering |
| SqlEditor.ReadRenderedValues | add_index_corrected.js:36 | a non-empty list of safe values reads back from its rendered `VALUES` list |
| SqlEditor.AppendedNotBlank | add_index_corrected.js:185-189 | after any append the schema text is not blank, so it can be downloaded |
| SqlEditor.SchemaEditor.constructor | add_index_corrected.js:2 | the schema text starts empty |
| SqlEditor.SchemaEditor.LoadSchema | add_index_corrected.js:5-15 | a loaded file's text replaces the schema text |
| SqlEditor.SchemaEditor.AppendSql | add_index_corrected.js:17-20 | a newline and the statement are appended; the old text is a prefix of the new |
| SqlEditor.SchemaEditor.Submit | add_index_corrected.js:28-36 | a validated statement is appended; a rejected form changes nothing |
| SqlEditor.SchemaEditor.AddPerson | add_index_corrected.js:22-43 | appended iff name and id number are non-blank and the id number is Latin-1, and the text grows by exactly that statement |
| SqlEditor.SchemaEditor.AddSection | add_index_corrected.js:45-56 | appended iff the section name is non-blank |
| SqlEditor.SchemaEditor.AddStudentSection | add_index_corrected.js:58-72 | appended iff both ids are non-empty |
| SqlEditor.SchemaEditor.AddTeacherSection | add_index_corrected.js:74-88 | appended iff both ids are non-empty |
| SqlEditor.SchemaEditor.AddClassroom | add_index_corrected.js:90-109 | appended iff the room is non-blank |
| SqlEditor.SchemaEditor.AddSchedule | add_index_corrected.js:111-140 | appended iff the required schedule fields are present |
| SqlEditor.SchemaEditor.AddAttendance | add_index_corrected.js:142-159 | appended iff person, schedule and time are non-empty |
| SqlEditor.SchemaEditor.AddFaceAttendance | add_index_corrected.js:161-183 | appended iff schedule, session and person are present |
| SqlEditor.SchemaEditor.DownloadFile | add_index_corrected.js:185-198 | refused exactly when the text is blank; otherwise the whole text is offered |
| AttendanceApi.Login | face_attendance_api.js:66-86 | succeeds iff a fallback credential is given, as a teacher, with the signed user as token; otherwise "Invalid credentials" |
| AttendanceApi.ListStudents | face_attendance_api.js:89-105 | the 80 demo students with ids 1..80 in order |
| AttendanceApi.ListedSections | face_attendance_api.js:96 | listed students 1–30 are in S33, 31–60 in S34, 61–80 in S35 |
| AttendanceApi.SubmitSummary | face_attendance_api.js:108-120 | every submitted record counts as successful, none as failed; a missing list counts 0 |
| AttendanceApi.RefusalStatus | face_attendance_api.js:39-46 | a missing token is answered 401, an invalid one 403, and an authenticated request is not refused |
| AttendanceApi.Authenticate | face_attendance_api.js:35-50 | 401 iff no usable token, 403 iff the token does not verify, otherwise the verified claims |
| AttendanceApi.ClientRequestAuthentication | face_attendance_api.js:35-50 | were the middleware applied to the client's header, a request without a token would be refused with 401, and one with a space-free token would have exactly that token verified |

## Left out

- Face detection (face-api.js models, video frames, descriptors) is the parameter `DetectionOutcome`. Detection `i` goes to the `i`-th student in table order, as the source does; there is no real matching.
- DOM and UI work is not modelled: `showStatus`, button states, the attendance table rows, the progress bar, and the `localeCompare` sort of the displayed rows.
- Real timers and asynchronous interleaving are events instead. `setInterval`/`setTimeout` are the `Tick` and `AutoEndFire` events, and the `await` inside a detection cycle splits it into `BeginDetection` and `CompleteDetection`.
- `getUserMedia`/`getDisplayMedia`, track stopping and video element playback are the flags `streamHeld`/`streamLive` and the `granted` parameter. A playback failure after the stream was acquired is not modelled.
- `fetch` and `apiCall` are not modelled. Backend replies are parameters, and HTTP error statuses and exceptions fold into "no reply".
- `Date` values are integer milliseconds. ISO and locale time strings are not modelled.
- Floating-point averages, the progress percentage and `toFixed` are not modelled. Confidence scores are the constant 0.85 as a real.
- The capture interval (the period of the `setInterval` that drives detection) is abstracted into the `Tick` events, which may arrive at any time.
- The `faceDescriptors` map and the configuration fields no modelled behaviour reads (thresholds, batch size, timeout, endpoint) are left out.
- `initializeApp`/`bindEvents` are not modelled. The constructor's asynchronous start-up is the separate events `LoadFaceModels` and `LoadStudentsFromDatabase`.
- `authenticateToken` is defined but applied to no route, so every request is served with or without a token. `Authenticate` models the middleware itself, as it would answer if it were mounted.
- Server infrastructure is not modelled: Express, CORS, helmet, rate limiting, the PostgreSQL pool, bcrypt and `/health`.
- `jwt.sign`/`jwt.verify` are the parameters `sign`/`verify`. The base64 text `btoa` produces is the parameter `encode`; only its refusal of characters above U+00FF is modelled.
- The server's 500 error paths are not modelled.
- FileReader, Blob and the download link are not modelled. Loading and downloading are the text in and the text out.
- Text.JsNumber: reads only optionally signed decimal integers and blank text. Decimal fractions, exponents and hexadecimal literals read as NaN. So `SqlEditor.FaceStatus` of a count such as "2.5" is absent here, where the page gives partial.
- Text.IsWhitespace: no Unicode normalisation. Strings are sequences of Unicode code points, not UTF-16 code units. For characters outside the Basic Multilingual Plane, lengths and indices differ from JavaScript's, and lone surrogates cannot be represented. The modelled operations trim only BMP whitespace and pad only digits.
- SqlEditor.ReadRenderedValues: the read-back holds only for safe values (no quote inside quoted text, no comma in bare text). The editor does not escape values, so text containing a quote produces SQL that does not read back.
