/**
 * Per-student attendance records of a session, the rule that turns a
 * detection count into a status, and the summary counts shown beside the
 * attendance table.
 */
module Attendance {

  /** Milliseconds since the epoch; `Date` values are only ever stored and compared. */
  type Timestamp = nat

  datatype Status = Absent | Partial | Present

  /** Order of the statuses along `absent -> partial -> present`. */
  function Rank(s: Status): nat {
    match s
    case Absent => 0
    case Partial => 1
    case Present => 2
  }

  /** The status strings written into records and SQL. */
  function StatusName(s: Status): string {
    match s
    case Absent => "absent"
    case Partial => "partial"
    case Present => "present"
  }

  /** `present` from `required` detections on, `partial` for a positive count below that, `absent` otherwise. */
  function StatusRule(detections: int, required: int): (s: Status)
    ensures s == Present <==> detections >= required
    ensures s == Partial <==> 0 < detections < required
    ensures s == Absent <==> detections <= 0 && detections < required
  {
    if detections >= required then Present else if detections > 0 then Partial else Absent
  }

  /** More detections never give a lower status. */
  lemma StatusRuleMonotone(d1: int, d2: int, required: int)
    requires d1 <= d2
    ensures Rank(StatusRule(d1, required)) <= Rank(StatusRule(d2, required))
  {
  }

  /** The confidence recorded for every detection (a fixed demo value). */
  const DemoConfidence: real := 0.85

  datatype Record = Record(
    studentId: int,
    name: string,
    idNumber: string,
    detections: nat,
    timestamps: seq<Timestamp>,
    confidenceScores: seq<real>,
    status: Status)

  /** One timestamp and one score per detection, and the status the rule gives for the count. */
  ghost predicate Consistent(r: Record, required: nat) {
    && |r.timestamps| == r.detections
    && |r.confidenceScores| == r.detections
    && r.status == StatusRule(r.detections, required)
  }

  /** A record that has seen nothing yet. */
  predicate Zeroed(r: Record) {
    r.detections == 0 && r.timestamps == [] && r.confidenceScores == [] && r.status == Absent
  }

  function FreshRecord(studentId: int, name: string, idNumber: string): (r: Record)
    ensures Zeroed(r) && r.studentId == studentId && r.name == name && r.idNumber == idNumber
    ensures forall required: nat :: required > 0 ==> Consistent(r, required)
  {
    Record(studentId, name, idNumber, 0, [], [], Absent)
  }

  /**
   * One detection attributed to the record's student at time `now`: the count
   * goes up, a timestamp and the demo confidence are appended, and the status
   * is raised (`present` at `required` detections, else `partial`); it is
   * never set back to `absent`.
   */
  function RecordDetection(r: Record, now: Timestamp, required: nat): (r': Record)
    ensures r'.detections == r.detections + 1
    ensures r'.timestamps == r.timestamps + [now] && r'.confidenceScores == r.confidenceScores + [DemoConfidence]
    ensures r'.studentId == r.studentId && r'.name == r.name && r'.idNumber == r.idNumber
    ensures r'.status == StatusRule(r'.detections, required)
    ensures Consistent(r, required) ==> Consistent(r', required) && Rank(r'.status) >= Rank(r.status)
  {
    var d := r.detections + 1;
    r.(detections := d,
       timestamps := r.timestamps + [now],
       confidenceScores := r.confidenceScores + [DemoConfidence],
       status := if d >= required then Present else if d > 0 then Partial else r.status)
  }

  function CountStatus(rs: seq<Record>, s: Status): (n: nat)
    ensures n <= |rs|
    decreases |rs|
  {
    if rs == [] then 0 else (if rs[0].status == s then 1 else 0) + CountStatus(rs[1..], s)
  }

  /** Every record has exactly one of the three statuses. */
  lemma {:induction false} StatusCountsCover(rs: seq<Record>)
    ensures CountStatus(rs, Present) + CountStatus(rs, Partial) + CountStatus(rs, Absent) == |rs|
    decreases |rs|
  {
    if rs != [] {
      StatusCountsCover(rs[1..]);
    }
  }

  datatype Summary = Summary(total: nat, present: nat, partial: nat, absent: nat)

  /** The summary line: absent is computed as total minus present minus partial. */
  function Summarize(rs: seq<Record>): (s: Summary)
    ensures s.total == |rs|
    ensures s.present == CountStatus(rs, Present) && s.partial == CountStatus(rs, Partial)
    ensures s.absent == CountStatus(rs, Absent)
  {
    StatusCountsCover(rs);
    var present := CountStatus(rs, Present);
    var partial := CountStatus(rs, Partial);
    Summary(|rs|, present, partial, |rs| - present - partial)
  }
}
