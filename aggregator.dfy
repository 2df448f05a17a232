/**
 * The room-status dashboard handler: every student's room with the status of
 * the newest cleaning request for that room, and counts by status.
 *
 * The handler receives the students and the cleaning requests as the store
 * returns them (requests newest first), builds a room -> request dictionary
 * in one pass where the first request seen for a room wins, then maps every
 * student to a row and counts the rows.
 */
module Aggregator {
  import opened Wrappers
  import opened Records

  /**
   * The property name a JavaScript object uses for `roomMap[roomNo]`: an
   * absent room number is coerced to the string "undefined".
   */
  function Key(roomNo: Option<string>): (k: string)
    ensures roomNo.Some? ==> k == roomNo.value
    ensures k == "undefined" <==> roomNo == None || roomNo == Some("undefined")
  {
    match roomNo
    case None => "undefined"
    case Some(r) => r
  }

  /** A value of the room dictionary. */
  datatype Entry = Entry(
    roomNo: Option<string>,
    status: string,
    student: Id,
    assignedWorker: Option<Id>,  // `req.assignedWorker || null`
    lastRequestDate: int)

  function EntryOf(r: Cleaning): Entry
  {
    Entry(r.roomNo, r.status, r.student, r.assignedWorker, r.createdAt)
  }

  /** One row of the dashboard. */
  datatype Row = Row(
    roomNo: string,
    student: Option<string>,  // a student without a name has no `student` field in the JSON
    status: string,
    worker: Option<Id>,
    lastRequestDate: Option<int>)

  /** The response body of the handler. */
  datatype Report = Report(
    totalRooms: nat,
    cleaned: nat,
    pending: nat,
    notRequested: nat,
    rooms: seq<Row>)

  /** The status shown for a room without a request. */
  const NotRequested := "Not Requested"

  // ---------------------------------------------------------------------
  // The room dictionary
  // ---------------------------------------------------------------------

  /**
   * The dictionary after the insert-if-absent pass over `requests`, stated
   * one request at a time from the end: a request is added only when no
   * earlier request claimed its room.
   */
  function RoomMapOf(requests: seq<Cleaning>): (m: map<string, Entry>)
    ensures forall k :: k in m ==> Key(m[k].roomNo) == k
  {
    if requests == [] then map[]
    else
      var m := RoomMapOf(requests[..|requests| - 1]);
      var r := requests[|requests| - 1];
      if Key(r.roomNo) in m then m else m[Key(r.roomNo) := EntryOf(r)]
  }

  /** `requests[i]` is the first request, in input order, for room key `k`. */
  predicate IsFirstFor(requests: seq<Cleaning>, k: string, i: int)
  {
    && 0 <= i < |requests|
    && Key(requests[i].roomNo) == k
    && forall j :: 0 <= j < i ==> Key(requests[j].roomNo) != k
  }

  /** The dictionary's keys are exactly the room keys of the requests. */
  lemma {:induction false} RoomMapKeys(requests: seq<Cleaning>)
    ensures forall i :: 0 <= i < |requests| ==> Key(requests[i].roomNo) in RoomMapOf(requests)
    ensures forall k :: k in RoomMapOf(requests) ==>
      exists i :: 0 <= i < |requests| && Key(requests[i].roomNo) == k
    decreases |requests|
  {
    if requests != [] {
      var n := |requests| - 1;
      var prefix := requests[..n];
      RoomMapKeys(prefix);
      var m := RoomMapOf(requests);
      assert RoomMapOf(prefix).Keys <= m.Keys;
      forall i | 0 <= i < |requests| ensures Key(requests[i].roomNo) in m {
        if i < n {
          assert requests[i] == prefix[i];
        }
      }
      forall k | k in m
        ensures exists i :: 0 <= i < |requests| && Key(requests[i].roomNo) == k
      {
        if k in RoomMapOf(prefix) {
          var i :| 0 <= i < |prefix| && Key(prefix[i].roomNo) == k;
          assert requests[i] == prefix[i];
        } else {
          assert Key(requests[n].roomNo) == k;
        }
      }
    }
  }

  /**
   * The dictionary holds exactly the rooms that have a request, and each
   * room maps to the first request for it in input order.
   */
  lemma {:induction false} RoomMapFirstWins(requests: seq<Cleaning>)
    ensures forall i :: 0 <= i < |requests| ==> Key(requests[i].roomNo) in RoomMapOf(requests)
    ensures forall k :: k in RoomMapOf(requests) ==>
      exists i :: 0 <= i < |requests| && Key(requests[i].roomNo) == k
    ensures forall k, i :: IsFirstFor(requests, k, i) ==> RoomMapOf(requests)[k] == EntryOf(requests[i])
    decreases |requests|
  {
    RoomMapKeys(requests);
    if requests != [] {
      var n := |requests| - 1;
      var prefix := requests[..n];
      RoomMapFirstWins(prefix);
      var m := RoomMapOf(requests);
      forall k, i | IsFirstFor(requests, k, i)
        ensures m[k] == EntryOf(requests[i])
      {
        var last := Key(requests[n].roomNo);
        assert m == if last in RoomMapOf(prefix) then RoomMapOf(prefix)
                    else RoomMapOf(prefix)[last := EntryOf(requests[n])];
        if i < n {
          assert prefix[i] == requests[i];
          assert IsFirstFor(prefix, k, i);
          assert k in RoomMapOf(prefix);
        } else {
          forall j | 0 <= j < |prefix| ensures Key(prefix[j].roomNo) != k {
            assert prefix[j] == requests[j];
          }
          assert k !in RoomMapOf(prefix);
          assert m == RoomMapOf(prefix)[k := EntryOf(requests[n])];
        }
      }
    }
  }

  /** Once a room is in the dictionary its entry is never overwritten by a later request. */
  lemma {:induction false} RoomMapNeverOverwrites(requests: seq<Cleaning>, i: nat, j: nat)
    requires i <= j <= |requests|
    ensures forall k :: k in RoomMapOf(requests[..i]) ==>
      k in RoomMapOf(requests[..j]) && RoomMapOf(requests[..j])[k] == RoomMapOf(requests[..i])[k]
    decreases j - i
  {
    if i < j {
      RoomMapNeverOverwrites(requests, i, j - 1);
      assert requests[..j][..j - 1] == requests[..j - 1];
    }
  }

  /** Some request for room `k` at or before `j` is the first one for that room. */
  lemma {:induction false} FirstExists(requests: seq<Cleaning>, k: string, j: nat) returns (i: nat)
    requires j < |requests| && Key(requests[j].roomNo) == k
    ensures i <= j && IsFirstFor(requests, k, i)
    decreases j
  {
    if exists j' :: 0 <= j' < j && Key(requests[j'].roomNo) == k {
      var j' :| 0 <= j' < j && Key(requests[j'].roomNo) == k;
      i := FirstExists(requests, k, j');
    } else {
      i := j;
    }
  }

  /** The order the store query produces: newest request first. */
  predicate NewestFirst(requests: seq<Cleaning>)
  {
    forall i, j :: 0 <= i <= j < |requests| ==> requests[j].createdAt <= requests[i].createdAt
  }

  /**
   * With the requests newest first, the entry for a room is a request of that
   * room whose creation time is at least that of every request for the room.
   */
  lemma {:induction false} NewestRequestWins(requests: seq<Cleaning>, k: string)
    requires NewestFirst(requests)
    requires k in RoomMapOf(requests)
    ensures exists i :: (0 <= i < |requests| && Key(requests[i].roomNo) == k &&
      RoomMapOf(requests)[k] == EntryOf(requests[i]))
    ensures forall j :: 0 <= j < |requests| && Key(requests[j].roomNo) == k ==>
      requests[j].createdAt <= RoomMapOf(requests)[k].lastRequestDate
  {
    RoomMapFirstWins(requests);
    var j0 :| 0 <= j0 < |requests| && Key(requests[j0].roomNo) == k;
    var i := FirstExists(requests, k, j0);
    forall j | 0 <= j < |requests| && Key(requests[j].roomNo) == k
      ensures requests[j].createdAt <= RoomMapOf(requests)[k].lastRequestDate
    {
      assert i <= j;
    }
  }

  // ---------------------------------------------------------------------
  // Rows and counts
  // ---------------------------------------------------------------------

  /** `User.find({ role: "student" })`: the students, in store order. */
  function Students(users: seq<User>): (students: seq<User>)
    ensures |students| <= |users|
    ensures forall u :: u in students <==> u in users && u.role == Student
  {
    if users == [] then []
    else (if users[0].role == Student then [users[0]] else []) + Students(users[1..])
  }

  /** The query returns each student as often as the store holds it, and no other user. */
  lemma {:induction false} StudentsOnce(users: seq<User>)
    ensures forall u :: multiset(Students(users))[u] == if u.role == Student then multiset(users)[u] else 0
  {
    if users != [] {
      StudentsOnce(users[1..]);
      assert users == [users[0]] + users[1..];
    }
  }

  /** `s.roomNo || "-"`: an absent or empty room number shows as "-". */
  function DisplayRoom(roomNo: Option<string>): (shown: string)
    ensures shown != ""
    ensures roomNo.Some? && roomNo.value != "" ==> shown == roomNo.value
    ensures roomNo.None? || roomNo.value == "" ==> shown == "-"
  {
    match roomNo
    case None => "-"
    case Some(r) => if r == "" then "-" else r
  }

  /**
   * The row of one student. The lookup uses the raw room number; an entry's
   * empty status is falsy and shows as "Not Requested"; an entry's date is a
   * `Date` object and therefore always truthy.
   */
  function RowOf(s: User, roomMap: map<string, Entry>): (row: Row)
    ensures row.roomNo == DisplayRoom(s.roomNo) && row.student == s.name
    ensures row.status != ""
    ensures row.lastRequestDate.Some? <==> Key(s.roomNo) in roomMap
    ensures Key(s.roomNo) !in roomMap ==> row.status == NotRequested && row.worker == None
    ensures Key(s.roomNo) in roomMap ==>
      var e := roomMap[Key(s.roomNo)];
      && row.lastRequestDate == Some(e.lastRequestDate) && row.worker == e.assignedWorker
      && row.status == (if e.status == "" then NotRequested else e.status)
  {
    var key := Key(s.roomNo);
    if key in roomMap then
      var e := roomMap[key];
      Row(DisplayRoom(s.roomNo), s.name,
          if e.status == "" then NotRequested else e.status,
          e.assignedWorker, Some(e.lastRequestDate))
    else
      Row(DisplayRoom(s.roomNo), s.name, NotRequested, None, None)
  }

  /** `students.map(...)`. */
  function RowsOf(students: seq<User>, roomMap: map<string, Entry>): (rows: seq<Row>)
    ensures |rows| == |students|
    ensures forall i :: 0 <= i < |rows| ==>
      rows[i].student == students[i].name && rows[i].roomNo == DisplayRoom(students[i].roomNo)
    ensures forall i :: 0 <= i < |rows| ==> rows[i].status != ""
  {
    seq(|students|, i requires 0 <= i < |students| => RowOf(students[i], roomMap))
  }

  /** The status column of the rows, in row order. */
  function StatusesOf(rows: seq<Row>): (statuses: seq<string>)
    ensures |statuses| == |rows|
    ensures forall i :: 0 <= i < |rows| ==> statuses[i] == rows[i].status
  {
    seq(|rows|, i requires 0 <= i < |rows| => rows[i].status)
  }

  /** `rows.filter((r) => r.status === status).length`. */
  function CountStatus(rows: seq<Row>, status: string): (n: nat)
    ensures n <= |rows|
    ensures n == 0 <==> forall i :: 0 <= i < |rows| ==> rows[i].status != status
  {
    if rows == [] then 0
    else (if rows[0].status == status then 1 else 0) + CountStatus(rows[1..], status)
  }

  /** The count is exactly the number of rows whose status is `status`. */
  lemma {:induction false} CountStatusExact(rows: seq<Row>, status: string)
    ensures CountStatus(rows, status) == multiset(StatusesOf(rows))[status]
  {
    if rows != [] {
      CountStatusExact(rows[1..], status);
      assert StatusesOf(rows) == [rows[0].status] + StatusesOf(rows[1..]);
    }
  }

  /** A status the dashboard does not count under any of its three headings. */
  predicate Uncounted(status: string)
  {
    status != Completed && status != Pending && status != NotRequested
  }

  /** The number of rows whose status none of the three counters sees. */
  function CountUncounted(rows: seq<Row>): nat
  {
    if rows == [] then 0
    else (if Uncounted(rows[0].status) then 1 else 0) + CountUncounted(rows[1..])
  }

  /** Every row is counted by at most one counter, or by none. */
  lemma {:induction false} CountsPartition(rows: seq<Row>)
    ensures CountStatus(rows, Completed) + CountStatus(rows, Pending) +
      CountStatus(rows, NotRequested) + CountUncounted(rows) == |rows|
    ensures CountUncounted(rows) == 0 <==> forall i :: 0 <= i < |rows| ==> !Uncounted(rows[i].status)
  {
    if rows != [] {
      CountsPartition(rows[1..]);
      assert forall i :: 1 <= i < |rows| ==> rows[i] == rows[1..][i - 1];
    }
  }

  /** The dashboard body the handler returns, as a function of what the store returned. */
  function RoomReport(users: seq<User>, requests: seq<Cleaning>): (report: Report)
    ensures report.totalRooms == |report.rooms| == |Students(users)|
    ensures report.cleaned + report.pending + report.notRequested <= report.totalRooms
  {
    var rooms := RowsOf(Students(users), RoomMapOf(requests));
    CountsPartition(rooms);
    Report(|rooms|, CountStatus(rooms, Completed), CountStatus(rooms, Pending),
           CountStatus(rooms, NotRequested), rooms)
  }

  /**
   * The handler of GET /api/dashboard/room-status, after the two store
   * queries: the `forEach` that fills the room dictionary, then the rows and
   * the counts.
   */
  method RoomStatus(users: seq<User>, requests: seq<Cleaning>) returns (report: Report)
    ensures report == RoomReport(users, requests)
  {
    var students := Students(users);
    var roomMap: map<string, Entry> := map[];
    for i := 0 to |requests|
      invariant roomMap == RoomMapOf(requests[..i])
    {
      var r := requests[i];
      assert requests[..i + 1][..i] == requests[..i];
      if Key(r.roomNo) !in roomMap {
        roomMap := roomMap[Key(r.roomNo) := EntryOf(r)];
      }
    }
    assert requests[..|requests|] == requests;
    var rooms := RowsOf(students, roomMap);
    report := Report(|rooms|, CountStatus(rooms, Completed), CountStatus(rooms, Pending),
                     CountStatus(rooms, NotRequested), rooms);
  }

  // ---------------------------------------------------------------------
  // What the report promises
  // ---------------------------------------------------------------------

  /**
   * One row per student, in student order, showing the student's name and
   * room, and `totalRooms` is the number of students.
   */
  lemma {:induction false} OneRowPerStudent(users: seq<User>, requests: seq<Cleaning>)
    ensures var report := RoomReport(users, requests);
      && report.totalRooms == |report.rooms| == |Students(users)|
      && forall i :: 0 <= i < |report.rooms| ==>
           report.rooms[i].student == Students(users)[i].name &&
           report.rooms[i].roomNo == DisplayRoom(Students(users)[i].roomNo)
  {
  }

  /** A student whose room has no request is shown as "Not Requested", with no worker and no date. */
  lemma {:induction false} RowWithoutRequest(users: seq<User>, requests: seq<Cleaning>, i: nat)
    requires i < |Students(users)|
    requires forall j :: 0 <= j < |requests| ==> Key(requests[j].roomNo) != Key(Students(users)[i].roomNo)
    ensures var row := RoomReport(users, requests).rooms[i];
      row.status == NotRequested && row.worker == None && row.lastRequestDate == None
  {
    RoomMapFirstWins(requests);
  }

  /**
   * A student whose room has requests is shown with the status, the worker
   * and the creation time of the first of them in input order; with the
   * requests newest first, no request for the room is newer.
   */
  lemma {:induction false} RowWithRequest(users: seq<User>, requests: seq<Cleaning>, i: nat, j: nat)
    requires i < |Students(users)|
    requires IsFirstFor(requests, Key(Students(users)[i].roomNo), j)
    ensures var row := RoomReport(users, requests).rooms[i];
      && row.status == (if requests[j].status == "" then NotRequested else requests[j].status)
      && row.worker == requests[j].assignedWorker
      && row.lastRequestDate == Some(requests[j].createdAt)
    ensures NewestFirst(requests) ==>
      forall j' :: 0 <= j' < |requests| && Key(requests[j'].roomNo) == Key(Students(users)[i].roomNo) ==>
        requests[j'].createdAt <= requests[j].createdAt
  {
    RoomMapFirstWins(requests);
  }

  lemma {:induction false} ReportRow(users: seq<User>, requests: seq<Cleaning>, i: nat)
    requires i < |Students(users)|
    ensures |RoomReport(users, requests).rooms| == |Students(users)|
    ensures RoomReport(users, requests).rooms[i] == RowOf(Students(users)[i], RoomMapOf(requests))
  {
  }

  /** Two students who share a room number are shown with the same status, worker and date. */
  lemma {:induction false} SameRoomSameStatus(users: seq<User>, requests: seq<Cleaning>, i: nat, j: nat)
    requires i < |Students(users)| && j < |Students(users)|
    requires Students(users)[i].roomNo == Students(users)[j].roomNo
    ensures var rooms := RoomReport(users, requests).rooms;
      && rooms[i].status == rooms[j].status
      && rooms[i].worker == rooms[j].worker
      && rooms[i].lastRequestDate == rooms[j].lastRequestDate
  {
    ReportRow(users, requests, i);
    ReportRow(users, requests, j);
  }

  /**
   * `cleaned`, `pending` and `notRequested` together never exceed
   * `totalRooms`, and fall short of it exactly when some row has a status
   * none of them counts.
   */
  lemma {:induction false} CountsBounded(users: seq<User>, requests: seq<Cleaning>)
    ensures var report := RoomReport(users, requests);
      && report.cleaned + report.pending + report.notRequested <= report.totalRooms
      && (report.cleaned + report.pending + report.notRequested < report.totalRooms <==>
            exists i :: 0 <= i < |report.rooms| && Uncounted(report.rooms[i].status))
  {
    CountsPartition(RoomReport(users, requests).rooms);
  }

  // ---------------------------------------------------------------------
  // Rooms without a matching student
  // ---------------------------------------------------------------------

  /** The room keys of the students. */
  function StudentKeys(users: seq<User>): set<string>
  {
    set s | s in Students(users) :: Key(s.roomNo)
  }

  /** The requests whose room key is in `keys`, in input order. */
  function OnlyRooms(requests: seq<Cleaning>, keys: set<string>): seq<Cleaning>
  {
    if requests == [] then []
    else
      var r := requests[|requests| - 1];
      OnlyRooms(requests[..|requests| - 1], keys) + (if Key(r.roomNo) in keys then [r] else [])
  }

  lemma {:induction false} RoomMapOnlyRooms(requests: seq<Cleaning>, keys: set<string>)
    ensures forall k :: k in keys ==>
      (k in RoomMapOf(OnlyRooms(requests, keys)) <==> k in RoomMapOf(requests))
    ensures forall k :: k in keys && k in RoomMapOf(requests) ==>
      RoomMapOf(OnlyRooms(requests, keys))[k] == RoomMapOf(requests)[k]
    decreases |requests|
  {
    if requests != [] {
      var n := |requests| - 1;
      var r := requests[n];
      var prefix := OnlyRooms(requests[..n], keys);
      RoomMapOnlyRooms(requests[..n], keys);
      if Key(r.roomNo) in keys {
        var kept := prefix + [r];
        assert OnlyRooms(requests, keys) == kept;
        assert kept[..|kept| - 1] == prefix;
      } else {
        assert OnlyRooms(requests, keys) == prefix;
      }
    }
  }

  lemma {:induction false} RowsAgree(students: seq<User>, m1: map<string, Entry>, m2: map<string, Entry>)
    requires forall s :: s in students ==> (Key(s.roomNo) in m1 <==> Key(s.roomNo) in m2)
    requires forall s :: s in students && Key(s.roomNo) in m1 ==> m1[Key(s.roomNo)] == m2[Key(s.roomNo)]
    ensures RowsOf(students, m1) == RowsOf(students, m2)
  {
    assert forall i :: 0 <= i < |students| ==> students[i] in students;
  }

  /**
   * Requests for rooms that no student holds are silently dropped: removing
   * them from the input leaves the whole report unchanged.
   */
  lemma {:induction false} UnmatchedRoomsDropped(users: seq<User>, requests: seq<Cleaning>)
    ensures RoomReport(users, OnlyRooms(requests, StudentKeys(users))) == RoomReport(users, requests)
  {
    var keys := StudentKeys(users);
    RoomMapOnlyRooms(requests, keys);
    forall s | s in Students(users) ensures Key(s.roomNo) in keys { }
    RowsAgree(Students(users), RoomMapOf(OnlyRooms(requests, keys)), RoomMapOf(requests));
  }

  // ---------------------------------------------------------------------
  // What the dashboard reads of a request
  // ---------------------------------------------------------------------

  /**
   * The two request lists agree, position by position, on room, status and
   * creation time; they may differ in student, preferred time and worker.
   */
  predicate SameStatusView(a: seq<Cleaning>, b: seq<Cleaning>)
  {
    && |a| == |b|
    && forall i :: 0 <= i < |a| ==>
         a[i].roomNo == b[i].roomNo && a[i].status == b[i].status && a[i].createdAt == b[i].createdAt
  }

  lemma {:induction false} RoomMapSameStatus(a: seq<Cleaning>, b: seq<Cleaning>)
    requires SameStatusView(a, b)
    ensures RoomMapOf(a).Keys == RoomMapOf(b).Keys
    ensures forall k :: k in RoomMapOf(a) ==>
      RoomMapOf(a)[k].status == RoomMapOf(b)[k].status &&
      RoomMapOf(a)[k].lastRequestDate == RoomMapOf(b)[k].lastRequestDate
    decreases |a|
  {
    if a != [] {
      var n := |a| - 1;
      assert SameStatusView(a[..n], b[..n]) by {
        forall i | 0 <= i < n ensures a[..n][i] == a[i] && b[..n][i] == b[i] { }
      }
      RoomMapSameStatus(a[..n], b[..n]);
    }
  }

  lemma {:induction false} CountStatusSame(rows1: seq<Row>, rows2: seq<Row>, status: string)
    requires |rows1| == |rows2|
    requires forall i :: 0 <= i < |rows1| ==> rows1[i].status == rows2[i].status
    ensures CountStatus(rows1, status) == CountStatus(rows2, status)
  {
    if rows1 != [] {
      CountStatusSame(rows1[1..], rows2[1..], status);
    }
  }

  /**
   * The dashboard shows of a request only its room, status and creation
   * time: two request lists that agree on those give the same rows, up to
   * the worker column, and the same counts.
   */
  lemma {:induction false} ReportIgnoresWorker(users: seq<User>, a: seq<Cleaning>, b: seq<Cleaning>)
    requires SameStatusView(a, b)
    ensures var ra := RoomReport(users, a);
      var rb := RoomReport(users, b);
      && ra.totalRooms == rb.totalRooms && ra.cleaned == rb.cleaned
      && ra.pending == rb.pending && ra.notRequested == rb.notRequested
      && |ra.rooms| == |rb.rooms|
      && forall i :: 0 <= i < |ra.rooms| ==> ra.rooms[i] == rb.rooms[i].(worker := ra.rooms[i].worker)
  {
    RoomMapSameStatus(a, b);
    var ra := RoomReport(users, a);
    var rb := RoomReport(users, b);
    forall i | 0 <= i < |Students(users)|
      ensures ra.rooms[i] == rb.rooms[i].(worker := ra.rooms[i].worker)
    {
      ReportRow(users, a, i);
      ReportRow(users, b, i);
    }
    CountStatusSame(ra.rooms, rb.rooms, Completed);
    CountStatusSame(ra.rooms, rb.rooms, Pending);
    CountStatusSame(ra.rooms, rb.rooms, NotRequested);
  }

  /** Assigning a worker to one request changes no status on the dashboard and none of its counts. */
  lemma {:induction false} AssignKeepsDashboard(users: seq<User>, requests: seq<Cleaning>, j: nat, worker: Id)
    requires j < |requests|
    ensures var before := RoomReport(users, requests);
      var after := RoomReport(users, requests[j := requests[j].(assignedWorker := Some(worker))]);
      && after.totalRooms == before.totalRooms && after.cleaned == before.cleaned
      && after.pending == before.pending && after.notRequested == before.notRequested
      && forall i :: 0 <= i < |before.rooms| ==> after.rooms[i].status == before.rooms[i].status
  {
    var withWorker := requests[j := requests[j].(assignedWorker := Some(worker))];
    ReportIgnoresWorker(users, withWorker, requests);
  }

  /**
   * Two students in rooms "1" and "2"; room "1" has a completed request and
   * an older pending one. Room "1" shows "completed", room "2" "Not Requested".
   */
  lemma {:induction false} DashboardExample()
    ensures var users := [User(1, Some("Asha"), "asha@hostel", 0, Student, Some("1")),
                          User(2, Some("Ravi"), "ravi@hostel", 0, Student, Some("2"))];
      var requests := [Cleaning(10, 1, Some("1"), None, Completed, Some(7), 200),
                       Cleaning(11, 1, Some("1"), None, Pending, None, 100)];
      var report := RoomReport(users, requests);
      && report.rooms[0].status == Completed && report.rooms[0].worker == Some(7)
      && report.rooms[0].lastRequestDate == Some(200)
      && report.rooms[1].status == NotRequested && report.rooms[1].worker == None
      && report.totalRooms == 2 && report.cleaned == 1 && report.pending == 0 && report.notRequested == 1
  {
    var users := [User(1, Some("Asha"), "asha@hostel", 0, Student, Some("1")),
                  User(2, Some("Ravi"), "ravi@hostel", 0, Student, Some("2"))];
    var requests := [Cleaning(10, 1, Some("1"), None, Completed, Some(7), 200),
                     Cleaning(11, 1, Some("1"), None, Pending, None, 100)];
    assert Students(users) == users by {
      assert Students(users[1..]) == users[1..];
    }
    assert requests[..1] == [requests[0]];
    assert RoomMapOf(requests[..1]) == map["1" := EntryOf(requests[0])] by {
      assert requests[..1][..0] == [];
    }
    assert RoomMapOf(requests) == map["1" := EntryOf(requests[0])];
    assert "2" != "1";
    var rows := RowsOf(users, map["1" := EntryOf(requests[0])]);
    assert rows == [RowOf(users[0], map["1" := EntryOf(requests[0])]), RowOf(users[1], map["1" := EntryOf(requests[0])])];
    assert rows[1..][1..] == [];
  }
}
