# HostelCare backend core, modelled in Dafny

HostelCare is a hostel-management web application: an Express/Mongoose REST
backend (`backend/server.js`) with a React frontend. Admins create users,
resolve complaints and assign workers to cleaning requests; students file
complaints and cleaning requests; workers report the status of the cleaning
requests they were given. This project models the logic of the backend:

- **Guards** (`guards.dfy`): the `auth` middleware, which takes the token from
  the `Authorization` header as segment `[1]` of `split(" ")`, verifies it and
  attaches the user, and the `role` middleware, which checks the attached
  user's role against the route's allow-list. JavaScript's `split` with a
  one-character separator is modelled exactly and proved to be undone by
  joining (and to be the only separator-free cut). The scheme word is never
  checked, so `Basic xyz` yields the token `xyz` just as `Bearer xyz` does.
- **Aggregator** (`aggregator.dfy`): the `GET /api/dashboard/room-status`
  handler. A `for` loop fills the room dictionary with insert-if-absent over
  the requests (newest first), then every student becomes a row and the rows
  are counted by status. The model keeps JavaScript's coercions: an absent
  room number is the object key `"undefined"`, `s.roomNo || "-"` shows an
  absent or empty room as `"-"`, `status || "Not Requested"` shows an empty
  status as `"Not Requested"`, and a request's `createdAt` is a `Date` object,
  so it is always truthy.
- **Store** (`store.dfy`): a `DocumentStore` class holding the users,
  complaints and cleaning-requests collections as maps, with the create,
  resolve, assign and status updates as methods. Each method is specified by
  a pure update function on the map (`ResolveAt`, `AssignAt`, `SetStatusAt`),
  and those functions carry the frame: one field of one document changes.
- **Routes** (`routes.dfy`): the complaint and cleaning routes, each the guard
  chain followed by its handler; a rejected request leaves the store unchanged.
- **Records** (`records.dfy`) and **Wrappers** (`wrappers.dfy`): the three
  document types with their schema defaults, and `Option`.

Token verification is the parameter `verify: string -> Option<Id>`; the
request clock is the parameter `now`; ObjectIds are natural numbers drawn
from a counter in the store.

Behaviours of the code the model keeps:
- The code does not check the `Bearer` scheme word (backend/server.js:62).
- The dashboard has one row per student, not one per distinct room; two
  students who share a room get two rows with the same status, worker, date
  and displayed room, each with its own student name (backend/server.js:141-147).
- A user's `name` is optional in the schema (backend/server.js:27); a student
  without one gets a row without a `student` field, so `User.name` and
  `Row.student` are `Option<string>`.
- Resolving is allowed from any status, so it is an idempotent overwrite rather
  than a pending-to-resolved transition (backend/server.js:194-201).
- The dashboard route has no guard at all (backend/server.js:117). A worker
  may set the status of any cleaning request, not only one assigned to them
  (backend/server.js:247-257). A student may file a cleaning request for any
  room number (backend/server.js:206-214).

## Model

| member | source | states |
|---|---|---|
| `Guards.Split` | backend/server.js:62 | JavaScript's `split` with a one-character separator: always at least one piece, at least two exactly when the separator occurs, and no piece contains the separator |
| `Guards.JoinSplit` | backend/server.js:62 | splitting loses nothing: joining the pieces with the separator gives the header back |
| `Guards.SplitJoin` | backend/server.js:62 | splitting is the only cut into separator-free pieces: it undoes joining |
| `Guards.HeaderToken` | backend/server.js:62 | `authorization?.split(" ")[1]`: there is a segment [1] exactly when a header is present and contains a space, and that segment never contains a space |
| `Guards.NoToken` | backend/server.js:62-63 | `!token`: an absent header, or one without a space, never carries a token |
| `Guards.EmptySecondSegment` | backend/server.js:62-63 | after the first space the token is empty (so `!token` holds) exactly when the header ends there or a second space follows at once, as in `"Bearer "` |
| `Guards.TokenIgnoresScheme` | backend/server.js:62-63 | for any space-free scheme word, `scheme + " " + t` (optionally followed by a space and more) yields token `t`; `Basic xyz` yields `xyz` |
| `Guards.TokenShape` | backend/server.js:62-63 | conversely, a header yields token `t` only if it is a space-free word, one space, `t` (space-free), then nothing or a space and more |
| `Guards.Auth` | backend/server.js:61-72 | 401 "Unauthorized" exactly when the header is absent or its segment [1] is missing or empty; 401 "Invalid token" exactly when there is a token and verification fails; otherwise proceeds with the user stored under the verified id, or none |
| `Guards.RoleGate` | backend/server.js:74-78 | proceeds with the same user exactly when the user's role is in the allow-list; otherwise 403 "Forbidden" |
| `Guards.Authorize` | backend/server.js:61-78 | the chain `auth` then `role` answers in exactly one of four ways: 401 "Unauthorized" (no token), 401 "Invalid token" (verification fails), 403 "Forbidden" (role not allowed), or proceeds with the token's user |
| `Guards.MissingHeaderIsUnauthorized` | backend/server.js:62-63 | a request with no Authorization header is answered 401 "Unauthorized" whatever the verifier, users and allow-list |
| `Aggregator.RoomStatus` | backend/server.js:117-161 | the handler's loop builds exactly the first-wins room dictionary, and the response equals the report of the rows and counts (`RoomReport`) |
| `Aggregator.Key` | backend/server.js:129-130 | the object key of `roomMap[req.roomNo]`: a present room number is its own key; the key is `"undefined"` exactly for an absent room number and for the room named `"undefined"` |
| `Aggregator.RoomMapOf` | backend/server.js:126-138 | the dictionary after the insert-if-absent pass; every entry sits under the key of its own room number |
| `Aggregator.RoomMapFirstWins` | backend/server.js:126-138 | the dictionary holds exactly the rooms that have a request, and each room maps to the first request for it in input order |
| `Aggregator.RoomMapNeverOverwrites` | backend/server.js:128-138 | once a room key is in the dictionary after a prefix of the requests, later requests leave its entry unchanged |
| `Aggregator.NewestRequestWins` | backend/server.js:123-138 | with the requests sorted newest first, each room's entry is one of its requests and no request for the room is newer |
| `Aggregator.Students` | backend/server.js:120 | the student query keeps exactly the users whose role is student |
| `Aggregator.StudentsOnce` | backend/server.js:120 | the student query returns each student exactly as many times as the store holds it (once per document) and no user of another role |
| `Aggregator.CountStatus` | backend/server.js:151-153 | `filter(status === s).length` is at most the number of rows and is zero exactly when no row has status `s` |
| `Aggregator.CountStatusExact` | backend/server.js:151-153 | each counter is exactly the number of rows whose status equals its string ("completed", "pending", "Not Requested") |
| `Aggregator.DisplayRoom` | backend/server.js:142 | the `"-"` fallback for a falsy room number: the shown room is never empty; a non-empty room number is shown as is, an absent or empty one as `"-"` |
| `Aggregator.RowOf` | backend/server.js:141-147 | one student's row: its room is `DisplayRoom` of the student's, its name the student's; a date exactly when the room key has an entry; without an entry "Not Requested" and no worker; with one, the entry's worker, date and status, an empty status shown as "Not Requested"; the status is never empty |
| `Aggregator.RowsOf` | backend/server.js:141-147 | `students.map`: as many rows as students, row `i` with student `i`'s name and displayed room, and no row with an empty status |
| `Aggregator.RoomReport` | backend/server.js:141-161 | the response body: `totalRooms` is the number of rows, which is the number of students, and the three counters add up to at most `totalRooms` |
| `Aggregator.CountsPartition` | backend/server.js:150-153 | the three counters and the rows with any other status add up to the number of rows |
| `Aggregator.OneRowPerStudent` | backend/server.js:141-150 | one row per student in student order, with the student's name and displayed room, and `totalRooms` is the number of students |
| `Aggregator.RowWithoutRequest` | backend/server.js:141-147 | a student whose room key has no request is shown as "Not Requested", with no worker and no date |
| `Aggregator.RowWithRequest` | backend/server.js:123-147 | a student whose room has requests is shown with the status (empty shows as "Not Requested"), worker and creation time of the first of them; when sorted newest first, no request of the room is newer |
| `Aggregator.SameRoomSameStatus` | backend/server.js:144-146 | two students with the same room number get the same status, worker and date |
| `Aggregator.CountsBounded` | backend/server.js:150-153 | `cleaned + pending + notRequested <= totalRooms`, strictly less exactly when some row has another status |
| `Aggregator.UnmatchedRoomsDropped` | backend/server.js:141-147 | requests for rooms that no student holds have no effect: dropping them leaves the whole report unchanged |
| `Aggregator.ReportIgnoresWorker` | backend/server.js:141-153 | two request lists that agree on room, status and creation time give the same counts and the same rows up to the worker column |
| `Aggregator.AssignKeepsDashboard` | backend/server.js:229-239 | assigning a worker to a request changes no row's status and none of the dashboard's counts |
| `Aggregator.DashboardExample` | backend/server.js:117-161 | rooms "1" and "2", room "1" with a newer completed and an older pending request: room "1" shows "completed" with its worker and date, room "2" "Not Requested"; counts 2, 1, 0, 1 |
| `Records.NewComplaint` | backend/server.js:37-43 | a created complaint keeps the given id, student, category and description and gets the schema defaults: status "pending", created now |
| `Records.NewCleaning` | backend/server.js:47-54 | a created cleaning request keeps the given id, student, room and preferred time and gets the defaults: status "pending", no worker, created now |
| `Store.ResolveAt` | backend/server.js:194-201 | resolving sets the complaint's status to "resolved", changes no other field and no other complaint, and does nothing for an unknown id |
| `Store.AssignAt` | backend/server.js:229-239 | assigning sets the request's worker, changes no other field and no other request, and does nothing for an unknown id |
| `Store.SetStatusAt` | backend/server.js:247-257 | a status update sets the request's status to the given string, changes no other field and no other request, and does nothing for an unknown id |
| `Store.ResolveIdempotent` | backend/server.js:194-201 | resolving twice is resolving once, and resolving a resolved complaint changes nothing |
| `Store.AssignAndStatusIndependent` | backend/server.js:229-257 | assigning changes no status, a status update clears no worker, and the two updates commute |
| `Store.ComplaintsOf` | backend/server.js:183-186 | exactly the complaints whose student is the caller |
| `Store.CleaningsOf` | backend/server.js:216-220 | exactly the cleaning requests whose student is the caller |
| `Store.AssignedTo` | backend/server.js:241-245 | exactly the cleaning requests assigned to the caller; unassigned ones never match |
| `Store.AssignedShowsUpForWorker` | backend/server.js:229-245 | after an assignment the request is in a worker's list exactly when that worker is the one assigned |
| `Store.DocumentStore.CreateComplaint` | backend/server.js:175-179 | adds one complaint under a fresh id: pending, owned by the given student, created now, with the body's fields; nothing else changes |
| `Store.DocumentStore.CreateCleaning` | backend/server.js:208-212 | adds one cleaning request under a fresh id: pending, no worker, owned by the given student, created now; nothing else changes |
| `Store.DocumentStore.Resolve` | backend/server.js:195-199 | the complaints become `ResolveAt` of the old ones; returns the updated complaint, or none for an unknown id |
| `Store.DocumentStore.Assign` | backend/server.js:231-235 | the requests become `AssignAt` of the old ones; returns the updated request, or none |
| `Store.DocumentStore.SetStatus` | backend/server.js:249-253 | the requests become `SetStatusAt` of the old ones; returns the updated request, or none |
| `Routes.PostComplaint` | backend/server.js:173-181 | a rejected request is answered with the guard's error and changes nothing; otherwise one new pending complaint owned by the caller is stored and returned |
| `Routes.GetStudentComplaints` | backend/server.js:183-186 | the guard's error, or the caller's own complaints |
| `Routes.GetAllComplaints` | backend/server.js:188-192 | the guard's error, or every complaint (admins only) |
| `Routes.PutResolve` | backend/server.js:194-201 | the guard's error with no change, or the complaint resolved and returned, all else unchanged |
| `Routes.PostClean` | backend/server.js:206-214 | the guard's error with no change, or one new pending, unassigned cleaning request owned by the caller, stored and returned |
| `Routes.GetStudentCleanRequests` | backend/server.js:216-220 | the guard's error, or the caller's own cleaning requests |
| `Routes.GetAllCleanings` | backend/server.js:222-227 | the guard's error, or every cleaning request (admins only) |
| `Routes.PutAssign` | backend/server.js:229-239 | the guard's error with no change, or only the request's worker changes and the request is returned |
| `Routes.GetWorkerAssigned` | backend/server.js:241-245 | the guard's error, or the requests assigned to the calling worker |
| `Routes.PutStatus` | backend/server.js:247-257 | the guard's error with no change, or only the request's status changes and the request is returned |

## Left out

- Login and user creation (backend/server.js:83-110): they rest on bcrypt hashing and JWT signing, foreign cryptographic calls; `users` is given to the store's constructor instead.
- The admin's user list (`GET /api/users`, backend/server.js:112-115): it lies outside the complaint and cleaning logic; it is the guard chain with `AdminOnly` followed by returning every user unchanged.
- JWT verification, its signature check and its 7-day expiry: `verify` is a parameter, and any failure of it is the 401 "Invalid token" branch.
- A token whose user no longer exists: the source attaches a `null` user and the role gate then fails on `req.user.role`; every guarded route and `Guards.Authorize` require the token's user to exist (`TokenUserExists`).
- A store error inside `auth` (a failing `findById`), which the source also answers with 401 "Invalid token", and the 500 "Server Error" of the dashboard: store failures are not modelled.
- Mongoose query mechanics: the dashboard takes the users and the requests as sequences, the request order is the hypothesis `NewestFirst` of the lemmas that need it, and list routes answer with maps, so the order of their arrays is not modelled.
- `.populate` joins: documents keep their student and worker ids instead of the expanded name, email and room.
- Schema validation (`unique`, `required`, `enum`, `maxLength`): roles are a datatype, and other constraints are not checked.
- Object keys inherited from JavaScript's `Object.prototype` (`"constructor"`, `"__proto__"`, ...) as room numbers, which the dictionary would treat as already present; and a `null` (rather than absent) room number, whose key would be `"null"`.
- Absent request-body fields where a value is needed: `Routes.PutAssign` takes a worker id and `Routes.PutStatus` a status string; an absent `workerId` or `status` is not modelled.
- Malformed `:id` parameters, which make the source's query throw outside any `try`: ids are natural numbers.
- Timestamps are integers; `Date.now` is the parameter `now`.
- Concurrent requests and last-write-wins races at the store.
- MongoDB connection, `app.listen`, CORS and JSON body parsing; the email helper (backend/utils/mailer.js), the password-hashing script (backend/hash.js) and the React frontend, which are I/O and presentation only.
