/**
 * The complaint and cleaning-request routes: each runs the guard chain
 * (`auth`, then `role` with the route's allow-list) and, only when it
 * proceeds, its handler against the store. Token verification is the
 * parameter `verify`; the request clock is the parameter `now`.
 */
module Routes {
  import opened Wrappers
  import opened Records
  import opened Guards
  import opened Store

  /** What a route answers: an error body with its HTTP status, or a JSON document or list. */
  datatype Response =
    | Error(status: int, error: string)
    | ComplaintDoc(complaint: Option<Complaint>)
    | CleaningDoc(cleaning: Option<Cleaning>)
    | ComplaintList(complaints: map<Id, Complaint>)
    | CleaningList(cleanings: map<Id, Cleaning>)

  /** POST /api/complaint (students): files a new pending complaint under the caller's id. */
  method PostComplaint(store: DocumentStore, authorization: Option<string>, verify: string -> Option<Id>,
                       category: Option<string>, description: Option<string>, now: int)
    returns (resp: Response)
    requires store.Valid() && TokenUserExists(authorization, verify, store.users)
    modifies store
    ensures store.Valid()
    ensures var g := Authorize(authorization, verify, old(store.users), StudentOnly);
      && (g.Reject? ==> resp == Error(g.status, g.error) && unchanged(store))
      && (g.Proceed? ==>
            && resp.ComplaintDoc? && resp.complaint.Some?
            && var c := resp.complaint.value;
            && c.student == g.value.id && c.status == Pending && c.createdAt == now
            && c.category == category && c.description == description
            && c.id !in old(store.complaints)
            && store.complaints == old(store.complaints)[c.id := c]
            && store.cleanings == old(store.cleanings) && store.users == old(store.users))
  {
    match Authorize(authorization, verify, store.users, StudentOnly)
    case Reject(code, message) =>
      resp := Error(code, message);
    case Proceed(user) =>
      var c := store.CreateComplaint(user.id, category, description, now);
      resp := ComplaintDoc(Some(c));
  }

  /** GET /api/student/complaints (students): the caller's own complaints. */
  method GetStudentComplaints(store: DocumentStore, authorization: Option<string>, verify: string -> Option<Id>)
    returns (resp: Response)
    requires TokenUserExists(authorization, verify, store.users)
    ensures var g := Authorize(authorization, verify, store.users, StudentOnly);
      && (g.Reject? ==> resp == Error(g.status, g.error))
      && (g.Proceed? ==> resp == ComplaintList(ComplaintsOf(store.complaints, g.value.id)))
  {
    match Authorize(authorization, verify, store.users, StudentOnly)
    case Reject(code, message) =>
      resp := Error(code, message);
    case Proceed(user) =>
      resp := ComplaintList(ComplaintsOf(store.complaints, user.id));
  }

  /** GET /api/complaints/all (admins): every complaint. */
  method GetAllComplaints(store: DocumentStore, authorization: Option<string>, verify: string -> Option<Id>)
    returns (resp: Response)
    requires TokenUserExists(authorization, verify, store.users)
    ensures var g := Authorize(authorization, verify, store.users, AdminOnly);
      && (g.Reject? ==> resp == Error(g.status, g.error))
      && (g.Proceed? ==> resp == ComplaintList(store.complaints))
  {
    match Authorize(authorization, verify, store.users, AdminOnly)
    case Reject(code, message) =>
      resp := Error(code, message);
    case Proceed(_) =>
      resp := ComplaintList(store.complaints);
  }

  /** PUT /api/complaints/:id/resolve (admins): marks the complaint resolved, whatever its status was. */
  method PutResolve(store: DocumentStore, authorization: Option<string>, verify: string -> Option<Id>, id: Id)
    returns (resp: Response)
    requires store.Valid() && TokenUserExists(authorization, verify, store.users)
    modifies store
    ensures store.Valid()
    ensures var g := Authorize(authorization, verify, old(store.users), AdminOnly);
      && (g.Reject? ==> resp == Error(g.status, g.error) && unchanged(store))
      && (g.Proceed? ==>
            && store.complaints == ResolveAt(old(store.complaints), id)
            && store.cleanings == old(store.cleanings) && store.users == old(store.users)
            && resp == ComplaintDoc(if id in store.complaints then Some(store.complaints[id]) else None))
  {
    match Authorize(authorization, verify, store.users, AdminOnly)
    case Reject(code, message) =>
      resp := Error(code, message);
    case Proceed(_) =>
      var doc := store.Resolve(id);
      resp := ComplaintDoc(doc);
  }

  /** POST /api/clean (students): files a new pending, unassigned cleaning request under the caller's id. */
  method PostClean(store: DocumentStore, authorization: Option<string>, verify: string -> Option<Id>,
                   roomNo: Option<string>, preferredTime: Option<string>, now: int)
    returns (resp: Response)
    requires store.Valid() && TokenUserExists(authorization, verify, store.users)
    modifies store
    ensures store.Valid()
    ensures var g := Authorize(authorization, verify, old(store.users), StudentOnly);
      && (g.Reject? ==> resp == Error(g.status, g.error) && unchanged(store))
      && (g.Proceed? ==>
            && resp.CleaningDoc? && resp.cleaning.Some?
            && var c := resp.cleaning.value;
            && c.student == g.value.id && c.status == Pending && c.assignedWorker == None
            && c.roomNo == roomNo && c.preferredTime == preferredTime && c.createdAt == now
            && c.id !in old(store.cleanings)
            && store.cleanings == old(store.cleanings)[c.id := c]
            && store.complaints == old(store.complaints) && store.users == old(store.users))
  {
    match Authorize(authorization, verify, store.users, StudentOnly)
    case Reject(code, message) =>
      resp := Error(code, message);
    case Proceed(user) =>
      var c := store.CreateCleaning(user.id, roomNo, preferredTime, now);
      resp := CleaningDoc(Some(c));
  }

  /** GET /api/student/cleanRequests (students): the caller's own cleaning requests. */
  method GetStudentCleanRequests(store: DocumentStore, authorization: Option<string>, verify: string -> Option<Id>)
    returns (resp: Response)
    requires TokenUserExists(authorization, verify, store.users)
    ensures var g := Authorize(authorization, verify, store.users, StudentOnly);
      && (g.Reject? ==> resp == Error(g.status, g.error))
      && (g.Proceed? ==> resp == CleaningList(CleaningsOf(store.cleanings, g.value.id)))
  {
    match Authorize(authorization, verify, store.users, StudentOnly)
    case Reject(code, message) =>
      resp := Error(code, message);
    case Proceed(user) =>
      resp := CleaningList(CleaningsOf(store.cleanings, user.id));
  }

  /** GET /api/cleaning/all (admins): every cleaning request. */
  method GetAllCleanings(store: DocumentStore, authorization: Option<string>, verify: string -> Option<Id>)
    returns (resp: Response)
    requires TokenUserExists(authorization, verify, store.users)
    ensures var g := Authorize(authorization, verify, store.users, AdminOnly);
      && (g.Reject? ==> resp == Error(g.status, g.error))
      && (g.Proceed? ==> resp == CleaningList(store.cleanings))
  {
    match Authorize(authorization, verify, store.users, AdminOnly)
    case Reject(code, message) =>
      resp := Error(code, message);
    case Proceed(_) =>
      resp := CleaningList(store.cleanings);
  }

  /** PUT /api/cleaning/:id/assign (admins): sets the request's worker and nothing else. */
  method PutAssign(store: DocumentStore, authorization: Option<string>, verify: string -> Option<Id>,
                   id: Id, workerId: Id)
    returns (resp: Response)
    requires store.Valid() && TokenUserExists(authorization, verify, store.users)
    modifies store
    ensures store.Valid()
    ensures var g := Authorize(authorization, verify, old(store.users), AdminOnly);
      && (g.Reject? ==> resp == Error(g.status, g.error) && unchanged(store))
      && (g.Proceed? ==>
            && store.cleanings == AssignAt(old(store.cleanings), id, workerId)
            && store.complaints == old(store.complaints) && store.users == old(store.users)
            && resp == CleaningDoc(if id in store.cleanings then Some(store.cleanings[id]) else None))
  {
    match Authorize(authorization, verify, store.users, AdminOnly)
    case Reject(code, message) =>
      resp := Error(code, message);
    case Proceed(_) =>
      var doc := store.Assign(id, workerId);
      resp := CleaningDoc(doc);
  }

  /** GET /api/worker/assigned (workers): the requests assigned to the caller. */
  method GetWorkerAssigned(store: DocumentStore, authorization: Option<string>, verify: string -> Option<Id>)
    returns (resp: Response)
    requires TokenUserExists(authorization, verify, store.users)
    ensures var g := Authorize(authorization, verify, store.users, WorkerOnly);
      && (g.Reject? ==> resp == Error(g.status, g.error))
      && (g.Proceed? ==> resp == CleaningList(AssignedTo(store.cleanings, g.value.id)))
  {
    match Authorize(authorization, verify, store.users, WorkerOnly)
    case Reject(code, message) =>
      resp := Error(code, message);
    case Proceed(user) =>
      resp := CleaningList(AssignedTo(store.cleanings, user.id));
  }

  /**
   * PUT /api/cleaning/:id/status (workers): overwrites the request's status
   * with any string and nothing else. The handler does not check that the
   * request is assigned to the calling worker.
   */
  method PutStatus(store: DocumentStore, authorization: Option<string>, verify: string -> Option<Id>,
                   id: Id, status: string)
    returns (resp: Response)
    requires store.Valid() && TokenUserExists(authorization, verify, store.users)
    modifies store
    ensures store.Valid()
    ensures var g := Authorize(authorization, verify, old(store.users), WorkerOnly);
      && (g.Reject? ==> resp == Error(g.status, g.error) && unchanged(store))
      && (g.Proceed? ==>
            && store.cleanings == SetStatusAt(old(store.cleanings), id, status)
            && store.complaints == old(store.complaints) && store.users == old(store.users)
            && resp == CleaningDoc(if id in store.cleanings then Some(store.cleanings[id]) else None))
  {
    match Authorize(authorization, verify, store.users, WorkerOnly)
    case Reject(code, message) =>
      resp := Error(code, message);
    case Proceed(_) =>
      var doc := store.SetStatus(id, status);
      resp := CleaningDoc(doc);
  }
}
