/**
 * The document store behind the complaint and cleaning routes: the users,
 * complaints and cleaning requests collections, updated in place by the
 * create, resolve, assign and status handlers.
 */
module Store {
  import opened Wrappers
  import opened Records

  // ---------------------------------------------------------------------
  // The single-document updates, on the collections as values
  // ---------------------------------------------------------------------

  /** `findByIdAndUpdate(id, { status: "resolved" })` on the complaints. */
  function ResolveAt(complaints: map<Id, Complaint>, id: Id): (r: map<Id, Complaint>)
    ensures r.Keys == complaints.Keys
    ensures forall k :: k in complaints && k != id ==> r[k] == complaints[k]
    ensures id in complaints ==>
      r[id].status == Resolved && r[id] == complaints[id].(status := r[id].status)
  {
    if id in complaints then complaints[id := complaints[id].(status := Resolved)] else complaints
  }

  /** `findByIdAndUpdate(id, { assignedWorker: workerId })` on the cleaning requests. */
  function AssignAt(cleanings: map<Id, Cleaning>, id: Id, worker: Id): (r: map<Id, Cleaning>)
    ensures r.Keys == cleanings.Keys
    ensures forall k :: k in cleanings && k != id ==> r[k] == cleanings[k]
    ensures id in cleanings ==>
      r[id].assignedWorker == Some(worker) &&
      r[id] == cleanings[id].(assignedWorker := r[id].assignedWorker)
  {
    if id in cleanings then cleanings[id := cleanings[id].(assignedWorker := Some(worker))] else cleanings
  }

  /** `findByIdAndUpdate(id, { status })` on the cleaning requests; any string is accepted. */
  function SetStatusAt(cleanings: map<Id, Cleaning>, id: Id, status: string): (r: map<Id, Cleaning>)
    ensures r.Keys == cleanings.Keys
    ensures forall k :: k in cleanings && k != id ==> r[k] == cleanings[k]
    ensures id in cleanings ==>
      r[id].status == status && r[id] == cleanings[id].(status := r[id].status)
  {
    if id in cleanings then cleanings[id := cleanings[id].(status := status)] else cleanings
  }

  /** Resolving an already resolved complaint changes nothing. */
  lemma {:induction false} ResolveIdempotent(complaints: map<Id, Complaint>, id: Id)
    ensures ResolveAt(ResolveAt(complaints, id), id) == ResolveAt(complaints, id)
    ensures id in complaints && complaints[id].status == Resolved ==> ResolveAt(complaints, id) == complaints
  {
  }

  /**
   * Assignment and status are independent fields: assigning a worker does not
   * change any status, setting a status does not clear any worker, and the
   * two updates give the same collection in either order.
   */
  lemma {:induction false} AssignAndStatusIndependent(cleanings: map<Id, Cleaning>, id: Id, worker: Id, other: Id, status: string)
    ensures forall k :: k in cleanings ==> AssignAt(cleanings, id, worker)[k].status == cleanings[k].status
    ensures forall k :: k in cleanings ==>
      SetStatusAt(cleanings, other, status)[k].assignedWorker == cleanings[k].assignedWorker
    ensures AssignAt(SetStatusAt(cleanings, other, status), id, worker) ==
      SetStatusAt(AssignAt(cleanings, id, worker), other, status)
  {
    var a := AssignAt(SetStatusAt(cleanings, other, status), id, worker);
    var b := SetStatusAt(AssignAt(cleanings, id, worker), other, status);
    assert a.Keys == b.Keys;
    forall k | k in a ensures a[k] == b[k] {
    }
  }

  // ---------------------------------------------------------------------
  // The queries of the list routes
  // ---------------------------------------------------------------------

  /** `Complaint.find({ student })`. */
  function ComplaintsOf(complaints: map<Id, Complaint>, student: Id): (r: map<Id, Complaint>)
    ensures forall k :: k in r <==> k in complaints && complaints[k].student == student
    ensures forall k :: k in r ==> r[k] == complaints[k]
  {
    map k | k in complaints && complaints[k].student == student :: complaints[k]
  }

  /** `Cleaning.find({ student })`. */
  function CleaningsOf(cleanings: map<Id, Cleaning>, student: Id): (r: map<Id, Cleaning>)
    ensures forall k :: k in r <==> k in cleanings && cleanings[k].student == student
    ensures forall k :: k in r ==> r[k] == cleanings[k]
  {
    map k | k in cleanings && cleanings[k].student == student :: cleanings[k]
  }

  /** `Cleaning.find({ assignedWorker: worker })`: requests without a worker never match. */
  function AssignedTo(cleanings: map<Id, Cleaning>, worker: Id): (r: map<Id, Cleaning>)
    ensures forall k :: k in r <==> k in cleanings && cleanings[k].assignedWorker == Some(worker)
    ensures forall k :: k in r ==> r[k] == cleanings[k]
  {
    map k | k in cleanings && cleanings[k].assignedWorker == Some(worker) :: cleanings[k]
  }

  /** After an assignment, the request shows up in exactly that worker's list. */
  lemma {:induction false} AssignedShowsUpForWorker(cleanings: map<Id, Cleaning>, id: Id, worker: Id, someone: Id)
    requires id in cleanings
    ensures id in AssignedTo(AssignAt(cleanings, id, worker), someone) <==> someone == worker
  {
  }

  // ---------------------------------------------------------------------
  // The store
  // ---------------------------------------------------------------------

  class DocumentStore {
    var users: map<Id, User>
    var complaints: map<Id, Complaint>
    var cleanings: map<Id, Cleaning>
    /** Every identifier below `nextId` may be taken; none at or above it is. */
    var nextId: Id

    /** Each document is filed under its own id, and ids are unique across collections. */
    ghost predicate Valid()
      reads this
    {
      && (forall id :: id in users ==> id < nextId && users[id].id == id)
      && (forall id :: id in complaints ==> id < nextId && complaints[id].id == id)
      && (forall id :: id in cleanings ==> id < nextId && cleanings[id].id == id)
    }

    /** A store holding the given users and no complaints or cleaning requests. */
    constructor (initialUsers: map<Id, User>, firstFree: Id)
      requires forall id :: id in initialUsers ==> id < firstFree && initialUsers[id].id == id
      ensures Valid()
      ensures users == initialUsers && complaints == map[] && cleanings == map[]
    {
      users := initialUsers;
      complaints := map[];
      cleanings := map[];
      nextId := firstFree;
    }

    /** A new ObjectId, used by no document of any collection. */
    method NewId() returns (id: Id)
      requires Valid()
      modifies this`nextId
      ensures Valid()
      ensures id !in users && id !in complaints && id !in cleanings
      ensures id < nextId
    {
      id := nextId;
      nextId := nextId + 1;
    }

    /** `Complaint.create`: a new pending complaint of `student`. */
    method CreateComplaint(student: Id, category: Option<string>, description: Option<string>, now: int)
      returns (doc: Complaint)
      requires Valid()
      modifies this
      ensures Valid()
      ensures doc.id !in old(complaints) && doc.id !in old(cleanings) && doc.id !in old(users)
      ensures doc.student == student && doc.category == category && doc.description == description
      ensures doc.status == Pending && doc.createdAt == now
      ensures complaints == old(complaints)[doc.id := doc]
      ensures users == old(users) && cleanings == old(cleanings)
    {
      var id := NewId();
      doc := NewComplaint(id, student, category, description, now);
      complaints := complaints[id := doc];
    }

    /** `Cleaning.create`: a new pending cleaning request of `student`, with no worker. */
    method CreateCleaning(student: Id, roomNo: Option<string>, preferredTime: Option<string>, now: int)
      returns (doc: Cleaning)
      requires Valid()
      modifies this
      ensures Valid()
      ensures doc.id !in old(cleanings) && doc.id !in old(complaints) && doc.id !in old(users)
      ensures doc.student == student && doc.roomNo == roomNo && doc.preferredTime == preferredTime
      ensures doc.status == Pending && doc.assignedWorker == None && doc.createdAt == now
      ensures cleanings == old(cleanings)[doc.id := doc]
      ensures users == old(users) && complaints == old(complaints)
    {
      var id := NewId();
      doc := NewCleaning(id, student, roomNo, preferredTime, now);
      cleanings := cleanings[id := doc];
    }

    /** Resolve complaint `id`; the updated document, or none when there is no such complaint. */
    method Resolve(id: Id) returns (doc: Option<Complaint>)
      requires Valid()
      modifies this`complaints
      ensures Valid()
      ensures complaints == ResolveAt(old(complaints), id)
      ensures doc == if id in complaints then Some(complaints[id]) else None
    {
      complaints := ResolveAt(complaints, id);
      doc := if id in complaints then Some(complaints[id]) else None;
    }

    /** Assign `worker` to cleaning request `id`; the updated document, or none. */
    method Assign(id: Id, worker: Id) returns (doc: Option<Cleaning>)
      requires Valid()
      modifies this`cleanings
      ensures Valid()
      ensures cleanings == AssignAt(old(cleanings), id, worker)
      ensures doc == if id in cleanings then Some(cleanings[id]) else None
    {
      cleanings := AssignAt(cleanings, id, worker);
      doc := if id in cleanings then Some(cleanings[id]) else None;
    }

    /** Overwrite the status of cleaning request `id`; the updated document, or none. */
    method SetStatus(id: Id, status: string) returns (doc: Option<Cleaning>)
      requires Valid()
      modifies this`cleanings
      ensures Valid()
      ensures cleanings == SetStatusAt(old(cleanings), id, status)
      ensures doc == if id in cleanings then Some(cleanings[id]) else None
    {
      cleanings := SetStatusAt(cleanings, id, status);
      doc := if id in cleanings then Some(cleanings[id]) else None;
    }
  }
}
