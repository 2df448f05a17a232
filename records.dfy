/**
 * The persisted documents of HostelCare: users, complaints and cleaning
 * requests, as the three Mongoose schemas of backend/server.js declare them.
 * Mongo's ObjectIds are natural numbers; `Date` timestamps are integers.
 */
module Records {
  import opened Wrappers

  /** A document identifier (a Mongo ObjectId). */
  type Id = nat

  /** The `role` enum of the user schema. */
  datatype Role = Admin | Student | Worker

  /** A user document. The password hash is not part of this model; `name` is optional in the schema. */
  datatype User = User(
    id: Id,
    name: Option<string>,
    email: string,
    contact: int,
    role: Role,
    roomNo: Option<string>)  // only students carry a room

  /** A complaint document. `category` and `description` are copied from the request body and may be absent. */
  datatype Complaint = Complaint(
    id: Id,
    student: Id,
    category: Option<string>,
    description: Option<string>,
    status: string,
    createdAt: int)

  /** A cleaning-request document. `status` is a free-form string. */
  datatype Cleaning = Cleaning(
    id: Id,
    student: Id,
    roomNo: Option<string>,
    preferredTime: Option<string>,
    status: string,
    assignedWorker: Option<Id>,
    createdAt: int)

  /** The schema default of both `status` fields. */
  const Pending := "pending"
  /** The status the admin's resolve handler writes. */
  const Resolved := "resolved"
  /** The status a worker reports when the room is done. */
  const Completed := "completed"

  /** A complaint as `Complaint.create` stores it: the defaults fill `status` and `createdAt`. */
  function NewComplaint(id: Id, student: Id, category: Option<string>, description: Option<string>, now: int): (c: Complaint)
    ensures c.status == Pending && c.createdAt == now
    ensures c.id == id && c.student == student && c.category == category && c.description == description
  {
    Complaint(id, student, category, description, Pending, now)
  }

  /** A cleaning request as `Cleaning.create` stores it: pending, with no worker assigned. */
  function NewCleaning(id: Id, student: Id, roomNo: Option<string>, preferredTime: Option<string>, now: int): (c: Cleaning)
    ensures c.status == Pending && c.assignedWorker == None && c.createdAt == now
    ensures c.id == id && c.student == student && c.roomNo == roomNo && c.preferredTime == preferredTime
  {
    Cleaning(id, student, roomNo, preferredTime, Pending, None, now)
  }
}
