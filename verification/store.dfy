/**
 * The document store the queries and mutations run against: one map per
 * table. `users` and `organizations` are keyed by `clerkId`, the field of
 * their `by_clerk_id` index, which every caller reads with `.unique()`; the other
 * tables are keyed by row id. Ids come from one counter, so an inserted row
 * always gets an id no row has had before.
 */
module Store {
  import opened Schema

  /** Each user row sits under its own `clerkId`: at most one user per subject. */
  ghost predicate UsersKeyed(users: map<string, User>) {
    forall k :: k in users ==> users[k].clerkId == k
  }

  ghost predicate OrganizationsKeyed(organizations: map<string, Organization>) {
    forall k :: k in organizations ==> organizations[k].clerkId == k
  }

  /**
   * Every task belongs to an existing call and carries that call's
   * organization id (the id is copied from the call when the task is made).
   */
  ghost predicate TasksFollowCalls(calls: map<CallId, Call>, tasks: map<TaskId, Task>) {
    forall t :: t in tasks ==>
      tasks[t].callId in calls && tasks[t].orgClerkId == calls[tasks[t].callId].orgClerkId
  }

  class Database {
    var organizations: map<string, Organization>
    var users: map<string, User>
    var calls: map<CallId, Call>
    var clients: map<ClientId, Client>
    var bookings: map<BookingId, Booking>
    var tasks: map<TaskId, Task>
    var nextId: nat

    ghost predicate Valid()
      reads this
    {
      && UsersKeyed(users)
      && OrganizationsKeyed(organizations)
      && (forall k :: k in users ==> users[k].id < nextId)
      && (forall k, k' :: k in users && k' in users && k != k' ==> users[k].id != users[k'].id)
      && (forall k :: k in organizations ==> organizations[k].id < nextId)
      && (forall id :: id in calls ==> id < nextId)
      && (forall id :: id in clients ==> id < nextId)
      && (forall id :: id in bookings ==> id < nextId)
      && (forall id :: id in tasks ==> id < nextId)
      && TasksFollowCalls(calls, tasks)
    }

    constructor ()
      ensures Valid()
      ensures organizations == map[] && users == map[] && calls == map[]
      ensures clients == map[] && bookings == map[] && tasks == map[]
    {
      organizations, users, calls := map[], map[], map[];
      clients, bookings, tasks := map[], map[], map[];
      nextId := 0;
    }

    /** A fresh `_id` for an insert. */
    method NewId() returns (id: Id)
      requires Valid()
      modifies this`nextId
      ensures Valid()
      ensures id == old(nextId) && nextId == id + 1
    {
      id := nextId;
      nextId := nextId + 1;
    }
  }
}
