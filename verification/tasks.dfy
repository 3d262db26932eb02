/**
 * The tasks endpoints (convex/files/tasks.ts). Access to a task goes
 * through its call: this file's own access check returns the call's
 * organization id (or null), and the callers test that id for JavaScript
 * truthiness, so an empty organization id counts as no access.
 */
module Tasks {
  import opened Wrappers
  import opened Schema
  import opened Store
  import opened Access
  import Calls

  /**
   * The call's organization id when the caller may act on the call: the call
   * exists, the caller is authenticated with a user row, and the
   * organization is the personal workspace or a listed membership.
   */
  function CheckCallAccess(identity: Identity, users: map<string, User>, calls: map<CallId, Call>, callId: CallId): (r: Option<string>)
    ensures callId !in calls || identity.None? || identity.value !in users ==> r.None?
    ensures r.Some? ==> callId in calls && r.value == calls[callId].orgClerkId
    ensures callId in calls && identity.Some? && identity.value in users ==>
              (r.Some? <==> calls[callId].orgClerkId == identity.value
                            || Listed(users[identity.value].orgIds, calls[callId].orgClerkId))
  {
    if callId !in calls then None
    else if identity.None? then None
    else if identity.value !in users then None
    else
      var orgClerkId := calls[callId].orgClerkId;
      if orgClerkId == identity.value || AnyMembershipFor(users[identity.value].orgIds, orgClerkId)
      then Some(orgClerkId)
      else None
  }

  /** JavaScript truthiness of a `string | null`: neither null nor empty. */
  predicate Truthy(s: Option<string>) {
    s.Some? && s.value != ""
  }

  /** The two access checks of calls.ts and tasks.ts decide the same way. */
  lemma CheckCallAccessAgrees(identity: Identity, users: map<string, User>, calls: map<CallId, Call>, callId: CallId)
    ensures CheckCallAccess(identity, users, calls, callId).Some? == Calls.CheckCallAccess(identity, users, calls, callId)
  {
  }

  /**
   * `tasks.listByCall`: nothing when the caller may not act on the call,
   * otherwise exactly the tasks of that call, each as stored.
   */
  function ListByCall(identity: Identity, users: map<string, User>, calls: map<CallId, Call>, tasks: map<TaskId, Task>, callId: CallId): (r: map<TaskId, Task>)
    ensures !Truthy(CheckCallAccess(identity, users, calls, callId)) ==> r == map[]
    ensures Truthy(CheckCallAccess(identity, users, calls, callId)) ==>
              forall id :: id in r <==> id in tasks && tasks[id].callId == callId
    ensures forall id :: id in r ==> id in tasks && r[id] == tasks[id]
  {
    if !Truthy(CheckCallAccess(identity, users, calls, callId)) then map[]
    else map id | id in tasks && tasks[id].callId == callId :: tasks[id]
  }

  /**
   * Listing the tasks of a call never shows a task of another tenant: in a
   * store where tasks carry their call's organization id, every listed task
   * belongs to an organization the caller is a member of (or its own
   * workspace).
   */
  lemma ListedTasksAreInAccessibleOrg(identity: Identity, users: map<string, User>, calls: map<CallId, Call>, tasks: map<TaskId, Task>, callId: CallId, id: TaskId)
    requires TasksFollowCalls(calls, tasks)
    requires id in ListByCall(identity, users, calls, tasks, callId)
    ensures tasks[id].orgClerkId == calls[callId].orgClerkId
    ensures CheckMembership(identity, users, tasks[id].orgClerkId)
  {
  }

  /**
   * The truthiness test makes an empty organization id a denial: a caller
   * whose membership list names "" may act on such a call by the calls.ts
   * check, yet sees none of its tasks (`EmptyOrganizationIdAlwaysDenied`
   * gives the general fact, which also refuses `create` and `updateStatus`).
   */
  lemma EmptyOrganizationIdDenied()
    ensures var users := map["user_1" := User(0, "user_1", [Membership("", Member)])];
            var calls := map[7 := Call("", "+15550100", Processing, None, None)];
            var tasks := map[3 := Task("", 7, "follow up", None, TaskStatus.Pending)];
            && Calls.CheckCallAccess(Some("user_1"), users, calls, 7)
            && CheckCallAccess(Some("user_1"), users, calls, 7) == Some("")
            && ListByCall(Some("user_1"), users, calls, tasks, 7) == map[]
  {
  }

  /**
   * For any call whose organization id is empty, the truthiness test fails,
   * so `listByCall` returns nothing and `create` and `updateStatus` throw.
   */
  lemma EmptyOrganizationIdAlwaysDenied(identity: Identity, users: map<string, User>, calls: map<CallId, Call>, tasks: map<TaskId, Task>, callId: CallId)
    requires callId in calls && calls[callId].orgClerkId == ""
    ensures !Truthy(CheckCallAccess(identity, users, calls, callId))
    ensures ListByCall(identity, users, calls, tasks, callId) == map[]
  {
  }

  /**
   * `tasks.create`: without access it throws and inserts nothing; otherwise
   * it inserts one pending task, under a fresh id, stamped with the call's
   * organization id, and returns that id.
   */
  method Create(db: Database, identity: Identity, callId: CallId, description: string, dueDate: Option<int>)
    returns (r: Outcome<TaskId>)
    requires db.Valid()
    modifies db`tasks, db`nextId
    ensures db.Valid()
    ensures !Truthy(CheckCallAccess(identity, db.users, db.calls, callId)) ==>
              r == Err(PermissionDenied) && db.tasks == old(db.tasks) && db.nextId == old(db.nextId)
    ensures Truthy(CheckCallAccess(identity, db.users, db.calls, callId)) ==>
              && r.Ok?
              && r.value !in old(db.tasks)
              && db.tasks == old(db.tasks)[r.value := Task(db.calls[callId].orgClerkId, callId, description, dueDate, TaskStatus.Pending)]
    ensures r.Ok? ==> CheckMembership(identity, db.users, db.tasks[r.value].orgClerkId)
  {
    var orgClerkId := CheckCallAccess(identity, db.users, db.calls, callId);
    if !Truthy(orgClerkId) {
      return Err(PermissionDenied);
    }
    var id := db.NewId();
    db.tasks := db.tasks[id := Task(orgClerkId.value, callId, description, dueDate, TaskStatus.Pending)];
    r := Ok(id);
  }

  /**
   * `tasks.updateStatus`: a missing task throws "Task not found"; access is
   * decided through the task's call; on success only that task's status
   * changes.
   */
  method UpdateStatus(db: Database, identity: Identity, taskId: TaskId, status: TaskStatus) returns (r: Outcome<()>)
    requires db.Valid()
    modifies db`tasks
    ensures db.Valid()
    ensures taskId !in old(db.tasks) ==> r == Err(NotFound)
    ensures taskId in old(db.tasks) ==>
              if Truthy(CheckCallAccess(identity, db.users, db.calls, old(db.tasks)[taskId].callId))
              then r == Ok(())
              else r == Err(PermissionDenied)
    ensures r.Err? ==> db.tasks == old(db.tasks)
    ensures r.Ok? ==> db.tasks == old(db.tasks)[taskId := old(db.tasks)[taskId].(status := status)]
    ensures r.Ok? ==> CheckMembership(identity, db.users, db.tasks[taskId].orgClerkId)
  {
    if taskId !in db.tasks {
      return Err(NotFound);
    }
    var task := db.tasks[taskId];
    var hasAccess := CheckCallAccess(identity, db.users, db.calls, task.callId);
    if !Truthy(hasAccess) {
      return Err(PermissionDenied);
    }
    db.tasks := db.tasks[taskId := task.(status := status)];
    r := Ok(());
  }
}
