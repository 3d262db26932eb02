/**
 * How the endpoints answer a caller without access, side by side: list
 * endpoints degrade to an empty result, single-record and mutation endpoints
 * throw, and the two list endpoints disagree on unauthenticated callers.
 */
module Policy {
  import opened Wrappers
  import opened Schema
  import Access
  import Calls
  import Clients
  import Tasks

  /**
   * An authenticated caller without access to organization `orgId` gets an
   * empty call list for it, but a permission error for any one call of it
   * fetched by id.
   */
  lemma ListEmptiesWhereGetThrows(identity: Identity, users: map<string, User>, calls: map<CallId, Call>, callId: CallId)
    requires identity.Some?
    requires callId in calls
    requires !Access.CheckMembership(identity, users, calls[callId].orgClerkId)
    ensures Calls.List(identity, users, calls, calls[callId].orgClerkId) == Ok(map[])
    ensures Calls.Get(identity, users, calls, callId) == Err(PermissionDenied)
  {
  }

  /** Unauthenticated, `calls.list` throws while `clients.list` quietly returns nothing. */
  lemma UnauthenticatedListsDiffer(users: map<string, User>, calls: map<CallId, Call>, clients: map<ClientId, Client>, orgId: string)
    ensures Calls.List(None, users, calls, orgId) == Err(Unauthenticated)
    ensures Clients.List(None, users, clients, orgId) == map[]
  {
  }

  /**
   * Neither list endpoint leaks another tenant's rows: whatever they return
   * belongs to an organization the caller may access.
   */
  lemma ListsStayInAccessibleOrgs(identity: Identity, users: map<string, User>, calls: map<CallId, Call>, clients: map<ClientId, Client>, orgId: string)
    ensures Calls.List(identity, users, calls, orgId).Ok? ==>
              forall id :: id in Calls.List(identity, users, calls, orgId).value ==>
                Access.CheckMembership(identity, users, Calls.List(identity, users, calls, orgId).value[id].orgClerkId)
    ensures forall id :: id in Clients.List(identity, users, clients, orgId) ==>
              Access.CheckMembership(identity, users, Clients.List(identity, users, clients, orgId)[id].orgClerkId)
  {
  }

  /**
   * A member of "org_A" only: listing clients of "org_B" is empty, listing
   * clients of "org_A" gives every client of "org_A".
   */
  lemma MemberSeesOnlyOwnOrganization(clients: map<ClientId, Client>)
    ensures var users := map["u1" := User(0, "u1", [Membership("org_A", Member)])];
            && Clients.List(Some("u1"), users, clients, "org_B") == map[]
            && Clients.List(Some("u1"), users, clients, "org_A")
                 == map id | id in clients && clients[id].orgClerkId == "org_A" :: clients[id]
  {
  }

  /**
   * A subject with a row and no memberships reaches its personal workspace
   * and nothing else.
   */
  lemma WorkspaceOnlyWithoutMemberships(subject: string, users: map<string, User>, orgId: string)
    requires subject in users && users[subject].orgIds == []
    ensures Access.CheckMembership(Some(subject), users, orgId) <==> orgId == subject
  {
  }

  /**
   * Creating a task against a call of an organization the caller cannot
   * access is refused by the task access check, so no task is written.
   */
  lemma NoTaskForInaccessibleCall(identity: Identity, users: map<string, User>, calls: map<CallId, Call>, callId: CallId)
    requires callId in calls
    requires !Access.CheckMembership(identity, users, calls[callId].orgClerkId)
    ensures !Tasks.Truthy(Tasks.CheckCallAccess(identity, users, calls, callId))
  {
  }
}
