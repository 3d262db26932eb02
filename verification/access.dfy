/**
 * The organization-membership checks that gate every query and mutation.
 *
 * `CheckMembership` is the helper of convex/files/calls.ts, repeated word
 * for word in convex/files/clients.ts: it fails closed without an identity
 * or without a user row, then grants the personal workspace (organization
 * id equal to the subject) or any listed membership. `CheckOrgMembership`
 * is the copy in convex/files/organizations.ts, which has no
 * personal-workspace case. Neither looks at a membership's role.
 */
module Access {
  import opened Wrappers
  import opened Schema

  /** Some entry of `orgIds` names `orgId`. */
  ghost predicate Listed(orgIds: seq<Membership>, orgId: string) {
    exists i :: 0 <= i < |orgIds| && orgIds[i].orgId == orgId
  }

  /** The `orgIds.some(org => org.orgId === orgId)` scan. */
  function AnyMembershipFor(orgIds: seq<Membership>, orgId: string): (r: bool)
    ensures r <==> Listed(orgIds, orgId)
  {
    if |orgIds| == 0 then false
    else orgIds[0].orgId == orgId || AnyMembershipFor(orgIds[1..], orgId)
  }

  /** Membership check with the personal-workspace shortcut (calls.ts, clients.ts). */
  function CheckMembership(identity: Identity, users: map<string, User>, orgClerkId: string): (r: bool)
    ensures identity.None? ==> !r
    ensures identity.Some? && identity.value !in users ==> !r
    ensures identity.Some? && identity.value in users ==>
              (r <==> orgClerkId == identity.value || Listed(users[identity.value].orgIds, orgClerkId))
  {
    if identity.None? then false
    else if identity.value !in users then false
    else if orgClerkId == identity.value then true
    else AnyMembershipFor(users[identity.value].orgIds, orgClerkId)
  }

  /** Membership check without the personal-workspace shortcut (organizations.ts). */
  function CheckOrgMembership(identity: Identity, users: map<string, User>, orgClerkId: string): (r: bool)
    ensures r <==> identity.Some? && identity.value in users && Listed(users[identity.value].orgIds, orgClerkId)
  {
    if identity.None? then false
    else if identity.value !in users then false
    else AnyMembershipFor(users[identity.value].orgIds, orgClerkId)
  }

  /** Two membership lists that name the same organizations in the same places, whatever the roles. */
  ghost predicate SameOrganizations(a: seq<Membership>, b: seq<Membership>) {
    |a| == |b| && forall i :: 0 <= i < |a| ==> a[i].orgId == b[i].orgId
  }

  /**
   * Roles are never consulted: rewriting any roles (admin to member or back)
   * changes no access decision of either check.
   */
  lemma RoleIgnored(identity: Identity, users: map<string, User>, users': map<string, User>, orgClerkId: string)
    requires users.Keys == users'.Keys
    requires forall k :: k in users ==> SameOrganizations(users[k].orgIds, users'[k].orgIds)
    ensures CheckMembership(identity, users, orgClerkId) == CheckMembership(identity, users', orgClerkId)
    ensures CheckOrgMembership(identity, users, orgClerkId) == CheckOrgMembership(identity, users', orgClerkId)
  {
  }

  /**
   * The organizations.ts check is the calls.ts check minus the personal
   * workspace: it never grants more, and where they differ the organization
   * id is the caller's own subject id.
   */
  lemma OrgMembershipIsMembershipWithoutWorkspace(identity: Identity, users: map<string, User>, orgClerkId: string)
    ensures CheckOrgMembership(identity, users, orgClerkId) ==> CheckMembership(identity, users, orgClerkId)
    ensures (CheckMembership(identity, users, orgClerkId) && !CheckOrgMembership(identity, users, orgClerkId))
              <==> (identity == Some(orgClerkId) && orgClerkId in users && !Listed(users[orgClerkId].orgIds, orgClerkId))
  {
  }

  /**
   * A user row is needed even for the personal workspace: without one,
   * `orgClerkId == subject` grants nothing; with one, it always grants.
   */
  lemma PersonalWorkspaceNeedsUserRow(subject: string, users: map<string, User>)
    ensures CheckMembership(Some(subject), users, subject) <==> subject in users
  {
  }
}
