/** The organization settings query (convex/files/organizations.ts). */
module Organizations {
  import opened Wrappers
  import opened Schema
  import opened Store
  import opened Access

  /**
   * `organizations.get`: a permission error unless the caller lists the
   * organization among its memberships; otherwise the organization row
   * with that `clerkId`, or `null` when the table has none.
   */
  function Get(identity: Identity, users: map<string, User>, organizations: map<string, Organization>, orgId: string)
    : (r: Outcome<Option<Organization>>)
    ensures !CheckOrgMembership(identity, users, orgId) <==> r == Err(PermissionDenied)
    ensures CheckOrgMembership(identity, users, orgId) ==> r.Ok? && (r.value.Some? <==> orgId in organizations)
    ensures r.Ok? && r.value.Some? ==> r.value.value == organizations[orgId]
  {
    if !CheckOrgMembership(identity, users, orgId) then Err(PermissionDenied)
    else if orgId in organizations then Ok(Some(organizations[orgId]))
    else Ok(None)
  }

  /** In a store keyed by `clerkId`, the row `get` returns is the one whose `clerkId` was asked for. */
  lemma GetReturnsRequestedOrganization(identity: Identity, users: map<string, User>, organizations: map<string, Organization>, orgId: string)
    requires OrganizationsKeyed(organizations)
    requires Get(identity, users, organizations, orgId).Ok?
    requires Get(identity, users, organizations, orgId).value.Some?
    ensures Get(identity, users, organizations, orgId).value.value.clerkId == orgId
  {
  }

  /**
   * Organization settings are not open to a personal workspace: a user
   * with a row and no memberships may reach its own workspace's calls and
   * clients but not settings under that id.
   */
  lemma SettingsNotOpenToPersonalWorkspace(subject: string, users: map<string, User>, organizations: map<string, Organization>)
    requires subject in users && users[subject].orgIds == []
    ensures CheckMembership(Some(subject), users, subject)
    ensures Get(Some(subject), users, organizations, subject) == Err(PermissionDenied)
  {
  }
}
