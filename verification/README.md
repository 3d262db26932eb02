# Organization-scoped access control for the auto-detailing dashboard

This project models the server side of a multi-tenant dashboard: staff view phone
calls processed by an AI service, manage clients and track follow-up tasks. Every
query and mutation sits over a hosted document store. Each one is gated by an
organization-membership check that is copied, with small changes, into several files.

The model keeps the store as one map per table inside a `Store.Database` object.
`users` and `organizations` are keyed by `clerkId`, the field of their `by_clerk_id`
index, which every caller reads with `.unique()`. Calls, clients, bookings and tasks are keyed by row id. The caller's identity
is an `Option<string>` holding the authentication subject. Queries are pure functions
of the identity and the tables. Mutations are methods that change only the table
fields they name in `modifies`. Thrown errors are the `Err` side of a `Result`, with
three kinds: `Unauthenticated`, `PermissionDenied` and `NotFound`.

Modules, one per source file plus shared pieces:

- `Schema` holds the table rows, the status and role enums, and the literal validators of `convex/schema.ts`.
- `Store` holds the `Database` class and its invariant. Each user sits under its own `clerkId`, user ids are distinct, ids come from a counter, and every task carries its call's organization id.
- `Access` holds the membership checks. The copies in `convex/files/calls.ts` and `convex/files/clients.ts` are the same text, so one function models both. The copy in `convex/files/organizations.ts` has no personal-workspace case and gets its own function.
- `Calls`, `Tasks`, `Organizations`, `Clients` and `Users` model the endpoints of their files.
- `Policy` compares the endpoints: what each does for a caller without access.

JavaScript truthiness is written out where the code relies on it. `!call.transcript`
rejects both a missing and an empty transcript. In `tasks.ts`, `!orgClerkId` rejects
an empty organization id. So a call whose organization id is `""` can pass the
calls.ts access check and still be refused by every tasks endpoint
(`Tasks.EmptyOrganizationIdDenied`, `Tasks.EmptyOrganizationIdAlwaysDenied`).

Two details of the code are easy to miss:

- The personal-workspace shortcut applies only once the caller's user row is found (`convex/files/calls.ts:17-24`, `Access.PersonalWorkspaceNeedsUserRow`).
- `calls.list` throws for an unauthenticated caller (`convex/files/calls.ts:42-45`), while `clients.list` returns an empty list (`Policy.UnauthenticatedListsDiffer`).

## Model

| member | source | states |
|---|---|---|
| `Schema.ParseRole` | convex/schema.ts:12-15 | a role is exactly "admin" or "member", and an accepted literal reads back as itself |
| `Schema.ParseCallStatus` | convex/schema.ts:21-25 | a call status is exactly "processing", "completed" or "failed" |
| `Schema.ParseBookingStatus` | convex/schema.ts:46-50 | a booking status is exactly "pending", "confirmed" or "completed" |
| `Schema.ParseTaskStatus` | convex/schema.ts:58 | a task status is exactly "pending" or "completed" |
| `Schema.LiteralsRoundTrip` | convex/schema.ts:12-58 | every enum value survives printing and validating |
| `Access.AnyMembershipFor` | convex/files/calls.ts:26 | the `some` scan is true iff some membership entry names the organization |
| `Access.CheckMembership` | convex/files/calls.ts:6-27 | false without identity and false without a user row, even for the subject's own id; with a row, true iff the org id is the subject or is listed in `orgIds` |
| `Access.CheckOrgMembership` | convex/files/organizations.ts:7-25 | true iff authenticated, with a user row, and the org id is listed in `orgIds`; there is no personal-workspace case |
| `Access.RoleIgnored` | convex/files/calls.ts:22-26 | rewriting any membership roles changes no decision of either membership check |
| `Access.OrgMembershipIsMembershipWithoutWorkspace` | convex/files/organizations.ts:22-24 | the organizations check never grants more than the calls check, and they differ exactly on the subject's own unlisted id |
| `Access.PersonalWorkspaceNeedsUserRow` | convex/files/calls.ts:17-24 | the subject's own id grants access iff the subject has a user row |
| `Calls.CheckCallAccess` | convex/files/calls.ts:30-36 | false for a missing call; otherwise membership in the call's organization |
| `Calls.List` | convex/files/calls.ts:39-59 | unauthenticated throws; no access gives the empty result; otherwise exactly the calls of the organization, unchanged |
| `Calls.Get` | convex/files/calls.ts:61-83 | unauthenticated throws; a missing call is null; an inaccessible call throws a permission error; otherwise the stored call |
| `Calls.GenerateSummary` | convex/files/calls.ts:85-107 | no access throws a permission error and a missing or empty transcript throws not-found, both writing nothing; on success only that call's `summary` changes, it equals the returned text, and `get` then returns the updated call |
| `Calls.ListedCallsAreReadable` | convex/files/calls.ts:47-81 | every call returned by `list` is returned unchanged by `get` |
| `Tasks.CheckCallAccess` | convex/files/tasks.ts:6-34 | null for a missing call, no identity or no user row; otherwise the call's org id exactly when it is the workspace or a listed membership |
| `Tasks.CheckCallAccessAgrees` | convex/files/tasks.ts:6-34 | this check is non-null exactly when the boolean calls.ts check is true |
| `Tasks.ListByCall` | convex/files/tasks.ts:37-52 | empty unless the access result is truthy; otherwise exactly the tasks of the call, unchanged |
| `Tasks.ListedTasksAreInAccessibleOrg` | convex/files/tasks.ts:40-50 | when tasks carry their call's org id, every listed task belongs to an organization the caller may access |
| `Tasks.EmptyOrganizationIdDenied` | convex/files/tasks.ts:40-44 | an empty org id passes the calls.ts check but fails the truthiness test, so the task list comes back empty |
| `Tasks.EmptyOrganizationIdAlwaysDenied` | convex/files/tasks.ts:40-65 | for any call with an empty org id, the access result is never truthy, so the task list is empty and create and update are refused |
| `Tasks.Create` | convex/files/tasks.ts:55-77 | no access throws and inserts nothing; otherwise one pending task under a fresh id, stamped with the call's org id, with call id, description and due date from the arguments |
| `Tasks.UpdateStatus` | convex/files/tasks.ts:79-97 | a missing task throws not-found; access goes through the task's call; on success only that task's status changes |
| `Organizations.Get` | convex/files/organizations.ts:27-48 | a permission error exactly when the membership check fails; otherwise the organization stored under the id, or null |
| `Organizations.GetReturnsRequestedOrganization` | convex/files/organizations.ts:41-46 | the organization returned has the requested `clerkId` |
| `Organizations.SettingsNotOpenToPersonalWorkspace` | convex/files/organizations.ts:22-35 | a user with no memberships can reach their own workspace through the calls check, but gets a permission error for settings under that id |
| `Clients.List` | convex/files/clients.ts:28-42 | no access, including no identity, gives the empty result without an error; otherwise exactly the clients of the organization, unchanged |
| `Clients.Create` | convex/files/clients.ts:44-64 | no access throws and inserts nothing; otherwise one client with the given org id, name and phone number under a fresh id, which `list` then returns |
| `Users.GetOrCreate` | convex/files/users.ts:4-30 | unauthenticated throws and writes nothing; an existing row's id is returned with no change; otherwise one row with no memberships under a fresh id; afterwards the subject's personal workspace is accessible |
| `Users.GetOrCreateTwice` | convex/files/users.ts:12-28 | two calls return the same id and leave at most one row for the subject |
| `Policy.ListEmptiesWhereGetThrows` | convex/files/calls.ts:47-79 | without access, listing an organization's calls is empty while fetching one of them throws a permission error |
| `Policy.UnauthenticatedListsDiffer` | convex/files/calls.ts:42-45 | unauthenticated, listing calls throws while listing clients returns an empty result |
| `Policy.ListsStayInAccessibleOrgs` | convex/files/clients.ts:31-40 | every call or client a list returns belongs to an organization the caller may access |
| `Policy.MemberSeesOnlyOwnOrganization` | convex/files/clients.ts:31-40 | a member of org_A gets no clients for org_B and all clients of org_A |
| `Policy.WorkspaceOnlyWithoutMemberships` | convex/files/calls.ts:21-26 | a user with no memberships reaches exactly their own workspace |
| `Policy.NoTaskForInaccessibleCall` | convex/files/tasks.ts:62-65 | creating a task on a call of an inaccessible organization is refused |

## Left out

- Result order: the `.order("desc")` index scans. Listings are modelled as the set of matching rows keyed by id.
- The simulated two-second delay before a summary is written. The summary text is the source's fixed template around the phone number.
- The runtime's transactions, its index implementation, `_creationTime`, and how `_id` values are made. Ids come from one counter.
- `.unique()` throwing on duplicate rows. The maps keep one user and one organization per `clerkId`, so duplicates cannot arise.
- The identity provider beyond the subject id. The route protection middleware and the UI pages are also out.
- Storage ids (`audioFileId`) and the untyped `structuredData` of a call.
- Bookings have a datatype but no operation, because no endpoint reads or writes them.
- `dueDate` and `appointmentDate` are JavaScript numbers. They are modelled as integers, so fractional timestamps are not modelled.
- `Calls.GenerateSummary` does not model the second `!call` test after the access check. The access check already found the call in the same transaction, so that branch cannot be taken.
