/**
 * The clients endpoints (convex/files/clients.ts). Its membership helper is
 * the same text as the one in convex/files/calls.ts and is modelled by
 * `Access.CheckMembership`.
 */
module Clients {
  import opened Wrappers
  import opened Schema
  import opened Store
  import opened Access

  /**
   * `clients.list`: without access (unauthenticated included) the empty
   * list and no error; otherwise exactly the clients of `orgId`, as stored.
   */
  function List(identity: Identity, users: map<string, User>, clients: map<ClientId, Client>, orgId: string): (r: map<ClientId, Client>)
    ensures !CheckMembership(identity, users, orgId) ==> r == map[]
    ensures CheckMembership(identity, users, orgId) ==>
              forall id :: id in r <==> id in clients && clients[id].orgClerkId == orgId
    ensures forall id :: id in r ==> id in clients && r[id] == clients[id]
  {
    if !CheckMembership(identity, users, orgId) then map[]
    else map id | id in clients && clients[id].orgClerkId == orgId :: clients[id]
  }

  /**
   * `clients.create`: without access it throws and inserts nothing;
   * otherwise it inserts one client of organization `orgId` under a fresh id
   * and returns that id.
   */
  method Create(db: Database, identity: Identity, orgId: string, name: string, phoneNumber: string)
    returns (r: Outcome<ClientId>)
    requires db.Valid()
    modifies db`clients, db`nextId
    ensures db.Valid()
    ensures !CheckMembership(identity, db.users, orgId) ==>
              r == Err(PermissionDenied) && db.clients == old(db.clients) && db.nextId == old(db.nextId)
    ensures CheckMembership(identity, db.users, orgId) ==>
              && r.Ok?
              && r.value !in old(db.clients)
              && db.clients == old(db.clients)[r.value := Client(orgId, name, phoneNumber)]
    ensures r.Ok? ==> r.value in List(identity, db.users, db.clients, orgId)
  {
    var hasAccess := CheckMembership(identity, db.users, orgId);
    if !hasAccess {
      return Err(PermissionDenied);
    }
    var id := db.NewId();
    db.clients := db.clients[id := Client(orgId, name, phoneNumber)];
    r := Ok(id);
  }
}
