/** Lazy creation of the caller's user row (convex/files/users.ts). */
module Users {
  import opened Wrappers
  import opened Schema
  import opened Store
  import opened Access

  /**
   * `users.getOrCreate`: unauthenticated is an error and writes nothing; a
   * subject that has a row gets that row's id and nothing changes; otherwise
   * one row with no memberships is inserted under a fresh id. Afterwards the
   * subject has a row, which opens its personal workspace.
   */
  method GetOrCreate(db: Database, identity: Identity) returns (r: Outcome<UserId>)
    requires db.Valid()
    modifies db`users, db`nextId
    ensures db.Valid()
    ensures identity.None? ==> r == Err(Unauthenticated) && db.users == old(db.users) && db.nextId == old(db.nextId)
    ensures identity.Some? && identity.value in old(db.users) ==>
              r == Ok(old(db.users)[identity.value].id) && db.users == old(db.users) && db.nextId == old(db.nextId)
    ensures identity.Some? && identity.value !in old(db.users) ==>
              && r.Ok?
              && (forall k :: k in old(db.users) ==> old(db.users)[k].id != r.value)
              && db.users == old(db.users)[identity.value := User(r.value, identity.value, [])]
    ensures r.Ok? ==> identity.Some? && identity.value in db.users && db.users[identity.value].id == r.value
    ensures r.Ok? ==> CheckMembership(identity, db.users, identity.value)
  {
    if identity.None? {
      return Err(Unauthenticated);
    }
    var subject := identity.value;
    if subject in db.users {
      return Ok(db.users[subject].id);
    }
    var id := db.NewId();
    db.users := db.users[subject := User(id, subject, [])];
    r := Ok(id);
  }

  /**
   * Calling `getOrCreate` twice returns the same id both times, and leaves at
   * most one row for the subject: the table gains the subject's key and no
   * other.
   */
  method GetOrCreateTwice(db: Database, identity: Identity) returns (first: Outcome<UserId>, second: Outcome<UserId>)
    requires db.Valid()
    modifies db`users, db`nextId
    ensures db.Valid()
    ensures first == second
    ensures identity.Some? ==> db.users.Keys == old(db.users).Keys + {identity.value}
    ensures identity.None? ==> db.users == old(db.users)
  {
    first := GetOrCreate(db, identity);
    ghost var between := db.users;
    second := GetOrCreate(db, identity);
    assert db.users == between;
  }
}
