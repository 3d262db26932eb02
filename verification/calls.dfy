/**
 * The calls endpoints (convex/files/calls.ts): listing an organization's
 * calls, reading one call, and writing a call's generated summary.
 */
module Calls {
  import opened Wrappers
  import opened Schema
  import opened Store
  import opened Access

  /** Access to a call is membership in the call's organization; a missing call is never accessible. */
  function CheckCallAccess(identity: Identity, users: map<string, User>, calls: map<CallId, Call>, callId: CallId): (r: bool)
    ensures callId !in calls ==> !r
    ensures callId in calls ==> (r <==> CheckMembership(identity, users, calls[callId].orgClerkId))
  {
    if callId !in calls then false
    else CheckMembership(identity, users, calls[callId].orgClerkId)
  }

  /**
   * `calls.list`: an unauthenticated caller gets an error, a caller without
   * access gets nothing, and otherwise the result is exactly the calls of
   * organization `orgId`, each as stored.
   */
  function List(identity: Identity, users: map<string, User>, calls: map<CallId, Call>, orgId: string): (r: Outcome<map<CallId, Call>>)
    ensures identity.None? <==> r == Err(Unauthenticated)
    ensures identity.Some? && !CheckMembership(identity, users, orgId) ==> r == Ok(map[])
    ensures identity.Some? && CheckMembership(identity, users, orgId) ==>
              r.Ok? && forall id :: id in r.value <==> id in calls && calls[id].orgClerkId == orgId
    ensures r.Ok? ==> forall id :: id in r.value ==> id in calls && r.value[id] == calls[id]
  {
    if identity.None? then Err(Unauthenticated)
    else if !CheckMembership(identity, users, orgId) then Ok(map[])
    else Ok(map id | id in calls && calls[id].orgClerkId == orgId :: calls[id])
  }

  /**
   * `calls.get`: unauthenticated is an error, a missing call is `null`, a
   * call the caller cannot access is a permission error, and otherwise the
   * call is returned unchanged.
   */
  function Get(identity: Identity, users: map<string, User>, calls: map<CallId, Call>, callId: CallId): (r: Outcome<Option<Call>>)
    ensures identity.None? <==> r == Err(Unauthenticated)
    ensures identity.Some? && callId !in calls ==> r == Ok(None)
    ensures identity.Some? && callId in calls ==>
              if CheckCallAccess(identity, users, calls, callId) then r == Ok(Some(calls[callId]))
              else r == Err(PermissionDenied)
  {
    if identity.None? then Err(Unauthenticated)
    else if callId !in calls then Ok(None)
    else if !CheckMembership(identity, users, calls[callId].orgClerkId) then Err(PermissionDenied)
    else Ok(Some(calls[callId]))
  }

  /** `!call.transcript` is false exactly for a present, non-empty transcript. */
  predicate HasTranscript(c: Call) {
    c.transcript.Some? && c.transcript.value != ""
  }

  /** The simulated AI summary: a fixed template around the client's phone number. */
  function SimulatedSummary(phone: string): string {
    "This is a simulated AI-generated summary for the call with " + phone
      + ". The transcript was analyzed to extract key points. The client discussed booking a "
      + "full-detail service for their sedan and asked about pricing and availability for next Tuesday."
  }

  /**
   * `calls.generateSummary`: without access, or without a transcript, it
   * throws and writes nothing; otherwise it sets the call's `summary` (and
   * nothing else, in no other row) and returns the text it stored.
   */
  method GenerateSummary(db: Database, identity: Identity, callId: CallId) returns (r: Outcome<string>)
    requires db.Valid()
    modifies db`calls
    ensures db.Valid()
    ensures !CheckCallAccess(identity, db.users, old(db.calls), callId) ==> r == Err(PermissionDenied)
    ensures CheckCallAccess(identity, db.users, old(db.calls), callId) ==>
              if HasTranscript(old(db.calls)[callId])
              then r == Ok(SimulatedSummary(old(db.calls)[callId].clientPhoneNumber))
              else r == Err(NotFound)
    ensures r.Err? ==> db.calls == old(db.calls)
    ensures r.Ok? ==> db.calls == old(db.calls)[callId := old(db.calls)[callId].(summary := Some(r.value))]
    ensures r.Ok? ==> Get(identity, db.users, db.calls, callId).Ok?
                        && Get(identity, db.users, db.calls, callId).value == Some(db.calls[callId])
                        && db.calls[callId].summary == Some(r.value)
  {
    var hasAccess := CheckCallAccess(identity, db.users, db.calls, callId);
    if !hasAccess {
      return Err(PermissionDenied);
    }
    // the access check found the call, so it is present
    var call := db.calls[callId];
    if !HasTranscript(call) {
      return Err(NotFound);
    }
    var summary := SimulatedSummary(call.clientPhoneNumber);
    db.calls := db.calls[callId := call.(summary := Some(summary))];
    r := Ok(summary);
  }

  /** Every call `list` returns can also be read with `get`, and `get` returns it as listed. */
  lemma ListedCallsAreReadable(identity: Identity, users: map<string, User>, calls: map<CallId, Call>, orgId: string, id: CallId)
    requires List(identity, users, calls, orgId).Ok?
    requires id in List(identity, users, calls, orgId).value
    ensures Get(identity, users, calls, id) == Ok(Some(List(identity, users, calls, orgId).value[id]))
  {
  }
}
