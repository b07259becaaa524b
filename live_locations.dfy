/** The in-memory live location store (`LIVE_LOCATIONS` and the
    `/api/loc/<token>` endpoint in app.py): a share page POSTs the visitor's
    position under a token, a viewer page polls it with GET. */
module LiveLocations {
  import opened Wrappers

  /** The last reported position of a token and when it arrived. */
  datatype Record = Record(lat: real, lng: real, ts: real)

  /** A JSON reply of the endpoint with its HTTP status. */
  datatype Reply = Reply(status: nat, ok: bool, error: Option<string>, loc: Option<Record>)

  const InvalidPayload: string := "invalid_payload"

  /** Reply to an accepted report. */
  const Accepted: Reply := Reply(200, true, None, None)
  /** Reply to a report whose `lat` or `lng` does not convert to a float. */
  const Rejected: Reply := Reply(400, false, Some(InvalidPayload), None)

  /** The reply to a poll for `token`: always `ok`, with the stored record or
      with `loc: None` for a token that never reported. */
  function PollReply(locations: map<string, Record>, token: string): (r: Reply)
    ensures r.status == 200 && r.ok && r.error.None?
    ensures r.loc.Some? <==> token in locations
    ensures token in locations ==> r.loc.value == locations[token]
  {
    Reply(200, true, None, if token in locations then Some(locations[token]) else None)
  }

  class LiveStore {
    /** The latest record per token; records are never removed. */
    var locations: map<string, Record>

    /** The store is empty when the process starts. */
    constructor ()
      ensures locations == map[]
    {
      locations := map[];
    }

    /** POST: `lat` and `lng` are the outcomes of converting the payload's
        fields to floats (`None` when the payload is missing, is not an
        object, lacks the field or holds something `float()` refuses); `now`
        is the clock. On success the token's record is overwritten and no
        other token changes; on failure nothing changes. */
    method Report(token: string, lat: Option<real>, lng: Option<real>, now: real) returns (reply: Reply)
      modifies this
      ensures lat.Some? && lng.Some? ==>
        locations == old(locations)[token := Record(lat.value, lng.value, now)] && reply == Accepted
      ensures !(lat.Some? && lng.Some?) ==> locations == old(locations) && reply == Rejected
    {
      if lat.None? || lng.None? {
        return Rejected;
      }
      locations := locations[token := Record(lat.value, lng.value, now)];
      reply := Accepted;
    }

    /** GET: a pure read of the token's record. */
    method Poll(token: string) returns (reply: Reply)
      ensures reply == PollReply(locations, token)
    {
      var loc: Option<Record> := if token in locations then Some(locations[token]) else None;
      if loc.None? {
        return Reply(200, true, None, None);
      }
      return Reply(200, true, None, loc);
    }
  }

  /** A report followed by a poll of the same token returns what was reported,
      and a poll of any other token is unaffected by the report. */
  method ReportThenPoll(store: LiveStore, token: string, other: string, lat: real, lng: real, now: real)
    returns (mine: Reply, theirs: Reply)
    modifies store
    ensures other != token ==> theirs == PollReply(old(store.locations), other)
    ensures mine.loc == Some(Record(lat, lng, now))
  {
    var _ := store.Report(token, Some(lat), Some(lng), now);
    mine := store.Poll(token);
    theirs := store.Poll(other);
  }

  /** A report in which `lat` or `lng` (or both) fails to parse leaves every
      token's poll reply as it was. */
  method RejectedReportChangesNothing(store: LiveStore, token: string, lat: Option<real>, lng: Option<real>,
                                      now: real, probe: string)
    returns (before: Reply, after: Reply)
    requires !(lat.Some? && lng.Some?)
    modifies store
    ensures before == after
  {
    before := store.Poll(probe);
    var reply := store.Report(token, lat, lng, now);
    assert reply == Rejected;
    after := store.Poll(probe);
  }
}
