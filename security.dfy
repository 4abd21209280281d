/**
 * The request limiter installed by the security middleware: a fixed-window
 * counter per client address, kept in a map owned by the process.  Each
 * request first drops the records older than the window, then counts itself,
 * and is turned away with 429 once its address has more than 500 requests in
 * the window.  The clock reading `now` (milliseconds) is a parameter.
 */
module Security {
  const WindowMs := 15 * 60 * 1000
  const MaxRequests := 500
  const TooMany := "Too many requests, please try again later."

  datatype Record = Record(count: int, timestamp: int)

  /** Either the request goes on to the next handler, or it is answered with 429. */
  datatype Outcome = Next | TooManyRequests429(message: string)

  /** The records that survive the sweep: those not older than `windowStart`. */
  function Swept(counts: map<string, Record>, windowStart: int): (r: map<string, Record>)
    ensures forall k :: k in r <==> k in counts && counts[k].timestamp >= windowStart
    ensures forall k :: k in r ==> r[k] == counts[k]
  {
    map k | k in counts && counts[k].timestamp >= windowStart :: counts[k]
  }

  /** The map after one request from `ip` at `now`, the reset of a stale record included. */
  function Recorded(counts: map<string, Record>, ip: string, now: int): (r: map<string, Record>)
    ensures r.Keys == Swept(counts, now - WindowMs).Keys + {ip}
    ensures forall k :: k in r && k != ip ==> r[k] == counts[k]
  {
    var windowStart := now - WindowMs;
    var swept := Swept(counts, windowStart);
    var record := if ip in swept then swept[ip] else Record(0, now);
    var current := if record.timestamp < windowStart then Record(0, now) else record;
    swept[ip := current.(count := current.count + 1)]
  }

  /** The answer to that request. */
  function Decision(counts: map<string, Record>, ip: string, now: int): (r: Outcome)
    ensures r.TooManyRequests429? ==> r.message == TooMany
  {
    if Recorded(counts, ip, now)[ip].count > MaxRequests then TooManyRequests429(TooMany) else Next
  }

  /** After a request every record lies inside the window that ends at `now`. */
  lemma NothingStale(counts: map<string, Record>, ip: string, now: int)
    ensures forall k :: k in Recorded(counts, ip, now) ==> Recorded(counts, ip, now)[k].timestamp >= now - WindowMs
  {
  }

  /**
   * The reset branch never fires: the record found after the sweep is never
   * stale, so the requester's record is its surviving record counted once
   * more, or a fresh record started at `now`.  An existing record keeps its
   * timestamp: the window is fixed at the first request.
   */
  lemma RequesterCounted(counts: map<string, Record>, ip: string, now: int)
    ensures ip in Recorded(counts, ip, now)
    ensures ip in counts && counts[ip].timestamp >= now - WindowMs ==>
              Recorded(counts, ip, now)[ip] == Record(counts[ip].count + 1, counts[ip].timestamp)
    ensures !(ip in counts && counts[ip].timestamp >= now - WindowMs) ==>
              Recorded(counts, ip, now)[ip] == Record(1, now)
  {
  }

  /** Other addresses lose only stale records; no other record changes. */
  lemma OthersUntouched(counts: map<string, Record>, ip: string, now: int, k: string)
    requires k != ip
    ensures k in Recorded(counts, ip, now) <==> k in counts && counts[k].timestamp >= now - WindowMs
    ensures k in Recorded(counts, ip, now) ==> Recorded(counts, ip, now)[k] == counts[k]
  {
  }

  /** A request is turned away iff its address's count, itself included, exceeds the maximum. */
  lemma RejectedIffOverLimit(counts: map<string, Record>, ip: string, now: int)
    ensures Decision(counts, ip, now).TooManyRequests429? <==> Recorded(counts, ip, now)[ip].count > MaxRequests
    ensures Decision(counts, ip, now).TooManyRequests429? ==> Decision(counts, ip, now).message == TooMany
  {
  }

  /** The map after the requests from `ip` at the successive `times`. */
  function Replay(counts: map<string, Record>, ip: string, times: seq<int>): map<string, Record>
    decreases |times|
  {
    if times == [] then counts else Recorded(Replay(counts, ip, times[..|times| - 1]), ip, times[|times| - 1])
  }

  /**
   * A burst from an address with no live record, every request within the
   * window opened by the first: the record counts every request and keeps the
   * first request's timestamp.
   */
  lemma {:induction false} BurstCounted(counts: map<string, Record>, ip: string, times: seq<int>)
    requires times != []
    requires ip !in counts || counts[ip].timestamp < times[0] - WindowMs
    requires forall i :: 0 <= i < |times| ==> times[0] <= times[i] <= times[0] + WindowMs
    ensures ip in Replay(counts, ip, times)
    ensures Replay(counts, ip, times)[ip] == Record(|times|, times[0])
    decreases |times|
  {
    var last := times[|times| - 1];
    var prefix := times[..|times| - 1];
    if prefix == [] {
      RequesterCounted(counts, ip, last);
    } else {
      assert prefix[0] == times[0];
      BurstCounted(counts, ip, prefix);
      RequesterCounted(Replay(counts, ip, prefix), ip, last);
    }
  }

  /** In such a burst the first 500 requests pass and every later one is turned away. */
  lemma BurstLimit(counts: map<string, Record>, ip: string, times: seq<int>)
    requires times != []
    requires ip !in counts || counts[ip].timestamp < times[0] - WindowMs
    requires forall i :: 0 <= i < |times| ==> times[0] <= times[i] <= times[0] + WindowMs
    ensures Decision(Replay(counts, ip, times[..|times| - 1]), ip, times[|times| - 1]) == Next <==> |times| <= MaxRequests
  {
    BurstCounted(counts, ip, times);
  }

  /** The limiter's state: the map from address to record, updated in place by each request. */
  class RequestLimiter {
    var requestCounts: map<string, Record>

    constructor()
      ensures requestCounts == map[]
    {
      requestCounts := map[];
    }

    /** One pass of the middleware for a request from `ip` at `now`. */
    method Handle(ip: string, now: int) returns (o: Outcome)
      modifies this
      ensures requestCounts == Recorded(old(requestCounts), ip, now)
      ensures o == Decision(old(requestCounts), ip, now)
    {
      var windowStart := now - WindowMs;
      ghost var before := requestCounts;
      var pending := requestCounts.Keys;
      while pending != {}
        invariant pending <= before.Keys
        invariant requestCounts == map k | k in before && (k in pending || before[k].timestamp >= windowStart) :: before[k]
        decreases pending
      {
        var key :| key in pending;
        if requestCounts[key].timestamp < windowStart {
          requestCounts := requestCounts - {key};
        }
        pending := pending - {key};
      }
      assert requestCounts == Swept(before, windowStart);
      var record := if ip in requestCounts then requestCounts[ip] else Record(0, now);
      if record.timestamp < windowStart {
        record := Record(0, now);
      }
      record := record.(count := record.count + 1);
      requestCounts := requestCounts[ip := record];
      if record.count > MaxRequests {
        return TooManyRequests429(TooMany);
      }
      o := Next;
    }
  }
}
