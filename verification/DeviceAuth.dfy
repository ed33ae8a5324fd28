/** Session bearers and the login rate limiter of the sync server. Times are in seconds and never go back. */
module DeviceAuth {
  import opened Common

  const SESSION_TTL := 24 * 60 * 60
  const AUTH_RATE_LIMIT := 5
  const AUTH_RATE_WINDOW := 60

  // ---------- rate limiter ----------

  /** The timestamps younger than the window. */
  function Within(times: seq<int>, now: int): seq<int> {
    if times == [] then []
    else
      var n := |times| - 1;
      Within(times[..n], now) + (if now - times[n] < AUTH_RATE_WINDOW then [times[n]] else [])
  }

  type Hits = map<string, seq<int>>

  function Recent(hits: Hits, ip: string, now: int): seq<int> {
    Within(if ip in hits then hits[ip] else [], now)
  }

  function Check(hits: Hits, ip: string, now: int): (Hits, bool) {
    var recent := Recent(hits, ip, now);
    if |recent| >= AUTH_RATE_LIMIT then (hits[ip := recent], false)
    else (hits[ip := recent + [now]], true)
  }

  datatype Attempt = Attempt(ip: string, time: int)

  /** The limiter driven by a sequence of attempts from any addresses. */
  function Limit(attempts: seq<Attempt>): Hits {
    if attempts == [] then map[]
    else
      var a := attempts[|attempts| - 1];
      Check(Limit(attempts[..|attempts| - 1]), a.ip, a.time).0
  }

  /** Reference: when each accepted attempt of one address was made, from the full history. */
  function Accepted(attempts: seq<Attempt>, ip: string): seq<int> {
    if attempts == [] then []
    else
      var n := |attempts| - 1;
      var earlier := Accepted(attempts[..n], ip);
      if attempts[n].ip == ip && |Within(earlier, attempts[n].time)| < AUTH_RATE_LIMIT
      then earlier + [attempts[n].time] else earlier
  }

  ghost predicate Monotone(attempts: seq<Attempt>) {
    forall i, j :: 0 <= i < j < |attempts| ==> attempts[i].time <= attempts[j].time
  }

  ghost predicate Sorted(times: seq<int>) {
    forall i, j :: 0 <= i < j < |times| ==> times[i] <= times[j]
  }

  lemma WithinSnoc(times: seq<int>, t: int, now: int)
    ensures Within(times + [t], now) == Within(times, now) + (if now - t < AUTH_RATE_WINDOW then [t] else [])
  {
    assert (times + [t])[..|times|] == times;
  }

  lemma {:induction false} WithinLater(times: seq<int>, earlier: int, now: int)
    requires earlier <= now
    ensures Within(Within(times, earlier), now) == Within(times, now)
  {
    if times != [] {
      var n := |times| - 1;
      var kept := Within(times[..n], earlier);
      WithinLater(times[..n], earlier, now);
      WithinSnoc(kept, times[n], now);
      assert kept + [] == kept;
    }
  }

  /** Pruning loses nothing a later check could see. */
  ghost predicate Agrees(hits: Hits, attempts: seq<Attempt>, ip: string) {
    forall now :: (forall i :: 0 <= i < |attempts| ==> attempts[i].time <= now) ==>
      Recent(hits, ip, now) == Within(Accepted(attempts, ip), now)
  }

  lemma CheckSeenLater(hits: Hits, a: Attempt, ip: string, times: seq<int>, now: int)
    requires a.time <= now && Recent(hits, ip, a.time) == Within(times, a.time)
    requires Recent(hits, ip, now) == Within(times, now)
    ensures Recent(Check(hits, a.ip, a.time).0, ip, now)
         == Within(if a.ip == ip && |Within(times, a.time)| < AUTH_RATE_LIMIT then times + [a.time] else times, now)
  {
    if a.ip == ip {
      WithinLater(times, a.time, now);
      WithinSnoc(Within(times, a.time), a.time, now);
      WithinSnoc(times, a.time, now);
    }
  }

  lemma AgreesStep(attempts: seq<Attempt>, hits: Hits, a: Attempt, ip: string)
    requires Agrees(hits, attempts, ip) && Monotone(attempts + [a])
    ensures Agrees(Check(hits, a.ip, a.time).0, attempts + [a], ip)
  {
    hide Recent, Within, Check;
    var all := attempts + [a];
    assert all[..|attempts|] == attempts;
    forall i | 0 <= i < |attempts| ensures attempts[i].time <= a.time {
      assert all[i].time <= all[|attempts|].time;
    }
    forall now | forall i :: 0 <= i < |all| ==> all[i].time <= now
      ensures Recent(Check(hits, a.ip, a.time).0, ip, now) == Within(Accepted(all, ip), now)
    {
      assert all[|attempts|].time <= now;
      assert forall i :: 0 <= i < |attempts| ==> attempts[i].time == all[i].time;
      CheckSeenLater(hits, a, ip, Accepted(attempts, ip), now);
    }
  }

  /**
   The pruned list always answers like the full history of accepted attempts:
   an attempt is refused exactly when five accepted ones of the same address
   lie in the last window, whatever other addresses do.
   */
  lemma {:induction false} LimiterAnswersLikeHistory(attempts: seq<Attempt>, ip: string)
    requires Monotone(attempts)
    ensures Agrees(Limit(attempts), attempts, ip)
  {
    if attempts != [] {
      var n := |attempts| - 1;
      assert attempts[..n] + [attempts[n]] == attempts;
      LimiterAnswersLikeHistory(attempts[..n], ip);
      AgreesStep(attempts[..n], Limit(attempts[..n]), attempts[n], ip);
    }
  }

  lemma RefusedIffWindowFull(attempts: seq<Attempt>, ip: string, now: int)
    requires Monotone(attempts + [Attempt(ip, now)])
    ensures Check(Limit(attempts), ip, now).1 <==> |Within(Accepted(attempts, ip), now)| < AUTH_RATE_LIMIT
  {
    var all := attempts + [Attempt(ip, now)];
    forall i, j | 0 <= i < j < |attempts| ensures attempts[i].time <= attempts[j].time {
      assert all[i].time <= all[j].time;
    }
    forall i | 0 <= i < |attempts| ensures attempts[i].time <= now {
      assert all[i].time <= all[|attempts|].time;
    }
    LimiterAnswersLikeHistory(attempts, ip);
  }

  lemma {:induction false} AcceptedSorted(attempts: seq<Attempt>, ip: string)
    requires Monotone(attempts)
    ensures Sorted(Accepted(attempts, ip))
    ensures Accepted(attempts, ip) != [] ==>
              Accepted(attempts, ip)[|Accepted(attempts, ip)| - 1] <= attempts[|attempts| - 1].time
  {
    if attempts != [] {
      AcceptedSorted(attempts[..|attempts| - 1], ip);
    }
  }

  lemma {:induction false} WindowCounts(times: seq<int>, k: nat, now: int)
    requires Sorted(times) && k < |times| && now - times[k] < AUTH_RATE_WINDOW
    ensures |Within(times, now)| >= |times| - k
  {
    var n := |times| - 1;
    if k < n {
      WindowCounts(times[..n], k, now);
    }
  }

  /** Any six consecutive accepted attempts of an address span at least the whole window. */
  lemma {:induction false} SixSpanTheWindow(attempts: seq<Attempt>, ip: string, k: nat)
    requires Monotone(attempts) && k + AUTH_RATE_LIMIT < |Accepted(attempts, ip)|
    ensures Accepted(attempts, ip)[k + AUTH_RATE_LIMIT] - Accepted(attempts, ip)[k] >= AUTH_RATE_WINDOW
  {
    var n := |attempts| - 1;
    var earlier := Accepted(attempts[..n], ip);
    if k + AUTH_RATE_LIMIT < |earlier| {
      SixSpanTheWindow(attempts[..n], ip, k);
    } else {
      AcceptedSorted(attempts[..n], ip);
      if attempts[n].time - earlier[k] < AUTH_RATE_WINDOW {
        WindowCounts(earlier, k, attempts[n].time);
      }
    }
  }

  lemma {:induction false} WithinIsEmpty(times: seq<int>, now: int)
    requires Sorted(times) && (times != [] ==> now - times[|times| - 1] >= AUTH_RATE_WINDOW)
    ensures Within(times, now) == []
  {
    if times != [] {
      WithinIsEmpty(times[..|times| - 1], now);
    }
  }

  /** Of sorted times, those in the window are the last ones. */
  lemma {:induction false} WindowIsSuffix(times: seq<int>, k: nat, now: int)
    requires Sorted(times) && k <= |times|
    requires forall i :: 0 <= i < |times| ==> (i < k <==> now - times[i] >= AUTH_RATE_WINDOW)
    ensures Within(times, now) == times[k..]
  {
    if k == |times| {
      WithinIsEmpty(times, now);
    } else {
      var n := |times| - 1;
      WindowIsSuffix(times[..n], k, now);
      assert times[..n][k..] + [times[n]] == times[k..];
    }
  }

  /** The window is full exactly if the fifth latest accepted attempt is less than a minute old. */
  lemma {:induction false} FullIffFifthRecent(times: seq<int>, now: int)
    requires Sorted(times)
    ensures |Within(times, now)| >= AUTH_RATE_LIMIT <==> |times| >= 5 && now - times[|times| - 5] < 60
  {
    var k := FirstRecent(times, now);
    WindowIsSuffix(times, k, now);
  }

  lemma {:induction false} FirstRecent(times: seq<int>, now: int) returns (k: nat)
    requires Sorted(times)
    ensures k <= |times| && forall i :: 0 <= i < |times| ==> (i < k <==> now - times[i] >= AUTH_RATE_WINDOW)
  {
    k := 0;
    if times != [] {
      var n := |times| - 1;
      k := FirstRecent(times[..n], now);
      assert forall i :: 0 <= i < n ==> times[..n][i] == times[i];
      if k < n { assert now - times[k] < AUTH_RATE_WINDOW && times[k] <= times[n]; }
      if k == n && now - times[n] >= AUTH_RATE_WINDOW { k := n + 1; }
    }
  }

  /** An attempt is refused exactly if the fifth latest accepted one of its address is less than 60 seconds old. */
  lemma FifthDecides(attempts: seq<Attempt>, ip: string, now: int)
    requires Monotone(attempts)
    ensures var times := Accepted(attempts, ip);
            |Within(times, now)| >= AUTH_RATE_LIMIT <==> |times| >= 5 && now - times[|times| - 5] < 60
  {
    hide Accepted, Within, Sorted, Monotone;
    AcceptedSorted(attempts, ip);
    FullIffFifthRecent(Accepted(attempts, ip), now);
  }

  /** So the attempts that count are those that came when the fifth latest before them was a minute old. */
  lemma AcceptedIffFifthOld(attempts: seq<Attempt>, a: Attempt, ip: string)
    requires Monotone(attempts)
    ensures var times := Accepted(attempts, ip);
            Accepted(attempts + [a], ip)
            == if a.ip == ip && !(|times| >= 5 && a.time - times[|times| - 5] < 60) then times + [a.time] else times
  {
    assert (attempts + [a])[..|attempts|] == attempts;
    FifthDecides(attempts, ip, a.time);
  }

  class AuthRateLimiter {
    var hits: Hits

    constructor ()
      ensures hits == Limit([])
    {
      hits := map[];
    }

    method CheckAndRecord(ip: string, now: int) returns (allowed: bool)
      modifies this
      ensures (hits, allowed) == Check(old(hits), ip, now)
    {
      var entry := if ip in hits then hits[ip] else [];
      entry := Within(entry, now);
      if |entry| >= AUTH_RATE_LIMIT {
        hits := hits[ip := entry];
        return false;
      }
      entry := entry + [now];
      hits := hits[ip := entry];
      allowed := true;
    }
  }

  // ---------- sessions ----------

  datatype Issue = Issue(token: string, time: int)

  type Sessions = map<string, int>

  function Prune(sessions: Sessions, now: int): Sessions {
    map t | t in sessions && sessions[t] > now :: sessions[t]
  }

  function IssueToken(sessions: Sessions, token: string, now: int): Sessions {
    sessions[token := now + SESSION_TTL]
  }

  /** Reference: some login issued this bearer less than a day ago. */
  ghost predicate StillValid(issues: seq<Issue>, token: string, now: int) {
    exists i :: 0 <= i < |issues| && issues[i].token == token && now < issues[i].time + 86400
  }

  /** The map answers like the issue history from `clock` on. */
  ghost predicate Mirrors(sessions: Sessions, issues: seq<Issue>, clock: int) {
    && (forall i :: 0 <= i < |issues| ==> issues[i].time <= clock)
    && (forall token, now :: clock <= now ==>
          ((token in sessions && sessions[token] > now) <==> StillValid(issues, token, now)))
  }

  /** The pruned map goes on answering like the full issue history. */
  lemma PruneMirrors(sessions: Sessions, issues: seq<Issue>, clock: int, now: int)
    requires Mirrors(sessions, issues, clock) && clock <= now
    ensures Mirrors(Prune(sessions, now), issues, now)
    ensures forall token :: token in Prune(sessions, now) <==> StillValid(issues, token, now)
  {}

  lemma IssueMirrors(sessions: Sessions, issues: seq<Issue>, clock: int, token: string, now: int)
    requires Mirrors(sessions, issues, clock) && clock <= now
    ensures Mirrors(IssueToken(sessions, token, now), issues + [Issue(token, now)], now)
  {
    var after, all := IssueToken(sessions, token, now), issues + [Issue(token, now)];
    forall t, later | now <= later
      ensures (t in after && after[t] > later) <==> StillValid(all, t, later)
    {
      if StillValid(issues, t, later) {
        var i :| 0 <= i < |issues| && issues[i].token == t && later < issues[i].time + SESSION_TTL;
        assert all[i] == issues[i];
      }
      if t == token && later < now + SESSION_TTL {
        assert all[|issues|].token == t;
      }
      if StillValid(all, t, later) {
        var i :| 0 <= i < |all| && all[i].token == t && later < all[i].time + SESSION_TTL;
        if i < |issues| { assert issues[i] == all[i]; }
      }
    }
  }

  class SessionStore {
    var sessions: Sessions

    constructor ()
      ensures sessions == map[] && Mirrors(sessions, [], 0)
    {
      sessions := map[];
    }

    method IssueBearer(token: string, now: int) returns (bearer: string, expiresIn: int)
      modifies this
      ensures sessions == IssueToken(old(sessions), token, now) && bearer == token && expiresIn == SESSION_TTL
    {
      sessions := sessions[token := now + SESSION_TTL];
      bearer, expiresIn := token, SESSION_TTL;
    }

    method IsValid(token: string, now: int) returns (valid: bool)
      modifies this
      ensures sessions == Prune(old(sessions), now)
      ensures valid <==> token in sessions
    {
      sessions := map t | t in sessions && sessions[t] > now :: sessions[t];
      valid := token in sessions && sessions[token] > now;
    }
  }
}
