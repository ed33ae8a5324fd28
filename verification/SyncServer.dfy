/**
 The sync server's authorization gate as a request state machine: enrolment,
 login and authorized access over one stored verifier, one session map and one
 rate limiter. Each handler runs atomically.
 */
module SyncServer {
  import opened Common
  import opened DeviceAuth

  type Key = seq<byte>

  /** Base64, key hashing and verification as the libraries provide them. */
  datatype Crypto = Crypto(
    decode: string -> Option<string>,
    decodeKey: string -> Option<Key>,
    hash: (Key, nat) -> Option<string>,
    verify: (Key, string) -> bool)

  datatype Config = Config(token: Option<string>, allowEnroll: bool, crypto: Crypto)

  datatype Server = Server(record: Option<string>, sessions: Sessions, hits: Hits, now: int)

  const Booted := Server(None, map[], map[], 0)

  /**
   `readable` and `saved` say whether the record file could be read and
   written, `salt` and `bearer` are the random values drawn by the handler.
   A restart loses sessions and attempts but not the record, which is a file.
   */
  datatype Request =
    | Enroll(header: Option<string>, body: string, readable: bool, salt: nat, saved: bool)
    | Login(ip: string, body: string, readable: bool, bearer: string)
    | Access(header: Option<string>, readable: bool)
    | Restart

  datatype Response = Granted | Created | Bearer(token: string) | Refused(status: nat) | Started

  datatype Call = Call(time: int, request: Request)

  // ---------- handlers ----------

  function BearerRaw(header: Option<string>): Option<string> {
    if header.Some? && "Bearer " <= header.value then Some(header.value[7..]) else None
  }

  /** The shared secret, base64-encoded or raw. */
  predicate MatchesSecret(cfg: Config, presented: string) {
    cfg.token.Some? && (cfg.crypto.decode(presented) == cfg.token || presented == cfg.token.value)
  }

  predicate LegacyTokenOk(cfg: Config, header: Option<string>) {
    var presented := BearerRaw(header);
    presented.Some? && MatchesSecret(cfg, presented.value)
  }

  /** An unreadable record counts as no record here. */
  predicate LooksUnenrolled(s: Server, readable: bool) {
    s.record.None? || !readable
  }

  function Authorize(cfg: Config, s: Server, header: Option<string>, readable: bool, now: int): (Server, Response) {
    var presented := BearerRaw(header);
    if presented.None? then
      (s, if cfg.token.None? && LooksUnenrolled(s, readable) then Granted else Refused(401))
    else
      var pruned := Prune(s.sessions, now);
      (s.(sessions := pruned),
       if presented.value in pruned || MatchesSecret(cfg, presented.value) then Granted else Refused(401))
  }

  function HandleEnroll(cfg: Config, s: Server, r: Request): (Server, Response)
    requires r.Enroll?
  {
    if !r.readable then (s, Refused(500))
    else if s.record.Some? then (s, Refused(409))
    else if !LegacyTokenOk(cfg, r.header) && !(cfg.token.None? && cfg.allowEnroll) then (s, Refused(401))
    else
      var key := cfg.crypto.decodeKey(r.body);
      if key.None? then (s, Refused(400))
      else
        var verifier := cfg.crypto.hash(key.value, r.salt);
        if verifier.None? || !r.saved then (s, Refused(500)) else (s.(record := verifier), Created)
  }

  function HandleLogin(cfg: Config, s: Server, r: Request, now: int): (Server, Response)
    requires r.Login?
  {
    var (hits, allowed) := Check(s.hits, r.ip, now);
    var t := s.(hits := hits);
    if !allowed then (t, Refused(429))
    else if !r.readable then (t, Refused(500))
    else if s.record.None? then (t, Refused(404))
    else
      var key := cfg.crypto.decodeKey(r.body);
      if key.None? then (t, Refused(400))
      else if !cfg.crypto.verify(key.value, s.record.value) then (t, Refused(401))
      else (t.(sessions := IssueToken(s.sessions, r.bearer, now)), Bearer(r.bearer))
  }

  function Handle(cfg: Config, s: Server, c: Call): (Server, Response) {
    var (t, response) :=
      match c.request
      case Enroll(_, _, _, _, _) => HandleEnroll(cfg, s, c.request)
      case Login(_, _, _, _) => HandleLogin(cfg, s, c.request, c.time)
      case Access(header, readable) => Authorize(cfg, s, header, readable, c.time)
      case Restart => (Server(s.record, map[], map[], s.now), Started);
    (t.(now := c.time), response)
  }

  function Run(cfg: Config, calls: seq<Call>): Server {
    if calls == [] then Booted else Handle(cfg, Run(cfg, calls[..|calls| - 1]), calls[|calls| - 1]).0
  }

  /** The answer to the call at position `i` of a run. */
  function Answer(cfg: Config, calls: seq<Call>, i: nat): Response
    requires i < |calls|
  {
    Handle(cfg, Run(cfg, calls[..i]), calls[i]).1
  }

  ghost predicate InTime(calls: seq<Call>) {
    && (forall i :: 0 <= i < |calls| ==> 0 <= calls[i].time)
    && forall i, j :: 0 <= i < j < |calls| ==> calls[i].time <= calls[j].time
  }

  // ---------- history ----------

  /** Every bearer handed out since the last restart, with its time. */
  function Issues(cfg: Config, calls: seq<Call>): seq<Issue> {
    if calls == [] || calls[|calls| - 1].request.Restart? then []
    else
      var n := |calls| - 1;
      var answer := Handle(cfg, Run(cfg, calls[..n]), calls[n]).1;
      Issues(cfg, calls[..n]) + (if answer.Bearer? then [Issue(answer.token, calls[n].time)] else [])
  }

  /** Every login attempt since the last restart. */
  function Attempts(calls: seq<Call>): seq<Attempt> {
    if calls == [] || calls[|calls| - 1].request.Restart? then []
    else
      var c := calls[|calls| - 1];
      Attempts(calls[..|calls| - 1]) + (if c.request.Login? then [Attempt(c.request.ip, c.time)] else [])
  }

  lemma HandleMirrors(cfg: Config, s: Server, c: Call, issues: seq<Issue>)
    requires Mirrors(s.sessions, issues, s.now) && s.now <= c.time && !c.request.Restart?
    ensures var (t, answer) := Handle(cfg, s, c);
            Mirrors(t.sessions, issues + (if answer.Bearer? then [Issue(answer.token, c.time)] else []), c.time)
  {
    hide Mirrors, Check;
    var (t, answer) := Handle(cfg, s, c);
    assert issues + [] == issues;
    match c.request
    case Access(header, _) =>
      PruneMirrors(s.sessions, issues, s.now, c.time);
      MirrorsLater(s.sessions, issues, s.now, c.time);
    case Login(_, _, _, bearer) =>
      MirrorsLater(s.sessions, issues, s.now, c.time);
      IssueMirrors(s.sessions, issues, s.now, bearer, c.time);
    case Enroll(_, _, _, _, _) =>
      MirrorsLater(s.sessions, issues, s.now, c.time);
  }

  lemma MirrorsLater(sessions: Sessions, issues: seq<Issue>, clock: int, now: int)
    requires Mirrors(sessions, issues, clock) && clock <= now
    ensures Mirrors(sessions, issues, now)
  {}

  lemma {:induction false} RunMirrors(cfg: Config, calls: seq<Call>)
    requires InTime(calls)
    ensures Mirrors(Run(cfg, calls).sessions, Issues(cfg, calls), Run(cfg, calls).now)
    ensures Run(cfg, calls).now == if calls == [] then 0 else calls[|calls| - 1].time
  {
    hide Mirrors, Handle;
    if calls == [] {
      NoSessions(0);
    } else {
      var n := |calls| - 1;
      RunMirrors(cfg, calls[..n]);
      HandleSetsClock(cfg, Run(cfg, calls[..n]), calls[n]);
      if calls[n].request.Restart? {
        NoSessions(calls[n].time);
      } else {
        HandleMirrors(cfg, Run(cfg, calls[..n]), calls[n], Issues(cfg, calls[..n]));
      }
    }
  }

  lemma NoSessions(clock: int)
    ensures Mirrors(map[], [], clock)
  {}

  lemma HandleSetsClock(cfg: Config, s: Server, c: Call)
    ensures Handle(cfg, s, c).0.now == c.time
    ensures c.request.Restart? ==> Handle(cfg, s, c).0.sessions == map[] && Handle(cfg, s, c).0.hits == map[]
  {}

  /**
   A server with a stored verifier and no shared secret lets anybody in while
   the record cannot be read.
   */
  lemma UnreadableLooksOpen(cfg: Config, body: string, salt: nat)
    requires cfg.token.None? && cfg.allowEnroll
    requires var key := cfg.crypto.decodeKey(body); key.Some? && cfg.crypto.hash(key.value, salt).Some?
    ensures var calls := [Call(0, Enroll(None, body, true, salt, true)), Call(1, Access(None, false))];
            && Answer(cfg, calls, 0) == Created && Run(cfg, calls[..1]).record.Some?
            && Answer(cfg, calls, 1) == Granted
            && Answer(cfg, calls[..1] + [Call(1, Access(None, true))], 1) == Refused(401)
  {
    var calls := [Call(0, Enroll(None, body, true, salt, true)), Call(1, Access(None, false))];
    var shut := calls[..1] + [Call(1, Access(None, true))];
    assert calls[..0] == [] && calls[..1][..0] == [] && shut[..1] == calls[..1];
    assert Run(cfg, []) == Booted;
  }

  // ---------- where bearers and the verifier come from ----------

  /**
   Every bearer on record was answered to a login since the last restart whose
   key verified against the stored verifier, and that verifier is still the
   stored one.
   */
  lemma {:induction false} IssueOrigin(cfg: Config, calls: seq<Call>, k: nat) returns (m: nat)
    requires k < |Issues(cfg, calls)|
    ensures m < |calls| && calls[m].request.Login? && forall j :: m < j < |calls| ==> !calls[j].request.Restart?
    ensures Answer(cfg, calls, m) == Bearer(Issues(cfg, calls)[k].token) && calls[m].time == Issues(cfg, calls)[k].time
    ensures var record := Run(cfg, calls).record;
            var key := cfg.crypto.decodeKey(calls[m].request.body);
            record.Some? && key.Some? && cfg.crypto.verify(key.value, record.value)
  {
    var n := |calls| - 1;
    if k < |Issues(cfg, calls[..n])| {
      m := IssueOrigin(cfg, calls[..n], k);
      RecordStays(cfg, Run(cfg, calls[..n]), calls[n]);
      assert calls[..n][..m] == calls[..m];
    } else {
      m := n;
    }
  }

  lemma RecordStays(cfg: Config, s: Server, c: Call)
    ensures s.record.Some? ==> Handle(cfg, s, c).0.record == s.record
    ensures Handle(cfg, s, c).0.record != s.record ==> Handle(cfg, s, c).1 == Created
  {}

  /** Once stored, the verifier never changes, not by a restart either, so a readable server never looks open again. */
  lemma {:induction false} VerifierIsPermanent(cfg: Config, calls: seq<Call>, i: nat, j: nat)
    requires i <= j <= |calls| && Run(cfg, calls[..i]).record.Some?
    ensures Run(cfg, calls[..j]).record == Run(cfg, calls[..i]).record
    decreases j
  {
    if i < j {
      hide Handle;
      VerifierIsPermanent(cfg, calls, i, j - 1);
      assert calls[..j][..j - 1] == calls[..j - 1];
      RecordStays(cfg, Run(cfg, calls[..j - 1]), calls[j - 1]);
    }
  }

  /** At most one enrolment ever succeeds. */
  lemma EnrolledOnce(cfg: Config, calls: seq<Call>, i: nat, j: nat)
    requires i < j < |calls| && Answer(cfg, calls, i) == Created
    ensures Answer(cfg, calls, j) != Created
  {
    assert calls[..i + 1][..i] == calls[..i];
    VerifierIsPermanent(cfg, calls, i + 1, j);
  }

  // ---------- who may enrol, log in and access ----------

  /** An authorization header that carries this bearer. */
  ghost predicate Bears(header: Option<string>, tok: string) {
    header == Some("Bearer " + tok)
  }

  /** The shared secret itself, or its encoding. */
  ghost predicate IsSecret(cfg: Config, tok: string) {
    cfg.token.Some? && (tok == cfg.token.value || cfg.crypto.decode(tok) == Some(cfg.token.value))
  }

  /** With a shared secret its bearers may enrol; without one anybody, if enrolling is allowed. */
  ghost predicate MayEnroll(cfg: Config, header: Option<string>) {
    if cfg.token.Some? then exists tok :: Bears(header, tok) && IsSecret(cfg, tok) else cfg.allowEnroll
  }

  /** Some call before position `i` was answered with a successful enrolment. */
  ghost predicate EnrolledBefore(cfg: Config, calls: seq<Call>, i: nat)
    requires i <= |calls|
  {
    exists k :: 0 <= k < i && Answer(cfg, calls, k) == Created
  }

  lemma BearsIff(header: Option<string>, tok: string)
    ensures Bears(header, tok) <==> BearerRaw(header) == Some(tok)
  {
    if Bears(header, tok) {
      assert ("Bearer " + tok)[7..] == tok && "Bearer " <= "Bearer " + tok;
    }
    if BearerRaw(header) == Some(tok) {
      assert header.value == header.value[..7] + header.value[7..] && header.value[..7] == "Bearer ";
    }
  }

  lemma SecretIff(cfg: Config, tok: string)
    ensures MatchesSecret(cfg, tok) <==> IsSecret(cfg, tok)
  {}

  lemma MayEnrollIff(cfg: Config, header: Option<string>)
    ensures LegacyTokenOk(cfg, header) || (cfg.token.None? && cfg.allowEnroll) <==> MayEnroll(cfg, header)
  {
    hide BearerRaw, Bears;
    forall tok ensures Bears(header, tok) <==> BearerRaw(header) == Some(tok) { BearsIff(header, tok); }
  }

  lemma RecordGrows(cfg: Config, calls: seq<Call>, i: nat)
    requires i < |calls|
    ensures Run(cfg, calls[..i + 1]) == Handle(cfg, Run(cfg, calls[..i]), calls[i]).0
  {
    assert calls[..i + 1][..i] == calls[..i];
  }

  lemma CreatedStores(cfg: Config, s: Server, c: Call)
    ensures Handle(cfg, s, c).1 == Created ==>
              && c.request.Enroll? && s.record.None? && cfg.crypto.decodeKey(c.request.body).Some?
              && Handle(cfg, s, c).0.record.Some?
              && Handle(cfg, s, c).0.record
                 == cfg.crypto.hash(cfg.crypto.decodeKey(c.request.body).value, c.request.salt)
    ensures Handle(cfg, s, c).1 != Created ==> Handle(cfg, s, c).0.record == s.record
  {
    hide Check, Prune, IssueToken;
  }

  /** There is a record exactly if an enrolment succeeded. */
  lemma {:induction false} RecordIffEnrolled(cfg: Config, calls: seq<Call>, i: nat)
    requires i <= |calls|
    ensures Run(cfg, calls[..i]).record.Some? <==> EnrolledBefore(cfg, calls, i)
  {
    if i > 0 {
      hide Handle, Run, EnrolledBefore;
      RecordIffEnrolled(cfg, calls, i - 1);
      RecordGrows(cfg, calls, i - 1);
      CreatedStores(cfg, Run(cfg, calls[..i - 1]), calls[i - 1]);
      EnrolledSnoc(cfg, calls, i - 1);
    }
  }

  lemma EnrolledSnoc(cfg: Config, calls: seq<Call>, i: nat)
    requires i < |calls|
    ensures EnrolledBefore(cfg, calls, i + 1) <==> EnrolledBefore(cfg, calls, i) || Answer(cfg, calls, i) == Created
  {
    hide Answer;
  }

  /** The record is the hash of the key of the enrolment that succeeded. */
  lemma RecordIsHash(cfg: Config, calls: seq<Call>, k: nat, i: nat)
    requires k < i <= |calls| && Answer(cfg, calls, k) == Created
    ensures var r := calls[k].request;
            && r.Enroll? && cfg.crypto.decodeKey(r.body).Some?
            && Run(cfg, calls[..i]).record == cfg.crypto.hash(cfg.crypto.decodeKey(r.body).value, r.salt)
            && Run(cfg, calls[..i]).record.Some?
  {
    hide Handle;
    CreatedStores(cfg, Run(cfg, calls[..k]), calls[k]);
    RecordGrows(cfg, calls, k);
    VerifierIsPermanent(cfg, calls, k + 1, i);
  }

  /**
   In every run an enrolment is answered, in this order of precedence: 500 if
   the record cannot be read, 409 if one succeeded before, 401 to whoever may
   not enrol, 400 for a key that does not decode, 500 if hashing or saving
   fails, and created otherwise.
   */
  lemma EnrolAnswerIff(cfg: Config, calls: seq<Call>, i: nat)
    requires i < |calls| && calls[i].request.Enroll?
    ensures var r, a := calls[i].request, Answer(cfg, calls, i);
            var free := r.readable && !EnrolledBefore(cfg, calls, i);
            var key := cfg.crypto.decodeKey(r.body);
            && (a == Refused(409) <==> r.readable && EnrolledBefore(cfg, calls, i))
            && (a == Refused(401) <==> free && !MayEnroll(cfg, r.header))
            && (a == Refused(400) <==> free && MayEnroll(cfg, r.header) && key.None?)
            && (a == Created <==> free && MayEnroll(cfg, r.header) && key.Some? && r.saved
                                  && cfg.crypto.hash(key.value, r.salt).Some?)
            && (a in {Refused(409), Refused(401), Refused(400), Created, Refused(500)})
  {
    RecordIffEnrolled(cfg, calls, i);
    MayEnrollIff(cfg, calls[i].request.header);
    hide LegacyTokenOk, MayEnroll, EnrolledBefore, Run;
  }

  lemma OnlyEnrolCreates(cfg: Config, calls: seq<Call>, i: nat)
    requires i < |calls| && Answer(cfg, calls, i) == Created
    ensures calls[i].request.Enroll?
  {
    CreatedStores(cfg, Run(cfg, calls[..i]), calls[i]);
  }

  /**
   In every run a request is authorized if and only if it bears the shared
   secret, or a bearer issued by a login less than a day ago and since the last
   restart, or it bears nothing while there is no shared secret and no readable
   record of an enrolment.
   */
  lemma AuthorizedIffExplained(cfg: Config, calls: seq<Call>, i: nat)
    requires InTime(calls) && i < |calls| && calls[i].request.Access?
    ensures var r := calls[i].request;
            Answer(cfg, calls, i) == Granted <==>
              || (exists tok :: Bears(r.header, tok)
                    && (IsSecret(cfg, tok) || StillValid(Issues(cfg, calls[..i]), tok, calls[i].time)))
              || ((forall tok :: !Bears(r.header, tok)) && cfg.token.None?
                  && (!r.readable || !EnrolledBefore(cfg, calls, i)))
  {
    assert InTime(calls[..i]);
    RunMirrors(cfg, calls[..i]);
    RecordIffEnrolled(cfg, calls, i);
    hide BearerRaw, Bears, Run, EnrolledBefore, Issues;
    var header := calls[i].request.header;
    forall tok ensures Bears(header, tok) <==> BearerRaw(header) == Some(tok) { BearsIff(header, tok); }
  }

  // ---------- the limiter in front of logins ----------

  lemma HandleHits(cfg: Config, s: Server, c: Call)
    ensures Handle(cfg, s, c).0.hits
         == if c.request.Login? then Check(s.hits, c.request.ip, c.time).0
            else if c.request.Restart? then map[] else s.hits
  {
    hide Check;
  }

  lemma {:induction false} AttemptsInTime(calls: seq<Call>)
    requires InTime(calls)
    ensures Monotone(Attempts(calls))
    ensures forall k :: 0 <= k < |Attempts(calls)| ==> Attempts(calls)[k].time <= calls[|calls| - 1].time
  {
    if calls != [] {
      AttemptsInTime(calls[..|calls| - 1]);
    }
  }

  lemma {:induction false} RunLimits(cfg: Config, calls: seq<Call>)
    ensures Run(cfg, calls).hits == Limit(Attempts(calls))
  {
    hide Check, Handle;
    if calls != [] {
      var n := |calls| - 1;
      RunLimits(cfg, calls[..n]);
      HandleHits(cfg, Run(cfg, calls[..n]), calls[n]);
      var before := Attempts(calls[..n]);
      if calls[n].request.Restart? {
        assert Attempts(calls) == [];
      } else if calls[n].request.Login? {
        assert Attempts(calls)[..|before|] == before;
      } else {
        assert Attempts(calls) == before;
      }
    }
  }

  /**
   A login is turned away for its rate exactly when five accepted attempts of
   the same address lie in the last minute since the last restart.
   */
  lemma ThrottledIffWindowFull(cfg: Config, calls: seq<Call>, i: nat)
    requires InTime(calls) && i < |calls| && calls[i].request.Login?
    ensures Answer(cfg, calls, i) == Refused(429) <==>
      |Within(Accepted(Attempts(calls[..i]), calls[i].request.ip), calls[i].time)| >= AUTH_RATE_LIMIT
  {
    assert InTime(calls[..i]);
    RunLimits(cfg, calls[..i]);
    AttemptsInTime(calls[..i]);
    var ip, now, before := calls[i].request.ip, calls[i].time, Attempts(calls[..i]);
    RefusedIffWindowFull(before, ip, now);
  }

  /** Five accepted login attempts of the address lie in the last minute since the last restart. */
  ghost predicate Throttled(calls: seq<Call>, i: nat)
    requires i < |calls| && calls[i].request.Login?
  {
    var times := Accepted(Attempts(calls[..i]), calls[i].request.ip);
    |times| >= 5 && calls[i].time - times[|times| - 5] < 60
  }

  /**
   In every run a login is answered, in this order of precedence: 429 if
   throttled, 500 if the record cannot be read, 404 if nobody enrolled, 400 for
   a key that does not decode, 401 for one that does not verify against the
   enrolled key's hash, and with its bearer otherwise.
   */
  lemma LoginAnswerIff(cfg: Config, calls: seq<Call>, i: nat)
    requires InTime(calls) && i < |calls| && calls[i].request.Login?
    ensures var r, a := calls[i].request, Answer(cfg, calls, i);
            var looks := !Throttled(calls, i) && r.readable;
            var enrolled := EnrolledBefore(cfg, calls, i);
            var key := cfg.crypto.decodeKey(r.body);
            && (a == Refused(429) <==> Throttled(calls, i))
            && (a == Refused(500) <==> !Throttled(calls, i) && !r.readable)
            && (a == Refused(404) <==> looks && !enrolled)
            && (a == Refused(400) <==> looks && enrolled && key.None?)
            && (a == Bearer(r.bearer) <==> looks && enrolled && key.Some? && Verifies(cfg, calls, i, key.value))
            && (a == Refused(401) <==> looks && enrolled && key.Some? && !Verifies(cfg, calls, i, key.value))
  {
    hide EnrolledBefore, Verifies, Throttled, Run, InTime, Handle;
    RecordIffEnrolled(cfg, calls, i);
    if EnrolledBefore(cfg, calls, i) { VerifiesIff(cfg, calls, i); }
    ThrottledIff(cfg, calls, i);
    LoginShape(cfg, Run(cfg, calls[..i]), calls[i]);
  }

  lemma ThrottledIff(cfg: Config, calls: seq<Call>, i: nat)
    requires InTime(calls) && i < |calls| && calls[i].request.Login?
    ensures Answer(cfg, calls, i) == Refused(429) <==> Throttled(calls, i)
  {
    assert InTime(calls[..i]);
    hide Accepted, Within, Attempts, Answer, InTime, Monotone;
    ThrottledIffWindowFull(cfg, calls, i);
    AttemptsInTime(calls[..i]);
    FifthDecides(Attempts(calls[..i]), calls[i].request.ip, calls[i].time);
  }

  /** The answer to a login, apart from what the limiter decides. */
  lemma LoginShape(cfg: Config, s: Server, c: Call)
    requires c.request.Login?
    ensures var r, a := c.request, Handle(cfg, s, c).1;
            var key := cfg.crypto.decodeKey(r.body);
            a == Refused(429)
            || (a == if !r.readable then Refused(500) else if s.record.None? then Refused(404)
                     else if key.None? then Refused(400)
                     else if cfg.crypto.verify(key.value, s.record.value) then Bearer(r.bearer) else Refused(401))
  {
    hide Check;
  }

  /** The key passes against the hash of the key of some earlier successful enrolment. */
  ghost predicate Verifies(cfg: Config, calls: seq<Call>, i: nat, key: Key)
    requires i <= |calls|
  {
    exists k :: 0 <= k < i && Answer(cfg, calls, k) == Created && VerifiesAgainst(cfg, calls[k].request, key)
  }

  ghost predicate VerifiesAgainst(cfg: Config, r: Request, key: Key) {
    && r.Enroll? && cfg.crypto.decodeKey(r.body).Some?
    && var hash := cfg.crypto.hash(cfg.crypto.decodeKey(r.body).value, r.salt);
       hash.Some? && cfg.crypto.verify(key, hash.value)
  }

  lemma VerifiesIff(cfg: Config, calls: seq<Call>, i: nat)
    requires i <= |calls| && Run(cfg, calls[..i]).record.Some? && EnrolledBefore(cfg, calls, i)
    ensures forall key :: Verifies(cfg, calls, i, key) <==> cfg.crypto.verify(key, Run(cfg, calls[..i]).record.value)
  {
    hide Run, Handle;
    forall k | 0 <= k < i && Answer(cfg, calls, k) == Created
      ensures forall key :: VerifiesAgainst(cfg, calls[k].request, key)
                            <==> cfg.crypto.verify(key, Run(cfg, calls[..i]).record.value)
    {
      RecordIsHash(cfg, calls, k, i);
    }
    var k :| 0 <= k < i && Answer(cfg, calls, k) == Created;
    assert forall key :: cfg.crypto.verify(key, Run(cfg, calls[..i]).record.value) ==>
             VerifiesAgainst(cfg, calls[k].request, key);
  }

  // ---------- the server object ----------

  class Gate {
    const cfg: Config
    var record: Option<string>
    const store: SessionStore
    const limiter: AuthRateLimiter
    var now: int

    ghost function View(): Server
      reads this, store, limiter
    {
      Server(record, store.sessions, limiter.hits, now)
    }

    /** A process that starts with whatever record file is there. */
    constructor (cfg: Config, found: Option<string>, time: int)
      ensures this.cfg == cfg && fresh(store) && fresh(limiter)
      ensures forall s: Server :: s.record == found ==> View() == Handle(cfg, s, Call(time, Restart)).0
    {
      this.cfg := cfg;
      record := found;
      store := new SessionStore();
      limiter := new AuthRateLimiter();
      now := time;
    }

    method OnAccess(header: Option<string>, readable: bool, time: int) returns (r: Response)
      modifies this`now, store
      ensures (View(), r) == Handle(cfg, old(View()), Call(time, Access(header, readable)))
    {
      now := time;
      var presented := BearerRaw(header);
      if presented.None? {
        r := if cfg.token.None? && (record.None? || !readable) then Granted else Refused(401);
        return;
      }
      var live := store.IsValid(presented.value, time);
      if live { return Granted; }
      r := if MatchesSecret(cfg, presented.value) then Granted else Refused(401);
    }

    method OnEnroll(request: Request, time: int) returns (r: Response)
      requires request.Enroll?
      modifies this
      ensures (View(), r) == Handle(cfg, old(View()), Call(time, request))
    {
      now := time;
      if !request.readable { return Refused(500); }
      if record.Some? { return Refused(409); }
      var allowed := LegacyTokenOk(cfg, request.header) || (cfg.token.None? && cfg.allowEnroll);
      if !allowed { return Refused(401); }
      var key := cfg.crypto.decodeKey(request.body);
      if key.None? { return Refused(400); }
      var verifier := cfg.crypto.hash(key.value, request.salt);
      if verifier.None? || !request.saved { return Refused(500); }
      record := verifier;
      r := Created;
    }

    method OnLogin(request: Request, time: int) returns (r: Response)
      requires request.Login?
      modifies this`now, store, limiter
      ensures (View(), r) == Handle(cfg, old(View()), Call(time, request))
    {
      now := time;
      var allowed := limiter.CheckAndRecord(request.ip, time);
      if !allowed { return Refused(429); }
      if !request.readable { return Refused(500); }
      if record.None? { return Refused(404); }
      var key := cfg.crypto.decodeKey(request.body);
      if key.None? { return Refused(400); }
      if !cfg.crypto.verify(key.value, record.value) { return Refused(401); }
      var bearer, _ := store.IssueBearer(request.bearer, time);
      r := Bearer(bearer);
    }
  }
}
