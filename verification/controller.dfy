/**
 * The login relay controller: the entry hop (`domain`), the per-domain hop
 * (`login`), the token (`hash`, `timeout`), the per-hop login state machine
 * (`doLogin`) and the planning of the next URL (`loginUrl`).
 *
 * The controller's collaborators are values: the configuration is a
 * `Settings`, and crc32, the HMAC, the site hash salt, the three alter hooks,
 * the user storage and the request time are the fields of a `Services`.
 * The only state the controller changes is the browser's session on the
 * current domain.
 */
module LoginController {
  import opened Php
  import opened DomainRing

  const OK := 200
  const Forbidden := 403
  const SeeOther := 303

  /** multi_domain_login.settings as read by the controller. */
  datatype Settings = Settings(
    timeout: int,
    domains: seq<string>,
    forceLogout: bool,
    enableExtraLogging: bool,
    redirectSuccess: string,
    redirectError: string)

  /** A user entity as far as the relay uses it. Its id is its key in the user storage. */
  datatype Account = Account(email: string, password: string, active: bool)

  /** The browser's session on the current domain. */
  datatype Session = Anonymous | Authenticated(uid: nat)

  datatype Request = Request(uri: string, schemeAndHost: string)

  /**
   * A generated absolute URL, already moved to the host of the domain it
   * targets (`base`). `path` None is the front page.
   */
  datatype Url =
    | SuccessUrl(base: string, path: Option<string>, langcode: string)
    | RelayUrl(base: string, referrer: int, uid: nat, timestamp: int, hash: string, langcode: string)

  /** A cache-max-age-0 trusted redirect. */
  datatype Response = Redirect(status: int, location: Url, maxAge: int)

  /** What `doLogin` decides: the HTTP status and the session afterwards. */
  datatype Outcome = Outcome(status: int, session: Session)

  /** Everything the controller consumes from outside the module. */
  datatype Services = Services(
    checksum: string -> int,
    hmac: (string, string) -> string,
    hashSalt: string,
    alterDomains: seq<string> -> seq<string>,
    alterDomain: (string, seq<string>) -> string,
    alterUrl: (Url, string) -> Url,
    users: map<nat, Account>,
    requestTime: int)

  /** Two domains of one installation: same user directory, same hash salt, same HMAC. */
  ghost predicate SharedIdentity(a: Services, b: Services) {
    a.hmac == b.hmac && a.hashSalt == b.hashSalt && a.users == b.users
  }

  /** `$currentUser->id()`: 0 for the anonymous user. */
  function CurrentUid(session: Session): nat {
    match session
    case Anonymous => 0
    case Authenticated(uid) => uid
  }

  /** `getDomains`: the configured list after the domains alter hook. */
  function Domains(s: Settings, env: Services): seq<string> {
    env.alterDomains(s.domains)
  }

  /** `getRequestDomain`: checksum of the resolved domain after the domain alter hook. */
  function RequestDomain(s: Settings, env: Services, request: Request): int {
    var domains := Domains(s, env);
    env.checksum(env.alterDomain(Resolve(domains, request.uri, request.schemeAndHost), domains))
  }

  /** The request's domain is in the ring, so the locate loop of `loginUrl` stops. */
  predicate RequestInRing(s: Settings, env: Services, request: Request) {
    InRing(Domains(s, env), env.checksum, RequestDomain(s, env, request))
  }

  // ---------------------------------------------------------------------
  // Token

  /** The HMAC message: timestamp, account id and e-mail concatenated as text. */
  function HashData(uid: nat, account: Account, timestamp: int): string {
    IntToString(timestamp) + IntToString(uid) + account.email
  }

  /** `hash`: HMAC of the message keyed by the site hash salt followed by the password hash. */
  function Hash(env: Services, uid: nat, account: Account, timestamp: int): string {
    env.hmac(HashData(uid, account, timestamp), env.hashSalt + account.password)
  }

  /** `timeout`: a link is expired once more than `timeout` seconds have passed. */
  predicate Expired(now: int, timestamp: int, timeout: int) {
    now - timestamp > timeout
  }

  /** A link is still valid at exactly `timeout` seconds and expired one second later. */
  lemma ExpiryBoundary(timestamp: int, timeout: int)
    ensures !Expired(timestamp + timeout, timestamp, timeout)
    ensures Expired(timestamp + timeout + 1, timestamp, timeout)
  {
  }

  /** The HMAC tells keys apart: different keys give different MACs of one message. */
  ghost predicate KeySensitive(hmac: (string, string) -> string) {
    forall data, k1, k2 :: hmac(data, k1) == hmac(data, k2) ==> k1 == k2
  }

  /** Changing an account's password changes the hash expected for every timestamp. */
  lemma {:induction false} PasswordChangeChangesHash(env: Services, uid: nat, before: Account, after: Account, timestamp: int)
    requires KeySensitive(env.hmac)
    requires before.email == after.email && before.password != after.password
    ensures Hash(env, uid, before, timestamp) != Hash(env, uid, after, timestamp)
  {
    var salt := env.hashSalt;
    assert (salt + before.password)[|salt|..] == before.password;
    assert (salt + after.password)[|salt|..] == after.password;
    assert HashData(uid, before, timestamp) == HashData(uid, after, timestamp);
  }

  /** The HMAC tells messages apart: different messages under one key give different MACs. */
  ghost predicate MessageSensitive(hmac: (string, string) -> string) {
    forall d1, d2, key :: hmac(d1, key) == hmac(d2, key) ==> d1 == d2
  }

  /**
   * The timestamp is part of the signed message: a link whose timestamp is
   * moved (to escape expiry) no longer carries the hash expected for it.
   */
  lemma {:induction false} TimestampBoundIntoHash(env: Services, uid: nat, account: Account, t1: int, t2: int)
    requires MessageSensitive(env.hmac)
    requires t1 != t2
    ensures Hash(env, uid, account, t1) != Hash(env, uid, account, t2)
  {
    HashDataBindsTimestamp(uid, account, t1, t2);
  }

  lemma HashDataBindsTimestamp(uid: nat, account: Account, t1: int, t2: int)
    requires t1 != t2
    ensures HashData(uid, account, t1) != HashData(uid, account, t2)
  {
    var a, b := IntToString(t1), IntToString(t2);
    var tail := IntToString(uid) + account.email;
    assert HashData(uid, account, t1) == a + tail && HashData(uid, account, t2) == b + tail;
    if a + tail == b + tail {
      assert a == (a + tail)[..|a|];
      assert b == (b + tail)[..|b|];
      IntToStringInjective(t1, t2);
    }
  }

  // ---------------------------------------------------------------------
  // Per-hop login

  /** The user storage returns an active account for `uid`. */
  predicate Usable(env: Services, uid: nat) {
    uid in env.users && env.users[uid].active
  }

  /** `doLogin` as a function of the session before the hop. */
  function LoginOutcome(s: Settings, env: Services, session: Session, uid: nat, timestamp: int, hash: string): (r: Outcome)
    ensures r.status == OK || r.status == Forbidden
    ensures r.status == OK <==>
              && !Expired(env.requestTime, timestamp, s.timeout)
              && Usable(env, uid)
              && ((session.Authenticated? && !s.forceLogout) || hash == Hash(env, uid, env.users[uid], timestamp))
    ensures r.session != session ==>
              && !Expired(env.requestTime, timestamp, s.timeout)
              && Usable(env, uid)
              && (session.Anonymous? || s.forceLogout)
    ensures r.session.Authenticated? && r.session != session ==>
              r.session.uid == uid && r.status == OK
    ensures r.status == OK && (session.Anonymous? || s.forceLogout) ==> r.session == Authenticated(uid)
    ensures (&& r.status == Forbidden && !Expired(env.requestTime, timestamp, s.timeout) && Usable(env, uid)
             && (session.Anonymous? || s.forceLogout)) ==> r.session == Anonymous
  {
    if Expired(env.requestTime, timestamp, s.timeout) then
      Outcome(Forbidden, session)
    else if !Usable(env, uid) then
      Outcome(Forbidden, session)
    else if session.Authenticated? && !s.forceLogout then
      Outcome(OK, session)
    else if hash == Hash(env, uid, env.users[uid], timestamp) then
      Outcome(OK, Authenticated(uid))
    else
      Outcome(Forbidden, Anonymous)
  }

  /** An expired link is refused without consulting the user storage or the session. */
  lemma ExpiredLinkIgnoresAccount(s: Settings, env: Services, users: map<nat, Account>, session: Session, uid: nat, timestamp: int, hash: string)
    requires Expired(env.requestTime, timestamp, s.timeout)
    ensures LoginOutcome(s, env, session, uid, timestamp, hash) == Outcome(Forbidden, session)
    ensures LoginOutcome(s, env.(users := users), session, uid, timestamp, hash) == Outcome(Forbidden, session)
  {
  }

  /** Re-entering with any hash while already logged in, without force_logout, keeps the session. */
  lemma IdempotentReentry(s: Settings, env: Services, session: Session, uid: nat, timestamp: int, hash: string)
    requires !s.forceLogout && session.Authenticated?
    requires !Expired(env.requestTime, timestamp, s.timeout) && Usable(env, uid)
    ensures LoginOutcome(s, env, session, uid, timestamp, hash) == Outcome(OK, session)
  {
  }

  /** With force_logout a wrong hash still ends the existing session. */
  lemma ForcedLogoutWithBadHash(s: Settings, env: Services, uid: nat, other: nat, timestamp: int, hash: string)
    requires s.forceLogout
    requires !Expired(env.requestTime, timestamp, s.timeout) && Usable(env, uid)
    requires hash != Hash(env, uid, env.users[uid], timestamp)
    ensures LoginOutcome(s, env, Authenticated(other), uid, timestamp, hash) == Outcome(Forbidden, Anonymous)
  {
  }

  /** A token issued for an unchanged, active account at T verifies at T on an anonymous session. */
  lemma IssuedHashVerifies(s: Settings, env: Services, uid: nat, timestamp: int)
    requires Usable(env, uid) && !Expired(env.requestTime, timestamp, s.timeout)
    ensures LoginOutcome(s, env, Anonymous, uid, timestamp, Hash(env, uid, env.users[uid], timestamp))
            == Outcome(OK, Authenticated(uid))
  {
  }

  /** Once the password changed, a token issued under the old password is refused. */
  lemma {:induction false} OldTokenRefusedAfterPasswordChange(s: Settings, env: Services, uid: nat, before: Account, timestamp: int)
    requires KeySensitive(env.hmac) && Usable(env, uid)
    requires before.email == env.users[uid].email && before.password != env.users[uid].password
    ensures LoginOutcome(s, env, Anonymous, uid, timestamp, Hash(env, uid, before, timestamp))
            == Outcome(Forbidden, Anonymous)
  {
    PasswordChangeChangesHash(env, uid, before, env.users[uid], timestamp);
  }

  // ---------------------------------------------------------------------
  // Hop planning

  /** The configured success destination; an empty value (PHP's `empty()`) means the front page. */
  function SuccessPath(s: Settings): Option<string> {
    if Falsy(s.redirectSuccess) then None else Some(s.redirectSuccess)
  }

  /** What `Url::fromUserInput` accepts: text starting with '/', '?' or '#'. */
  predicate UserInputPath(p: string) {
    p != [] && (p[0] == '/' || p[0] == '?' || p[0] == '#')
  }

  /** The success URL can be built: the front page, or a path `fromUserInput` accepts. */
  predicate SuccessPathAccepted(s: Settings) {
    match SuccessPath(s)
    case None => true
    case Some(p) => UserInputPath(p)
  }

  /** This hop ends the flow: the referrer check is on and the next domain is the referrer. */
  predicate EndsFlow(s: Settings, env: Services, current: int, referrer: int, skipReferrerCheck: bool)
    requires InRing(Domains(s, env), env.checksum, current)
  {
    !skipReferrerCheck && ClosesRing(Domains(s, env), env.checksum, current, referrer)
  }

  /**
   * `loginUrl` before the URL alter hook, for the domain with checksum
   * `current`. None is a PHP error: the `InvalidArgumentException` of
   * `fromUserInput` for a success destination it refuses, or the type error
   * raised when the relay branch hashes an account the user storage does not
   * return.
   */
  function PlannedUrl(s: Settings, env: Services, session: Session, current: int,
                      referrer: int, langcode: string, skipReferrerCheck: bool): (r: Option<Url>)
    requires InRing(Domains(s, env), env.checksum, current)
    ensures r.Some? ==> r.value.base == NextDomain(Domains(s, env), env.checksum, current)
    ensures EndsFlow(s, env, current, referrer, skipReferrerCheck) ==>
              && (r.Some? <==> SuccessPathAccepted(s))
              && (r.Some? ==> r.value.SuccessUrl? && r.value.path == SuccessPath(s) && r.value.langcode == langcode)
    ensures !EndsFlow(s, env, current, referrer, skipReferrerCheck) ==>
              && (r.Some? <==> CurrentUid(session) in env.users)
              && (r.Some? ==>
                    && r.value.RelayUrl?
                    && r.value.referrer == referrer
                    && r.value.langcode == langcode
                    && r.value.uid == CurrentUid(session)
                    && r.value.timestamp == env.requestTime
                    && r.value.uid in env.users
                    && r.value.hash == Hash(env, r.value.uid, env.users[r.value.uid], env.requestTime))
  {
    var domain := NextDomain(Domains(s, env), env.checksum, current);
    var uid := CurrentUid(session);
    if !skipReferrerCheck && env.checksum(domain) == referrer then
      if SuccessPathAccepted(s) then Some(SuccessUrl(domain, SuccessPath(s), langcode)) else None
    else if uid in env.users then
      Some(RelayUrl(domain, referrer, uid, env.requestTime, Hash(env, uid, env.users[uid], env.requestTime), langcode))
    else
      None
  }

  /**
   * The flow's last hop goes to the front page when no success destination
   * is configured, to the configured path when `fromUserInput` accepts it,
   * and fails on anything else (an absolute URL, say).
   */
  lemma SuccessDestination(s: Settings, env: Services, session: Session, current: int, referrer: int, langcode: string)
    requires InRing(Domains(s, env), env.checksum, current)
    requires EndsFlow(s, env, current, referrer, false)
    ensures var next := NextDomain(Domains(s, env), env.checksum, current);
            var url := PlannedUrl(s, env, session, current, referrer, langcode, false);
            && (Falsy(s.redirectSuccess) ==> url == Some(SuccessUrl(next, None, langcode)))
            && (!Falsy(s.redirectSuccess) && UserInputPath(s.redirectSuccess) ==>
                  url == Some(SuccessUrl(next, Some(s.redirectSuccess), langcode)))
            && (!Falsy(s.redirectSuccess) && !UserInputPath(s.redirectSuccess) ==> url.None?)
  {
  }

  /** The URL alter hook, applied with the target domain. */
  function Altered(env: Services, planned: Option<Url>): Option<Url> {
    match planned
    case None => None
    case Some(url) => Some(env.alterUrl(url, url.base))
  }

  /** The entry hop never ends the flow: it relays, carrying the origin's checksum. */
  lemma EntryHopRelays(s: Settings, env: Services, session: Session, current: int, langcode: string)
    requires InRing(Domains(s, env), env.checksum, current)
    requires CurrentUid(session) in env.users
    ensures PlannedUrl(s, env, session, current, current, langcode, true).Some?
    ensures PlannedUrl(s, env, session, current, current, langcode, true).value.RelayUrl?
    ensures PlannedUrl(s, env, session, current, current, langcode, true).value.referrer == current
  {
  }

  /**
   * A relay URL planned on one domain gives status 200 on the next domain of
   * the same installation, as long as the link has not expired there and the
   * account is still active: the account is logged in there, or a session
   * that exists there already is kept (without force_logout).
   */
  lemma {:induction false} RelayLogsInOnNextHop(s: Settings, env: Services, session: Session, current: int,
                                                referrer: int, langcode: string, skip: bool,
                                                next: Settings, nextEnv: Services, nextSession: Session)
    requires InRing(Domains(s, env), env.checksum, current)
    requires PlannedUrl(s, env, session, current, referrer, langcode, skip).Some?
    requires PlannedUrl(s, env, session, current, referrer, langcode, skip).value.RelayUrl?
    requires SharedIdentity(env, nextEnv)
    requires Usable(nextEnv, CurrentUid(session))
    requires !Expired(nextEnv.requestTime, env.requestTime, next.timeout)
    ensures var url := PlannedUrl(s, env, session, current, referrer, langcode, skip).value;
            LoginOutcome(next, nextEnv, nextSession, url.uid, url.timestamp, url.hash).status == OK
  {
  }

  /** The domain alter hook leaves every resolved domain as it is. */
  ghost predicate DomainHookIsIdentity(env: Services) {
    forall domain, domains :: env.alterDomain(domain, domains) == domain
  }

  /** On a prefix-free list, a request on a configured entry is on that entry's domain. */
  lemma RequestOnEntry(s: Settings, env: Services, k: nat, path: string, schemeAndHost: string)
    requires PrefixFree(Domains(s, env)) && DomainHookIsIdentity(env) && k < |Domains(s, env)|
    ensures RequestDomain(s, env, Request(Domains(s, env)[k] + path, schemeAndHost)) == env.checksum(Domains(s, env)[k])
  {
    ResolveOwnEntry(Domains(s, env), k, path, schemeAndHost);
  }

  /**
   * The request of hop `j` of a flow entered with `entry`: the entry request
   * at hop 0, then `path` on the domain the previous hop's URL targets (the
   * next domain, by `PlannedUrl`). Its domain is the `j`-th step of the walk.
   */
  ghost function HopRequest(s: Settings, env: Services, entry: Request, path: string, j: nat): (r: Request)
    requires PrefixFree(Domains(s, env)) && DomainHookIsIdentity(env)
    requires RequestInRing(s, env, entry)
    ensures RequestInRing(s, env, r)
    ensures RequestDomain(s, env, r) == Walk(Domains(s, env), env.checksum, RequestDomain(s, env, entry), j)
    decreases j
  {
    if j == 0 then entry
    else
      var domains := Domains(s, env);
      var previous := HopRequest(s, env, entry, path, j - 1);
      var target := NextDomain(domains, env.checksum, RequestDomain(s, env, previous));
      var k :| 0 <= k < |domains| && domains[k] == target;
      RequestOnEntry(s, env, k, path, target);
      Request(target + path, target)
  }

  /**
   * The flow on a well-formed, prefix-free ring: at hop `j` the request is
   * on the `j`-th domain after the entry domain, which stays the referrer.
   * Every hop before the last of the full circle relays; the last one goes
   * to the success URL, or fails when that destination is refused.
   */
  lemma {:induction false} FlowEndsAfterFullCircle(s: Settings, env: Services, session: Session, entry: Request,
                                                   path: string, j: nat, langcode: string)
    requires WellFormed(Domains(s, env), env.checksum) && PrefixFree(Domains(s, env)) && DomainHookIsIdentity(env)
    requires RequestInRing(s, env, entry)
    requires 1 <= j < |Domains(s, env)|
    requires CurrentUid(session) in env.users
    ensures var origin := RequestDomain(s, env, entry);
            var here := RequestDomain(s, env, HopRequest(s, env, entry, path, j));
            var url := PlannedUrl(s, env, session, here, origin, langcode, false);
            && (j < |Domains(s, env)| - 1 ==> url.Some? && url.value.RelayUrl?)
            && (j == |Domains(s, env)| - 1 ==>
                  (url.Some? <==> SuccessPathAccepted(s)) && (url.Some? ==> url.value.SuccessUrl?))
  {
    var domains := Domains(s, env);
    var o := Locate(domains, env.checksum, RequestDomain(s, env, entry));
    RingClosesAfterFullCircle(domains, env.checksum, o, j);
  }

  // ---------------------------------------------------------------------
  // The controller

  class MultiDomainLoginController {
    const settings: Settings
    const services: Services
    /** The browser's session on this domain (`currentUser`). */
    var session: Session

    constructor (settings: Settings, services: Services, session: Session)
      ensures this.settings == settings && this.services == services && this.session == session
    {
      this.settings := settings;
      this.services := services;
      this.session := session;
    }

    /** `user_logout()`. */
    method UserLogout()
      modifies this
      ensures session == Anonymous
    {
      session := Anonymous;
    }

    /** `user_login_finalize($user)`. */
    method UserLoginFinalize(uid: nat)
      modifies this
      ensures session == Authenticated(uid)
    {
      session := Authenticated(uid);
    }

    /** `getRequestDomain`: the first configured domain the URI starts with, else the request's host. */
    method GetRequestDomain(request: Request) returns (current: int)
      ensures current == RequestDomain(settings, services, request)
    {
      var domain := request.schemeAndHost;
      var domains := Domains(settings, services);
      var i := 0;
      while i < |domains|
        invariant 0 <= i <= |domains|
        invariant domain == request.schemeAndHost
        invariant forall j :: 0 <= j < i ==> !StartsWith(request.uri, domains[j])
      {
        if StartsWith(request.uri, domains[i]) {
          domain := domains[i];
          break;
        }
        i := i + 1;
      }
      current := services.checksum(services.alterDomain(domain, domains));
    }

    /** `loginUrl`: the relay URL for the next domain, or the success URL once the ring is closed. */
    method LoginUrl(request: Request, referrer: int, langcode: string, skipReferrerCheck: bool) returns (url: Option<Url>)
      requires RequestInRing(settings, services, request)
      ensures url == Altered(services, PlannedUrl(settings, services, session, RequestDomain(settings, services, request),
                                                  referrer, langcode, skipReferrerCheck))
    {
      var current := GetRequestDomain(request);
      var timestamp := services.requestTime;
      var uid := CurrentUid(session);
      var domains := Domains(settings, services);

      // Look for the current domain.
      var k := 0;
      while services.checksum(domains[k]) != current
        invariant k <= Locate(domains, services.checksum, current)
        decreases |domains| - k
      {
        k := k + 1;
      }
      // Take the next entry, or go back to the first.
      var domain := if k + 1 < |domains| && !Falsy(domains[k + 1]) then domains[k + 1] else domains[0];

      var planned: Url;
      if !skipReferrerCheck && services.checksum(domain) == referrer {
        var path := SuccessPath(settings);
        if path.Some? && !UserInputPath(path.value) {
          // `fromUserInput` throws.
          return None;
        }
        planned := SuccessUrl(domain, path, langcode);
      } else if uid in services.users {
        var hash := Hash(services, uid, services.users[uid], timestamp);
        planned := RelayUrl(domain, referrer, uid, timestamp, hash, langcode);
      } else {
        return None;
      }
      url := Some(services.alterUrl(planned, domain));
    }

    /** `doLogin`: expiry, then the account, then the existing session, then the hash. */
    method DoLogin(uid: nat, timestamp: int, hash: string) returns (status: int)
      modifies this
      ensures Outcome(status, session) == LoginOutcome(settings, services, old(session), uid, timestamp, hash)
    {
      if Expired(services.requestTime, timestamp, settings.timeout) {
        status := Forbidden;
      } else if uid !in services.users || !services.users[uid].active {
        status := Forbidden;
      } else {
        var user := services.users[uid];
        if session.Authenticated? && !settings.forceLogout {
          status := OK;
        } else if session.Authenticated? && settings.forceLogout {
          UserLogout();
        }
        if session.Anonymous? {
          if hash == Hash(services, uid, user, timestamp) {
            UserLoginFinalize(uid);
            status := OK;
          } else {
            status := Forbidden;
          }
        }
      }
    }

    /** `domain`: the entry hop, relaying to the next domain with this domain as referrer. */
    method Domain(request: Request, langcode: string) returns (response: Option<Response>)
      requires RequestInRing(settings, services, request)
      ensures var current := RequestDomain(settings, services, request);
              match Altered(services, PlannedUrl(settings, services, session, current, current, langcode, true))
              case None => response.None?
              case Some(url) => response == Some(Redirect(SeeOther, url, 0))
    {
      var referrer := GetRequestDomain(request);
      var url := LoginUrl(request, referrer, langcode, true);
      response := if url.Some? then Some(Redirect(SeeOther, url.value, 0)) else None;
    }

    /**
     * `login`: log in on this domain, then plan the next URL from the
     * resulting session, whatever status the login produced.
     */
    method Login(referrer: int, uid: nat, timestamp: int, hash: string, langcode: string, request: Request)
      returns (response: Option<Response>)
      requires RequestInRing(settings, services, request)
      modifies this
      ensures session == LoginOutcome(settings, services, old(session), uid, timestamp, hash).session
      ensures match Altered(services, PlannedUrl(settings, services, session, RequestDomain(settings, services, request),
                                                 referrer, langcode, false))
              case None => response.None?
              case Some(url) => response == Some(Redirect(SeeOther, url, 0))
    {
      var _ := DoLogin(uid, timestamp, hash);
      var url := LoginUrl(request, referrer, langcode, false);
      response := if url.Some? then Some(Redirect(SeeOther, url.value, 0)) else None;
    }
  }
}
