/** The forward-auth decision: `VerifyAccess` and everything under it in acl_service.go.

    The code runs four phases of nested early-return loops. They are proved equal to a
    closed form (`Allowed`, `Refused` and the identity that goes with them), from which
    independence of the order of the groups and monotonicity follow.

    Parsing of addresses and networks, containment, password hashes, sessions and the
    repositories are parameters, so the results hold for every choice of them.
 */
module Acl {
  import opened Wrappers
  import opened PathMatch

  type IP(!new)
  type Net(!new)

  datatype User = User(id: int, username: string, email: string)

  datatype Session = Session(expiresAt: int, email: Option<string>, provider: Option<string>, user: Option<User>)

  datatype Rule = Rule(kind: string, cidr: string)

  datatype BasicUser = BasicUser(username: string, hash: string)

  datatype WaygatesAuth = WaygatesAuth(enabled: bool, allowedUsers: seq<string>, allowedRoles: seq<string>,
                                       allowedEmailPatterns: seq<string>, allowedProviders: seq<string>,
                                       allowedEmails: seq<string>, allowedDomains: seq<string>)

  datatype Restriction = Restriction(provider: string, allowedEmails: seq<string>, allowedDomains: seq<string>,
      enabled: bool)

  datatype Group = Group(mode: string, rules: seq<Rule>, basicUsers: seq<BasicUser>,
                         waygates: Option<WaygatesAuth>, restrictions: seq<Restriction>)

  datatype Assignment = Assignment(pathPattern: string, enabled: bool, group: Option<Group>)

  datatype Credentials = Credentials(username: string, password: string)

  datatype Request = Request(host: string, path: string, remoteIP: string, sessionToken: string,
      basic: Option<Credentials>)

  datatype Lookup = Found(id: int) | Missing | Failed

  /** The outside world at one moment. A session lookup that fails is None. */
  datatype Env = Env(parseIP: string -> Option<IP>, splitHostPort: string -> Option<string>,
                     parseCIDR: string -> Option<Net>, hostNet: IP -> Net, contains: (Net, IP) -> bool,
                     checkPassword: (string, string) -> bool, sessions: string -> Option<Session>, now: int,
                     proxies: string -> Lookup, assignments: int -> Option<seq<Assignment>>)

  // ------------------------------------------------------------ text

  function Lower(c: char): char {
    if 'A' <= c <= 'Z' then c + 32 as char else c
  }

  function ToLower(s: string): string {
    seq(|s|, i requires 0 <= i < |s| => Lower(s[i]))
  }

  predicate EqualFold(a: string, b: string) { ToLower(a) == ToLower(b) }

  /** `matchEmailPattern`. */
  predicate EmailMatches(email: string, pattern: string) {
    if pattern == "*" then true
    else if "*@" <= pattern then HasSuffix(email, "@" + pattern[2..])
    else email == pattern
  }

  function AtDomain(domain: string): string {
    if "@" <= domain then domain else "@" + domain
  }

  // ------------------------------------------------------------ addresses

  function ParseRemote(env: Env, remote: string): Option<IP> {
    match env.parseIP(remote)
    case Some(ip) => Some(ip)
    case None =>
      match env.splitHostPort(remote)
      case Some(host) => env.parseIP(host)
      case None => None
  }

  /** The rule's text as a network. */
  predicate CoversNetwork(env: Env, rule: Rule, ip: IP) {
    env.parseCIDR(rule.cidr).Some? && env.contains(env.parseCIDR(rule.cidr).value, ip)
  }

  /** The rule's text as a network, or failing that as a single address. */
  predicate Covers(env: Env, rule: Rule, ip: IP) {
    if env.parseCIDR(rule.cidr).Some? then CoversNetwork(env, rule, ip)
    else env.parseIP(rule.cidr).Some? && env.contains(env.hostNet(env.parseIP(rule.cidr).value), ip)
  }

  ghost predicate Denies(env: Env, g: Group, ip: IP) {
    exists r :: r in g.rules && r.kind == "deny" && Covers(env, r, ip)
  }

  ghost predicate Bypasses(env: Env, g: Group, ip: IP) {
    g.mode == "ip_bypass" && exists r :: r in g.rules && (r.kind == "bypass" || r.kind == "allow") && Covers(env, r, ip)
  }

  datatype RuleResult = NoMatch | Allow | Deny | Bypass

  ghost predicate DeniesNetwork(env: Env, rules: seq<Rule>, ip: IP) {
    exists r :: r in rules && r.kind == "deny" && CoversNetwork(env, r, ip)
  }

  ghost predicate AllowsNetwork(env: Env, rules: seq<Rule>, ip: IP) {
    exists r :: r in rules && (r.kind == "allow" || r.kind == "bypass") && CoversNetwork(env, r, ip)
  }

  /** `evaluateIPRules`: deny first, then the first covering allow or bypass. */
  method EvaluateIPRules(env: Env, rules: seq<Rule>, remote: string) returns (r: RuleResult)
    ensures r == Deny <==> ParseRemote(env, remote).Some? && DeniesNetwork(env, rules, ParseRemote(env, remote).value)
    ensures r == Allow || r == Bypass <==>
              && ParseRemote(env, remote).Some?
              && !DeniesNetwork(env, rules, ParseRemote(env, remote).value)
              && AllowsNetwork(env, rules, ParseRemote(env, remote).value)
  {
    if rules == [] {
      return NoMatch;
    }
    var parsed := ParseRemote(env, remote);
    if parsed.None? {
      return NoMatch;
    }
    var ip := parsed.value;
    for i := 0 to |rules|
      invariant forall k :: 0 <= k < i && rules[k].kind == "deny" ==> !CoversNetwork(env, rules[k], ip)
    {
      if rules[i].kind == "deny" && CoversNetwork(env, rules[i], ip) {
        return Deny;
      }
    }
    for i := 0 to |rules|
      invariant forall k :: 0 <= k < i && CoversNetwork(env, rules[k], ip) ==> rules[k].kind !in {"allow", "bypass"}
    {
      if CoversNetwork(env, rules[i], ip) {
        if rules[i].kind == "allow" {
          return Allow;
        } else if rules[i].kind == "bypass" {
          return Bypass;
        }
      }
    }
    return NoMatch;
  }

  /** `checkIPDenyAcrossGroups`: an address that does not parse counts as denied. */
  method CheckIPDeny(env: Env, groups: seq<Group>, remote: string) returns (denied: bool)
    ensures denied <==> ParseRemote(env, remote).None?
                        || exists g :: g in groups && Denies(env, g, ParseRemote(env, remote).value)
  {
    var parsed := ParseRemote(env, remote);
    if parsed.None? {
      return true;
    }
    var ip := parsed.value;
    for i := 0 to |groups|
      invariant forall k :: 0 <= k < i ==> !Denies(env, groups[k], ip)
    {
      var rules := groups[i].rules;
      for j := 0 to |rules|
        invariant forall k :: 0 <= k < j ==> !(rules[k].kind == "deny" && Covers(env, rules[k], ip))
      {
        if rules[j].kind == "deny" && Covers(env, rules[j], ip) {
          assert Denies(env, groups[i], ip);
          return true;
        }
      }
    }
    return false;
  }

  /** `checkIPBypassAcrossGroups`. */
  method CheckIPBypass(env: Env, groups: seq<Group>, remote: string) returns (bypass: bool)
    ensures bypass <==> ParseRemote(env, remote).Some?
                        && exists g :: g in groups && Bypasses(env, g, ParseRemote(env, remote).value)
  {
    var parsed := ParseRemote(env, remote);
    if parsed.None? {
      return false;
    }
    var ip := parsed.value;
    for i := 0 to |groups|
      invariant forall k :: 0 <= k < i ==> !Bypasses(env, groups[k], ip)
    {
      if groups[i].mode != "ip_bypass" {
        continue;
      }
      var rules := groups[i].rules;
      for j := 0 to |rules|
        invariant forall k :: 0 <= k < j && Covers(env, rules[k], ip) ==> rules[k].kind !in {"bypass", "allow"}
      {
        if (rules[j].kind == "bypass" || rules[j].kind == "allow") && Covers(env, rules[j], ip) {
          assert Bypasses(env, groups[i], ip);
          return true;
        }
      }
    }
    return false;
  }

  // ------------------------------------------------------------ allow lists

  ghost predicate UserAllowed(user: User, auth: WaygatesAuth) {
    || (auth.allowedUsers == [] && auth.allowedRoles == [] && auth.allowedEmailPatterns == [])
    || user.username in auth.allowedUsers || user.email in auth.allowedUsers
    || exists p :: p in auth.allowedEmailPatterns && EmailMatches(user.email, p)
  }

  /** `isUserAllowedByWaygatesAuth`; roles are not consulted. */
  method IsUserAllowed(user: User, auth: WaygatesAuth) returns (ok: bool)
    ensures ok <==> UserAllowed(user, auth)
  {
    if |auth.allowedUsers| == 0 && |auth.allowedRoles| == 0 && |auth.allowedEmailPatterns| == 0 {
      return true;
    }
    for i := 0 to |auth.allowedUsers|
      invariant forall k :: 0 <= k < i ==> user.username != auth.allowedUsers[k] && user.email != auth.allowedUsers[k]
    {
      if user.username == auth.allowedUsers[i] || user.email == auth.allowedUsers[i] {
        return true;
      }
    }
    for i := 0 to |auth.allowedEmailPatterns|
      invariant forall k :: 0 <= k < i ==> !EmailMatches(user.email, auth.allowedEmailPatterns[k])
    {
      if EmailMatches(user.email, auth.allowedEmailPatterns[i]) {
        return true;
      }
    }
    return false;
  }

  ghost predicate EmailAllowed(email: string, emails: seq<string>, domains: seq<string>) {
    || (emails == [] && domains == [])
    || (exists e :: e in emails && EqualFold(email, e))
    || (exists d :: d in domains && HasSuffix(ToLower(email), ToLower(AtDomain(d))))
  }

  /** `checkEmailAgainstRestrictions`. */
  method CheckEmail(email: string, emails: seq<string>, domains: seq<string>) returns (ok: bool)
    ensures ok <==> EmailAllowed(email, emails, domains)
  {
    if |emails| == 0 && |domains| == 0 {
      return true;
    }
    for i := 0 to |emails|
      invariant forall k :: 0 <= k < i ==> !EqualFold(email, emails[k])
    {
      if EqualFold(email, emails[i]) {
        return true;
      }
    }
    for i := 0 to |domains|
      invariant forall k :: 0 <= k < i ==> !HasSuffix(ToLower(email), ToLower(AtDomain(domains[k])))
    {
      if HasSuffix(ToLower(email), ToLower(AtDomain(domains[i]))) {
        return true;
      }
    }
    return false;
  }

  /** The restriction for this provider: the first whose name matches. */
  function OwnRestriction(restrictions: seq<Restriction>, provider: string): Option<Restriction> {
    if restrictions == [] then None
    else if EqualFold(restrictions[0].provider, provider) then Some(restrictions[0])
    else OwnRestriction(restrictions[1..], provider)
  }

  /** An enabled restriction for the provider replaces the group's own email lists. */
  ghost predicate OAuthAllowed(email: string, provider: string, auth: WaygatesAuth, restrictions: seq<Restriction>) {
    && (auth.allowedProviders == [] || exists p :: p in auth.allowedProviders && EqualFold(provider, p))
    && var own := OwnRestriction(restrictions, provider);
    if own.Some? && own.value.enabled
    then EmailAllowed(email, own.value.allowedEmails, own.value.allowedDomains)
    else EmailAllowed(email, auth.allowedEmails, auth.allowedDomains)
  }

  /** `isOAuthUserAllowed`. */
  method IsOAuthUserAllowed(email: string, provider: string, auth: WaygatesAuth, restrictions: seq<Restriction>)
      returns (ok: bool)
    ensures ok <==> OAuthAllowed(email, provider, auth, restrictions)
  {
    if |auth.allowedProviders| > 0 {
      var providerAllowed := false;
      for i := 0 to |auth.allowedProviders|
        invariant providerAllowed ==> exists p :: p in auth.allowedProviders && EqualFold(provider, p)
        invariant !providerAllowed ==> forall k :: 0 <= k < i ==> !EqualFold(provider, auth.allowedProviders[k])
      {
        if EqualFold(provider, auth.allowedProviders[i]) {
          providerAllowed := true;
          break;
        }
      }
      if !providerAllowed {
        return false;
      }
    }
    var own := None;
    for i := 0 to |restrictions|
      invariant own.None? && OwnRestriction(restrictions, provider) == OwnRestriction(restrictions[i..], provider)
    {
      assert restrictions[i..][1..] == restrictions[i + 1..];
      if EqualFold(restrictions[i].provider, provider) {
        own := Some(restrictions[i]);
        break;
      }
    }
    if own.Some? && own.value.enabled {
      ok := CheckEmail(email, own.value.allowedEmails, own.value.allowedDomains);
    } else {
      ok := CheckEmail(email, auth.allowedEmails, auth.allowedDomains);
    }
  }

  // ------------------------------------------------------------ one group

  datatype Identity = Identity(user: Option<User>, oauthEmail: string, oauthProvider: string)

  const NOBODY := Identity(None, "", "")

  datatype GroupResult = GroupResult(allowed: bool, unauthorized: bool, identity: Identity)

  /** The unexpired session the request presents, if the group looks at sessions at all. */
  function LiveSession(env: Env, g: Group, req: Request): Option<Session> {
    if req.sessionToken != "" && g.waygates.Some? then
      match env.sessions(req.sessionToken)
      case Some(s) => if env.now > s.expiresAt then None else Some(s)
      case None => None
    else None
  }

  predicate IsOAuth(s: Session) { s.email.Some? && s.provider.Some? }

  /** The session is of a kind that the group judges. */
  ghost predicate Judged(g: Group, s: Session) {
    g.waygates.Some? && (IsOAuth(s) || (s.user.Some? && g.waygates.value.enabled))
  }

  ghost predicate SessionPasses(env: Env, g: Group, req: Request) {
    var live := LiveSession(env, g, req);
    && live.Some? && Judged(g, live.value)
    && if IsOAuth(live.value)
       then OAuthAllowed(live.value.email.value, live.value.provider.value, g.waygates.value, g.restrictions)
       else UserAllowed(live.value.user.value, g.waygates.value)
  }

  ghost predicate SessionRefused(env: Env, g: Group, req: Request) {
    var live := LiveSession(env, g, req);
    live.Some? && Judged(g, live.value) && !SessionPasses(env, g, req)
  }

  predicate HasSecureAuth(g: Group) {
    (g.waygates.Some? && g.waygates.value.enabled) || g.restrictions != []
  }

  /** The request carries the name and password of one of the group's basic users. */
  ghost predicate BasicMatches(env: Env, g: Group, req: Request) {
    && req.basic.Some?
    && exists u :: u in g.basicUsers && u.username == req.basic.value.username
                   && env.checkPassword(u.hash, req.basic.value.password)
  }

  /** Basic credentials count only in a group without secure methods. */
  ghost predicate BasicPasses(env: Env, g: Group, req: Request) {
    !HasSecureAuth(g) && BasicMatches(env, g, req)
  }

  ghost predicate CredentialsPass(env: Env, g: Group, req: Request) {
    SessionPasses(env, g, req) || BasicPasses(env, g, req)
  }

  predicate NeedsAuth(g: Group) { HasSecureAuth(g) || g.basicUsers != [] }

  predicate KnownMode(g: Group) { g.mode == "any" || g.mode == "all" || g.mode == "ip_bypass" }

  /** The address alone satisfies a group in mode `any`. */
  ghost predicate AddressGrants(env: Env, g: Group, req: Request) {
    var parsed := ParseRemote(env, req.remoteIP);
    && g.mode == "any" && parsed.Some?
    && !DeniesNetwork(env, g.rules, parsed.value) && AllowsNetwork(env, g.rules, parsed.value)
  }

  /** What evaluateGroupAuth asks on its own, deny rules included. */
  ghost predicate GroupGrants(env: Env, g: Group, req: Request) {
    var parsed := ParseRemote(env, req.remoteIP);
    || AddressGrants(env, g, req)
    || (g.mode == "all" && !NeedsAuth(g) && !(parsed.Some? && DeniesNetwork(env, g.rules, parsed.value)))
    || (KnownMode(g) && CredentialsPass(env, g, req))
  }

  /** The group lets the request in, given that no group denies its address. */
  ghost predicate GroupPasses(env: Env, g: Group, req: Request, ip: IP) {
    || (g.mode == "any" && AllowsNetwork(env, g.rules, ip))
    || (g.mode == "all" && !NeedsAuth(g))
    || (KnownMode(g) && CredentialsPass(env, g, req))
  }

  /** Who the session says is asking. */
  function SessionIdentity(env: Env, g: Group, req: Request): Identity {
    match LiveSession(env, g, req)
    case None => NOBODY
    case Some(s) =>
      if IsOAuth(s) then Identity(s.user, s.email.value, s.provider.value)
      else if s.user.Some? && g.waygates.Some? && g.waygates.value.enabled then Identity(s.user, "", "")
      else NOBODY
  }

  /** An address allowed by an `any` group is let in before any session is read. */
  ghost function GrantedIdentity(env: Env, g: Group, req: Request): Identity {
    if AddressGrants(env, g, req) then NOBODY else SessionIdentity(env, g, req)
  }

  /** The part of evaluateGroupAuth that looks at the session. */
  method EvaluateSession(env: Env, g: Group, req: Request) returns (authResults: seq<bool>, r: GroupResult)
    ensures authResults == if SessionPasses(env, g, req) then [true] else []
    ensures r.identity == SessionIdentity(env, g, req)
    ensures !r.allowed && (r.unauthorized <==> SessionRefused(env, g, req))
  {
    authResults, r := [], GroupResult(false, false, NOBODY);
    if req.sessionToken != "" && g.waygates.Some? {
      var found := env.sessions(req.sessionToken);
      if found.Some? && !(env.now > found.value.expiresAt) {
        var s := found.value;
        if s.email.Some? && s.provider.Some? {
          r := r.(identity := Identity(None, s.email.value, s.provider.value));
          if s.user.Some? {
            r := r.(identity := r.identity.(user := s.user));
          }
          var ok := IsOAuthUserAllowed(s.email.value, s.provider.value, g.waygates.value, g.restrictions);
          if ok {
            authResults := authResults + [true];
          } else {
            r := r.(unauthorized := true);
          }
        } else if s.user.Some? && g.waygates.value.enabled {
          r := r.(identity := r.identity.(user := s.user));
          var ok := IsUserAllowed(s.user.value, g.waygates.value);
          if ok {
            authResults := authResults + [true];
          } else {
            r := r.(unauthorized := true);
          }
        }
      }
    }
  }

  /** `evaluateGroupAuth`. `authResults` only ever holds true, so the loops over it in the three
      modes all ask whether some method passed. */
  method EvaluateGroupAuth(env: Env, g: Group, req: Request) returns (r: GroupResult)
    ensures r.allowed <==> GroupGrants(env, g, req)
    ensures r.identity == GrantedIdentity(env, g, req)
    ensures r.unauthorized <==> !AddressGrants(env, g, req) && SessionRefused(env, g, req)
  {
    r := GroupResult(false, false, NOBODY);
    if g.mode == "any" {
      var ipResult := EvaluateIPRules(env, g.rules, req.remoteIP);
      if ipResult == Allow || ipResult == Bypass {
        return r.(allowed := true);
      }
    }
    var authResults: seq<bool>;
    authResults, r := EvaluateSession(env, g, req);
    if req.basic.Some? && |g.basicUsers| > 0 && !HasSecureAuth(g) {
      ghost var before := authResults;
      for i := 0 to |g.basicUsers|
        invariant authResults == before
        invariant forall k :: 0 <= k < i ==> !(g.basicUsers[k].username == req.basic.value.username
                                               && env.checkPassword(g.basicUsers[k].hash, req.basic.value.password))
      {
        if g.basicUsers[i].username == req.basic.value.username {
          if env.checkPassword(g.basicUsers[i].hash, req.basic.value.password) {
            authResults := authResults + [true];
            break;
          }
        }
      }
    }
    assert forall b :: b in authResults ==> b;
    assert authResults != [] <==> CredentialsPass(env, g, req);
    if g.mode == "any" || g.mode == "ip_bypass" {
      var passed := AnyTrue(authResults);
      r := r.(allowed := passed);
    } else if g.mode == "all" {
      var hasAuthRequirements :=
        || (g.waygates.Some? && g.waygates.value.enabled) || |g.restrictions| > 0
        || (|g.basicUsers| > 0 && !HasSecureAuth(g));
      if !hasAuthRequirements {
        var ipResult := EvaluateIPRules(env, g.rules, req.remoteIP);
        if ipResult != Deny {
          return r.(allowed := true);
        }
      }
      if |authResults| > 0 {
        var failed := AnyFalse(authResults);
        r := r.(allowed := !failed);
      }
    }
  }

  method AnyTrue(results: seq<bool>) returns (any: bool)
    ensures any <==> true in results
  {
    for i := 0 to |results|
      invariant true !in results[..i]
    {
      if results[i] {
        return true;
      }
    }
    return false;
  }

  method AnyFalse(results: seq<bool>) returns (any: bool)
    ensures any <==> false in results
  {
    for i := 0 to |results|
      invariant false !in results[..i]
    {
      if !results[i] {
        return true;
      }
    }
    return false;
  }

  /** evaluateIPRules cannot answer deny once phase 1 has let the address through, which leaves
      the group's decision without deny rules. */
  lemma AfterPhaseOne(env: Env, g: Group, req: Request)
    requires ParseRemote(env, req.remoteIP).Some? && !Denies(env, g, ParseRemote(env, req.remoteIP).value)
    ensures !DeniesNetwork(env, g.rules, ParseRemote(env, req.remoteIP).value)
    ensures GroupGrants(env, g, req) <==> GroupPasses(env, g, req, ParseRemote(env, req.remoteIP).value)
  {
    assert forall r, ip :: CoversNetwork(env, r, ip) ==> Covers(env, r, ip);
  }

  // ------------------------------------------------------------ all groups

  datatype Response = Response(allowed: bool, requiresAuth: bool, unauthorized: bool, identity: Identity)

  ghost predicate AddressAdmitted(env: Env, groups: seq<Group>, req: Request) {
    && ParseRemote(env, req.remoteIP).Some?
    && forall g :: g in groups ==> !Denies(env, g, ParseRemote(env, req.remoteIP).value)
  }

  /** The closed form of the union decision for a non-empty selection. */
  ghost predicate Allowed(env: Env, groups: seq<Group>, req: Request) {
    && AddressAdmitted(env, groups, req)
    && var ip := ParseRemote(env, req.remoteIP).value;
    exists g :: g in groups && (Bypasses(env, g, ip) || GroupPasses(env, g, req, ip))
  }

  /** Some group knows the session but turns it away. */
  ghost predicate Refused(env: Env, groups: seq<Group>, req: Request) {
    exists g :: g in groups && SessionRefused(env, g, req)
  }

  /** The three flags of the answer for a non-empty selection. */
  ghost predicate Decides(env: Env, groups: seq<Group>, req: Request, r: Response) {
    && (r.allowed <==> Allowed(env, groups, req))
    && (r.requiresAuth <==> AddressAdmitted(env, groups, req) && !r.allowed && !Refused(env, groups, req))
    && (r.unauthorized <==> AddressAdmitted(env, groups, req) && !r.allowed && Refused(env, groups, req))
  }

  /** The identity is that of the first group that passes, or of the last that refuses. */
  ghost predicate Identifies(env: Env, groups: seq<Group>, req: Request, r: Response) {
    if !AddressAdmitted(env, groups, req) then r.identity == NOBODY
    else
      var ip := ParseRemote(env, req.remoteIP).value;
      if exists g :: g in groups && Bypasses(env, g, ip) then r.identity == NOBODY
      else if r.allowed then
        exists i :: 0 <= i < |groups| && GroupPasses(env, groups[i], req, ip)
                    && (forall k :: 0 <= k < i ==> !GroupPasses(env, groups[k], req, ip))
                    && r.identity == GrantedIdentity(env, groups[i], req)
      else if r.unauthorized then
        exists i :: 0 <= i < |groups| && SessionRefused(env, groups[i], req)
                    && (forall k :: i < k < |groups| ==> !SessionRefused(env, groups[k], req))
                    && r.identity == SessionIdentity(env, groups[i], req)
      else r.identity == NOBODY
  }

  /** `evaluateUnionAccess`. */
  method EvaluateUnionAccess(env: Env, groups: seq<Group>, req: Request) returns (r: Response)
    ensures Decides(env, groups, req, r)
    ensures Identifies(env, groups, req, r)
  {
    r := Response(false, false, false, NOBODY);
    var denied := CheckIPDeny(env, groups, req.remoteIP);
    if denied {
      return;
    }
    var bypass := CheckIPBypass(env, groups, req.remoteIP);
    if bypass {
      return r.(allowed := true);
    }
    ghost var ip := ParseRemote(env, req.remoteIP).value;
    var unauthorized := false;
    var lastIdentity := NOBODY;
    for i := 0 to |groups|
      invariant forall k :: 0 <= k < i ==> !GroupPasses(env, groups[k], req, ip)
      invariant !unauthorized ==> forall k :: 0 <= k < i ==> !SessionRefused(env, groups[k], req)
      invariant unauthorized ==>
                  exists j :: 0 <= j < i && SessionRefused(env, groups[j], req)
                              && (forall k :: j < k < i ==> !SessionRefused(env, groups[k], req))
                              && lastIdentity == SessionIdentity(env, groups[j], req)
    {
      assert groups[i] in groups;
      AfterPhaseOne(env, groups[i], req);
      var result := EvaluateGroupAuth(env, groups[i], req);
      if result.allowed {
        return r.(allowed := true, identity := result.identity);
      }
      assert result.identity == SessionIdentity(env, groups[i], req);
      if result.unauthorized {
        unauthorized := true;
        lastIdentity := result.identity;
      }
    }
    if unauthorized {
      r := r.(unauthorized := true, identity := lastIdentity);
    } else {
      r := r.(requiresAuth := true);
    }
  }

  /** The groups that take part: assignments whose pattern matches, enabled, with a loaded group. */
  ghost function Selected(assignments: seq<Assignment>, path: string): seq<Group> {
    if assignments == [] then []
    else
      var a := assignments[|assignments| - 1];
      Selected(assignments[..|assignments| - 1], path)
      + if Matches(a.pathPattern, path) && a.enabled && a.group.Some? then [a.group.value] else []
  }

  method SelectGroups(assignments: seq<Assignment>, path: string) returns (groups: seq<Group>)
    ensures groups == Selected(assignments, path)
  {
    groups := [];
    assert assignments[..|assignments|] == assignments;
    for i := 0 to |assignments|
      invariant groups == Selected(assignments[..i], path)
    {
      assert assignments[..i + 1][..i] == assignments[..i];
      var matched := MatchPath(assignments[i].pathPattern, path);
      if matched && assignments[i].enabled && assignments[i].group.Some? {
        groups := groups + [assignments[i].group.value];
      }
    }
  }

  /** `VerifyAccess`: a lookup error is passed on, an unknown host is turned away, and a request
      that no group speaks about is let in. */
  method VerifyAccess(env: Env, req: Request) returns (r: Option<Response>)
    ensures r.None? <==> match env.proxies(req.host)
                         case Failed => true
                         case Missing => false
                         case Found(id) => env.assignments(id).None?
    ensures env.proxies(req.host) == Missing ==> r == Some(Response(false, false, false, NOBODY))
    ensures env.proxies(req.host).Found? && env.assignments(env.proxies(req.host).id).Some? ==>
              var groups := Selected(env.assignments(env.proxies(req.host).id).value, req.path);
              && r.Some?
              && (r.value.allowed <==> groups == [] || Allowed(env, groups, req))
              && (groups == [] ==> r.value == Response(true, false, false, NOBODY))
              && (groups != [] ==> Decides(env, groups, req, r.value) && Identifies(env, groups, req, r.value))
  {
    var proxy := env.proxies(req.host);
    if proxy.Missing? {
      return Some(Response(false, false, false, NOBODY));
    }
    if proxy.Failed? {
      return None;
    }
    var assignments := env.assignments(proxy.id);
    if assignments.None? {
      return None;
    }
    var groups := SelectGroups(assignments.value, req.path);
    if |groups| == 0 {
      return Some(Response(true, false, false, NOBODY));
    }
    var answer := EvaluateUnionAccess(env, groups, req);
    return Some(answer);
  }

  // ------------------------------------------------------------ consequences

  /** The flags do not depend on the order of the groups, and never are both denial flags up. */
  lemma OrderIrrelevant(env: Env, groups: seq<Group>, shuffled: seq<Group>, req: Request, r: Response, r': Response)
    requires multiset(groups) == multiset(shuffled)
    requires Decides(env, groups, req, r) && Decides(env, shuffled, req, r')
    ensures r.allowed == r'.allowed && r.requiresAuth == r'.requiresAuth && r.unauthorized == r'.unauthorized
    ensures !(r.requiresAuth && r.unauthorized)
  {
    assert forall g :: g in groups <==> g in multiset(groups);
    assert forall g :: g in shuffled <==> g in multiset(shuffled);
  }

  /** Adding a group anywhere to a selection that allows a request keeps it allowed exactly when
      the new group does not deny the address. */
  lemma AddingGroup(env: Env, before: seq<Group>, g: Group, after: seq<Group>, req: Request)
    requires Allowed(env, before + after, req)
    ensures Allowed(env, before + [g] + after, req) <==> !Denies(env, g, ParseRemote(env, req.remoteIP).value)
    ensures (forall r :: r in g.rules ==> r.kind != "deny") ==> Allowed(env, before + [g] + after, req)
  {
    var ip := ParseRemote(env, req.remoteIP).value;
    var without, all := before + after, before + [g] + after;
    assert forall x :: x in all <==> x in without || x == g;
    var w :| w in without && (Bypasses(env, w, ip) || GroupPasses(env, w, req, ip));
    assert w in all;
  }

  /** A denied address is turned away whatever else the request presents and whatever other groups say. */
  lemma DenyWins(env: Env, groups: seq<Group>, req: Request, g: Group, rule: Rule, ip: IP)
    requires g in groups && rule in g.rules && rule.kind == "deny"
    requires env.parseIP(req.remoteIP) == Some(ip) && Covers(env, rule, ip)
    ensures !Allowed(env, groups, req)
  {
    assert Denies(env, g, ip);
  }

  /** Otherwise an allow or bypass rule of a group in mode `ip_bypass` lets its addresses in, whatever else
      the request lacks. */
  lemma BypassLetsIn(env: Env, groups: seq<Group>, req: Request, g: Group, rule: Rule, ip: IP)
    requires g in groups && g.mode == "ip_bypass" && rule in g.rules && (rule.kind == "allow" || rule.kind == "bypass")
    requires env.parseIP(req.remoteIP) == Some(ip) && Covers(env, rule, ip)
    ensures Allowed(env, groups, req) <==> forall h :: h in groups ==> !Denies(env, h, ip)
  {
    assert Bypasses(env, g, ip);
  }

  /** An address may come with a port; one that does not parse is never let in. */
  lemma RemoteForms(env: Env, groups: seq<Group>, req: Request, host: string)
    requires env.parseIP(req.remoteIP).None?
    ensures env.splitHostPort(req.remoteIP) == Some(host) ==>
              ParseRemote(env, req.remoteIP) == env.parseIP(host)
    ensures env.splitHostPort(req.remoteIP).None? ==> !Allowed(env, groups, req)
  {
  }

  /** With basic credentials alone: they count exactly in a group that has neither enabled Waygates
      settings nor provider restrictions. */
  lemma BasicAlone(env: Env, g: Group, req: Request, ip: IP)
    requires g.mode == "ip_bypass" && req.sessionToken == "" && BasicMatches(env, g, req)
    ensures GroupPasses(env, g, req, ip) <==>
            g.restrictions == [] && (g.waygates.None? || !g.waygates.value.enabled)
  {
  }

  /** With nothing at all: a group in mode `all` lets a request in exactly when it asks for nothing, one in
      an unknown mode never does. */
  lemma NothingPresented(env: Env, g: Group, req: Request, ip: IP)
    requires req.sessionToken == "" && req.basic.None?
    ensures g.mode == "all" ==>
              (GroupPasses(env, g, req, ip) <==>
                 g.basicUsers == [] && g.restrictions == [] && (g.waygates.None? || !g.waygates.value.enabled))
    ensures g.mode !in {"any", "all"} ==> !GroupPasses(env, g, req, ip)
    ensures g.mode == "any" ==> (GroupPasses(env, g, req, ip) <==> AllowsNetwork(env, g.rules, ip))
  {
  }

  lemma UnknownModeNeverPasses(env: Env, g: Group, req: Request, ip: IP)
    requires g.mode !in {"any", "all", "ip_bypass"}
    ensures !GroupPasses(env, g, req, ip)
  {
  }

  /** Where a group takes part it is by an enabled assignment whose pattern matches, and each such
      assignment with a loaded group takes part. */
  lemma {:induction false} SelectedIff(assignments: seq<Assignment>, path: string, g: Group)
    ensures g in Selected(assignments, path) <==>
            exists a :: a in assignments && a.enabled && a.group == Some(g) && Matches(a.pathPattern, path)
    decreases |assignments|
  {
    if assignments != [] {
      var init, last := assignments[..|assignments| - 1], assignments[|assignments| - 1];
      SelectedIff(init, path, g);
      assert assignments == init + [last];
      assert forall a :: a in assignments <==> a in init || a == last;
    }
  }

  // ------------------------------------------------------------ sessions

  /** The request with nothing in the cookie. */
  function WithoutToken(req: Request): Request { req.(sessionToken := "") }

  lemma ExpiredIsNone(env: Env, g: Group, req: Request, ip: IP)
    requires env.sessions(req.sessionToken).Some? && env.now > env.sessions(req.sessionToken).value.expiresAt
    ensures GroupPasses(env, g, req, ip) <==> GroupPasses(env, g, WithoutToken(req), ip)
    ensures !SessionRefused(env, g, req) && SessionIdentity(env, g, req) == NOBODY
  {
    assert BasicMatches(env, g, req) <==> BasicMatches(env, g, WithoutToken(req));
    assert !SessionPasses(env, g, req) && !SessionPasses(env, g, WithoutToken(req));
  }

  /** An expired session counts for nothing: the answer is that of the request without it, and a request
      that is not let in is asked to sign in, not refused. */
  lemma ExpiredSessionIgnored(env: Env, groups: seq<Group>, req: Request, r: Response)
    requires env.sessions(req.sessionToken).Some? && env.now > env.sessions(req.sessionToken).value.expiresAt
    requires Decides(env, groups, req, r)
    ensures Allowed(env, groups, req) <==> Allowed(env, groups, WithoutToken(req))
    ensures !Refused(env, groups, req) && !r.unauthorized
    ensures r.allowed <==> Allowed(env, groups, WithoutToken(req))
  {
    forall g, ip { ExpiredIsNone(env, g, req, ip); }
    assert ParseRemote(env, req.remoteIP) == ParseRemote(env, WithoutToken(req).remoteIP);
    assert AddressAdmitted(env, groups, req) <==> AddressAdmitted(env, groups, WithoutToken(req));
    if AddressAdmitted(env, groups, req) {
      ExpiredAdmits(env, groups, req, ParseRemote(env, req.remoteIP).value);
    }
    if g :| g in groups && SessionRefused(env, g, req) {
      assert false;
    }
  }

  lemma ExpiredAdmits(env: Env, groups: seq<Group>, req: Request, ip: IP)
    requires env.sessions(req.sessionToken).Some? && env.now > env.sessions(req.sessionToken).value.expiresAt
    ensures (exists g :: g in groups && (Bypasses(env, g, ip) || GroupPasses(env, g, req, ip))) <==>
            exists g :: g in groups && (Bypasses(env, g, ip) || GroupPasses(env, g, WithoutToken(req), ip))
  {
    forall g ensures GroupPasses(env, g, req, ip) <==> GroupPasses(env, g, WithoutToken(req), ip) {
      ExpiredIsNone(env, g, req, ip);
    }
  }

  /** A session counts up to and including the moment it expires: it is then judged by its kind, an OAuth
      session in any group with Waygates settings, a password session only where they are enabled, and
      tells who asks. */
  lemma LiveSessionCounts(env: Env, g: Group, req: Request, s: Session)
    requires req.sessionToken != "" && env.sessions(req.sessionToken) == Some(s) && env.now <= s.expiresAt
    requires g.waygates.Some?
    ensures s.email.Some? && s.provider.Some? ==>
              && SessionIdentity(env, g, req) == Identity(s.user, s.email.value, s.provider.value)
              && (SessionPasses(env, g, req) <==>
                    OAuthAllowed(s.email.value, s.provider.value, g.waygates.value, g.restrictions))
              && (SessionRefused(env, g, req) <==> !SessionPasses(env, g, req))
    ensures (s.email.None? || s.provider.None?) && s.user.Some? && g.waygates.value.enabled ==>
              && SessionIdentity(env, g, req) == Identity(s.user, "", "")
              && (SessionPasses(env, g, req) <==> UserAllowed(s.user.value, g.waygates.value))
              && (SessionRefused(env, g, req) <==> !SessionPasses(env, g, req))
    ensures (s.email.None? || s.provider.None?) && (s.user.None? || !g.waygates.value.enabled) ==>
              !SessionPasses(env, g, req) && !SessionRefused(env, g, req) && SessionIdentity(env, g, req) == NOBODY
  {
  }

  /** A session that expires now lets bob in, and one that expired before does not, though it is the same
      group and the same request. */
  lemma ExpiryBoundary(env: Env, ip: IP, expiresAt: int)
    ensures var g := Group("all", [], [], OPEN_SIGN_IN, []);
            var bob := Some(User(1, "bob", "bob@x.org"));
            var e := WithSessions(env, token => Some(Session(expiresAt, None, None, bob)));
            GroupPasses(e, g, Request("host", "/", "10.0.0.1", "token", None), ip) <==> env.now <= expiresAt
  {
  }

  // ------------------------------------------------------------ emails and lists

  /** The address ends in an at sign and the domain. */
  predicate EndsInDomain(email: string, domain: string) {
    exists i :: 0 <= i < |email| && email[i] == '@' && email[i + 1..] == domain
  }

  lemma SuffixIsDomain(email: string, domain: string)
    ensures HasSuffix(email, "@" + domain) <==> EndsInDomain(email, domain)
  {
    var i := |email| - |domain| - 1;
    if HasSuffix(email, "@" + domain) {
      assert email[i..] == "@" + domain;
      assert email[i] == (email[i..])[0] && email[i + 1..] == (email[i..])[1..] == domain;
    }
    if j :| 0 <= j < |email| && email[j] == '@' && email[j + 1..] == domain {
      assert |email[j + 1..]| == |email| - j - 1;
      assert j == i && email[i..] == [email[i]] + email[i + 1..];
    }
  }

  /** What the two kinds of domain entries admit: addresses at that very domain. A pattern minds case, a
      domain entry does not and may be written with or without the at sign. */
  lemma DomainsAreWhole(email: string, domain: string)
    requires !("@" <= domain)
    ensures EmailMatches(email, "*@" + domain) <==> EndsInDomain(email, domain)
    ensures EmailAllowed(email, [], [domain]) <==> EndsInDomain(ToLower(email), ToLower(domain))
    ensures EmailAllowed(email, [], ["@" + domain]) <==> EmailAllowed(email, [], [domain])
  {
    var pattern := "*@" + domain;
    assert pattern[2..] == domain && pattern[0] == '*' && |pattern| > 1 && "*@" <= pattern;
    SuffixIsDomain(email, domain);
    LowerAt(domain);
    SuffixIsDomain(ToLower(email), ToLower(domain));
    assert [domain][0] == domain && ["@" + domain][0] == "@" + domain;
    assert AtDomain(domain) == "@" + domain == AtDomain("@" + domain);
  }

  lemma LowerAt(domain: string)
    ensures ToLower("@" + domain) == "@" + ToLower(domain)
  {
    assert Lower('@') == '@';
    var s := "@" + domain;
    assert forall i :: 0 <= i < |domain| ==> s[i + 1] == domain[i];
  }

  /** A longer name that merely ends like the domain is another domain. */
  lemma OtherDomain(user: string, more: string, domain: string)
    requires '@' !in user && '@' !in more && '@' !in domain && more != ""
    ensures !EmailMatches(user + "@" + more + domain, "*@" + domain)
  {
    var email := user + "@" + more + domain;
    var pattern := "*@" + domain;
    assert pattern[2..] == domain && "*@" <= pattern;
    SuffixIsDomain(email, domain);
    if i :| 0 <= i < |email| && email[i] == '@' && email[i + 1..] == domain {
      assert false;
    }
  }

  /** Case folding changes the 26 capital letters and nothing else. */
  lemma FoldsLetters(a: char, b: char)
    ensures EqualFold([a], [b]) <==>
            a == b || ('A' <= a <= 'Z' && b == a + 32 as char) || ('A' <= b <= 'Z' && a == b + 32 as char)
  {
    assert ToLower([a])[0] == Lower(a) && ToLower([b])[0] == Lower(b);
    assert Lower(a) == Lower(b) ==> ToLower([a]) == ToLower([b]);
  }

  /** A list of roles alone shuts everybody out, since roles are not consulted. */
  lemma RolesAloneAdmitNobody(user: User, auth: WaygatesAuth)
    requires auth.allowedRoles != [] && auth.allowedUsers == [] && auth.allowedEmailPatterns == []
    ensures !UserAllowed(user, auth)
  {
  }

  /** A user is admitted by name, by email and by a pattern, each alone. */
  lemma NamedUserAllowed(user: User, auth: WaygatesAuth)
    ensures user.username in auth.allowedUsers || user.email in auth.allowedUsers ==> UserAllowed(user, auth)
    ensures "*" in auth.allowedEmailPatterns || user.email in auth.allowedEmailPatterns ==> UserAllowed(user, auth)
    ensures auth.allowedUsers == auth.allowedRoles == auth.allowedEmailPatterns == [] ==> UserAllowed(user, auth)
  {
    assert EmailMatches(user.email, "*");
    if user.email in auth.allowedEmailPatterns && !EmailMatches(user.email, user.email) {
      assert "*@" <= user.email;
      assert HasSuffix(user.email, "@" + user.email[2..]);
      assert false;
    }
  }

  /** A list of providers shuts out every other provider; without one all are admitted. */
  lemma ProviderMustBeListed(email: string, provider: string, auth: WaygatesAuth, restrictions: seq<Restriction>)
    requires OAuthAllowed(email, provider, auth, restrictions)
    ensures auth.allowedProviders == [] || exists p :: p in auth.allowedProviders && EqualFold(provider, p)
    ensures OAuthAllowed(email, provider, auth.(allowedProviders := []), restrictions)
  {
  }

  /** A list of emails admits exactly its emails up to case. */
  lemma EmailMustBeListed(email: string, emails: seq<string>)
    requires emails != []
    ensures EmailAllowed(email, emails, []) <==> exists e :: e in emails && EqualFold(email, e)
    ensures EmailAllowed(email, [], [])
  {
  }

  /** The first restriction for a provider, if enabled, decides alone; disabled, it leaves the decision to
      the group's own lists. */
  lemma OwnRestrictionDecides(email: string, auth: WaygatesAuth, own: Restriction, others: seq<Restriction>)
    requires auth.allowedProviders == []
    ensures OAuthAllowed(email, own.provider, auth, [own] + others) <==>
            if own.enabled then EmailAllowed(email, own.allowedEmails, own.allowedDomains)
            else EmailAllowed(email, auth.allowedEmails, auth.allowedDomains)
  {
  }

  // ------------------------------------------------------------ the documented modes

  predicate Admitting(r: Rule) { r.kind == "allow" || r.kind == "bypass" }

  /** The group names addresses from which requests are to come. */
  predicate NamesAddresses(g: Group) { exists r :: r in g.rules && Admitting(r) }

  /** The address is one of them, be the rule a network or a single address. */
  ghost predicate AllowsAddress(env: Env, g: Group, ip: IP) {
    exists r :: r in g.rules && Admitting(r) && Covers(env, r, ip)
  }

  /** Mode `all` as documented: every configured method passes, the address included. */
  ghost predicate DocumentedAll(env: Env, g: Group, req: Request, ip: IP) {
    && (NamesAddresses(g) ==> AllowsAddress(env, g, ip))
    && (HasSecureAuth(g) ==> SessionPasses(env, g, req))
    && (g.basicUsers != [] ==> BasicMatches(env, g, req))
  }

  /** Mode `all` as the comments in the code have it: basic users count only without a secure method. */
  ghost predicate CommentedAll(env: Env, g: Group, req: Request) {
    if HasSecureAuth(g) then SessionPasses(env, g, req) else g.basicUsers != [] ==> BasicMatches(env, g, req)
  }

  /** Mode `any` as documented: some configured method passes, the address included. */
  ghost predicate DocumentedAny(env: Env, g: Group, req: Request, ip: IP) {
    AllowsAddress(env, g, ip) || SessionPasses(env, g, req) || BasicMatches(env, g, req)
  }

  lemma NetworkIsAddress(env: Env, g: Group, ip: IP)
    ensures AllowsNetwork(env, g.rules, ip) ==> AllowsAddress(env, g, ip)
    ensures AllowsAddress(env, g, ip) ==> NamesAddresses(g)
  {
    if AllowsNetwork(env, g.rules, ip) {
      var r :| r in g.rules && (r.kind == "allow" || r.kind == "bypass") && CoversNetwork(env, r, ip);
      assert Admitting(r) && Covers(env, r, ip);
    }
  }

  /** Mode `all` differs from its documentation exactly in two cases, and then lets a request in: a method
      that fails never enters authResults, so a passing session makes up for missing basic credentials;
      and allow rules are not consulted, so credentials make up for a foreign address. */
  lemma AllModeAsDocumentedIff(env: Env, g: Group, req: Request, ip: IP)
    requires g.mode == "all"
    ensures (GroupPasses(env, g, req, ip) <==> DocumentedAll(env, g, req, ip)) <==>
            && !(g.basicUsers != [] && SessionPasses(env, g, req) && !BasicMatches(env, g, req))
            && !((!NeedsAuth(g) || CredentialsPass(env, g, req)) && NamesAddresses(g) && !AllowsAddress(env, g, ip))
    ensures DocumentedAll(env, g, req, ip) ==> GroupPasses(env, g, req, ip)
  {
    assert BasicMatches(env, g, req) ==> g.basicUsers != [];
  }

  /** Even so a session can stand in for basic credentials, in a group whose Waygates settings are disabled. */
  lemma AllModeAsCommentedIff(env: Env, g: Group, req: Request, ip: IP)
    requires g.mode == "all"
    ensures (GroupPasses(env, g, req, ip) <==> CommentedAll(env, g, req)) <==>
            !(g.basicUsers != [] && !HasSecureAuth(g) && SessionPasses(env, g, req) && !BasicMatches(env, g, req))
    ensures SessionPasses(env, g, req) && !HasSecureAuth(g) ==> g.waygates.Some? && !g.waygates.value.enabled
  {
    assert BasicMatches(env, g, req) ==> g.basicUsers != [];
  }

  /** Mode `any` differs exactly when nothing that the code counts passes, and yet a rule for a single
      address covers the request, or it has correct basic credentials in a group with a secure method. */
  lemma AnyModeAsDocumentedIff(env: Env, g: Group, req: Request, ip: IP)
    requires g.mode == "any"
    ensures (GroupPasses(env, g, req, ip) <==> DocumentedAny(env, g, req, ip)) <==>
            !(!AllowsNetwork(env, g.rules, ip) && !SessionPasses(env, g, req) && !BasicPasses(env, g, req)
              && (AllowsAddress(env, g, ip) || BasicMatches(env, g, req)))
    ensures GroupPasses(env, g, req, ip) ==> DocumentedAny(env, g, req, ip)
    ensures BasicMatches(env, g, req) && !BasicPasses(env, g, req) ==> HasSecureAuth(g)
  {
    NetworkIsAddress(env, g, ip);
  }

  /** The same world with other sessions stored. */
  function WithSessions(env: Env, sessions: string -> Option<Session>): Env { env.(sessions := sessions) }

  /** What the documentation says of the group, for the modes `all` and `any`. */
  ghost predicate Documented(env: Env, g: Group, req: Request, ip: IP) {
    if g.mode == "all" then DocumentedAll(env, g, req, ip) else DocumentedAny(env, g, req, ip)
  }

  /** Whatever sessions are stored and whatever is asked from this address, the group decides as documented. */
  ghost predicate AlwaysAsDocumented(env: Env, g: Group, ip: IP) {
    forall sessions, req ::
      GroupPasses(WithSessions(env, sessions), g, req, ip) <==> Documented(WithSessions(env, sessions), g, req, ip)
  }

  /** Some password is one of the group's basic users'. */
  ghost predicate SomePasswordWorks(env: Env, g: Group) {
    exists u, password :: u in g.basicUsers && env.checkPassword(u.hash, password)
  }

  /** Some credentials, or none, get through the group. */
  ghost predicate SomebodyPasses(env: Env, g: Group) {
    !NeedsAuth(g) || g.waygates.Some? || (!HasSecureAuth(g) && SomePasswordWorks(env, g))
  }

  /** An email that passes the lists. */
  lemma SomeEmailAllowed(emails: seq<string>, domains: seq<string>) returns (email: string)
    ensures EmailAllowed(email, emails, domains)
  {
    if emails != [] {
      email := emails[0];
      assert emails[0] in emails;
    } else if domains != [] {
      email := AtDomain(domains[0]);
      assert domains[0] in domains && HasSuffix(ToLower(email), ToLower(AtDomain(domains[0])));
    } else {
      email := "";
    }
  }

  /** Every allow list admits somebody. */
  lemma SomebodyAllowed(auth: WaygatesAuth, restrictions: seq<Restriction>) returns (email: string, provider: string)
    ensures OAuthAllowed(email, provider, auth, restrictions)
  {
    provider := if auth.allowedProviders == [] then "" else auth.allowedProviders[0];
    var own := OwnRestriction(restrictions, provider);
    if own.Some? && own.value.enabled {
      email := SomeEmailAllowed(own.value.allowedEmails, own.value.allowedDomains);
    } else {
      email := SomeEmailAllowed(auth.allowedEmails, auth.allowedDomains);
    }
  }

  /** A stored session that the group admits. */
  lemma SessionFor(env: Env, g: Group) returns (sessions: string -> Option<Session>, req: Request)
    requires g.waygates.Some?
    ensures SessionPasses(WithSessions(env, sessions), g, req) && req.basic.None?
  {
    var email, provider := SomebodyAllowed(g.waygates.value, g.restrictions);
    sessions := token => Some(Session(env.now, Some(email), Some(provider), None));
    req := Request("", "", "", "token", None);
  }

  /** A request with working basic credentials and nothing else. */
  lemma BasicFor(env: Env, g: Group) returns (req: Request)
    requires SomePasswordWorks(env, g)
    ensures BasicMatches(env, g, req) && req.sessionToken == ""
  {
    var u, password :| u in g.basicUsers && env.checkPassword(u.hash, password);
    req := Request("", "", "", "", Some(Credentials(u.username, password)));
  }

  lemma PassingIsPossible(env: Env, g: Group, req: Request)
    requires CredentialsPass(env, g, req)
    ensures SomebodyPasses(env, g)
  {
    if BasicPasses(env, g, req) {
      var u :| u in g.basicUsers && env.checkPassword(u.hash, req.basic.value.password);
    }
  }

  /** A request that mode `all` lets in from a foreign address. */
  lemma ForeignPasses(env: Env, g: Group, ip: IP) returns (sessions: string -> Option<Session>, req: Request)
    requires g.mode == "all" && NamesAddresses(g) && !AllowsAddress(env, g, ip) && SomebodyPasses(env, g)
    ensures var e := WithSessions(env, sessions); GroupPasses(e, g, req, ip) && !DocumentedAll(e, g, req, ip)
  {
    sessions, req := env.sessions, Request("", "", "", "", None);
    if g.waygates.Some? {
      sessions, req := SessionFor(env, g);
    } else if NeedsAuth(g) {
      req := BasicFor(env, g);
      assert BasicMatches(WithSessions(env, sessions), g, req);
    }
    assert !AllowsAddress(WithSessions(env, sessions), g, ip);
  }

  /** The configurations for which mode `all` is what it is documented to be, for requests from an address. */
  lemma AllModeConfigurations(env: Env, g: Group, ip: IP)
    requires g.mode == "all"
    ensures AlwaysAsDocumented(env, g, ip) <==>
            && (g.basicUsers == [] || g.waygates.None?)
            && (!NamesAddresses(g) || AllowsAddress(env, g, ip) || !SomebodyPasses(env, g))
  {
    if g.basicUsers != [] && g.waygates.Some? {
      var sessions, req := SessionFor(env, g);
      AllModeAsDocumentedIff(WithSessions(env, sessions), g, req, ip);
    } else if NamesAddresses(g) && !AllowsAddress(env, g, ip) && SomebodyPasses(env, g) {
      var sessions, req := ForeignPasses(env, g, ip);
    } else {
      forall sessions, req
        ensures GroupPasses(WithSessions(env, sessions), g, req, ip)
                <==> Documented(WithSessions(env, sessions), g, req, ip)
      {
        AllModeAgrees(env, g, ip, sessions, req);
      }
    }
  }

  lemma AllModeAgrees(env: Env, g: Group, ip: IP, sessions: string -> Option<Session>, req: Request)
    requires g.mode == "all" && (g.basicUsers == [] || g.waygates.None?)
    requires !NamesAddresses(g) || AllowsAddress(env, g, ip) || !SomebodyPasses(env, g)
    ensures GroupPasses(WithSessions(env, sessions), g, req, ip)
            <==> DocumentedAll(WithSessions(env, sessions), g, req, ip)
  {
    var e := WithSessions(env, sessions);
    AllModeAsDocumentedIff(e, g, req, ip);
    assert AllowsAddress(e, g, ip) <==> AllowsAddress(env, g, ip);
    assert SomebodyPasses(e, g) <==> SomebodyPasses(env, g);
    if CredentialsPass(e, g, req) {
      PassingIsPossible(e, g, req);
    }
  }

  /** The configurations for which mode `any` is what it is documented to be, for requests from an address. */
  lemma AnyModeConfigurations(env: Env, g: Group, ip: IP)
    requires g.mode == "any"
    ensures AlwaysAsDocumented(env, g, ip) <==>
            || AllowsNetwork(env, g.rules, ip)
            || (!AllowsAddress(env, g, ip) && !(HasSecureAuth(g) && SomePasswordWorks(env, g)))
  {
    if AllowsNetwork(env, g.rules, ip) {
      forall sessions, req { AnyModeAgrees(env, g, ip, sessions, req); }
    } else if AllowsAddress(env, g, ip) {
      var e, req := WithSessions(env, env.sessions), Request("", "", "", "", None);
      assert AllowsAddress(e, g, ip) && !AllowsNetwork(e, g.rules, ip);
      assert DocumentedAny(e, g, req, ip) && !GroupPasses(e, g, req, ip);
    } else if HasSecureAuth(g) && SomePasswordWorks(env, g) {
      var req := BasicFor(env, g);
      var e := WithSessions(env, env.sessions);
      assert BasicMatches(e, g, req) && !AllowsNetwork(e, g.rules, ip);
      assert DocumentedAny(e, g, req, ip) && !GroupPasses(e, g, req, ip);
    } else {
      forall sessions, req { AnyModeAgrees(env, g, ip, sessions, req); }
    }
  }

  lemma AnyModeAgrees(env: Env, g: Group, ip: IP, sessions: string -> Option<Session>, req: Request)
    requires g.mode == "any"
    requires AllowsNetwork(env, g.rules, ip)
             || (!AllowsAddress(env, g, ip) && !(HasSecureAuth(g) && SomePasswordWorks(env, g)))
    ensures GroupPasses(WithSessions(env, sessions), g, req, ip)
            <==> Documented(WithSessions(env, sessions), g, req, ip)
  {
    var e := WithSessions(env, sessions);
    AnyModeAsDocumentedIff(e, g, req, ip);
    assert AllowsNetwork(e, g.rules, ip) <==> AllowsNetwork(env, g.rules, ip);
    assert AllowsAddress(e, g, ip) <==> AllowsAddress(env, g, ip);
    if BasicMatches(e, g, req) {
      var u :| u in g.basicUsers && env.checkPassword(u.hash, req.basic.value.password);
      assert SomePasswordWorks(env, g);
    }
  }

  // ------------------------------------------------------------ inputs

  /** Waygates sign-in for everybody. */
  const OPEN_SIGN_IN := Some(WaygatesAuth(true, [], [], [], [], [], []))

  /** Every token is the session of bob. */
  function SignedIn(env: Env): Env {
    WithSessions(env, token => Some(Session(env.now, None, None, Some(User(1, "bob", "bob@x.org")))))
  }

  /** Mode `all`: a signed-in user without basic credentials passes a group that asks for both. */
  lemma SessionAloneSuffices(env: Env, ip: IP)
    ensures var g := Group("all", [], [BasicUser("ann", "hash")], OPEN_SIGN_IN, []);
            var req := Request("host", "/", "10.0.0.1", "token", None);
            GroupPasses(SignedIn(env), g, req, ip) && !DocumentedAll(SignedIn(env), g, req, ip)
  {
    var g := Group("all", [], [BasicUser("ann", "hash")], OPEN_SIGN_IN, []);
    assert g.basicUsers != [];
  }

  /** Mode `all`: a signed-in user from outside passes a group that allows one network. */
  lemma ForeignSessionSuffices(env: Env, ip: IP)
    ensures var g := Group("all", [Rule("allow", "10.0.0.0/8")], [], OPEN_SIGN_IN, []);
            var req := Request("host", "/", "192.0.2.1", "token", None);
            var e := SignedIn(env).(parseIP := text => Some(ip), parseCIDR := text => Some(env.hostNet(ip)),
                                    contains := (net, x) => false);
            Allowed(e, [g], req) && GroupPasses(e, g, req, ip) && !DocumentedAll(e, g, req, ip)
  {
    var g := Group("all", [Rule("allow", "10.0.0.0/8")], [], OPEN_SIGN_IN, []);
    assert g.rules[0] in g.rules && Admitting(g.rules[0]);
    assert [g][0] in [g];
  }

  /** Mode `any`: a rule that allows the single address the request comes from does not let it in. */
  lemma SingleAddressIgnored(env: Env, ip: IP)
    ensures var g := Group("any", [Rule("allow", "10.0.0.5")], [], OPEN_SIGN_IN, []);
            var req := Request("host", "/", "10.0.0.5", "", None);
            var e := env.(parseIP := text => Some(ip), parseCIDR := text => None, contains := (net, x) => true);
            !Allowed(e, [g], req) && !GroupPasses(e, g, req, ip) && DocumentedAny(e, g, req, ip)
  {
    var g := Group("any", [Rule("allow", "10.0.0.5")], [], OPEN_SIGN_IN, []);
    assert g.rules[0] in g.rules && Admitting(g.rules[0]);
  }

  /** Mode `any`: correct basic credentials do not pass a group that also has a sign-in. */
  lemma BasicIgnored(env: Env, ip: IP)
    ensures var g := Group("any", [], [BasicUser("ann", "hash")], OPEN_SIGN_IN, []);
            var req := Request("host", "/", "10.0.0.1", "", Some(Credentials("ann", "password")));
            var e := env.(checkPassword := (hash, password) => true);
            !GroupPasses(e, g, req, ip) && DocumentedAny(e, g, req, ip)
  {
    var g := Group("any", [], [BasicUser("ann", "hash")], OPEN_SIGN_IN, []);
    assert g.basicUsers[0] in g.basicUsers;
  }
}
