/**
 * Request guards placed in front of a handler: a role check, an
 * authentication check and a host check. Each guard either lets the next
 * handler run or answers the request itself with a status code; the handler
 * never runs after a guard has answered.
 */
module Middleware {
  import opened Wrappers
  import opened Identity

  const StatusOK: int := 200
  const StatusBadRequest: int := 400
  const StatusForbidden: int := 403

  /** What a guard decides for one request. */
  datatype Decision = Next | ShortCircuit(status: int)

  /** The status recorded for the request: the handler's own status when the
      guard lets it run, the guard's status otherwise. */
  function Respond(d: Decision, handlerStatus: int): int
  {
    match d
    case Next => handlerStatus
    case ShortCircuit(s) => s
  }

  /** The request's user must hold one of `roles`; otherwise 403. */
  function IsAuthorized(roles: seq<Role>, user: Option<User>): Decision
  {
    if user.Some? && user.value.role in roles then Next else ShortCircuit(StatusForbidden)
  }

  /** The request must carry a user; otherwise 403. */
  function IsAuthenticated(user: Option<User>): Decision
  {
    if user.Some? then Next else ShortCircuit(StatusForbidden)
  }

  /** The host named by a configured URL: a leading `http://` or `https://` is dropped. */
  function StripScheme(url: string): (host: string)
    ensures |host| <= |url| && host == url[|url| - |host|..]
  {
    if |url| >= 7 && url[..7] == "http://" then url[7..]
    else if |url| >= 8 && url[..8] == "https://" then url[8..]
    else url
  }

  /** The request's Host must equal the configured host; otherwise 400. */
  function HostChecker(expected: string, requestHost: string): Decision
  {
    if requestHost == StripScheme(expected) then Next else ShortCircuit(StatusBadRequest)
  }

  /** A request the role guard admits would also pass the authentication guard. */
  lemma AuthorizedIsAuthenticated(roles: seq<Role>, user: Option<User>)
    ensures IsAuthorized(roles, user).Next? ==> IsAuthenticated(user).Next?
  {
  }

  /** Guarding with the two elevated roles admits exactly the users the
      collaborator check accepts; guarding with Administrator alone admits
      exactly administrators. */
  lemma RoleGuardsMatchUserChecks(u: User)
    ensures IsAuthorized([Collaborator, Administrator], Some(u)).Next? <==> IsCollaborator(u)
    ensures IsAuthorized([Administrator], Some(u)).Next? <==> IsAdministrator(u)
  {
  }

  /** A scheme in front of the configured host is ignored: a request for `host`
      passes a checker configured with `http://host` or `https://host`. */
  lemma SchemeIgnored(host: string)
    ensures HostChecker("http://" + host, host) == Next
    ensures HostChecker("https://" + host, host) == Next
  {
    assert ("http://" + host)[..7] == "http://";
    assert ("http://" + host)[7..] == host;
    assert ("https://" + host)[..7] != "http://" by {
      assert ("https://" + host)[4] == 's';
    }
    assert ("https://" + host)[..8] == "https://";
    assert ("https://" + host)[8..] == host;
  }

  /** A configured value without a scheme is compared as it is: a request
      passes exactly when its host equals that value. */
  lemma SchemelessHostMustMatch(expected: string, requestHost: string)
    requires !(|expected| >= 7 && expected[..7] == "http://")
    requires !(|expected| >= 8 && expected[..8] == "https://")
    ensures HostChecker(expected, requestHost) == Next <==> requestHost == expected
  {
  }

  /** A Member passes `IsAuthorized(Administrator, Member)`: the handler's 200 is the response. */
  lemma AuthorizedMemberPasses()
    ensures Respond(IsAuthorized([Administrator, Member], Some(User(1, "", "", Member, []))), StatusOK) == StatusOK
  {
  }

  /** A Visitor is refused by `IsAuthorized(Administrator, Member)` with 403. */
  lemma ForbiddenVisitorRefused()
    ensures Respond(IsAuthorized([Administrator, Member], Some(User(1, "", "", Visitor, []))), StatusOK) == StatusForbidden
  {
  }

  /** A request with a user (whatever its role) passes `IsAuthenticated`; one
      without is refused with 403. */
  lemma AuthenticationScenarios(role: Role)
    ensures Respond(IsAuthenticated(Some(User(1, "", "", role, []))), StatusOK) == StatusOK
    ensures Respond(IsAuthenticated(None), StatusOK) == StatusForbidden
  {
  }

  /** `HostChecker("http://login.test.canhearyou.com")` admits host
      `login.test.canhearyou.com`: the handler's 200 is the response. */
  lemma HostScenarioSameHost()
    ensures Respond(HostChecker("http://login.test.canhearyou.com", "login.test.canhearyou.com"), StatusOK) == StatusOK
  {
    var host := "login.test.canhearyou.com";
    assert "http://login.test.canhearyou.com" == "http://" + host;
    SchemeIgnored(host);
  }

  /** `HostChecker("login.test.canhearyou.com")` refuses host
      `orange.test.canhearyou.com` with 400. */
  lemma HostScenarioDifferentHost()
    ensures Respond(HostChecker("login.test.canhearyou.com", "orange.test.canhearyou.com"), StatusOK) == StatusBadRequest
  {
    var expected := "login.test.canhearyou.com";
    assert expected[..7] != "http://" && expected[..8] != "https://" by {
      assert expected[0] == 'l';
    }
    SchemelessHostMustMatch(expected, "orange.test.canhearyou.com");
    assert "orange.test.canhearyou.com"[0] != expected[0];
  }
}
