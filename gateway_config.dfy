/** The API gateway's settings (api_gateway/src/core/config.py): the defaults the
    limiter and the router read, and the SERVICE_ROUTES table computed from the ports. */
module GatewayConfig {

  import opened Wrappers
  import opened Text

  /** The settings the core reads; each field defaults as below unless the
      environment overrides it. */
  datatype GatewaySettings = GatewaySettings(
    apiVersion: string,
    rateLimitEnabled: bool,
    requestsPerMinute: int,
    authPort: int,
    orderPort: int,
    billingPort: int)

  const DEFAULTS := GatewaySettings("v1", true, 60, 9003, 9001, 9002)

  /** One entry of SERVICE_ROUTES. */
  datatype Route = Route(host: string, prefix: string, publicPaths: seq<string>)

  const SERVICES: set<string> := {"auth", "orders", "billing"}

  /** "http://<host name>:<port>", the port rendered as an f-string renders an int. */
  function HostUrl(name: string, port: int): string
  {
    "http://" + name + ":" + IntToString(port)
  }

  /** SERVICE_ROUTES: three services, each prefix its own key; only auth has public
      paths, "/register" and "/token". */
  function ServiceRoutes(s: GatewaySettings): (routes: map<string, Route>)
    ensures routes.Keys == SERVICES
    ensures forall name <- routes :: routes[name].prefix == name
    ensures routes["auth"].publicPaths == ["/register", "/token"]
    ensures routes["orders"].publicPaths == [] && routes["billing"].publicPaths == []
    ensures routes["auth"].host == HostUrl("auth_service", s.authPort)
    ensures routes["orders"].host == HostUrl("order_service", s.orderPort)
    ensures routes["billing"].host == HostUrl("billing_service", s.billingPort)
  {
    map[
      "auth" := Route(HostUrl("auth_service", s.authPort), "auth", ["/register", "/token"]),
      "orders" := Route(HostUrl("order_service", s.orderPort), "orders", []),
      "billing" := Route(HostUrl("billing_service", s.billingPort), "billing", [])
    ]
  }

  /** The port reads back from the host string: the host is the prefix
      "http://<name>:" followed by the rendered port, which parses to the port. */
  lemma HostCarriesPort(name: string, port: int)
    ensures var prefix := "http://" + name + ":";
            && StartsWith(HostUrl(name, port), prefix)
            && ParseInt(HostUrl(name, port)[|prefix|..]) == Some(port)
  {
    var prefix := "http://" + name + ":";
    var digits := IntToString(port);
    assert HostUrl(name, port) == prefix + digits;
    assert (prefix + digits)[..|prefix|] == prefix;
    assert (prefix + digits)[|prefix|..] == digits;
    IntToStringRoundTrip(port);
  }

  lemma PortDigits()
    ensures IntToString(9003) == "9003" && IntToString(9001) == "9001" && IntToString(9002) == "9002"
  {
    assert NatToString(9) == "9";
    assert NatToString(90) == NatToString(9) + "0" == "90";
    assert NatToString(900) == NatToString(90) + "0" == "900";
    assert NatToString(9003) == NatToString(900) + "3";
    assert NatToString(9001) == NatToString(900) + "1";
    assert NatToString(9002) == NatToString(900) + "2";
  }

  /** With the defaults the hosts are the three services on ports 9003, 9001, 9002. */
  lemma DefaultHosts()
    ensures ServiceRoutes(DEFAULTS)["auth"].host == "http://" + "auth_service" + ":" + "9003"
    ensures ServiceRoutes(DEFAULTS)["orders"].host == "http://" + "order_service" + ":" + "9001"
    ensures ServiceRoutes(DEFAULTS)["billing"].host == "http://" + "billing_service" + ":" + "9002"
  {
    var routes := ServiceRoutes(DEFAULTS);
    assert routes["auth"].host == HostUrl("auth_service", 9003);
    assert routes["orders"].host == HostUrl("order_service", 9001);
    assert routes["billing"].host == HostUrl("billing_service", 9002);
    PortDigits();
  }
}
