/** The parts of an incoming gateway request the middleware and the router read:
    the URL path, the headers (names lower-cased, as Starlette presents them), the peer
    address, and request.state.user, which the auth middleware writes. */
module GatewayRequests {

  import opened Wrappers
  import opened PyValues

  /** A decoded JWT payload. */
  type Claims = map<string, PyValue>

  class Request {
    const path: string
    const headers: map<string, string>
    const peer: Option<string>
    /** request.state.user; None while the attribute is not set. */
    var user: Option<Claims>

    constructor (path: string, headers: map<string, string>, peer: Option<string>)
      ensures this.path == path && this.headers == headers && this.peer == peer && user == None
    {
      this.path := path;
      this.headers := headers;
      this.peer := peer;
      user := None;
    }
  }

  /** request.headers.get("Authorization"): header names match case-insensitively. */
  function Authorization(headers: map<string, string>): Option<string>
  {
    if "authorization" in headers then Some(headers["authorization"]) else None
  }
}
