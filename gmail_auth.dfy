/**
 * The Gmail connection routes (backend/routes/gmail-auth.js): the consent URL,
 * the OAuth callback that stores the connection, its status, and disconnecting.
 */
module GmailAuth {
  import opened Wrappers
  import opened Text
  import Json
  import opened Store
  import opened Http
  import Auth

  const Scopes: seq<string> := [
    "https://www.googleapis.com/auth/gmail.readonly",
    "https://www.googleapis.com/auth/gmail.send",
    "https://www.googleapis.com/auth/userinfo.email"
  ]

  /** The options `/auth-url` hands to `generateAuthUrl`; composing the URL from them is the library's work. */
  datatype AuthRequest = AuthRequest(accessType: string, prompt: string, scopes: seq<string>, state: string)

  /** GET /auth-url: offline access with a forced consent screen, the caller's user id as `state`. */
  function AuthUrl(header: Option<string>, verify: Auth.Verifier): (r: Response<AuthRequest>)
    ensures r.Done? <==> Auth.RequireAuth(header, verify).Done?
    ensures r.Done? ==> r.body.state == Auth.RequireAuth(header, verify).body
    ensures r.Done? ==> r.body.accessType == "offline" && r.body.prompt == "consent" && r.body.scopes == Scopes
  {
    match Auth.RequireAuth(header, verify)
    case Failed(status, error) => Failed(status, error)
    case Done(user) => Done(AuthRequest("offline", "consent", Scopes, user))
  }

  /** The tokens `getToken(code)` hands back. */
  datatype Tokens = Tokens(accessToken: string, refreshToken: Option<string>, expiryDate: Option<Time>)

  /** Google's side of the callback: the code exchange and the userinfo lookup; None when the call throws. */
  datatype Google = Google(exchange: string -> Option<Tokens>, userEmail: Tokens -> Option<string>)

  /** What the callback decides before it writes: reject the request, fail, or store this row for this user. */
  datatype Plan = MissingParams | AuthFailed | Connect(user: UserId, row: Connection)

  /**
   * The row the upsert leaves for the user. Columns it does not name keep their
   * old values, so connected_at survives a reconnect; a new row takes `now`.
   */
  function UpsertedRow(existing: Option<Connection>, email: string, tokens: Tokens, now: Time): (c: Connection)
    ensures c.email == email && c.accessToken == tokens.accessToken && c.updatedAt == now
    ensures c.refreshToken == (if Present(tokens.refreshToken) then tokens.refreshToken else None)
    ensures c.tokenExpiry == Auth.StoredExpiry(tokens.expiryDate)
    ensures c.connectedAt == if existing.Some? then existing.value.connectedAt else now
  {
    Connection(email, tokens.accessToken, if Present(tokens.refreshToken) then tokens.refreshToken else None,
               Auth.StoredExpiry(tokens.expiryDate), if existing.Some? then existing.value.connectedAt else now, now)
  }

  /** The callback's decision for the query's `code` and `state`. */
  function PlanCallback(conns: map<UserId, Connection>, code: Option<string>, state: Option<string>, google: Google,
                        now: Time): (p: Plan)
    ensures p == MissingParams <==> !Present(code) || !Present(state)
    ensures p.Connect? ==>
              p.user == state.value && google.exchange(code.value).Some?
              && Some(p.row.email) == google.userEmail(google.exchange(code.value).value)
    ensures p.Connect? ==> p.row.connectedAt == if p.user in conns then conns[p.user].connectedAt else now
    ensures p.Connect? ==>
              p.row == UpsertedRow(if p.user in conns then Some(conns[p.user]) else None, p.row.email,
                                   google.exchange(code.value).value, now)
    ensures p == AuthFailed <==>
              Present(code) && Present(state)
              && (google.exchange(code.value).None? || google.userEmail(google.exchange(code.value).value).None?)
  {
    if !Present(code) || !Present(state) then MissingParams
    else
      match google.exchange(code.value)
      case None => AuthFailed
      case Some(tokens) =>
        match google.userEmail(tokens)
        case None => AuthFailed
        case Some(email) =>
          var user := state.value;
          var existing := if user in conns then Some(conns[user]) else None;
          Connect(user, UpsertedRow(existing, email, tokens, now))
  }

  /** The user who asked for the consent URL is the one the callback stores the connection for. */
  lemma StateNamesUser(header: Option<string>, verify: Auth.Verifier, conns: map<UserId, Connection>, code: string,
                       google: Google, now: Time)
    requires AuthUrl(header, verify).Done? && AuthUrl(header, verify).body.state != "" && code != ""
    requires google.exchange(code).Some? && google.userEmail(google.exchange(code).value).Some?
    ensures PlanCallback(conns, Some(code), Some(AuthUrl(header, verify).body.state), google, now).Connect?
    ensures PlanCallback(conns, Some(code), Some(AuthUrl(header, verify).body.state), google, now).user
            == Auth.RequireAuth(header, verify).body
  {
  }

  /** GET /callback: exchange the code, store the connection and send the browser on. */
  method Callback(db: Database, frontend: string, code: Option<string>, state: Option<string>, google: Google,
                  upsertOk: bool, now: Time) returns (redirect: string)
    modifies db
    ensures db.summaries == old(db.summaries)
    ensures match PlanCallback(old(db.connections), code, state, google, now)
            case MissingParams =>
              redirect == frontend + "/connect?error=missing_params"
              && db.connections == old(db.connections) && db.activity == old(db.activity)
            case AuthFailed =>
              redirect == frontend + "/connect?error=auth_failed"
              && db.connections == old(db.connections) && db.activity == old(db.activity)
            case Connect(user, row) =>
              if upsertOk then
                redirect == frontend + "/dashboard?gmail=connected"
                && db.connections == old(db.connections)[user := row]
                && db.activity == old(db.activity) + [LogEntry(user, "gmail_connected", Json.JObj([("email", Json.JStr(row.email))]))]
              else
                redirect == frontend + "/connect?error=store_failed"
                && db.connections == old(db.connections) && db.activity == old(db.activity)
  {
    if !Present(code) || !Present(state) {
      return frontend + "/connect?error=missing_params";
    }
    var tokens := google.exchange(code.value);
    if tokens.None? {
      return frontend + "/connect?error=auth_failed";
    }
    var email := google.userEmail(tokens.value);
    if email.None? {
      return frontend + "/connect?error=auth_failed";
    }
    var user := state.value;
    var existing := if user in db.connections then Some(db.connections[user]) else None;
    if !upsertOk {
      return frontend + "/connect?error=store_failed";
    }
    db.connections := db.connections[user := UpsertedRow(existing, email.value, tokens.value, now)];
    db.Log(user, "gmail_connected", Json.JObj([("email", Json.JStr(email.value))]));
    redirect := frontend + "/dashboard?gmail=connected";
  }

  /** The body of GET /status. */
  datatype Status = NotConnected | Connected(email: string, connectedAt: Time, tokenExpiry: Option<Time>)

  /** GET /status: whether the user has a connection, and then its address, connection time and expiry. */
  function GetStatus(header: Option<string>, verify: Auth.Verifier, conns: map<UserId, Connection>): (r: Response<Status>)
    ensures r.Done? <==> Auth.RequireAuth(header, verify).Done?
    ensures r.Done? ==> (r.body.Connected? <==> Auth.RequireAuth(header, verify).body in conns)
    ensures r.Done? && r.body.Connected? ==>
              var c := conns[Auth.RequireAuth(header, verify).body];
              r.body == Connected(c.email, c.connectedAt, c.tokenExpiry)
  {
    match Auth.RequireAuth(header, verify)
    case Failed(status, error) => Failed(status, error)
    case Done(user) =>
      if user in conns then
        var c := conns[user];
        Done(Connected(c.email, c.connectedAt, c.tokenExpiry))
      else
        Done(NotConnected)
  }

  /** A stored connection is what the status then reports. */
  lemma StatusAfterConnect(header: Option<string>, verify: Auth.Verifier, conns: map<UserId, Connection>,
                           row: Connection)
    requires Auth.RequireAuth(header, verify).Done?
    ensures GetStatus(header, verify, conns[Auth.RequireAuth(header, verify).body := row])
            == Done(Connected(row.email, row.connectedAt, row.tokenExpiry))
  {
  }

  /** After a disconnect the status is "not connected". */
  lemma StatusAfterDisconnect(header: Option<string>, verify: Auth.Verifier, conns: map<UserId, Connection>)
    requires Auth.RequireAuth(header, verify).Done?
    ensures GetStatus(header, verify, conns - {Auth.RequireAuth(header, verify).body}) == Done(NotConnected)
  {
  }

  /**
   * POST /disconnect: delete the user's row (`deleteOk` is whether the unchecked
   * delete took effect), log it, and answer success whatever happened.
   */
  method Disconnect(db: Database, header: Option<string>, verify: Auth.Verifier, deleteOk: bool)
    returns (r: Response<bool>)
    modifies db
    ensures db.summaries == old(db.summaries)
    ensures Auth.RequireAuth(header, verify).Failed? ==>
              r == Failed(Auth.RequireAuth(header, verify).status, Auth.RequireAuth(header, verify).error)
              && db.connections == old(db.connections) && db.activity == old(db.activity)
    ensures Auth.RequireAuth(header, verify).Done? ==>
              var user := Auth.RequireAuth(header, verify).body;
              r == Done(true)
              && db.connections == (if deleteOk then old(db.connections) - {user} else old(db.connections))
              && db.activity == old(db.activity) + [LogEntry(user, "gmail_disconnected", Json.JObj([]))]
  {
    var auth := Auth.RequireAuth(header, verify);
    if auth.Failed? {
      return Failed(auth.status, auth.error);
    }
    var user := auth.body;
    if deleteOk {
      db.connections := db.connections - {user};
    }
    db.Log(user, "gmail_disconnected", Json.JObj([]));
    r := Done(true);
  }
}
