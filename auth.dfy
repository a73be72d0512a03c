/**
 * The authentication middleware (backend/middleware/auth.js): the bearer-token
 * check with the Supabase verifier, and the Gmail credential resolution with
 * its refresh and write-back.
 */
module Auth {
  import opened Wrappers
  import opened Text
  import opened Store
  import opened Http

  /** What `supabaseAdmin.auth.getUser(token)` reports: a user, an error or no user, or a thrown exception. */
  datatype Verdict = Verified(userId: UserId) | Rejected | Threw

  type Verifier = string -> Verdict

  const BearerPrefix: string := "Bearer "
  const MissingToken: string := "Missing authorization token"
  const InvalidToken: string := "Invalid or expired token"
  const AuthFailed: string := "Authentication failed"
  const NotConnected: string := "Gmail not connected. Please connect your Gmail account first."
  const CredentialsFailed: string := "Failed to load Gmail credentials"

  /**
   * The token of an Authorization header: the header must start with "Bearer ",
   * and the token is the second space-separated field, the run of non-space
   * characters that follows the prefix.
   */
  function BearerToken(header: Option<string>): (r: Option<string>)
    ensures r.Some? <==> header.Some? && BearerPrefix <= header.value
    ensures r.Some? ==> BearerPrefix + r.value <= header.value && ' ' !in r.value
    ensures r.Some? ==> |BearerPrefix + r.value| == |header.value| || header.value[|BearerPrefix + r.value|] == ' '
  {
    if header.Some? && BearerPrefix <= header.value then
      var h := header.value;
      var rest := h[|BearerPrefix|..];
      assert h == "Bearer" + [' '] + rest;
      SplitPrefix("Bearer", rest, ' ');
      SplitHead(rest, ' ');
      Some(Split(h, ' ')[1])
    else
      None
  }

  /** `requireAuth`: the verified user id that `next` sees, or the status it answers with. */
  function RequireAuth(header: Option<string>, verify: Verifier): (r: Response<UserId>)
    ensures r.Done? <==> BearerToken(header).Some? && verify(BearerToken(header).value).Verified?
    ensures r.Done? ==> r.body == verify(BearerToken(header).value).userId
    ensures r == Failed(401, MissingToken) <==> BearerToken(header).None?
    ensures r == Failed(401, InvalidToken) <==> BearerToken(header).Some? && verify(BearerToken(header).value).Rejected?
    ensures r == Failed(500, AuthFailed) <==> BearerToken(header).Some? && verify(BearerToken(header).value).Threw?
  {
    match BearerToken(header)
    case None => Failed(401, MissingToken)
    case Some(token) =>
      match verify(token)
      case Verified(user) => Done(user)
      case Rejected => Failed(401, InvalidToken)
      case Threw => Failed(500, AuthFailed)
  }

  /** Without a well-formed header the verifier is never consulted. */
  lemma MissingHeaderSkipsVerifier(header: Option<string>, v1: Verifier, v2: Verifier)
    requires header.None? || !(BearerPrefix <= header.value)
    ensures RequireAuth(header, v1) == RequireAuth(header, v2) == Failed(401, MissingToken)
  {
  }

  /** What `refreshAccessToken` hands back: the new access token and its expiry_date (None when absent). */
  datatype Credentials = Credentials(accessToken: string, expiryDate: Option<Time>)

  /** The refresh grant for a refresh token; None when it throws. */
  type Refresher = string -> Option<Credentials>

  /** What `requireGmail` leaves on the request: the user, `googleAccessToken` and `gmailEmail`. */
  datatype GmailSession = GmailSession(userId: UserId, accessToken: string, gmailEmail: string)

  /** `token_expiry && new Date(token_expiry) < new Date()`: a stored expiry strictly before now. */
  predicate IsExpired(expiry: Option<Time>, now: Time)
  {
    expiry.Some? && expiry.value < now
  }

  /** `expiry_date ? new Date(expiry_date) : null`: a zero or absent expiry is stored as null. */
  function StoredExpiry(expiryDate: Option<Time>): (r: Option<Time>)
    ensures r.None? <==> expiryDate.None? || expiryDate.value == 0
    ensures r.Some? ==> r == expiryDate
  {
    if expiryDate.Some? && expiryDate.value != 0 then expiryDate else None
  }

  /** `requireGmail` refreshes when the stored token has expired and a refresh token is stored. */
  predicate NeedsRefresh(c: Connection, now: Time)
  {
    IsExpired(c.tokenExpiry, now) && Present(c.refreshToken)
  }

  /** The row after the write-back: access_token, token_expiry and updated_at change, nothing else. */
  function Refreshed(c: Connection, creds: Credentials, now: Time): (r: Connection)
    ensures r.email == c.email && r.refreshToken == c.refreshToken && r.connectedAt == c.connectedAt
    ensures r.accessToken == creds.accessToken && r.tokenExpiry == StoredExpiry(creds.expiryDate)
    ensures r.updatedAt == now
  {
    c.(accessToken := creds.accessToken, tokenExpiry := StoredExpiry(creds.expiryDate), updatedAt := now)
  }

  datatype GmailOutcome = GmailOutcome(response: Response<GmailSession>, connections: map<UserId, Connection>)

  /**
   * The Gmail step of `requireGmail` for an authenticated user: the session it
   * hands on (or its error) and gmail_connections afterwards. `writeOk` is
   * whether the unchecked write-back took effect.
   */
  function ResolveGmail(conns: map<UserId, Connection>, user: UserId, now: Time, refresh: Refresher,
                        writeOk: bool): (o: GmailOutcome)
    ensures o.response == Failed(403, NotConnected) <==> user !in conns
    ensures o.response.Done? ==>
              user in conns && o.response.body.userId == user && o.response.body.gmailEmail == conns[user].email
    ensures o.response.Done? && user in conns && !NeedsRefresh(conns[user], now) ==>
              o.response.body.accessToken == conns[user].accessToken
    ensures o.response.Done? && user in conns && NeedsRefresh(conns[user], now) ==>
              refresh(conns[user].refreshToken.value).Some?
              && o.response.body.accessToken == refresh(conns[user].refreshToken.value).value.accessToken
    ensures o.response == Failed(500, CredentialsFailed) <==>
              user in conns && NeedsRefresh(conns[user], now) && refresh(conns[user].refreshToken.value).None?
    ensures user in conns && !NeedsRefresh(conns[user], now) ==>
              o == GmailOutcome(Done(GmailSession(user, conns[user].accessToken, conns[user].email)), conns)
    ensures user in conns && NeedsRefresh(conns[user], now) && refresh(conns[user].refreshToken.value).Some? ==>
              o.response.Done?
              && o.connections == (if writeOk
                                   then conns[user := Refreshed(conns[user], refresh(conns[user].refreshToken.value).value, now)]
                                   else conns)
    ensures o.connections != conns ==>
              user in conns && NeedsRefresh(conns[user], now) && writeOk
              && refresh(conns[user].refreshToken.value).Some?
              && o.connections == conns[user := Refreshed(conns[user], refresh(conns[user].refreshToken.value).value, now)]
  {
    if user !in conns then GmailOutcome(Failed(403, NotConnected), conns)
    else
      var c := conns[user];
      if NeedsRefresh(c, now) then
        match refresh(c.refreshToken.value)
        case None => GmailOutcome(Failed(500, CredentialsFailed), conns)
        case Some(creds) =>
          var written := if writeOk then conns[user := Refreshed(c, creds, now)] else conns;
          GmailOutcome(Done(GmailSession(user, creds.accessToken, c.email)), written)
      else
        GmailOutcome(Done(GmailSession(user, c.accessToken, c.email)), conns)
  }

  /** A connection without an expiry never expires: its stored token is used and nothing is written. */
  lemma NullExpiryReuses(conns: map<UserId, Connection>, user: UserId, now: Time, refresh: Refresher, writeOk: bool)
    requires user in conns && conns[user].tokenExpiry.None?
    ensures ResolveGmail(conns, user, now, refresh, writeOk)
            == GmailOutcome(Done(GmailSession(user, conns[user].accessToken, conns[user].email)), conns)
  {
  }

  /** An expired token with no refresh token is handed on as it is, with no error. */
  lemma ExpiredWithoutRefreshTokenReuses(conns: map<UserId, Connection>, user: UserId, now: Time,
                                         refresh: Refresher, writeOk: bool)
    requires user in conns && IsExpired(conns[user].tokenExpiry, now) && !Present(conns[user].refreshToken)
    ensures ResolveGmail(conns, user, now, refresh, writeOk).response
            == Done(GmailSession(user, conns[user].accessToken, conns[user].email))
  {
  }

  /** `requireGmail`: authenticate, then load, and if need be refresh, the user's Gmail credentials. */
  method RequireGmail(db: Database, header: Option<string>, verify: Verifier, now: Time, refresh: Refresher,
                      writeOk: bool) returns (r: Response<GmailSession>)
    modifies db
    ensures db.summaries == old(db.summaries) && db.activity == old(db.activity)
    ensures RequireAuth(header, verify).Failed? ==>
              r == Failed(RequireAuth(header, verify).status, RequireAuth(header, verify).error)
              && db.connections == old(db.connections)
    ensures RequireAuth(header, verify).Done? ==>
              GmailOutcome(r, db.connections)
              == ResolveGmail(old(db.connections), RequireAuth(header, verify).body, now, refresh, writeOk)
  {
    var auth := RequireAuth(header, verify);
    if auth.Failed? {
      return Failed(auth.status, auth.error);
    }
    var user := auth.body;
    if user !in db.connections {
      return Failed(403, NotConnected);
    }
    var connection := db.connections[user];
    if IsExpired(connection.tokenExpiry, now) && Present(connection.refreshToken) {
      var creds := refresh(connection.refreshToken.value);
      if creds.None? {
        return Failed(500, CredentialsFailed);
      }
      if writeOk {
        db.connections := db.connections[user := Refreshed(connection, creds.value, now)];
      }
      r := Done(GmailSession(user, creds.value.accessToken, connection.email));
    } else {
      r := Done(GmailSession(user, connection.accessToken, connection.email));
    }
  }
}
