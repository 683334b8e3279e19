/**
 * Binding a realtime (STOMP 1.2) connection to a user when its CONNECT frame
 * arrives. The credential is the bearer token of the first `Authorization`
 * native header (the "Bearer " prefix matched case-sensitively, as in section
 * 2.1 of RFC 6750), or failing that the `token` attribute the handshake stored
 * in the session. The token service, the user-details service and the user
 * table are parameters.
 */
module SessionAuth {
  import opened Common
  import opened Text
  import opened UserPrincipal

  datatype Command = Connect | Send | Subscribe | Disconnect | Other

  /** The token service: which tokens validate, and the subject (an e-mail) each names. */
  datatype TokenService = TokenService(valid: set<string>, subject: map<string, string>)

  /** What the user-details service knows (authorities per e-mail) and the user table (id per e-mail). */
  datatype Directory = Directory(authorities: map<string, seq<string>>, ids: map<string, int>)

  /** The header accessor of one frame; `user` is the principal bound to the session. */
  class StompAccessor {
    const command: Command
    /** The `Authorization` native header values; `None` when the header is absent. */
    const authHeaders: Option<seq<Option<string>>>
    const session: map<string, string>
    var user: Option<Principal>

    constructor (command: Command, authHeaders: Option<seq<Option<string>>>, session: map<string, string>)
      ensures this.command == command && this.authHeaders == authHeaders && this.session == session
      ensures user.None?
    {
      this.command := command;
      this.authHeaders := authHeaders;
      this.session := session;
      user := None;
    }
  }

  /** The token the first header value carries after "Bearer ", if it has that prefix. */
  function HeaderToken(authHeaders: Option<seq<Option<string>>>): (t: Option<string>)
    ensures t.Some? <==> (authHeaders.Some? && |authHeaders.value| > 0 && authHeaders.value[0].Some? &&
      StartsWith(authHeaders.value[0].value, "Bearer "))
    ensures t.Some? ==> authHeaders.value[0].value == "Bearer " + t.value
  {
    if authHeaders.Some? && |authHeaders.value| > 0 && authHeaders.value[0].Some? &&
       StartsWith(authHeaders.value[0].value, "Bearer ")
    then Some(authHeaders.value[0].value[7..])
    else None
  }

  /** The credential: the header token, else the session's `token` attribute, else none. */
  function Credential(authHeaders: Option<seq<Option<string>>>, session: map<string, string>): (t: Option<string>)
    ensures HeaderToken(authHeaders).Some? ==> t == HeaderToken(authHeaders)
    ensures HeaderToken(authHeaders).None? ==> (t.Some? <==> "token" in session)
    ensures HeaderToken(authHeaders).None? && "token" in session ==> t == Some(session["token"])
  {
    if HeaderToken(authHeaders).Some? then HeaderToken(authHeaders)
    else if "token" in session then Some(session["token"])
    else None
  }

  /**
   * The principal a credential yields: only for a token that validates, whose
   * subject the token service can read, that the user-details service knows
   * and that the user table holds. Any other case binds nothing.
   */
  function Bind(token: Option<string>, jwt: TokenService, dir: Directory): (p: Option<Principal>)
    ensures p.Some? <==> (token.Some? && token.value in jwt.valid && token.value in jwt.subject &&
      jwt.subject[token.value] in dir.authorities && jwt.subject[token.value] in dir.ids)
    ensures p.Some? ==> var email := jwt.subject[token.value];
      p.value.userId == dir.ids[email] && p.value.username == email && p.value.authorities == dir.authorities[email]
  {
    if token.None? || token.value !in jwt.valid || token.value !in jwt.subject then None
    else
      var email := jwt.subject[token.value];
      if email !in dir.authorities || email !in dir.ids then None
      else Some(Principal(dir.ids[email], email, dir.authorities[email]))
  }

  /**
   * `preSend`: on a CONNECT frame, work out the token step by step and bind the
   * principal when it resolves; other frames, and failed bindings, leave the
   * session's user as it was. The message always goes on unchanged.
   */
  method PreSend<M>(message: M, accessor: StompAccessor?, jwt: TokenService, dir: Directory) returns (r: M)
    modifies accessor
    ensures r == message
    ensures accessor != null && accessor.command == Connect ==>
      var p := Bind(Credential(accessor.authHeaders, accessor.session), jwt, dir);
      accessor.user == (if p.Some? then p else old(accessor.user))
    ensures accessor != null && accessor.command != Connect ==> accessor.user == old(accessor.user)
  {
    r := message;
    if accessor != null && accessor.command == Connect {
      var token: Option<string> := None;
      var headers := accessor.authHeaders;
      if headers.Some? && |headers.value| > 0 {
        var header := headers.value[0];
        if header.Some? && StartsWith(header.value, "Bearer ") {
          token := Some(header.value[7..]);
        }
      }
      if token.None? {
        if "token" in accessor.session {
          token := Some(accessor.session["token"]);
        }
      }
      if token.Some? && token.value in jwt.valid {
        if token.value in jwt.subject {
          var email := jwt.subject[token.value];
          if email in dir.authorities && email in dir.ids {
            accessor.user := Some(Principal(dir.ids[email], email, dir.authorities[email]));
          }
        }
      }
    }
  }

  /** A header without the exact "Bearer " prefix does not stop the session attribute from being used. */
  lemma LowercaseBearerFallsBackToSession(session: map<string, string>)
    requires "token" in session
    ensures Credential(Some([Some("bearer abc")]), session) == Some(session["token"])
  {
    assert !StartsWith("bearer abc", "Bearer ") by {
      assert "bearer abc"[0] != "Bearer "[0];
    }
  }
}
