/** The acceptance decision of the authentication middleware. */
module Middleware {
  import opened Entities
  import opened SessionStore

  datatype Decision = Allow(principal: Principal) | Unauthorized | Forbidden

  /** A token that parses: the signed claims are present and not expired. */
  predicate Parses(token: Token, now: int) {
    token.userID != "" && token.accessJTI != "" && token.sessionID != "" && now < token.expiresAt
  }

  /** The token names a readable session, and that session names it back. */
  predicate Authenticates(st: Store, now: int, token: Token) {
    && Parses(token, now)
    && token.sessionID in st.sessions
    && var session := st.sessions[token.sessionID].value.session;
       && session.active && session.role.Valid()
       && session.userID == token.userID && session.accessJTI == token.accessJTI
  }

  function Required(st: Store, now: int, token: Token, allowed: set<Role>): Decision {
    if !Authenticates(st, now, token) then Unauthorized
    else
      var session := st.sessions[token.sessionID].value.session;
      if session.role !in allowed then Forbidden
      else Allow(Principal(session.userID, session.email, session.remark, session.role, token.sessionID))
  }

  /** Collects the roles of a route.  None stands for the panic on an invalid or empty list. */
  method AllowedRoles(roles: seq<Role>) returns (allowed: Option<set<Role>>)
    ensures allowed.None? <==> roles == [] || exists r :: r in roles && !r.Valid()
    ensures allowed.Some? ==> forall r :: r in allowed.value <==> r in roles
  {
    var acc: set<Role> := {};
    for i := 0 to |roles|
      invariant forall r :: r in acc <==> r in roles[..i]
      invariant forall r :: r in roles[..i] ==> r.Valid()
    {
      if !roles[i].Valid() { return None; }
      acc := acc + {roles[i]};
    }
    assert roles[..|roles|] == roles;
    if roles == [] { return None; }
    return Some(acc);
  }
}
