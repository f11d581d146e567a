/**
 * The authorization gate `authMiddleware(roles)`: take the token out of the
 * `Authorization` header, verify it, look up the role whose id the token
 * carries, and admit the request only if that role's name is one of the
 * route's required roles.
 *
 * Signature checking and expiry belong to the token library; here they are
 * the `verify` oracle, which either decodes a payload or fails.
 */
module AuthMiddleware {
  import opened Schema

  const BEARER := "Bearer "

  /** `pat` occurs in `s` starting at index `i`. */
  predicate OccursAt(s: string, pat: string, i: nat) {
    i + |pat| <= |s| && s[i..i + |pat|] == pat
  }

  /** The index of the first occurrence of `pat` in `s`, if any. */
  function IndexOf(s: string, pat: string): (r: Option<nat>)
    ensures r.Some? ==> OccursAt(s, pat, r.value)
    ensures r.Some? ==> forall j: nat :: j < r.value ==> !OccursAt(s, pat, j)
    ensures r.None? ==> forall j: nat :: !OccursAt(s, pat, j)
    decreases |s|
  {
    if |s| < |pat| then None
    else if s[..|pat|] == pat then Some(0)
    else
      assert !OccursAt(s, pat, 0) by { assert s[0..|pat|] == s[..|pat|]; }
      assert forall j: nat :: 0 < j && OccursAt(s, pat, j) ==> OccursAt(s[1..], pat, j - 1) by {
        forall j: nat | 0 < j && OccursAt(s, pat, j)
          ensures OccursAt(s[1..], pat, j - 1)
        {
          assert s[1..][j - 1..j - 1 + |pat|] == s[j..j + |pat|];
        }
      }
      match IndexOf(s[1..], pat)
      case None => None
      case Some(k) =>
        assert s[k + 1..k + 1 + |pat|] == s[1..][k..k + |pat|];
        Some(k + 1)
  }

  /** `s.replace(pat, rep)` with a string pattern: only the FIRST occurrence is replaced. */
  function ReplaceFirst(s: string, pat: string, rep: string): (r: string)
    ensures (forall j: nat :: !OccursAt(s, pat, j)) ==> r == s
    ensures (exists j: nat :: OccursAt(s, pat, j)) ==>
      exists i: nat :: OccursAt(s, pat, i) && (forall j: nat :: j < i ==> !OccursAt(s, pat, j))
                       && r == s[..i] + rep + s[i + |pat|..]
  {
    match IndexOf(s, pat)
    case None => s
    case Some(i) =>
      var r := s[..i] + rep + s[i + |pat|..];
      assert OccursAt(s, pat, i) && (forall j: nat :: j < i ==> !OccursAt(s, pat, j));
      r
  }

  /**
   * `req.header('Authorization')?.replace('Bearer ', '')`; a missing header
   * gives `undefined`, which is falsy exactly like the empty string.
   */
  function TokenOf(header: Option<string>): (t: string)
    ensures header.None? ==> t == ""
    ensures header.Some? && IndexOf(header.value, BEARER).None? ==> t == header.value
    ensures header.Some? && IndexOf(header.value, BEARER).Some? ==>
      var i := IndexOf(header.value, BEARER).value;
      t == header.value[..i] + header.value[i + |BEARER|..] && |t| + |BEARER| == |header.value|
  {
    match header
    case None => ""
    case Some(h) => ReplaceFirst(h, BEARER, "")
  }

  lemma BearerPrefixIsStripped(rest: string)
    ensures TokenOf(Some(BEARER + rest)) == rest
  {
    assert OccursAt(BEARER + rest, BEARER, 0);
  }

  lemma HeaderWithoutBearerPassesThrough(h: string)
    requires forall j: nat :: !OccursAt(h, BEARER, j)
    ensures TokenOf(Some(h)) == h
  {
  }

  /** What the gate does with a request. */
  datatype GateOutcome =
    | Unauthorized        // 401 { message: 'Unauthorized' }
    | Forbidden           // 403 { message: 'Forbidden' }
    | Stuck               // `userRole.name` on null throws inside the verify callback
    | Admitted(user: Claims)  // next(), with req.user = decoded
  {
    function Reply(): Reply
      requires !Admitted?
    {
      match this
      case Unauthorized => Message(401, "Unauthorized")
      case Forbidden => Message(403, "Forbidden")
      case Stuck => Crash
    }
  }

  /**
   * `authMiddleware(required)` applied to a request with the given header.
   * `roles` is the roles table at request time; nothing else of the store is read.
   */
  function Authorize(roles: map<Id, Role>, required: seq<string>, header: Option<string>,
                     verify: string -> Option<Claims>): (r: GateOutcome)
    ensures r == Unauthorized <==> TokenOf(header) == ""
    ensures TokenOf(header) != "" && verify(TokenOf(header)).None? ==> r == Forbidden
    ensures r.Admitted? <==>
      && TokenOf(header) != ""
      && verify(TokenOf(header)).Some?
      && verify(TokenOf(header)).value.roleId in roles
      && roles[verify(TokenOf(header)).value.roleId].name in required
    ensures r.Admitted? ==> r.user == verify(TokenOf(header)).value
    ensures r == Stuck <==>
      && TokenOf(header) != ""
      && verify(TokenOf(header)).Some?
      && verify(TokenOf(header)).value.roleId !in roles
  {
    var token := TokenOf(header);
    if token == "" then Unauthorized
    else
      match verify(token)
      case None => Forbidden
      case Some(decoded) =>
        if decoded.roleId !in roles then Stuck
        else if roles[decoded.roleId].name !in required then Forbidden
        else Admitted(decoded)
  }

  /** With no token the verifier is never consulted. */
  lemma NoTokenNeverVerified(roles: map<Id, Role>, required: seq<string>, header: Option<string>,
                             v1: string -> Option<Claims>, v2: string -> Option<Claims>)
    requires TokenOf(header) == ""
    ensures Authorize(roles, required, header, v1) == Authorize(roles, required, header, v2) == Unauthorized
  {
  }

  /**
   * The decision depends only on the role record the token's `roleId` names:
   * two roles tables that agree on that one id give the same outcome.
   */
  lemma OnlyTokenRoleIsRead(r1: map<Id, Role>, r2: map<Id, Role>, required: seq<string>,
                            header: Option<string>, verify: string -> Option<Claims>)
    requires TokenOf(header) != "" && verify(TokenOf(header)).Some?
    requires var rid := verify(TokenOf(header)).value.roleId;
      (rid in r1 <==> rid in r2) && (rid in r1 ==> r1[rid] == r2[rid])
    ensures Authorize(r1, required, header, verify) == Authorize(r2, required, header, verify)
  {
  }
}
