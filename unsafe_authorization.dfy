/** The unsafe (IP-fallback) authorization policy: a request is let through
    when it carries a user id that resolves to a user, or, failing that, when
    its normalised remote IP equals the remote end point of an active session.
    The handler records its verdict on the shared authorization context. */
module UnsafeAuthorization {
  import opened ApiCommon

  /** The two outcomes a handler can record. */
  datatype Verdict = Succeed | Fail

  /** The authorization context as seen by the handler: nothing recorded yet,
      or a success or failure recorded. */
  datatype AuthState = Pending | Succeeded | Failed

  /** An active session; its `RemoteEndPoint` may be null. */
  datatype Session = Session(remoteEndPoint: Option<string>)

  /** The current HTTP context, reduced to what the handler reads from it: the
      textual form of its normalised remote IP, when one can be determined. */
  datatype HttpContext = HttpContext(normalizedRemoteIp: Option<string>)

  // ---------------------------------------------------------------------------
  // Ordinal case-insensitive string equality
  // ---------------------------------------------------------------------------

  /** Upper-casing of one character as ordinal comparison does it, for ASCII letters. */
  function ToUpperOrdinal(c: char): char
  {
    if 'a' <= c <= 'z' then (c as int - 32) as char else c
  }

  /** `string.Equals(a, b, StringComparison.OrdinalIgnoreCase)` for non-null strings. */
  predicate EqualsOrdinalIgnoreCase(a: string, b: string)
    ensures EqualsOrdinalIgnoreCase(a, b) ==> |a| == |b|
    ensures a == b ==> EqualsOrdinalIgnoreCase(a, b)
  {
    |a| == |b| && forall i :: 0 <= i < |a| ==> ToUpperOrdinal(a[i]) == ToUpperOrdinal(b[i])
  }

  /** The string upper-cased character by character. */
  function UpperOrdinal(s: string): (r: string)
    ensures |r| == |s|
    ensures forall i :: 0 <= i < |s| ==> r[i] == ToUpperOrdinal(s[i])
  {
    if s == [] then [] else [ToUpperOrdinal(s[0])] + UpperOrdinal(s[1..])
  }

  /** Two strings are equal ignoring case exactly when their upper-cased forms are equal. */
  lemma EqualsIgnoreCaseIffSameUpper(a: string, b: string)
    ensures EqualsOrdinalIgnoreCase(a, b) <==> UpperOrdinal(a) == UpperOrdinal(b)
  {
  }

  /** Case-insensitive equality is an equivalence: a match does not depend on
      which side is the request and which the session. */
  lemma EqualsIgnoreCaseIsEquivalence(a: string, b: string, c: string)
    ensures EqualsOrdinalIgnoreCase(a, a)
    ensures EqualsOrdinalIgnoreCase(a, b) ==> EqualsOrdinalIgnoreCase(b, a)
    ensures EqualsOrdinalIgnoreCase(a, b) && EqualsOrdinalIgnoreCase(b, c) ==> EqualsOrdinalIgnoreCase(a, c)
  {
  }

  // ---------------------------------------------------------------------------
  // The decision as a function
  // ---------------------------------------------------------------------------

  /** Real credentials: a non-empty user id that the user manager resolves. */
  predicate HasValidCredential(userId: Guid, getUserById: Guid -> Option<User>)
    ensures HasValidCredential(userId, getUserById) <==> userId != EmptyGuid && getUserById(userId) != None
  {
    userId != EmptyGuid && getUserById(userId).Some?
  }

  /** A session vouches for `ip` when its end point is set and equals `ip`
      ignoring case; a null end point never matches. */
  predicate SessionMatches(ip: string, session: Session)
    ensures session.remoteEndPoint.None? ==> !SessionMatches(ip, session)
    ensures session.remoteEndPoint == Some(ip) ==> SessionMatches(ip, session)
  {
    session.remoteEndPoint.Some? && EqualsOrdinalIgnoreCase(ip, session.remoteEndPoint.value)
  }

  /** Some active session vouches for `ip`. */
  predicate AnySessionMatches(ip: string, sessions: seq<Session>)
    ensures AnySessionMatches(ip, sessions) <==> exists s :: s in sessions && SessionMatches(ip, s)
  {
    exists i :: 0 <= i < |sessions| && SessionMatches(ip, sessions[i])
  }

  /** The verdict when no real credentials were given. */
  function FallbackVerdict(httpContext: Option<HttpContext>, sessions: seq<Session>): (v: Verdict)
    ensures (httpContext.None? || httpContext.value.normalizedRemoteIp.None?) ==> v == Fail
    ensures v == Succeed <==> httpContext.Some? && httpContext.value.normalizedRemoteIp.Some?
                              && exists s :: s in sessions && SessionMatches(httpContext.value.normalizedRemoteIp.value, s)
  {
    if httpContext.None? then Fail
    else if httpContext.value.normalizedRemoteIp.None? then Fail
    else if AnySessionMatches(httpContext.value.normalizedRemoteIp.value, sessions) then Succeed
    else Fail
  }

  /** The verdict the handler records for a request. */
  function UnsafeVerdict(userId: Guid, getUserById: Guid -> Option<User>,
                         httpContext: Option<HttpContext>, sessions: seq<Session>): (v: Verdict)
    ensures HasValidCredential(userId, getUserById) ==> v == Succeed
    ensures !HasValidCredential(userId, getUserById) ==> v == FallbackVerdict(httpContext, sessions)
  {
    if HasValidCredential(userId, getUserById) then Succeed else FallbackVerdict(httpContext, sessions)
  }

  /** The state of the context after a verdict is recorded on it. A recorded
      failure is final: the context has failed whatever else is recorded. */
  function Record(state: AuthState, v: Verdict): (s: AuthState)
    ensures s != Pending
    ensures v == Fail ==> s == Failed
    ensures state == Pending ==> (s == Succeeded <==> v == Succeed)
    ensures s == Failed <==> (state == Failed || v == Fail)
  {
    match v
    case Succeed => if state == Failed then Failed else Succeeded
    case Fail => Failed
  }

  // ---------------------------------------------------------------------------
  // The handler
  // ---------------------------------------------------------------------------

  /** The framework's authorization context: the user id of its claims
      principal, and the verdicts recorded on it so far. */
  class AuthorizationHandlerContext {
    const userId: Guid
    var state: AuthState
    var calls: seq<Verdict>

    constructor (userId: Guid)
      ensures this.userId == userId && state == Pending && calls == []
    {
      this.userId := userId;
      state := Pending;
      calls := [];
    }

    method Succeed()
      modifies this
      ensures calls == old(calls) + [Verdict.Succeed]
      ensures state == Record(old(state), Verdict.Succeed)
    {
      calls := calls + [Verdict.Succeed];
      state := Record(state, Verdict.Succeed);
    }

    method Fail()
      modifies this
      ensures calls == old(calls) + [Verdict.Fail]
      ensures state == Failed
    {
      calls := calls + [Verdict.Fail];
      state := Failed;
    }
  }

  /** The early-exit scan over the active sessions. `examined` counts the
      sessions compared: the scan stops at the first match. */
  method ScanSessions(ip: string, sessions: seq<Session>) returns (found: bool, ghost examined: nat)
    ensures found <==> AnySessionMatches(ip, sessions)
    ensures examined <= |sessions|
    ensures found ==> 0 < examined && SessionMatches(ip, sessions[examined - 1])
    ensures forall j :: 0 <= j < examined - 1 ==> !SessionMatches(ip, sessions[j])
    ensures !found ==> examined == |sessions|
  {
    var i := 0;
    while i < |sessions|
      invariant 0 <= i <= |sessions|
      invariant forall j :: 0 <= j < i ==> !SessionMatches(ip, sessions[j])
    {
      var endPoint := sessions[i].remoteEndPoint;
      if endPoint.Some? && EqualsOrdinalIgnoreCase(ip, endPoint.value) {
        return true, i + 1;
      }
      i := i + 1;
    }
    return false, |sessions|;
  }

  /** The handler with its injected collaborators: the user manager's lookup,
      the current HTTP context and the session manager's active sessions. */
  class UnsafeAuthorizationHandler {
    const getUserById: Guid -> Option<User>
    const httpContext: Option<HttpContext>
    const sessions: seq<Session>

    constructor (getUserById: Guid -> Option<User>, httpContext: Option<HttpContext>, sessions: seq<Session>)
      ensures this.getUserById == getUserById && this.httpContext == httpContext && this.sessions == sessions
    {
      this.getUserById := getUserById;
      this.httpContext := httpContext;
      this.sessions := sessions;
    }

    /** Records exactly one verdict on `context` and returns. `examined` is the
        number of sessions compared: none when real credentials were given. */
    method HandleRequirement(context: AuthorizationHandlerContext) returns (ghost examined: nat)
      modifies context
      ensures context.calls == old(context.calls) + [UnsafeVerdict(context.userId, getUserById, httpContext, sessions)]
      ensures context.state == Record(old(context.state), UnsafeVerdict(context.userId, getUserById, httpContext, sessions))
      ensures HasValidCredential(context.userId, getUserById) ==> examined == 0
      ensures examined <= |sessions|
    {
      examined := 0;
      var userId := context.userId;
      if userId != EmptyGuid {
        var user := getUserById(userId);
        if user.Some? {
          context.Succeed();
          return;
        }
      }

      if httpContext.None? {
        context.Fail();
        return;
      }

      var ip := httpContext.value.normalizedRemoteIp;
      if ip.None? {
        context.Fail();
        return;
      }

      var found;
      found, examined := ScanSessions(ip.value, sessions);
      if found {
        context.Succeed();
        return;
      }

      context.Fail();
    }
  }

  // ---------------------------------------------------------------------------
  // Properties of the decision
  // ---------------------------------------------------------------------------

  /** The overall rule: access is granted exactly on real credentials, or on a
      known remote IP that matches some active session. */
  lemma UnsafeVerdictSucceedIff(userId: Guid, getUserById: Guid -> Option<User>,
                                httpContext: Option<HttpContext>, sessions: seq<Session>)
    ensures UnsafeVerdict(userId, getUserById, httpContext, sessions) == Succeed
        <==> HasValidCredential(userId, getUserById)
             || (httpContext.Some? && httpContext.value.normalizedRemoteIp.Some?
                 && AnySessionMatches(httpContext.value.normalizedRemoteIp.value, sessions))
  {
  }

  /** Real credentials override the fallback: neither the HTTP context nor the
      sessions are consulted. */
  lemma CredentialOverridesFallback(userId: Guid, getUserById: Guid -> Option<User>,
                                    h1: Option<HttpContext>, s1: seq<Session>,
                                    h2: Option<HttpContext>, s2: seq<Session>)
    requires HasValidCredential(userId, getUserById)
    ensures UnsafeVerdict(userId, getUserById, h1, s1) == Succeed
    ensures UnsafeVerdict(userId, getUserById, h1, s1) == UnsafeVerdict(userId, getUserById, h2, s2)
  {
  }

  /** A user id that resolves to no user grants nothing: the request is judged
      as if it carried no user id at all. */
  lemma UnknownUserIsAnonymous(userId: Guid, getUserById: Guid -> Option<User>,
                               httpContext: Option<HttpContext>, sessions: seq<Session>)
    requires getUserById(userId).None?
    ensures UnsafeVerdict(userId, getUserById, httpContext, sessions)
         == UnsafeVerdict(EmptyGuid, getUserById, httpContext, sessions)
         == FallbackVerdict(httpContext, sessions)
  {
  }

  /** Without credentials and without an HTTP context, or without a resolvable
      remote IP, the request fails. */
  lemma NoAddressFails(userId: Guid, getUserById: Guid -> Option<User>,
                       httpContext: Option<HttpContext>, sessions: seq<Session>)
    requires !HasValidCredential(userId, getUserById)
    requires httpContext.None? || httpContext.value.normalizedRemoteIp.None?
    ensures UnsafeVerdict(userId, getUserById, httpContext, sessions) == Fail
  {
  }

  /** A session without an end point vouches for nobody: inserting one anywhere
      leaves every verdict unchanged. */
  lemma NullEndPointIgnored(userId: Guid, getUserById: Guid -> Option<User>,
                                               httpContext: Option<HttpContext>,
                                               sessions: seq<Session>, k: nat)
    requires k <= |sessions|
    ensures UnsafeVerdict(userId, getUserById, httpContext, sessions[..k] + [Session(None)] + sessions[k..])
         == UnsafeVerdict(userId, getUserById, httpContext, sessions)
  {
  }

  /** The verdict depends only on which sessions are active, not on their order. */
  lemma VerdictIndependentOfOrder(userId: Guid, getUserById: Guid -> Option<User>,
                                  httpContext: Option<HttpContext>, s1: seq<Session>, s2: seq<Session>)
    requires multiset(s1) == multiset(s2)
    ensures UnsafeVerdict(userId, getUserById, httpContext, s1) == UnsafeVerdict(userId, getUserById, httpContext, s2)
  {
    if httpContext.Some? && httpContext.value.normalizedRemoteIp.Some? {
      var ip := httpContext.value.normalizedRemoteIp.value;
      if AnySessionMatches(ip, s1) { MatchCarriesOver(ip, s1, s2); }
      if AnySessionMatches(ip, s2) { MatchCarriesOver(ip, s2, s1); }
    }
  }

  /** More active sessions never revoke access the fallback already grants. */
  lemma MoreSessionsNeverRevoke(userId: Guid, getUserById: Guid -> Option<User>,
                                httpContext: Option<HttpContext>, s1: seq<Session>, s2: seq<Session>)
    requires forall s :: s in s1 ==> s in s2
    requires UnsafeVerdict(userId, getUserById, httpContext, s1) == Succeed
    ensures UnsafeVerdict(userId, getUserById, httpContext, s2) == Succeed
  {
  }

  /** A match in one list of sessions is a match in any list holding the same sessions. */
  lemma MatchCarriesOver(ip: string, s1: seq<Session>, s2: seq<Session>)
    requires multiset(s1) == multiset(s2)
    requires AnySessionMatches(ip, s1)
    ensures AnySessionMatches(ip, s2)
  {
    var i :| 0 <= i < |s1| && SessionMatches(ip, s1[i]);
    assert s1[i] in multiset(s2);
    var j :| 0 <= j < |s2| && s2[j] == s1[i];
  }

  /** A session registered from "10.0.0.5" vouches for a request from
      "10.0.0.5" and not for one from "10.0.0.6"; IPv6 text matches whatever
      the case of its hexadecimal digits. */
  lemma FallbackExamples(getUserById: Guid -> Option<User>)
    ensures UnsafeVerdict(EmptyGuid, getUserById, Some(HttpContext(Some("10.0.0.5"))), [Session(Some("10.0.0.5"))]) == Succeed
    ensures UnsafeVerdict(EmptyGuid, getUserById, Some(HttpContext(Some("10.0.0.6"))), [Session(Some("10.0.0.5"))]) == Fail
    ensures UnsafeVerdict(EmptyGuid, getUserById, Some(HttpContext(Some("fe80::1"))), [Session(None), Session(Some("FE80::1"))]) == Succeed
  {
    var r := [Session(Some("10.0.0.5"))];
    assert SessionMatches("10.0.0.5", r[0]);
    assert ToUpperOrdinal("10.0.0.6"[7]) != ToUpperOrdinal("10.0.0.5"[7]);
    assert !SessionMatches("10.0.0.6", Session(Some("10.0.0.5")));
    var s := [Session(None), Session(Some("FE80::1"))];
    assert SessionMatches("fe80::1", s[1]);
  }
}
