/** Any number of pauses and resumes of one tool call. */
module McpRounds {
  import opened Options
  import opened McpContracts
  import opened McpBridge
  import opened McpSession

  /** A request handed to the host, and its receipt. */
  datatype Pause = Pause(request: Request, receipt: Receipt)

  /** The host stores a pause: a follow-up stays in its interaction and gets the next revision. */
  ghost predicate Stored(p: Pause)
  {
    && ValidReceipt(p.receipt)
    && (p.request.interactionId.Some? ==> p.receipt.interactionId == p.request.interactionId.value)
    && (p.request.previousRevision.Some? ==> p.receipt.revision == p.request.previousRevision.value + 1)
  }

  /** The host resumes a stored pause: it preserves the call and the deadline. */
  ghost predicate Continues(w: World, p: Pause, r: Resume)
  {
    && ValidResume(w, r)
    && r.interactionId == p.receipt.interactionId && r.revision == p.receipt.revision
    && r.request.call == p.request.call && r.request.expiresAt == p.request.expiresAt
  }

  /** Who handles a round: a session for a resource, with a credential that its provider issued. */
  datatype Turn = Turn(profile: Profile, resource: string, credential: Credential, now: int)

  /** The provider issues credentials for its own resource. */
  ghost predicate Provided(t: Turn)
  {
    t.credential.resource == t.resource
  }

  /** The session checks that the stored call is its own. */
  ghost predicate Bound(t: Turn, r: Resume)
  {
    t.profile.server == r.request.call.server && t.profile.uri == r.request.call.uri && t.resource == r.request.call.resource
  }

  /** The first request comes from a fresh call. */
  ghost predicate Opened(w: World, t: Turn, tool: string, arguments: string, p: Pause)
  {
    Issued(w, t.profile, AttemptOf(tool, arguments, t.credential, t.now, Fresh()), p.request)
  }

  /** A later request comes from a resume of the pause before it. */
  ghost predicate Reopened(w: World, t: Turn, before: Pause, r: Resume, p: Pause)
  {
    Continues(w, before, r) && Bound(t, r) && Resumed(w, t.profile, t.credential, t.now, r, p.request)
  }

  /**
    A run: one fresh call, then any number of resumes, each in any session that it is bound to. Only
    the host and the providers are assumed to behave; what a session does is what it issues.
   */
  ghost predicate History(w: World, tool: string, arguments: string, turns: seq<Turn>, pauses: seq<Pause>, resumes: seq<Resume>)
    decreases |pauses|
  {
    && pauses != [] && |turns| == |pauses| && |resumes| == |pauses| - 1
    && var n := |pauses| - 1;
       && Stored(pauses[n]) && Provided(turns[n])
       && if n == 0 then Opened(w, turns[0], tool, arguments, pauses[0])
          else History(w, tool, arguments, turns[..n], pauses[..n], resumes[..n - 1]) && Reopened(w, turns[n], pauses[n - 1], resumes[n - 1], pauses[n])
  }

  /** The session's guarantee for one round. */
  lemma ReopenedFollowsUp(w: World, t: Turn, before: Pause, r: Resume, p: Pause)
    requires Provided(t) && Reopened(w, t, before, r, p)
    ensures FollowsUp(w, r, p.request)
  {
    hide Resumed, FollowsUp, ValidResume;
    assert ValidResume(w, r);
    FollowUpKeepsCall(w, t.profile, t.credential, t.now, r, p.request);
  }

  /** The first round: a valid request for exactly the call, without interaction. */
  lemma OpenedIsFirst(w: World, t: Turn, tool: string, arguments: string, p: Pause)
    requires Provided(t) && Opened(w, t, tool, arguments, p)
    ensures ValidRequest(w, p.request) && p.request.effect != SideEffect && p.request.interactionId.None? && p.request.previousRevision.None?
    ensures p.request.call == Call(t.profile.server, t.resource, t.profile.uri, tool, arguments)
  {
    hide Issued, ValidRequest;
    IssuedIsValid(w, t.profile, AttemptOf(tool, arguments, t.credential, t.now, Fresh()), p.request);
  }

  /**
    Over any number of rounds the call, its digest, the interaction and the deadline never change,
    every round has the next revision, and no request has a side effect.
   */
  lemma {:induction false} RoundsKeepTheCall(
      w: World, tool: string, arguments: string, turns: seq<Turn>, pauses: seq<Pause>, resumes: seq<Resume>, i: nat)
    requires History(w, tool, arguments, turns, pauses, resumes) && i < |pauses|
    ensures ValidRequest(w, pauses[i].request) && pauses[i].request.effect != SideEffect
    ensures pauses[i].request.call == Call(turns[0].profile.server, turns[0].resource, turns[0].profile.uri, tool, arguments)
    ensures Digest(w, pauses[i].request) == Digest(w, pauses[0].request)
    ensures pauses[i].request.expiresAt == pauses[0].request.expiresAt
    ensures pauses[i].receipt.interactionId == pauses[0].receipt.interactionId
    ensures pauses[i].receipt.revision == pauses[0].receipt.revision + i
    decreases |pauses|
  {
    hide ValidRequest, ValidReceipt, Opened, Reopened;
    var n := |pauses| - 1;
    if n == 0 {
      OpenedIsFirst(w, turns[0], tool, arguments, pauses[0]);
    } else {
      RoundsKeepTheCall(w, tool, arguments, turns[..n], pauses[..n], resumes[..n - 1], if i < n then i else n - 1);
      RoundsKeepTheCall(w, tool, arguments, turns[..n], pauses[..n], resumes[..n - 1], 0);
      ReopenedFollowsUp(w, turns[n], pauses[n - 1], resumes[n - 1], pauses[n]);
      ReopenedContinues(w, turns[n], pauses[n - 1], resumes[n - 1], pauses[n]);
    }
  }

  lemma ReopenedContinues(w: World, t: Turn, before: Pause, r: Resume, p: Pause)
    requires Reopened(w, t, before, r, p)
    ensures Continues(w, before, r)
  {
  }

  /** A follow-up names the interaction, the revision that was just resumed, and the lease of the resume. */
  lemma {:induction false} FollowUpsAreFenced(
      w: World, tool: string, arguments: string, turns: seq<Turn>, pauses: seq<Pause>, resumes: seq<Resume>, i: nat)
    requires History(w, tool, arguments, turns, pauses, resumes) && 0 < i < |pauses|
    ensures var r := pauses[i].request;
            && r.interactionId == Some(pauses[0].receipt.interactionId)
            && r.previousRevision == Some(pauses[i - 1].receipt.revision)
            && r.fence.Some? && r.fence == resumes[i - 1].request.fence && ValidFence(w, r.fence.value)
    decreases |pauses|
  {
    hide ValidRequest, ValidReceipt, ValidFence, Opened, Reopened;
    var n := |pauses| - 1;
    if i < n {
      FollowUpsAreFenced(w, tool, arguments, turns[..n], pauses[..n], resumes[..n - 1], i);
    } else {
      RoundsKeepTheCall(w, tool, arguments, turns[..n], pauses[..n], resumes[..n - 1], n - 1);
      ReopenedFollowsUp(w, turns[n], pauses[n - 1], resumes[n - 1], pauses[n]);
      ReopenedContinues(w, turns[n], pauses[n - 1], resumes[n - 1], pauses[n]);
      FencedRequest(w, pauses[n].request);
    }
  }

  lemma FencedRequest(w: World, r: Request)
    requires ValidRequest(w, r) && r.fence.Some?
    ensures ValidFence(w, r.fence.value)
  {
  }
}
