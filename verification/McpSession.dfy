/**
  One MCP session: a tool call ends with a text, an error, or a pause; a paused call can be resumed,
  and can pause again, any number of times. The remote server, the credential provider and the
  durable host are parameters.
 */
module McpSession {
  import opened Options
  import opened McpContracts
  import opened McpBridge

  datatype Envelope = Envelope(shaped: bool, digest: string, inputs: Inputs)

  /** The result of the remote call; the envelope is the legacy form of a request for input. */
  datatype Reply =
    | InputRequired(inputs: Inputs, state: string)
    | Finished(isError: bool, text: string, structured: Option<string>, envelope: Option<Envelope>)

  datatype Outcome = Delivered(text: string) | NeedsHost | Suspended(receipt: Receipt) | Failed(message: string)

  datatype Meta = Meta(tool: string, arguments: string, text: string, structured: Option<string>, isError: bool)

  /** What a resumed call takes over from the stored round; a first call takes over nothing. */
  datatype Continuation = Continuation(
    responses: Option<Inputs>,
    state: Option<string>,
    expected: Option<Inputs>,
    expiresAt: Option<int>,
    interactionId: Option<string>,
    revision: Option<int>,
    fence: Option<Fence>)

  function Fresh(): Continuation
  {
    Continuation(None, None, None, None, None, None, None)
  }

  function Continued(r: Resume): Continuation
  {
    Continuation(Some(r.responses), Some(r.request.state), Some(r.request.inputs), r.request.expiresAt,
                 Some(r.interactionId), Some(r.revision), r.request.fence)
  }

  const Prefix := "legacy.ofmcp.v1."

  predicate HexDigest(s: string)
  {
    |s| == 64 && forall i :: 0 <= i < |s| ==> '0' <= s[i] <= '9' || 'a' <= s[i] <= 'f'
  }

  function AttemptOf(tool: string, arguments: string, credential: Credential, now: int, c: Continuation): Attempt
  {
    Attempt(tool, arguments, credential, now, c.expiresAt, c.interactionId, c.revision, c.fence)
  }

  /** The request is what the session makes of this attempt, for some questions of the server. */
  ghost predicate Issued(w: World, p: Profile, a: Attempt, r: Request)
  {
    exists inputs: Inputs, state: string :: InteractionRequest(w, p, a, inputs, state) == Ok(r)
  }

  /** A pause of the call that the resume continued: the same call and deadline, in the next round. */
  ghost predicate FollowsUp(w: World, resume: Resume, r: Request)
  {
    && ValidRequest(w, r) && r.effect != SideEffect
    && r.call == resume.request.call && Digest(w, r) == Digest(w, resume.request)
    && r.expiresAt == resume.request.expiresAt
    && r.interactionId == Some(resume.interactionId) && r.previousRevision == Some(resume.revision)
    && r.fence == resume.request.fence && r.fence.Some?
  }

  /** A request that was handed out is what the session made. */
  ghost function OkOf(paused: Option<Request>): Result<Request>
  {
    if paused.Some? then Ok(paused.value) else Err("")
  }

  /** What the session makes of a resumed call that pauses again. */
  ghost predicate Resumed(w: World, p: Profile, credential: Credential, now: int, resume: Resume, r: Request)
  {
    Issued(w, p, AttemptOf(resume.request.call.tool, resume.request.call.arguments, credential, now, Continued(resume)), r)
  }

  lemma IssuedIsValid(w: World, p: Profile, a: Attempt, r: Request)
    requires Issued(w, p, a, r)
    ensures ValidRequest(w, r) && r.call == CallOf(p, a) && r.effect == a.credential.effect && r.effect != SideEffect
    ensures r.interactionId == a.interactionId && r.previousRevision == a.revision && r.fence == a.fence
    ensures a.expiresAt.Some? ==> r.expiresAt == a.expiresAt
    ensures a.expiresAt.None? ==> p.ttl.Some? && p.ttl.value > 0 && r.expiresAt == Some(a.now + p.ttl.value)
    ensures r.tenant == p.tenant && r.user == p.user && r.externalIdentity == p.externalIdentity && r.identityRevision == p.identityRevision
    ensures r.agent == p.agent && r.agentRevision == p.agentRevision && r.replayMode == a.credential.replayMode
    ensures r.policyRevision == a.credential.policyRevision && r.credentialGeneration == a.credential.generation
    ensures r.outputSchema == if a.tool in p.outputSchemas then Some(p.outputSchemas[a.tool]) else None
  {
  }

  /** A request asks exactly what the server asked, and carries its state. */
  lemma IssuedAsks(w: World, p: Profile, a: Attempt, inputs: Inputs, state: string)
    requires InteractionRequest(w, p, a, inputs, state).Ok?
    ensures InteractionRequest(w, p, a, inputs, state).value.inputs == inputs
    ensures InteractionRequest(w, p, a, inputs, state).value.state == state
  {
  }

  /** A follow-up keeps the call if and only if the provider issued the credential for the stored resource. */
  lemma FollowUpKeepsCall(w: World, p: Profile, credential: Credential, now: int, resume: Resume, r: Request)
    requires ValidResume(w, resume) && p.server == resume.request.call.server && p.uri == resume.request.call.uri
    requires Resumed(w, p, credential, now, resume, r)
    ensures FollowsUp(w, resume, r) <==> credential.resource == resume.request.call.resource
  {
    hide Issued, ValidRequest;
    IssuedIsValid(w, p, AttemptOf(resume.request.call.tool, resume.request.call.arguments, credential, now, Continued(resume)), r);
    assert resume.request.expiresAt.Some? by {
      ExpiresSome(w, resume.request);
    }
  }

  lemma ExpiresSome(w: World, r: Request)
    requires ValidRequest(w, r)
    ensures r.expiresAt.Some?
  {
  }

  class Session {
    const w: World
    const profile: Profile
    const resource: Option<string>
    const legacyTools: set<string>
    var lastMeta: Option<Meta>

    constructor (w: World, profile: Profile, resource: Option<string>, legacyTools: set<string>)
      ensures this.w == w && this.profile == profile && this.resource == resource && this.legacyTools == legacyTools
      ensures lastMeta.None?
    {
      this.w, this.profile, this.resource, this.legacyTools := w, profile, resource, legacyTools;
      lastMeta := None;
    }

    /** The call goes through the elicitation bridge. */
    predicate Bridged(tool: string, credential: Option<Credential>, state: Option<string>)
    {
      credential.Some? && profile.ttl.Some? && tool in legacyTools && !(state.Some? && Prefix <= state.value)
    }

    /** The remote call; `Ok(None)` means that the reply may be used. */
    method CallRemote(
        tool: string, arguments: string, credential: Option<Credential>, now: int, c: Continuation, asked: seq<Elicitation>,
        pause: Request -> Option<Receipt>)
      returns (r: Result<Option<Receipt>>, ghost paused: Option<Request>)
      ensures r.Ok? && r.value.Some? <==> paused.Some?
      ensures paused.Some? ==> credential.Some? && r.Ok? && pause(paused.value) == r.value
      ensures paused.Some? ==> credential.Some? && Issued(w, profile, AttemptOf(tool, arguments, credential.value, now, c), paused.value)
      ensures !Bridged(tool, credential, c.state) ==> r == Ok(None)
      ensures r.Err? ==> Bridged(tool, credential, c.state) && c.expected.Some?
      ensures Bridged(tool, credential, c.state) && c.expected.Some? ==>
                (r == Ok(None) <==> exists k: nat :: Asked(asked, k, c)) && paused.None?
      ensures Bridged(tool, credential, c.state) && c.expected.None? ==>
                r.Ok? && (r.value.Some? <==> exists k: nat :: Stops(tool, arguments, credential, now, c, asked, k, pause))
      ensures Bridged(tool, credential, c.state) && c.expected.None? ==>
                forall k: nat :: Stops(tool, arguments, credential, now, c, asked, k, pause) ==>
                  GuardRequest(w, profile, AttemptOf(tool, arguments, credential.value, now, c), asked[k].guard) == OkOf(paused)
    {
      paused := None;
      if !Bridged(tool, credential, c.state) {
        return Ok(None), None;
      }
      var attempt := AttemptOf(tool, arguments, credential.value, now, c);
      var bridge := new LegacyBridge(w, profile, attempt, c.responses, c.expected, c.state);
      var verdict := bridge.Serve(asked, pause);
      assert forall k: nat :: bridge.Reasked(asked, k) <==> Asked(asked, k, c);
      assert forall k: nat :: Pauses(w, profile, attempt, c.responses, asked, k, pause) <==> Stops(tool, arguments, credential, now, c, asked, k, pause);
      match verdict
      case Paused(receipt) =>
        r, paused := Ok(Some(receipt)), bridge.paused;
      case NotReplayed =>
        r := Err("legacy MCP interaction guard was not replayed");
      case Deliver =>
        r := Ok(None);
    }

    /** The stored guard is the first form that the server asks for, and its answer is stored. */
    ghost predicate Asked(asked: seq<Elicitation>, k: nat, c: Continuation)
    {
      k < |asked| && FirstForm(asked, k) && c.expected.Some? && Replays(w, asked[k].guard, c.expected.value, c.state, c.responses)
    }

    /** The first form that the server asks for stops the call at the host. */
    ghost predicate Stops(
        tool: string, arguments: string, credential: Option<Credential>, now: int, c: Continuation, asked: seq<Elicitation>, k: nat,
        pause: Request -> Option<Receipt>)
    {
      credential.Some? && Pauses(w, profile, AttemptOf(tool, arguments, credential.value, now, c), c.responses, asked, k, pause)
    }

    /**
      The remote call is not stopped by the bridge: there is none, or the stored guard was asked
      again, or a call without stored round was asked for nothing that the host accepts.
     */
    ghost predicate Passes(
        tool: string, arguments: string, credential: Option<Credential>, now: int, c: Continuation, asked: seq<Elicitation>,
        pause: Request -> Option<Receipt>)
    {
      || !Bridged(tool, credential, c.state)
      || (if c.expected.Some? then exists k: nat :: Asked(asked, k, c)
          else forall k: nat :: !Stops(tool, arguments, credential, now, c, asked, k, pause))
    }

    /** What the reply asks the user for, if anything: input requests and a state. */
    function Wanted(tool: string, reply: Reply): (r: Option<(Inputs, string)>)
    {
      if reply.InputRequired? then Some((reply.inputs, reply.state))
      else if tool in legacyTools && reply.envelope.Some? then Some((reply.envelope.value.inputs, Prefix + reply.envelope.value.digest))
      else None
    }

    /** The reply is a legacy envelope that is not well formed. */
    predicate Broken(tool: string, reply: Reply)
    {
      reply.Finished? && tool in legacyTools && reply.envelope.Some? &&
      (!reply.envelope.value.shaped || !HexDigest(reply.envelope.value.digest) || reply.envelope.value.inputs == map[])
    }

    /** `_call_mcp_tool`. */
    method CallTool(
        tool: string, arguments: string, credential: Option<Credential>, now: int, c: Continuation, asked: seq<Elicitation>,
        reply: Reply, pause: Request -> Option<Receipt>)
      returns (outcome: Outcome, ghost paused: Option<Request>)
      modifies this`lastMeta
      ensures outcome.Suspended? <==> paused.Some?
      ensures paused.Some? ==> credential.Some? && pause(paused.value) == Some(outcome.receipt)
      ensures paused.Some? ==> credential.Some? && Issued(w, profile, AttemptOf(tool, arguments, credential.value, now, c), paused.value)
      ensures outcome.Delivered? ==> reply.Finished? && outcome.text == reply.text && lastMeta == Some(Meta(tool, arguments, reply.text, reply.structured, reply.isError))
      ensures !outcome.Delivered? ==> lastMeta.None?
      ensures outcome.Delivered? ==> Wanted(tool, reply).None?
      ensures Passes(tool, arguments, credential, now, c, asked, pause) && Wanted(tool, reply).None? ==> outcome.Delivered?
      ensures Passes(tool, arguments, credential, now, c, asked, pause) && Broken(tool, reply) ==> outcome.Failed?
      ensures Passes(tool, arguments, credential, now, c, asked, pause) && Wanted(tool, reply).Some? && !Broken(tool, reply) ==>
                (outcome.NeedsHost? <==> credential.None? || profile.ttl.None?)
      ensures Passes(tool, arguments, credential, now, c, asked, pause) && Wanted(tool, reply).Some? && !Broken(tool, reply) && credential.Some? && profile.ttl.Some? ==>
                var (inputs, state) := Wanted(tool, reply).value;
                var q := InteractionRequest(w, profile, AttemptOf(tool, arguments, credential.value, now, c), inputs, state);
                paused == if q.Ok? && pause(q.value).Some? then Some(q.value) else None
      ensures Bridged(tool, credential, c.state) && c.expected.Some? && !outcome.Failed? ==> exists k: nat :: Asked(asked, k, c)
      ensures Bridged(tool, credential, c.state) && c.expected.None? ==>
                forall k: nat :: Stops(tool, arguments, credential, now, c, asked, k, pause) ==>
                  GuardRequest(w, profile, AttemptOf(tool, arguments, credential.value, now, c), asked[k].guard) == OkOf(paused)
    {
      lastMeta := None;
      paused := None;
      var remote;
      remote, paused := CallRemote(tool, arguments, credential, now, c, asked, pause);
      if remote.Err? {
        return Failed(remote.message), None;
      }
      if remote.value.Some? {
        return Suspended(remote.value.value), paused;
      }
      var wanted := Wanted(tool, reply);
      if wanted.Some? {
        if Broken(tool, reply) {
          return Failed("legacy MCP interaction envelope is invalid"), None;
        }
        if credential.None? || profile.ttl.None? {
          return NeedsHost, None;
        }
        outcome, paused := Suspend(AttemptOf(tool, arguments, credential.value, now, c), wanted.value.0, wanted.value.1, pause);
        return;
      }
      lastMeta := Some(Meta(tool, arguments, reply.text, reply.structured, reply.isError));
      outcome := Delivered(reply.text);
    }

    /** Hands the request to the host. */
    method Suspend(a: Attempt, inputs: Inputs, state: string, pause: Request -> Option<Receipt>) returns (outcome: Outcome, ghost paused: Option<Request>)
      ensures (outcome.Failed? || outcome.Suspended?) && (outcome.Suspended? <==> paused.Some?)
      ensures var q := InteractionRequest(w, profile, a, inputs, state);
              paused == if q.Ok? && pause(q.value).Some? then Some(q.value) else None
      ensures paused.Some? ==> Issued(w, profile, a, paused.value) && pause(paused.value) == Some(outcome.receipt)
    {
      paused := None;
      var request := InteractionRequest(w, profile, a, inputs, state);
      if request.Err? {
        return Failed(request.message), None;
      }
      var receipt := pause(request.value);
      if receipt.None? {
        return Failed("the interaction host refused to pause"), None;
      }
      outcome, paused := Suspended(receipt.value), Some(request.value);
    }

    /** The session is the one that the stored call belongs to. */
    predicate Bound(resume: Resume)
    {
      profile.server == resume.request.call.server && profile.uri == resume.request.call.uri && resource == Some(resume.request.call.resource)
    }

    /** The stored call, made again, is not stopped by the bridge. */
    ghost predicate GoesThrough(resume: Resume, credential: Option<Credential>, now: int, asked: seq<Elicitation>, pause: Request -> Option<Receipt>)
    {
      Passes(resume.request.call.tool, resume.request.call.arguments, credential, now, Continued(resume), asked, pause)
    }

    /**
      `resume_tool_call`. If the call pauses again, with a credential for the session's own resource,
      the new request follows up the resumed one.
     */
    method ResumeToolCall(
        resume: Resume, credential: Option<Credential>, now: int, asked: seq<Elicitation>, reply: Reply, pause: Request -> Option<Receipt>)
      returns (outcome: Outcome, ghost paused: Option<Request>)
      requires ValidResume(w, resume)
      modifies this`lastMeta
      ensures outcome.Suspended? <==> paused.Some?
      ensures paused.Some? ==> credential.Some? && pause(paused.value) == Some(outcome.receipt)
      ensures paused.Some? ==> Bound(resume) && credential.Some? && Resumed(w, profile, credential.value, now, resume, paused.value)
      ensures paused.Some? && resource == Some(credential.value.resource) ==> FollowsUp(w, resume, paused.value)
      ensures paused.Some? && resource != Some(credential.value.resource) ==> !FollowsUp(w, resume, paused.value)
      ensures !Bound(resume) ==> outcome.Failed? && lastMeta == old(lastMeta)
      ensures outcome.Delivered? ==> reply.Finished? && outcome.text == if reply.structured.Some? then reply.structured.value else reply.text
      ensures Bridged(resume.request.call.tool, credential, Some(resume.request.state)) && !outcome.Failed? ==>
                exists k: nat :: Asked(asked, k, Continued(resume))
      ensures Bound(resume) && GoesThrough(resume, credential, now, asked, pause) ==>
                && (outcome.Delivered? <==> Wanted(resume.request.call.tool, reply).None?)
                && (Broken(resume.request.call.tool, reply) ==> outcome.Failed?)
                && (outcome.NeedsHost? <==>
                      Wanted(resume.request.call.tool, reply).Some? && !Broken(resume.request.call.tool, reply) && (credential.None? || profile.ttl.None?))
      ensures Bound(resume) && GoesThrough(resume, credential, now, asked, pause) && Wanted(resume.request.call.tool, reply).Some?
              && !Broken(resume.request.call.tool, reply) && credential.Some? && profile.ttl.Some? ==>
                var (inputs, state) := Wanted(resume.request.call.tool, reply).value;
                var a := AttemptOf(resume.request.call.tool, resume.request.call.arguments, credential.value, now, Continued(resume));
                var q := InteractionRequest(w, profile, a, inputs, state);
                paused == if q.Ok? && pause(q.value).Some? then Some(q.value) else None
    {
      hide Issued, FollowsUp, ValidRequest, Asked;
      var call := resume.request.call;
      if !Bound(resume) {
        return Failed("MCP interaction resume binding is invalid"), None;
      }
      outcome, paused := CallTool(call.tool, call.arguments, credential, now, Continued(resume), asked, reply, pause);
      if outcome.Delivered? && lastMeta.value.structured.Some? {
        outcome := Delivered(lastMeta.value.structured.value);
      }
      if paused.Some? {
        FollowUpKeepsCall(w, profile, credential.value, now, resume, paused.value);
      }
    }
  }
}
