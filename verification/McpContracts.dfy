/**
  The contracts between an MCP session and its durable host: a request that pauses a tool call, and
  a resume that continues exactly that call.
 */
module McpContracts {
  import opened Options

  datatype Effect = Read | Prepare | SideEffect

  /** Input requests or responses by request id; arguments and schemas are canonical JSON texts. */
  type Inputs = map<string, string>

  datatype Fence = Fence(jobId: string, owner: string, attempt: int)

  /** What a call digest binds. */
  datatype Call = Call(server: string, resource: string, uri: string, tool: string, arguments: string)

  /** The hash of a call, the hash of a guard, which responses are valid, and what `strip` removes. */
  datatype World = World(callDigest: Call -> string, guardDigest: string -> string, valid: string -> bool, space: char -> bool)

  datatype Request = Request(
    tenant: string,
    user: string,
    externalIdentity: Option<string>,
    identityRevision: Option<int>,
    agent: string,
    agentRevision: string,
    call: Call,
    inputs: Inputs,
    outputSchema: Option<string>,
    state: string,
    effect: Effect,
    replayMode: string,
    policyRevision: string,
    credentialGeneration: int,
    expiresAt: Option<int>,
    interactionId: Option<string>,
    previousRevision: Option<int>,
    fence: Option<Fence>)

  datatype Receipt = Receipt(interactionId: string, revision: int)

  datatype Resume = Resume(interactionId: string, revision: int, request: Request, responses: Inputs)

  // ---------- validity ----------

  predicate Alphanumeric(c: char)
  {
    'A' <= c <= 'Z' || 'a' <= c <= 'z' || '0' <= c <= '9'
  }

  /** A letter or digit, then at most 254 letters, digits, dots, underscores, colons or hyphens. */
  predicate Opaque(s: string)
  {
    && 1 <= |s| <= 255 && Alphanumeric(s[0])
    && forall i :: 0 <= i < |s| ==> Alphanumeric(s[i]) || s[i] in {'.', '_', ':', '-'}
  }

  predicate ValidText(w: World, s: string)
  {
    |s| <= 2048 && exists i :: 0 <= i < |s| && !w.space(s[i])
  }

  predicate ValidFence(w: World, f: Fence)
  {
    && Opaque(f.jobId) && 0 < |f.owner| <= 64 && f.attempt > 0
    && !w.space(f.owner[0]) && !w.space(f.owner[|f.owner| - 1])
  }

  /** A first round names no interaction; a follow-up names it, the revision it resumed and its lease. */
  predicate ValidRound(w: World, r: Request)
  {
    || (r.interactionId.None? && r.previousRevision.None? && r.fence.None?)
    || (&& r.interactionId.Some? && Opaque(r.interactionId.value)
        && r.previousRevision.Some? && r.previousRevision.value > 0
        && r.fence.Some? && ValidFence(w, r.fence.value))
  }

  predicate ValidRequest(w: World, r: Request)
  {
    && Opaque(r.tenant) && Opaque(r.user) && Opaque(r.agent) && Opaque(r.agentRevision)
    && Opaque(r.call.server) && Opaque(r.call.resource) && Opaque(r.call.tool) && Opaque(r.policyRevision)
    && ValidText(w, r.call.uri) && r.inputs != map[] && ValidText(w, r.state)
    && r.effect != SideEffect && r.replayMode in {"reusable", "single_use"} && r.credentialGeneration >= 0
    && r.expiresAt.Some?
    && (r.externalIdentity.Some? ==> Opaque(r.externalIdentity.value))
    && (r.identityRevision.Some? ==> r.identityRevision.value > 0)
    && ValidRound(w, r)
  }

  function MakeRequest(w: World, r: Request): Result<Request>
  {
    if ValidRequest(w, r) then Ok(r) else Err("interaction request is invalid")
  }

  predicate ValidReceipt(c: Receipt)
  {
    Opaque(c.interactionId) && c.revision > 0
  }

  /** A resume carries the stored request, with the round it continues written into it. */
  predicate ValidResume(w: World, r: Resume)
  {
    && Opaque(r.interactionId) && r.revision > 0 && ValidRequest(w, r.request)
    && r.request.interactionId == Some(r.interactionId) && r.request.previousRevision == Some(r.revision)
    && r.request.fence.Some? && r.responses != map[]
  }

  function Digest(w: World, r: Request): string
  {
    w.callDigest(r.call)
  }
}
