/** The bridge that turns the elicitation callback of a legacy server into a pause and a resume. */
module McpBridge {
  import opened Options
  import opened McpContracts

  datatype Credential = Credential(resource: string, effect: Effect, replayMode: string, policyRevision: string, generation: int)

  /** Who calls, and through which session; `ttl` is the one of the interaction host, if there is a host. */
  datatype Profile = Profile(
    tenant: string,
    user: string,
    externalIdentity: Option<string>,
    identityRevision: Option<int>,
    agent: string,
    agentRevision: string,
    server: string,
    uri: string,
    outputSchemas: map<string, string>,
    ttl: Option<int>)

  /** One attempt of a tool call; the last four fields come from the round that is resumed. */
  datatype Attempt = Attempt(
    tool: string,
    arguments: string,
    credential: Credential,
    now: int,
    expiresAt: Option<int>,
    interactionId: Option<string>,
    revision: Option<int>,
    fence: Option<Fence>)

  function CallOf(p: Profile, a: Attempt): Call
  {
    Call(p.server, a.credential.resource, p.uri, a.tool, a.arguments)
  }

  /** `_interaction_request`. */
  function InteractionRequest(w: World, p: Profile, a: Attempt, inputs: Inputs, state: string): Result<Request>
  {
    if p.ttl.None? || p.ttl.value <= 0 then Err("MCP interaction host TTL is invalid")
    else
      MakeRequest(w, Request(
        p.tenant, p.user, p.externalIdentity, p.identityRevision, p.agent, p.agentRevision, CallOf(p, a), inputs,
        if a.tool in p.outputSchemas then Some(p.outputSchemas[a.tool]) else None, state, a.credential.effect,
        a.credential.replayMode, a.credential.policyRevision, a.credential.generation,
        if a.expiresAt.Some? then a.expiresAt else Some(a.now + p.ttl.value), a.interactionId, a.revision, a.fence))
  }

  /** What the bridge makes of a guard: the stored input requests and the stored state. */
  function GuardId(w: World, guard: string): string
  {
    var digest := w.guardDigest(guard);
    "legacy-" + (if |digest| <= 32 then digest else digest[..32])
  }

  function GuardInputs(w: World, guard: string): Inputs
  {
    map[GuardId(w, guard) := guard]
  }

  function GuardState(w: World, guard: string): string
  {
    "legacy.callback.v1." + w.guardDigest(guard)
  }

  /** The stored round is the pause of exactly this guard, and has an answer to it and to nothing else. */
  ghost predicate Replays(w: World, guard: string, expected: Inputs, state: Option<string>, responses: Option<Inputs>)
  {
    && expected == GuardInputs(w, guard) && state == Some(GuardState(w, guard))
    && responses.Some? && responses.value.Keys == {GuardId(w, guard)}
  }

  /** What a guard of this attempt is turned into for the host. */
  function GuardRequest(w: World, p: Profile, a: Attempt, guard: string): Result<Request>
  {
    InteractionRequest(w, p, a, GuardInputs(w, guard), GuardState(w, guard))
  }

  /** The first form that the server asks for, in a call without stored round, reaches the host, which accepts. */
  ghost predicate Pauses(
      w: World, p: Profile, a: Attempt, responses: Option<Inputs>, asked: seq<Elicitation>, k: nat, pause: Request -> Option<Receipt>)
  {
    && k < |asked| && FirstForm(asked, k) && responses.None?
    && GuardRequest(w, p, a, asked[k].guard).Ok? && pause(GuardRequest(w, p, a, asked[k].guard).value).Some?
  }

  /** A stored response is handed out only if it is valid. */
  function Accepting(w: World, response: string): seq<string>
  {
    if w.valid(response) then [response] else []
  }

  /** One elicitation of the server: a form with a guard, or something else. */
  datatype Elicitation = Elicitation(form: bool, guard: string)

  /** What the server is told; a callback that raises is an error. */
  datatype Answer = Cancel | Accepted(response: string) | Refused

  /** What becomes of the result of the tool. */
  datatype Verdict = Paused(receipt: Receipt) | NotReplayed | Deliver

  class LegacyBridge {
    const w: World
    const profile: Profile
    const attempt: Attempt
    const responses: Option<Inputs>
    const expected: Option<Inputs>
    const state: Option<string>
    var called: bool
    var receipt: Option<Receipt>
    var responded: bool
    ghost var paused: Option<Request>
    ghost var guard: string
    ghost var accepted: seq<string>

    constructor (w: World, profile: Profile, attempt: Attempt, responses: Option<Inputs>, expected: Option<Inputs>, state: Option<string>)
      ensures this.w == w && this.profile == profile && this.attempt == attempt
      ensures this.responses == responses && this.expected == expected && this.state == state
      ensures Valid() && !called && accepted == [] && receipt.None?
    {
      this.w, this.profile, this.attempt := w, profile, attempt;
      this.responses, this.expected, this.state := responses, expected, state;
      called, receipt, responded := false, None, false;
      paused, guard, accepted := None, "", [];
    }

    /** The first guard is the only one that is ever paused or answered, and never both. */
    ghost predicate Valid()
      reads this
    {
      && (!called ==> receipt.None? && !responded)
      && receipt.Some? == paused.Some?
      && (receipt.Some? ==> expected.None? && InteractionRequest(w, profile, attempt, GuardInputs(w, guard), GuardState(w, guard)) == Ok(paused.value))
      && (responded ==> expected.Some? && Replays(w, guard, expected.value, state, responses) && accepted == Accepting(w, responses.value[GuardId(w, guard)]))
      && (!responded ==> accepted == [])
    }

    /** `__call__`: `pause` is the durable host, which may refuse. */
    method Elicit(form: bool, asked: string, pause: Request -> Option<Receipt>) returns (r: Answer)
      requires Valid()
      modifies this
      ensures Valid() && (old(called) || form ==> called)
      ensures r.Accepted? ==> expected.Some? && Replays(w, asked, expected.value, state, responses) && r.response == responses.value[GuardId(w, asked)]
      ensures r.Accepted? ==> !old(responded) && responded && w.valid(r.response)
      ensures accepted == if r.Accepted? then old(accepted) + [r.response] else old(accepted)
      ensures r.Cancel? <==> old(receipt).None? && receipt.Some?
      ensures r.Cancel? ==> expected.None? && paused.Some? && pause(paused.value) == receipt && responses.None? && GuardRequest(w, profile, attempt, asked) == Ok(paused.value)
      ensures !old(called) && form && expected.None? && responses.None? ==>
                var q := GuardRequest(w, profile, attempt, asked);
                (r.Cancel? <==> q.Ok? && pause(q.value).Some?)
      ensures !r.Cancel? ==> receipt == old(receipt) && paused == old(paused)
      ensures old(called) || !form ==> r.Refused? && called == old(called) && responded == old(responded)
      ensures !old(called) && form && expected.Some? && Replays(w, asked, expected.value, state, responses) ==>
                responded && (r.Accepted? <==> w.valid(responses.value[GuardId(w, asked)]))
      ensures responded && !old(responded) ==> expected.Some? && Replays(w, asked, expected.value, state, responses)
    {
      if called || !form {
        return Refused;
      }
      called := true;
      var inputs, asState := GuardInputs(w, asked), GuardState(w, asked);
      if expected.None? {
        if profile.ttl.None? || responses.Some? {
          return Refused;
        }
        var request := InteractionRequest(w, profile, attempt, inputs, asState);
        if request.Err? {
          return Refused;
        }
        receipt := pause(request.value);
        if receipt.None? {
          return Refused;
        }
        paused, guard := Some(request.value), asked;
        return Cancel;
      }
      if inputs != expected.value || Some(asState) != state || responses.None? || responses.value.Keys != {GuardId(w, asked)} {
        return Refused;
      }
      responded := true;
      var response := responses.value[GuardId(w, asked)];
      guard, accepted := asked, Accepting(w, response);
      r := if w.valid(response) then Accepted(response) else Refused;
    }

    /** `raise_if_paused_or_incomplete`. */
    function Judge(): (v: Verdict)
      reads this
    {
      if receipt.Some? then Paused(receipt.value)
      else if expected.Some? && !responded then NotReplayed
      else Deliver
    }

    /** The stored guard was the first form that the server asked for. */
    ghost predicate Reasked(asked: seq<Elicitation>, k: nat)
    {
      k < |asked| && FirstForm(asked, k) && expected.Some? && Replays(w, asked[k].guard, expected.value, state, responses)
    }

    /**
      The tool call: the server asks any guards in any order, then returns. A resumed call delivers
      its result if and only if the stored guard was asked again, as the first one; it was then
      answered once, with the stored response, unless that is not valid. A call without stored round
      is paused if and only if the server asks for a form and the host accepts the request for the
      first one; otherwise its result is delivered.
     */
    method Serve(asked: seq<Elicitation>, pause: Request -> Option<Receipt>) returns (v: Verdict)
      requires Valid() && !called
      modifies this
      ensures Valid()
      ensures expected.Some? ==> (v.Deliver? <==> exists k: nat :: Reasked(asked, k))
      ensures forall k: nat :: Reasked(asked, k) ==> accepted == Accepting(w, responses.value[GuardId(w, asked[k].guard)])
      ensures expected.None? ==> accepted == []
      ensures v.Paused? <==> receipt.Some?
      ensures v.NotReplayed? ==> expected.Some?
      ensures expected.None? ==> (v.Paused? <==> exists k: nat :: Pauses(w, profile, attempt, responses, asked, k, pause))
      ensures expected.None? ==> forall k: nat :: Pauses(w, profile, attempt, responses, asked, k, pause) ==>
                paused.Some? && GuardRequest(w, profile, attempt, asked[k].guard) == Ok(paused.value)
      ensures v.Paused? ==> Some(v.receipt) == receipt && paused.Some? && pause(paused.value) == receipt && expected.None?
    {
      ghost var first := 0;
      for i := 0 to |asked|
        invariant Valid() && first <= i
        invariant !called ==> forall j :: 0 <= j < i ==> !asked[j].form
        invariant called ==> first < i && FirstForm(asked, first)
        invariant responded ==> Reasked(asked, first) && accepted == Accepting(w, responses.value[GuardId(w, asked[first].guard)])
        invariant called && !responded ==> !Reasked(asked, first)
        invariant receipt.Some? ==> paused.Some? && pause(paused.value) == receipt && called
        invariant called && expected.None? ==> (receipt.Some? <==> Pauses(w, profile, attempt, responses, asked, first, pause))
        invariant receipt.Some? ==> first < i && GuardRequest(w, profile, attempt, asked[first].guard) == Ok(paused.value)
      {
        if !called {
          first := i;
        }
        var answer := Elicit(asked[i].form, asked[i].guard, pause);
      }
      v := Judge();
      assert forall k: nat :: Reasked(asked, k) ==> called && k == first;
      assert forall k: nat :: Pauses(w, profile, attempt, responses, asked, k, pause) ==> called && k == first;
    }
  }

  ghost predicate FirstForm(asked: seq<Elicitation>, k: nat)
    requires k < |asked|
  {
    asked[k].form && forall j :: 0 <= j < k ==> !asked[j].form
  }
}
