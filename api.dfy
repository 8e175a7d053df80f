/** The HTTP surface in api/main.py: `POST /` (handle_request) and
    `GET /health`.

    STUDENT_SECRET is a parameter, None when the environment does not set
    it. An exception raised by the build handler is returned as `Raised`
    instead of the error response the framework would produce. */
module Api {
  import opened Common
  import opened Notifier
  import opened LlmGenerator
  import opened BuildHandler

  /** The content of a reply. */
  datatype Body =
    | Handled(built: Built)                           // the build handler's response (and its effects)
    | NotImplemented(status: string, message: string) // the constant error dict of an unrouted round
    | Forbidden(detail: string)                       // HTTPException(403)

  datatype HttpReply = Reply(status: int, body: Body) | Raised(error: BuildError)

  /** Whether a request passes the secret check: only when the environment
      secret is set and equal to the request's. */
  predicate Authorized(payload: RequestPayload, studentSecret: Option<string>)
  {
    Some(payload.secret) == studentSecret
  }

  /** `handle_request`: the secret gate, then round 1 to the build handler
      and every other round to a constant "not implemented" answer. */
  function HandleRequest(payload: RequestPayload, studentSecret: Option<string>,
                         backend: string -> Option<string>, parse: string -> Option<CodeFiles>,
                         push: (string, CodeFiles) -> Option<PushResult>,
                         outcomes: seq<PostOutcome>): (r: HttpReply)
    ensures !Authorized(payload, studentSecret) ==> r == Reply(403, Forbidden("Invalid secret"))
    ensures Authorized(payload, studentSecret) ==> r.Raised? || r.status == 200
    ensures Authorized(payload, studentSecret) && payload.round == 1 ==>
              match HandleBuildRequest(payload, backend, parse, push, outcomes)
              case Ok(built) => r == Reply(200, Handled(built))
              case Err(e) => r == Raised(e)
    ensures Authorized(payload, studentSecret) && payload.round != 1 ==>
              r == Reply(200, NotImplemented("error", RoundMessage(payload.round, " not implemented yet")))
  {
    if !Authorized(payload, studentSecret) then
      Reply(403, Forbidden("Invalid secret"))
    else if payload.round == 1 then
      match HandleBuildRequest(payload, backend, parse, push, outcomes)
      case Ok(built) => Reply(200, Handled(built))
      case Err(e) => Raised(e)
    else
      Reply(200, NotImplemented("error", RoundMessage(payload.round, " not implemented yet")))
  }

  /** With STUDENT_SECRET unset every request is refused, since a string
      never equals None. */
  lemma UnsetSecretRejectsAll(payload: RequestPayload, backend: string -> Option<string>,
                              parse: string -> Option<CodeFiles>,
                              push: (string, CodeFiles) -> Option<PushResult>,
                              outcomes: seq<PostOutcome>)
    ensures HandleRequest(payload, None, backend, parse, push, outcomes) == Reply(403, Forbidden("Invalid secret"))
  {
  }

  /** A refused request involves no handler: the reply is the same whatever
      the generator, the push and the evaluator do. */
  lemma RefusalIgnoresCollaborators(payload: RequestPayload, studentSecret: Option<string>,
                                    b1: string -> Option<string>, p1: string -> Option<CodeFiles>,
                                    u1: (string, CodeFiles) -> Option<PushResult>, o1: seq<PostOutcome>,
                                    b2: string -> Option<string>, p2: string -> Option<CodeFiles>,
                                    u2: (string, CodeFiles) -> Option<PushResult>, o2: seq<PostOutcome>)
    requires !Authorized(payload, studentSecret)
    ensures HandleRequest(payload, studentSecret, b1, p1, u1, o1) == HandleRequest(payload, studentSecret, b2, p2, u2, o2)
  {
  }

  /** A round other than 1 (round 2 included) is answered without generating
      or pushing anything, and the round can be read back from the message. */
  lemma UnroutedRoundNamesRound(payload: RequestPayload, studentSecret: Option<string>,
                                backend: string -> Option<string>, parse: string -> Option<CodeFiles>,
                                push: (string, CodeFiles) -> Option<PushResult>,
                                outcomes: seq<PostOutcome>)
    requires Authorized(payload, studentSecret) && payload.round != 1
    ensures var r := HandleRequest(payload, studentSecret, backend, parse, push, outcomes);
            && r.Reply? && r.status == 200 && r.body.NotImplemented? && r.body.status == "error"
            && var m := r.body.message;
               var suffix := " not implemented yet";
               |m| >= 6 + |suffix| && m[..6] == "Round " && m[|m| - |suffix|..] == suffix
               && ParseInt(m[6..|m| - |suffix|]) == Some(payload.round)
  {
    var suffix := " not implemented yet";
    var m := RoundMessage(payload.round, suffix);
    RoundMessageNamesRound(payload.round, suffix);
    assert m == "Round " + IntToString(payload.round) + suffix;
    assert m[..6] == "Round ";
    assert m[|m| - |suffix|..] == suffix;
  }

  /** An accepted round-1 request answers with the build handler's response,
      which echoes the request's correlation fields. */
  lemma BuildReplyEchoesRequest(payload: RequestPayload, studentSecret: Option<string>,
                                backend: string -> Option<string>, parse: string -> Option<CodeFiles>,
                                push: (string, CodeFiles) -> Option<PushResult>,
                                outcomes: seq<PostOutcome>)
    requires Authorized(payload, studentSecret) && payload.round == 1
    requires push(payload.task, GenerateAppCode(payload.brief, backend, parse)).Some?
    ensures var r := HandleRequest(payload, studentSecret, backend, parse, push, outcomes);
            && r == Reply(200, r.body) && r.body.Handled?
            && var res := r.body.built.response;
               res.status == "ok" && res.message == "Request accepted"
               && res.email == payload.email && res.task == payload.task
               && res.round == payload.round && res.nonce == payload.nonce
  {
  }

  /** `health`: the liveness answer. */
  function Health(): (r: map<string, string>)
    ensures r.Keys == {"status"} && r["status"] == "alive"
  {
    map["status" := "alive"]
  }
}
