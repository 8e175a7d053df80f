/** handle_build_request: generate the files of a task, push them to a new
    repository with Pages enabled, notify the evaluator, and answer with a
    response record.

    The push (push_to_github, which creates the repository, writes the files
    and enables Pages) is a parameter `push` from task name and files to the
    repository URL, commit and Pages URL it reports; None stands for the
    exception it raises, which propagates out of the handler. */
module BuildHandler {
  import opened Common
  import opened Text
  import opened Notifier
  import opened LlmGenerator

  /** The triple push_to_github returns. */
  datatype PushResult = PushResult(repoUrl: string, commitSha: string, pagesUrl: string)

  datatype BuildError = PushFailed(task: string)

  /** What the handler produces: the response, the notification it sends
      (if any), and the README preview it logs (if any). */
  datatype Built = Built(response: ResponseRecord, notice: Option<Notice>, preview: Option<string>)

  const PreviewLineCount: nat := 5

  /** `"\n".join(text.splitlines()[:5])`. */
  function PreviewLines(text: string): string
  {
    Join(Take(SplitLines(text), PreviewLineCount), "\n")
  }

  /** The preview of README.md, logged only when the generated files hold
      one: its first five lines, or all of them when it has fewer. */
  function ReadmePreview(files: CodeFiles): (r: Option<string>)
    ensures r.Some? <==> "README.md" in Names(files)
    ensures r.Some? ==>
              var all := SplitLines(Lookup(files, "README.md").value);
              exists lines :: |lines| == (if |all| < PreviewLineCount then |all| else PreviewLineCount)
                              && lines <= all && r.value == Join(lines, "\n")
  {
    match Lookup(files, "README.md")
    case None => None
    case Some(text) =>
      var lines := Take(SplitLines(text), PreviewLineCount);
      Some(Join(lines, "\n"))
  }

  /** When the README breaks its lines with "\n" only, the preview is the
      beginning of the README. */
  lemma PreviewIsPrefix(text: string)
    requires forall k :: 0 <= k < |text| && IsLineBreak(text[k]) ==> text[k] == '\n'
    ensures PreviewLines(text) <= text
  {
    JoinedLinesArePrefix(text, PreviewLineCount);
  }

  /** A README of at most five "\n"-separated lines without a final line
      break is previewed whole. */
  lemma ShortReadmeShownWhole(text: string)
    requires forall k :: 0 <= k < |text| && IsLineBreak(text[k]) ==> text[k] == '\n'
    requires text == [] || text[|text| - 1] != '\n'
    requires |SplitLines(text)| <= PreviewLineCount
    ensures PreviewLines(text) == text
  {
    JoinSplitLines(text);
    var lines := SplitLines(text);
    var taken := Take(lines, PreviewLineCount);
    assert taken == lines by {
      if |lines| == PreviewLineCount {
        assert taken == lines[..|taken|];
      }
    }
  }

  /** The build handler. A failed push propagates and nothing is sent;
      otherwise the response echoes the request's correlation fields and
      passes the push's three values through unchanged, and the evaluator is
      notified with the same values iff the evaluation URL is truthy. */
  function HandleBuildRequest(payload: RequestPayload, backend: string -> Option<string>,
                              parse: string -> Option<CodeFiles>,
                              push: (string, CodeFiles) -> Option<PushResult>,
                              outcomes: seq<PostOutcome>): (r: Result<Built, BuildError>)
    ensures var pushed := push(payload.task, GenerateAppCode(payload.brief, backend, parse));
            && (pushed.None? <==> r.Err?)
            && (r.Err? ==> r.error == PushFailed(payload.task))
            && (r.Ok? ==> r.value.response.repoUrl == pushed.value.repoUrl
                          && r.value.response.commitSha == pushed.value.commitSha
                          && r.value.response.pagesUrl == pushed.value.pagesUrl)
    ensures r.Ok? ==> r.value.response.status == "ok" && r.value.response.message == "Request accepted"
    ensures r.Ok? ==> r.value.response.email == payload.email && r.value.response.task == payload.task
    ensures r.Ok? ==> r.value.response.round == payload.round && r.value.response.nonce == payload.nonce
    ensures r.Ok? ==> (r.value.notice.Some? <==> Truthy(payload.evaluationUrl))
    ensures r.Ok? && r.value.notice.Some? ==> r.value.notice.value.url == payload.evaluationUrl.value
    ensures r.Ok? && r.value.notice.Some? ==>
              var res := r.value.response;
              r.value.notice.value.payload
                == NotificationPayload(res.email, res.task, res.round, res.nonce, res.repoUrl, res.commitSha, res.pagesUrl)
    ensures r.Ok? && r.value.notice.Some? ==> r.value.notice.value.run == Delivery(outcomes, DefaultMaxRetries)
    ensures r.Ok? ==> r.value.preview == ReadmePreview(GenerateAppCode(payload.brief, backend, parse))
  {
    var files := GenerateAppCode(payload.brief, backend, parse);
    var preview := ReadmePreview(files);
    match push(payload.task, files)
    case None => Err(PushFailed(payload.task))
    case Some(PushResult(repoUrl, commitSha, pagesUrl)) =>
      var notice :=
        if Truthy(payload.evaluationUrl) then
          var p := NotificationPayload(payload.email, payload.task, payload.round, payload.nonce,
                                       repoUrl, commitSha, pagesUrl);
          Some(Notice(payload.evaluationUrl.value, p, Delivery(outcomes, DefaultMaxRetries)))
        else None;
      var response := ResponseRecord("ok", "Request accepted", payload.email, payload.task, payload.round,
                                     payload.nonce, repoUrl, commitSha, pagesUrl);
      Ok(Built(response, notice, preview))
  }

  /** The response does not depend on the evaluator's answers: only the
      recorded run of the notification does. */
  lemma ResponseIndependentOfEvaluator(payload: RequestPayload, backend: string -> Option<string>,
                                       parse: string -> Option<CodeFiles>,
                                       push: (string, CodeFiles) -> Option<PushResult>,
                                       o1: seq<PostOutcome>, o2: seq<PostOutcome>)
    ensures var r1, r2 := HandleBuildRequest(payload, backend, parse, push, o1),
                          HandleBuildRequest(payload, backend, parse, push, o2);
            && r1.Ok? == r2.Ok?
            && (r1.Ok? ==> r1.value.response == r2.value.response && r1.value.preview == r2.value.preview)
  {
  }
}
