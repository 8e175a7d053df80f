# App2App deployment API — a verified model of its core

App2App is a small FastAPI service. It receives a task from an instructor
(`POST /`), checks a shared secret, asks a language model for the files of a
minimal web app, pushes them to a GitHub repository with Pages enabled, and
reports the repository, commit and Pages URL back to an evaluation server.
The server retries that report with exponential backoff. A second round
(the revise handler) regenerates the files and writes them into the
repository that already exists.

This project models the deterministic logic inside that plumbing:

- `Notifier` (`notifier.dfy`): `notify_evaluation`. It models the seven-field
  payload and the retry loop as an imperative method, and proves it against
  a specification function `Delivery`. The network is replaced by a script
  of POST outcomes, and the clock by the list of delays the loop sleeps.
- `Text` (`text.dfy`): the Python string operations the core relies on.
  These are `strip()` (Python's whitespace set), `index`/`rindex`,
  `splitlines()` (all of Python's line boundaries, with `\r\n` as one) and
  `join`.
- `LlmGenerator` (`llm_generator.dfy`): `generate_app_code` and
  `generate_test_app_code`.
  - The model is a parameter `backend` from prompt to answer text.
  - `json.loads` is a partial parser `parse`.
  - The brace-span extraction and the fixed fallback are modelled exactly.
- `RemoteRepo` (`remote_repo.dfy`): the GitHub repository as a class. It
  holds the files of branch `main`, a content token per file and the commit
  history, newest first. Its PyGithub operations `get_contents`,
  `update_file`, `create_file` and `get_commits()[0]` are methods.
- `ReviseHandler` (`revise_handler.dfy`): `handle_revise_request`. It models
  the repository lookup, the update-or-create loop over the generated files
  in dict order, the read-back of the head commit, the Pages URL, the
  conditional notification and the response.
- `BuildHandler` (`build_handler.dfy`): `handle_build_request`. It models the
  README preview, the pass-through of the values the push returns, the
  conditional notification and the response.
- `Api` (`api.dfy`): `handle_request` (secret gate and round dispatch) and
  `health`.
- `Common` (`common.dfy`): Python's `Optional`, the request payload and the
  response record. It also holds generated file sets, which are ordered
  sequences of (name, content) with distinct names, as a Python dict is. It
  has the decimal rendering of the round number in the `"Round {n} ..."`
  messages and its inverse.

Environment values are parameters: `STUDENT_SECRET` and `GITHUB_USER`, each
`None` when unset. As in an f-string, an unset `GITHUB_USER` or brief
renders as `None`. All collaborators the core calls are parameters:

- the model client;
- the JSON parser;
- `push_to_github`;
- the evaluator's answers.

The revise handler's docstring says it handles round 2 requests
(api/handlers/revise_handler.py:20), but the dispatcher's own comment defers
that ("extend later for revise (round 2)", api/main.py:49). `handle_request`
routes only round 1: every other round, round 2 included, gets the constant
"not implemented yet" answer. The model follows the code, and the revise
handler is modelled on its own.

## Model

| member | source | states |
|---|---|---|
| Notifier.PayloadShape | api/services/notifier.py:35-43 | the JSON body has exactly the seven keys email, task, round, nonce, repo_url, commit_sha, pages_url, with the round number under "round" |
| Notifier.PayloadJson | api/services/notifier.py:35-43 | the JSON body, read back by a receiver, yields every argument unchanged |
| Notifier.FirstSuccess | api/services/notifier.py:49-54 | the first attempt among the first n that meets status 200: it succeeded, all before it failed; None means all n failed |
| Notifier.Delivery | api/services/notifier.py:47-64 | a run makes at most Budget(max_retries) attempts. A delivered run ends on an attempt with status 200, and every earlier attempt failed. An undelivered run used the whole budget and every attempt failed. One sleep follows each failed attempt, with delays 1, 2, 4, ... |
| Notifier.NotifyEvaluation | api/services/notifier.py:45-64 | the loop's run is exactly Delivery(outcomes, max_retries), and it returns normally on every script of outcomes. It posts once per attempt, each time with the same URL, the JSON content-type header and the same payload |
| Notifier.BackoffAt | api/services/notifier.py:60-62 | the k-th delay (0-based) is 2^k seconds |
| Notifier.BackoffTotal | api/services/notifier.py:47-62 | the delays after n failures add up to 2^n - 1 seconds |
| Notifier.NoAttemptsWithoutBudget | api/services/notifier.py:49 | max_retries <= 0 makes no attempt and sleeps never |
| Notifier.StopsAtFirstSuccess | api/services/notifier.py:52-54 | when attempt k is the first to meet 200, the call makes k + 1 attempts, sleeps after each of the k failures, and reports delivery |
| Notifier.FailureIsRetried | api/services/notifier.py:52-62 | a non-200 status (other 2xx included) or a transport error with budget left leads to a sleep of 2^k seconds and a further attempt |
| Notifier.AllFailuresExhaustBudget | api/services/notifier.py:49-64 | when every attempt fails, the call makes exactly max_retries attempts, sleeps after each (the last included) for 2^n - 1 seconds in all, and returns |
| Notifier.DefaultScheduleWhenAllFail | api/services/notifier.py:17-62 | with the default max_retries = 5 and no 200, the delays are 1, 2, 4, 8, 16 |
| Text.Strip | api/services/llm_generator.py:45 | `strip()`: the infix of s after its leading whitespace whose two ends are not whitespace, with everything outside it whitespace |
| Text.StripUnique | api/services/llm_generator.py:45 | any infix with that description is the stripped string |
| Text.StripIdempotent | api/services/llm_generator.py:45 | stripping twice is stripping once |
| Text.IndexOf | api/services/llm_generator.py:49 | `index`: the first position of the character, or None exactly when it is absent (ValueError) |
| Text.LastIndexOf | api/services/llm_generator.py:50 | `rindex`: the last position of the character, or None exactly when it is absent (ValueError) |
| Text.SplitLines | api/handlers/build_handler.py:23 | `splitlines()`: no lines exactly for the empty text, and no line holds a line boundary |
| Text.Join | api/handlers/build_handler.py:23 | `"\n".join`: a single part is joined to itself |
| Text.SplitJoin | api/handlers/build_handler.py:23 | the inverse direction: splitting texts joined with "\n" gives them back, when none holds a boundary and the last is not empty |
| Text.Take | api/handlers/build_handler.py:23 | `[:5]`: a prefix of the lines, of exactly n lines when there are at least n and all of them otherwise |
| Text.JoinedLinesArePrefix | api/handlers/build_handler.py:23 | for text broken by "\n" only, joining any number of its first `splitlines()` lines with "\n" gives a prefix of the text |
| Text.JoinSplitLines | api/handlers/build_handler.py:23 | for text broken by "\n" only and not ending in one, joining all its lines with "\n" gives the text back |
| LlmGenerator.FallbackShape | api/services/llm_generator.py:61-64 | the fallback holds exactly index.html and README.md with their fixed contents |
| LlmGenerator.ExtractJsonSpan | api/services/llm_generator.py:48-53 | the extracted text is a contiguous part of the stripped text. The text is unchanged when a brace is missing, and a non-empty result begins with '{' and ends with '}' |
| LlmGenerator.ExtractFromFirstToLast | api/services/llm_generator.py:48-51 | with a the first '{' and b the last '}', the span is s[a..b+1], and the empty string when b < a (Python slicing) |
| LlmGenerator.ExtractIdempotent | api/services/llm_generator.py:48-53 | extracting from the extracted text changes nothing |
| LlmGenerator.Prompt | api/services/llm_generator.py:23-37 | the prompt is the fixed instructions with the brief between them, and the brief can be read back from it |
| LlmGenerator.GenerateAppCode | api/services/llm_generator.py:18-64 | a failed model call or a parse failure gives exactly the fallback; otherwise the result is the parse of the stripped answer's span |
| LlmGenerator.FallbackIndependentOfBrief | api/services/llm_generator.py:58-64 | on failure, every brief gives the same fallback |
| LlmGenerator.GenerateTestAppCode | api/services/llm_generator.py:67-86 | one file, index.html, whose page is the fixed head, then `<h1>` + brief + `</h1>`, then the fixed tail |
| LlmGenerator.TestAppShowsBrief | api/services/llm_generator.py:72-84 | equal test pages mean equal briefs |
| Common.AsMap | api/handlers/revise_handler.py:42 | the dict's map has the dict's names as keys and each name's own content |
| Common.Lookup | api/handlers/build_handler.py:22-23 | `name in code_files` / `code_files[name]`: present exactly when the name is among the names, with that entry's content |
| Common.NatToString | api/handlers/revise_handler.py:84 | `str(n)`: non-empty decimal digits without a leading zero |
| Common.ParseIntToString | api/handlers/revise_handler.py:84 | the decimal rendering of an integer determines the integer |
| Common.RoundMessageNamesRound | api/handlers/revise_handler.py:84 | the round can be read back from "Round {round}..." |
| RemoteRepo.Repository.GetContents | api/handlers/revise_handler.py:44 | a file's current token, or None (not found) exactly when the file is absent |
| RemoteRepo.Repository.UpdateFile | api/handlers/revise_handler.py:45-51 | succeeds exactly when the file exists and the token is current. It then sets the content, gives the file the new commit's token and prepends one commit; otherwise nothing changes |
| RemoteRepo.Repository.CreateFile | api/handlers/revise_handler.py:53-59 | succeeds exactly when the file is absent. It then adds the content and prepends one commit; otherwise nothing changes |
| RemoteRepo.Repository.LatestCommit | api/handlers/revise_handler.py:63 | `get_commits()[0].sha`: the newest commit, or None where the index raises on an empty history |
| ReviseHandler.PagesUrl | api/handlers/revise_handler.py:76 | the Pages URL `https://{GITHUB_USER}.github.io/{task}/` is one of the user's Pages URLs, and the task can be read back from it |
| ReviseHandler.RevisionCommitAt | api/handlers/revise_handler.py:44-59 | the commit for the k-th file is "Update {name} (round 2)" when the file existed and "Add {name} (round 2)" otherwise, and is the repository's commit number base + k |
| ReviseHandler.OverrideKeepsOthers | api/handlers/revise_handler.py:42-60 | after the writes, every generated name holds its content, every other file is untouched, and the names are the old ones plus the generated ones |
| ReviseHandler.Revised | api/handlers/revise_handler.py:66-92 | status "ok", message "Round {round} revision applied", echoed email/task/round/nonce. The notification is sent iff evaluation_url is truthy, carries the response's repo URL, commit and Pages URL, and runs with the default retries |
| ReviseHandler.TokenAt | api/handlers/revise_handler.py:42-60 | after the first n writes, the k-th generated file carries the token of the (base + k)-th commit |
| ReviseHandler.TokensKeepOthers | api/handlers/revise_handler.py:42-60 | after all the writes, every other file keeps its token and the k-th generated file carries the token of the (base + k)-th commit |
| ReviseHandler.UpsertFile | api/handlers/revise_handler.py:43-60 | one iteration: the file gets its generated content and a fresh token (that of the new commit), and exactly one commit is added. The commit is "Update ..." when the file existed (updated with its current token) and "Add ..." when it did not (created) |
| ReviseHandler.WriteFiles | api/handlers/revise_handler.py:42-60 | the loop leaves the old files overridden by the generated ones. It adds one commit per file in dict order (an update for an existing file, with its current token; a creation otherwise). The k-th file gets the token of the commit that wrote it, every other file keeps its token, and the repository stays consistent |
| ReviseHandler.HandleReviseRequest | api/handlers/revise_handler.py:18-94 | a missing repository is an error with nothing written or sent. Otherwise: the files and their tokens are written as above, the reported commit is the head of the history after the writes, and the response and notification are as in Revised |
| ReviseHandler.ReportedCommitIsLastWrite | api/handlers/revise_handler.py:63 | the head after the writes is the commit of the last generated file, or the old head when no file was generated |
| BuildHandler.ReadmePreview | api/handlers/build_handler.py:22-23 | a preview exists exactly when README.md is generated. It joins with "\n" the README's first five lines, or all of them when it has fewer |
| BuildHandler.PreviewIsPrefix | api/handlers/build_handler.py:23 | for a README broken by "\n" only, the preview is its beginning |
| BuildHandler.ShortReadmeShownWhole | api/handlers/build_handler.py:23 | a README of at most five such lines is previewed whole |
| BuildHandler.HandleBuildRequest | api/handlers/build_handler.py:8-60 | a failed push is an error with nothing sent. Otherwise: status "ok" and "Request accepted", the payload's email/task/round/nonce, and the push's repo URL, commit and Pages URL unchanged. A notification is sent iff evaluation_url is truthy, with those same values |
| BuildHandler.ResponseIndependentOfEvaluator | api/handlers/build_handler.py:32-58 | the response and the preview do not depend on how the evaluator answers |
| Api.HandleRequest | api/main.py:35-58 | secret mismatch: 403 "Invalid secret". Round 1: the build handler's answer with status 200 (or its exception). Any other round: 200 with {"status": "error", "message": "Round n not implemented yet"} |
| Api.UnsetSecretRejectsAll | api/main.py:18-44 | with STUDENT_SECRET unset, every request is refused with 403 |
| Api.RefusalIgnoresCollaborators | api/main.py:43-44 | a refused request's reply is the same whatever the generator, push and evaluator do: no handler runs |
| Api.UnroutedRoundNamesRound | api/main.py:50-56 | an unrouted round gets status 200 and an "error" body whose message names the round |
| Api.BuildReplyEchoesRequest | api/main.py:50-58 | an accepted round-1 request whose push succeeds gets status 200 with the build response, echoing the request |
| Api.Health | api/main.py:61-64 | `{"status": "alive"}` |

## Left out

- Attachments in the request: an untyped list that no modelled code reads.
- The `print` logging throughout: it has no behaviour. The README preview is kept as a value because its slicing is logic.
- The model client (`genai.Client`, `generate_content`): a network service, modelled only as a parameter from prompt to answer text or failure.
- `json.loads`: modelled as a partial function to a file set with distinct names. The model does not capture that Python would also accept JSON that is not an object (a list, a number) and return it unchanged.
- `push_to_github` (api/services/github_service.py) is not part of this model. It appears only as a parameter returning the triple or failing.
- `requests.post`, `json.dumps` and `time.sleep`: replaced by the outcome script, the payload map and the recorded delays.
- GitHub itself:
  - Connecting (`Github(token)`, `get_user()`) is left out; repository lookup is a map from name to repository.
  - Content tokens stand for provider-minted identifiers (the `mint` function of a repository).
  - Branches other than `main` are not modelled.
- Blocking notification: both handlers call `notify_evaluation` inline before answering (api/handlers/build_handler.py:32-43, api/handlers/revise_handler.py:66-77). With the defaults, an evaluator that never answers 200 holds the reply back for 1 + 2 + 4 + 8 + 16 = 31 seconds of sleep. Because `handle_request` is `async def` (api/main.py:35), `time.sleep` also blocks the event loop for other requests meanwhile. The model orders the notification before the response, but it has no time or scheduling to show the delay.
- POST without a timeout: `requests.post` at api/services/notifier.py:51 passes no `timeout`, so an attempt whose evaluator accepts the connection and never replies never returns, blocking the handler (and the event loop) for good. The model assumes every POST ends with a status or a transport error: NotifyEvaluation returns on every script of such outcomes, and the 31 seconds above bound only the sleeping, not the wait for answers.
- Concurrency: two revisions racing on one repository are out of scope, because each method runs on its own.
- ReviseHandler.WriteFiles: in the source, any GithubException from `update_file` falls back to `create_file`, which would then raise for an existing file. Against a repository nobody else changes, the token read just before is always current, so the model's update never fails and that path cannot occur.
- ReviseHandler.HandleReviseRequest: every failure of the repository lookup is one error, RepoNotFound. A GithubException raised by other calls (authentication, rate limits) is not modelled.
- The FastAPI layer: routing, pydantic validation, `JSONResponse`, uvicorn and the environment loading. The secret and the user are parameters, and an exception escaping the build handler is a `Raised` value instead of the framework's 500 response.
- Round-2 dispatch: `api/main.py` does not route round 2 to the revise handler (its comment at api/main.py:49 leaves that for later), so the model does not either.
- The test scripts and the stub evaluation server under tests/: they exercise I/O and have no logic of their own.
