/** handle_revise_request: regenerate the files of a task and write them
    into the existing repository of that name, one read-modify-write per file,
    then report the newest commit.

    The GitHub account is a map from repository name to repository; the
    account owner's login (GITHUB_USER) is a parameter, None when the
    environment does not set it. */
module ReviseHandler {
  import opened Common
  import opened Notifier
  import opened LlmGenerator
  import opened RemoteRepo

  function UpdateMessage(name: string): string
  {
    "Update " + name + " (round 2)"
  }

  function AddMessage(name: string): string
  {
    "Add " + name + " (round 2)"
  }

  /** The message of the commit that writes `name`: an update when the
      file exists, an addition otherwise. */
  function WriteMessage(name: string, existing: set<string>): string
  {
    if name in existing then UpdateMessage(name) else AddMessage(name)
  }

  /** `f"https://{GITHUB_USER}.github.io/{task}/"`: a Pages URL of the
      user that carries the name of its task. */
  function PagesUrl(user: Option<string>, task: string): (url: string)
    ensures PagesTask(user, url) == Some(task)
  {
    var head := "https://" + Show(user) + ".github.io/";
    var url := head + task + "/";
    assert url[..|head|] == head;
    assert url[|head|..|url| - 1] == task;
    url
  }

  /** Recovers the task name from a Pages URL of the given user, if it is one. */
  function PagesTask(user: Option<string>, url: string): Option<string>
  {
    var head := "https://" + Show(user) + ".github.io/";
    if |url| > |head| && url[..|head|] == head && url[|url| - 1] == '/' then
      Some(url[|head|..|url| - 1])
    else None
  }

  /** The commits the loop makes for the first n of `files`, newest first:
      one per file, "Update ..." for a name in `existing` and "Add ..." for
      any other, the k-th file's commit being the repository's commit number
      base + k. */
  function RevisionCommits(files: seq<(string, string)>, existing: set<string>, base: nat,
                           mint: nat -> Sha, n: nat): (cs: seq<Commit>)
    requires n <= |files|
    ensures |cs| == n
    decreases n
  {
    if n == 0 then []
    else
      [Commit(mint(base + n - 1), WriteMessage(files[n - 1].0, existing))]
        + RevisionCommits(files, existing, base, mint, n - 1)
  }

  /** The commit written for the k-th file is an update exactly when the
      file existed before, and carries the (base + k)-th identifier. */
  lemma {:induction false} RevisionCommitAt(files: seq<(string, string)>, existing: set<string>, base: nat,
                                            mint: nat -> Sha, n: nat, k: nat)
    requires k < n <= |files|
    ensures RevisionCommits(files, existing, base, mint, n)[n - 1 - k]
            == Commit(mint(base + k), WriteMessage(files[k].0, existing))
    decreases n
  {
    if k < n - 1 {
      RevisionCommitAt(files, existing, base, mint, n - 1, k);
    }
  }

  /** After the writes, every generated file holds exactly its generated
      content and every other file of the repository is untouched. */
  lemma OverrideKeepsOthers(before: map<string, string>, files: seq<(string, string)>)
    requires DistinctNames(files)
    ensures forall k :: 0 <= k < |files| ==> (before + AsMap(files))[files[k].0] == files[k].1
    ensures forall p :: p in before && p !in Names(files) ==> (before + AsMap(files))[p] == before[p]
    ensures (before + AsMap(files)).Keys == before.Keys + Names(files)
  {
  }

  datatype ReviseError = RepoNotFound(task: string) | NoCommits

  datatype Revision = Revision(response: ResponseRecord, notice: Option<Notice>)

  /** What the handler returns once the files are written and the newest
      commit is known: the response, and the notification it sends iff the
      evaluation URL is truthy, with the same repository URL, commit and
      Pages URL. */
  function Revised(payload: RequestPayload, user: Option<string>, repoUrl: string, commitSha: Sha,
                   outcomes: seq<PostOutcome>): (r: Revision)
    ensures r.response.status == "ok"
    ensures r.response.message == RoundMessage(payload.round, " revision applied")
    ensures r.response.email == payload.email && r.response.task == payload.task
    ensures r.response.round == payload.round && r.response.nonce == payload.nonce
    ensures r.response.repoUrl == repoUrl && r.response.commitSha == commitSha
    ensures r.response.pagesUrl == PagesUrl(user, payload.task)
    ensures r.notice.Some? <==> Truthy(payload.evaluationUrl)
    ensures r.notice.Some? ==> r.notice.value.url == payload.evaluationUrl.value
    ensures r.notice.Some? ==> r.notice.value.payload == NotificationPayload(
              payload.email, payload.task, payload.round, payload.nonce,
              r.response.repoUrl, r.response.commitSha, r.response.pagesUrl)
    ensures r.notice.Some? ==> r.notice.value.run == Delivery(outcomes, DefaultMaxRetries)
  {
    var pages := PagesUrl(user, payload.task);
    var response := ResponseRecord("ok", RoundMessage(payload.round, " revision applied"),
                                   payload.email, payload.task, payload.round, payload.nonce,
                                   repoUrl, commitSha, pages);
    if Truthy(payload.evaluationUrl) then
      var p := NotificationPayload(payload.email, payload.task, payload.round, payload.nonce,
                                   repoUrl, commitSha, pages);
      Revision(response, Some(Notice(payload.evaluationUrl.value, p, Delivery(outcomes, DefaultMaxRetries))))
    else
      Revision(response, None)
  }

  /** One more file written: the map grows by that file. */
  lemma FilesStep(before: map<string, string>, files: seq<(string, string)>, i: nat,
                  cur: map<string, string>, now: map<string, string>)
    requires i < |files|
    requires cur == before + AsMap(files[..i])
    requires now == cur[files[i].0 := files[i].1]
    ensures now == before + AsMap(files[..i + 1])
  {
    var next := files[..i + 1];
    assert next[..|next| - 1] == files[..i];
    assert next[|next| - 1] == files[i];
    var m := AsMap(files[..i]);
    assert AsMap(next) == m[files[i].0 := files[i].1];
    UpdateAfterUnion(before, m, files[i].0, files[i].1);
  }

  lemma UpdateAfterUnion(a: map<string, string>, b: map<string, string>, k: string, v: string)
    ensures a + b[k := v] == (a + b)[k := v]
  {
  }

  /** One more file written: its commit goes in front of the log. */
  lemma LogStep(existing: set<string>, files: seq<(string, string)>, i: nat,
                history: seq<Commit>, mint: nat -> Sha, log: seq<Commit>, now: seq<Commit>)
    requires i < |files|
    requires log == RevisionCommits(files, existing, |history|, mint, i) + history
    requires now == [Commit(mint(|log|), WriteMessage(files[i].0, existing))] + log
    ensures now == RevisionCommits(files, existing, |history|, mint, i + 1) + history
  {
    var rc := RevisionCommits(files, existing, |history|, mint, i);
    var c := Commit(mint(|history| + i), WriteMessage(files[i].0, existing));
    assert [c] + (rc + history) == ([c] + rc) + history;
  }

  /** A file not yet written exists now exactly when it existed before the
      loop, so its commit message is the one decided by the old names. */
  lemma MessageUnchanged(before: map<string, string>, files: CodeFiles, i: nat, cur: map<string, string>)
    requires i < |files|
    requires cur == before + AsMap(files[..i])
    ensures WriteMessage(files[i].0, cur.Keys) == WriteMessage(files[i].0, before.Keys)
  {
    assert files[i].0 !in Names(files[..i]);
  }

  /** The tokens the first n of `files` receive when written in order: the
      k-th file gets the identifier of the repository's commit base + k. */
  function Tokens(files: seq<(string, string)>, base: nat, mint: nat -> Sha, n: nat): (t: map<string, Sha>)
    requires n <= |files|
    ensures t.Keys == Names(files[..n])
    decreases n
  {
    if n == 0 then map[]
    else
      assert files[..n] == files[..n - 1] + [files[n - 1]];
      Tokens(files, base, mint, n - 1)[files[n - 1].0 := mint(base + n - 1)]
  }

  /** With distinct names, the k-th file's token is the (base + k)-th
      identifier. */
  lemma {:induction false} TokenAt(files: CodeFiles, base: nat, mint: nat -> Sha, n: nat, k: nat)
    requires k < n <= |files|
    ensures Tokens(files, base, mint, n)[files[k].0] == mint(base + k)
    decreases n
  {
    var prev := Tokens(files, base, mint, n - 1);
    assert Tokens(files, base, mint, n) == prev[files[n - 1].0 := mint(base + n - 1)];
    if k < n - 1 {
      TokenAt(files, base, mint, n - 1, k);
      assert files[k].0 != files[n - 1].0;
    }
  }

  /** The tokens `after` writing `files` over `before`, the k-th write being
      the (base + k)-th commit: every other file keeps its token, and the
      k-th generated file carries the token minted for its commit. */
  ghost predicate TokensWritten(before: map<string, Sha>, after: map<string, Sha>, files: CodeFiles,
                                base: nat, mint: nat -> Sha)
  {
    && (forall p :: p in before && p !in Names(files) ==> p in after && after[p] == before[p])
    && (forall k :: 0 <= k < |files| ==> files[k].0 in after && after[files[k].0] == mint(base + k))
  }

  /** After the writes every generated file carries the token of the commit
      that wrote it, and every other file keeps its token. */
  lemma TokensKeepOthers(before: map<string, Sha>, files: CodeFiles, base: nat, mint: nat -> Sha)
    ensures TokensWritten(before, before + Tokens(files, base, mint, |files|), files, base, mint)
  {
    assert files[..|files|] == files;
    forall k | 0 <= k < |files|
      ensures (before + Tokens(files, base, mint, |files|))[files[k].0] == mint(base + k)
    {
      TokenAt(files, base, mint, |files|, k);
    }
  }

  /** One more file written: it gets the next token. */
  lemma TokensStep(before: map<string, Sha>, files: seq<(string, string)>, i: nat, base: nat, mint: nat -> Sha,
                   cur: map<string, Sha>, stamp: nat, now: map<string, Sha>)
    requires i < |files|
    requires cur == before + Tokens(files, base, mint, i)
    requires stamp == base + i
    requires now == cur[files[i].0 := mint(stamp)]
    ensures now == before + Tokens(files, base, mint, i + 1)
  {
    UpdateAfterUnion(before, Tokens(files, base, mint, i), files[i].0, mint(base + i));
  }

  /** One iteration of step 3: update the file with its current token when
      it exists, create it otherwise. Either way the file gets the content
      and exactly one commit is added, whose message says which it was. */
  method UpsertFile(repo: Repository, name: string, content: string)
    requires repo.Valid()
    modifies repo
    ensures repo.Valid()
    ensures repo.files == old(repo.files)[name := content]
    ensures repo.shas == old(repo.shas)[name := repo.mint(|old(repo.commits)|)]
    ensures repo.commits == [Commit(repo.mint(|old(repo.commits)|), WriteMessage(name, old(repo.files).Keys))]
                            + old(repo.commits)
  {
    var existing := repo.GetContents(name);
    var updated := false;
    if existing.Some? {
      updated := repo.UpdateFile(name, UpdateMessage(name), content, existing.value);
      assert updated;
    }
    if !updated {
      var created := repo.CreateFile(name, AddMessage(name), content);
      assert created;
    }
  }

  /** The i-th iteration of step 3, from the state after i files to the
      state after i + 1. */
  method WriteNext(repo: Repository, files: CodeFiles, i: nat, ghost before: map<string, string>,
                   ghost history: seq<Commit>, ghost tokens: map<string, Sha>)
    requires i < |files|
    requires repo.Valid()
    requires repo.files == before + AsMap(files[..i])
    requires repo.commits == RevisionCommits(files, before.Keys, |history|, repo.mint, i) + history
    requires repo.shas == tokens + Tokens(files, |history|, repo.mint, i)
    modifies repo
    ensures repo.Valid()
    ensures repo.files == before + AsMap(files[..i + 1])
    ensures repo.commits == RevisionCommits(files, before.Keys, |history|, repo.mint, i + 1) + history
    ensures repo.shas == tokens + Tokens(files, |history|, repo.mint, i + 1)
  {
    ghost var cur, log, held := repo.files, repo.commits, repo.shas;
    assert |log| == |history| + i;
    MessageUnchanged(before, files, i, cur);
    UpsertFile(repo, files[i].0, files[i].1);
    FilesStep(before, files, i, cur, repo.files);
    LogStep(before.Keys, files, i, history, repo.mint, log, repo.commits);
    TokensStep(tokens, files, i, |history|, repo.mint, held, |log|, repo.shas);
  }

  /** Step 3 of the handler: every generated file, in dict order, is
      upserted. The files become the old ones overridden by the generated
      ones, and one commit per file is added, newest first. */
  method WriteFiles(repo: Repository, files: CodeFiles)
    requires repo.Valid()
    modifies repo
    ensures repo.Valid()
    ensures repo.files == old(repo.files) + AsMap(files)
    ensures repo.commits == RevisionCommits(files, old(repo.files).Keys, |old(repo.commits)|, repo.mint, |files|)
                            + old(repo.commits)
    ensures repo.shas == old(repo.shas) + Tokens(files, |old(repo.commits)|, repo.mint, |files|)
    ensures TokensWritten(old(repo.shas), repo.shas, files, |old(repo.commits)|, repo.mint)
  {
    ghost var before, history, tokens := repo.files, repo.commits, repo.shas;
    var i := 0;
    while i < |files|
      invariant 0 <= i <= |files|
      invariant repo.Valid()
      invariant repo.files == before + AsMap(files[..i])
      invariant repo.commits == RevisionCommits(files, before.Keys, |history|, repo.mint, i) + history
      invariant repo.shas == tokens + Tokens(files, |history|, repo.mint, i)
    {
      WriteNext(repo, files, i, before, history, tokens);
      i := i + 1;
    }
    assert files[..|files|] == files;
    TokensKeepOthers(tokens, files, |history|, repo.mint);
  }

  /** The revise handler. A missing repository is fatal and nothing is
      written or sent; otherwise the files are written and the newest commit
      is reported, with a notification when the evaluation URL is truthy. */
  method HandleReviseRequest(payload: RequestPayload, user: Option<string>, repos: map<string, Repository>,
                             backend: string -> Option<string>, parse: string -> Option<CodeFiles>,
                             outcomes: seq<PostOutcome>)
    returns (r: Result<Revision, ReviseError>)
    requires payload.task in repos ==> repos[payload.task].Valid()
    modifies if payload.task in repos then {repos[payload.task]} else {}
    ensures payload.task !in repos ==> r == Err(RepoNotFound(payload.task))
    ensures payload.task in repos ==>
      var repo := repos[payload.task];
      var files := GenerateAppCode(payload.brief, backend, parse);
      && repo.Valid()
      && repo.files == old(repo.files) + AsMap(files)
      && repo.commits == RevisionCommits(files, old(repo.files).Keys, |old(repo.commits)|, repo.mint, |files|)
                         + old(repo.commits)
      && repo.shas == old(repo.shas) + Tokens(files, |old(repo.commits)|, repo.mint, |files|)
      && TokensWritten(old(repo.shas), repo.shas, files, |old(repo.commits)|, repo.mint)
      && r == if repo.commits == [] then Err(NoCommits)
              else Ok(Revised(payload, user, repo.htmlUrl, repo.commits[0].sha, outcomes))
  {
    var files := GenerateAppCode(payload.brief, backend, parse);
    if payload.task !in repos {
      return Err(RepoNotFound(payload.task));
    }
    var repo := repos[payload.task];
    WriteFiles(repo, files);
    var head := repo.LatestCommit();
    if head.None? {
      return Err(NoCommits);
    }
    var pages := PagesUrl(user, payload.task);
    var response := ResponseRecord("ok", RoundMessage(payload.round, " revision applied"),
                                   payload.email, payload.task, payload.round, payload.nonce,
                                   repo.htmlUrl, head.value, pages);
    var notice: Option<Notice> := None;
    if Truthy(payload.evaluationUrl) {
      var p := NotificationPayload(payload.email, payload.task, payload.round, payload.nonce,
                                   repo.htmlUrl, head.value, pages);
      var run, posted := NotifyEvaluation(payload.evaluationUrl.value, p, DefaultMaxRetries, outcomes);
      notice := Some(Notice(payload.evaluationUrl.value, p, run));
    }
    r := Ok(Revision(response, notice));
  }

  /** The reported commit is the one written for the last generated file;
      with no files it is the newest commit the repository already had. */
  lemma ReportedCommitIsLastWrite(files: seq<(string, string)>, existing: set<string>, base: nat,
                                  mint: nat -> Sha, history: seq<Commit>)
    requires history != [] || files != []
    ensures var cs := RevisionCommits(files, existing, base, mint, |files|) + history;
            cs[0].sha == if files != [] then mint(base + |files| - 1) else history[0].sha
  {
  }
}
