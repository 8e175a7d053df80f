/** The hosted repository as the revise handler sees it through PyGithub:
    the files of branch main, the content token ("sha") of each file, and
    the commit history, newest first as `get_commits()` lists it. Commit
    identifiers are minted by the provider; the model asks `mint` for them,
    the n-th commit of the repository receiving `mint(n)`. Every write also
    gives the file a fresh token, and the model takes the identifier of the
    write's commit for it. GitHub's own token is a hash of the blob; the
    model keeps only what PyGithub relies on: an update must present the
    file's current token. */
module RemoteRepo {
  import opened Common

  type Sha = string

  datatype Commit = Commit(sha: Sha, message: string)

  class Repository {
    const htmlUrl: string
    const mint: nat -> Sha
    var files: map<string, string>
    var shas: map<string, Sha>
    var commits: seq<Commit>

    /** Every file has a token and every token belongs to a file. */
    ghost predicate Valid()
      reads this
    {
      shas.Keys == files.Keys
    }

    /** An empty repository. */
    constructor (htmlUrl: string, mint: nat -> Sha)
      ensures Valid()
      ensures this.htmlUrl == htmlUrl && this.mint == mint
      ensures files == map[] && shas == map[] && commits == []
    {
      this.htmlUrl := htmlUrl;
      this.mint := mint;
      files, shas, commits := map[], map[], [];
    }

    /** `get_contents(path, ref="main")`: the file's token, or None where
        PyGithub raises a not-found GithubException. */
    method GetContents(path: string) returns (r: Option<Sha>)
      requires Valid()
      ensures r.Some? <==> path in files
      ensures r.Some? ==> r.value == shas[path]
    {
      r := if path in shas then Some(shas[path]) else None;
    }

    /** `update_file(path, message, content, sha)`: refused (GithubException)
        unless the file exists and sha is its current token; otherwise one
        commit that sets the file's content. */
    method UpdateFile(path: string, message: string, content: string, sha: Sha) returns (ok: bool)
      requires Valid()
      modifies this
      ensures Valid()
      ensures ok == (path in old(files) && old(shas)[path] == sha)
      ensures ok ==> files == old(files)[path := content]
      ensures ok ==> shas == old(shas)[path := mint(|old(commits)|)]
      ensures ok ==> commits == [Commit(mint(|old(commits)|), message)] + old(commits)
      ensures !ok ==> files == old(files) && shas == old(shas) && commits == old(commits)
    {
      ok := path in shas && shas[path] == sha;
      if ok {
        var id := mint(|commits|);
        files := files[path := content];
        shas := shas[path := id];
        commits := [Commit(id, message)] + commits;
      }
    }

    /** `create_file(path, message, content)`: refused (GithubException) when
        the file already exists; otherwise one commit that adds it. */
    method CreateFile(path: string, message: string, content: string) returns (ok: bool)
      requires Valid()
      modifies this
      ensures Valid()
      ensures ok == (path !in old(files))
      ensures ok ==> files == old(files)[path := content]
      ensures ok ==> shas == old(shas)[path := mint(|old(commits)|)]
      ensures ok ==> commits == [Commit(mint(|old(commits)|), message)] + old(commits)
      ensures !ok ==> files == old(files) && shas == old(shas) && commits == old(commits)
    {
      ok := path !in shas;
      if ok {
        var id := mint(|commits|);
        files := files[path := content];
        shas := shas[path := id];
        commits := [Commit(id, message)] + commits;
      }
    }

    /** `get_commits()[0].sha`: the newest commit, or None where the empty
        history makes the index raise. */
    method LatestCommit() returns (r: Option<Sha>)
      ensures r.Some? <==> commits != []
      ensures r.Some? ==> r.value == commits[0].sha
    {
      r := if commits == [] then None else Some(commits[0].sha);
    }
  }
}
