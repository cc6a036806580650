/** The repository fetcher: URL parsing and the rules that turn the three
    GitHub API responses into the raw repository bundle. The HTTP client is
    replaced by a function from request to outcome: an answer, or an
    exception the client raises. */
module GithubService {
  import opened Outcomes
  import opened Text

  const InvalidUrlMessage := "Invalid GitHub URL"
  const NotFoundMessage := "Repository not found or inaccessible"

  /** `parse_github_url`: strip trailing slashes, split on `/`, and return the
      last two pieces as (owner, repo). */
  function ParseGitHubUrl(url: string): (r: Result<(string, string), PyError>)
    ensures r.Success? <==> '/' in RStrip(url, '/')
    ensures r.Failure? ==> r.error == ValueError(InvalidUrlMessage)
  {
    var parts := Split(RStrip(url, '/'), '/');
    if |parts| < 2 then Failure(ValueError(InvalidUrlMessage))
    else Success((parts[|parts| - 2], parts[|parts| - 1]))
  }

  /** A successful parse returns the last two pieces of the split. */
  lemma ParseReturnsLastPieces(url: string)
    requires ParseGitHubUrl(url).Success?
    ensures var parts := Split(RStrip(url, '/'), '/');
      && |parts| >= 2
      && ParseGitHubUrl(url).value == (parts[|parts| - 2], parts[|parts| - 1])
  {
  }

  /** The result is the last two `/`-separated segments of the URL without its
      trailing slashes: neither holds a `/`, and the stripped URL ends with
      `owner/repo` preceded by nothing or by a `/`. */
  lemma ParseTakesLastTwoSegments(url: string, owner: string, repo: string)
    requires ParseGitHubUrl(url) == Success((owner, repo))
    ensures '/' !in owner && '/' !in repo
    ensures EndsWithLastSegments(RStrip(url, '/'), owner, repo, '/')
  {
    ParseReturnsLastPieces(url);
    SplitLastTwo(RStrip(url, '/'), '/');
  }

  /** Conversely, any two slash-free trailing segments of the stripped URL
      are what the parse returns. */
  lemma ParseFindsLastTwoSegments(url: string, owner: string, repo: string)
    requires '/' !in owner && '/' !in repo
    requires EndsWithLastSegments(RStrip(url, '/'), owner, repo, '/')
    ensures ParseGitHubUrl(url) == Success((owner, repo))
  {
    SplitEndsWithSegments(RStrip(url, '/'), owner, repo, '/');
  }

  /** Trailing slashes do not change the result. */
  lemma ParseIgnoresTrailingSlash(url: string)
    ensures ParseGitHubUrl(url + "/") == ParseGitHubUrl(url)
  {
    assert (url + "/")[..|url|] == url;
  }

  /** Empty segments are not skipped: `x//b` parses to `("", "b")`, not to `("x", "b")`. */
  lemma ParseKeepsEmptySegments(host: string, name: string)
    requires '/' !in host && '/' !in name && name != []
    ensures ParseGitHubUrl(host + "//" + name) == Success(("", name))
  {
    var url := host + "//" + name;
    assert url[|url| - 1] == name[|name| - 1] && name[|name| - 1] in name;
    RStripNoTrailing(url, '/');
    var rest := "" + ['/'] + name;
    assert url == host + ['/'] + rest;
    SplitNoSeparator(name, '/');
    SplitAfterSeparator("", name, '/');
    SplitAfterSeparator(host, rest, '/');
    assert Split(url, '/') == [host] + ([""] + [name]);
  }

  /** The three calls `fetch_repository` makes, in the order it makes them. */
  datatype Request =
    | Metadata(owner: string, repo: string)
    | ReadmeRaw(owner: string, repo: string)
    | TreeRecursive(owner: string, repo: string)

  /** The raw repository bundle. `tree` holds the paths of the "tree" member of
      the tree response's JSON, or `None` when that member is absent. */
  datatype RepoData = RepoData(
    metadata: string,
    readme: string,
    tree: Option<seq<string>>,
    owner: string,
    repo: string)

  /** What a call of `fetch_repository` returns or raises, with the requests it issued. */
  datatype Fetched = Fetched(result: Result<RepoData, PyError>, requests: seq<Request>)

  /** `fetch_repository` over an abstract API. `api` answers or raises for each
      request; `jsonError(body)` is the message of the `json.JSONDecodeError`
      that `.json()` raises on a body that is not JSON, and `None` otherwise;
      `decodeTree` reads the paths of the "tree" member of a JSON body. */
  function FetchRepository(url: string, api: Request -> HttpOutcome,
                           jsonError: string -> Option<string>,
                           decodeTree: string -> Option<seq<string>>): (f: Fetched)
    // a failure is a ValueError (answered 400) or an HTTP client exception (answered 500),
    // and it is the latter exactly when the last request issued raised
    ensures f.result.Failure? ==> f.result.error.ValueError? || f.result.error.HttpError?
    ensures (f.result.Failure? && f.result.error.HttpError?) <==>
      (f.requests != [] && api(f.requests[|f.requests| - 1]).Raised?)
    // every request before the last one was answered
    ensures forall i :: 0 <= i < |f.requests| - 1 ==> api(f.requests[i]).Answered?
    // an unparsable URL fails before any request
    ensures ParseGitHubUrl(url).Failure? ==>
      f == Fetched(Failure(ValueError(InvalidUrlMessage)), [])
    ensures ParseGitHubUrl(url).Success? ==>
      var owner := ParseGitHubUrl(url).value.0;
      var repo := ParseGitHubUrl(url).value.1;
      var all := [Metadata(owner, repo), ReadmeRaw(owner, repo), TreeRecursive(owner, repo)];
      var meta := api(all[0]);
      var readme := api(all[1]);
      var tree := api(all[2]);
      // the requests issued are the first ones of the three, in order
      && 1 <= |f.requests| <= 3
      && f.requests == all[..|f.requests|]
      // metadata raising, or answering other than 200, ends the call after one request
      && (meta.Raised? ==> f == Fetched(Failure(HttpError(meta.reason)), all[..1]))
      && (meta.Answered? && meta.status != 200 ==>
            f == Fetched(Failure(ValueError(NotFoundMessage)), all[..1]))
      && (meta.Answered? && meta.status == 200 ==>
            // a raising README request ends the call before the tree is requested
            && (readme.Raised? ==> f == Fetched(Failure(HttpError(readme.reason)), all[..2]))
            && (readme.Answered? ==> f.requests == all)
            && (readme.Answered? && tree.Raised? ==> f.result == Failure(HttpError(tree.reason)))
            // the tree body is decoded before the metadata body
            && (readme.Answered? && tree.Answered? && jsonError(tree.text).Some? ==>
                  f.result == Failure(ValueError(jsonError(tree.text).value)))
            && (readme.Answered? && tree.Answered? && jsonError(tree.text).None?
                  && jsonError(meta.text).Some? ==>
                  f.result == Failure(ValueError(jsonError(meta.text).value)))
            // otherwise the bundle is built
            && (readme.Answered? && tree.Answered? && jsonError(tree.text).None?
                  && jsonError(meta.text).None? ==>
                  f.result == Success(RepoData(
                    meta.text,
                    if readme.status == 200 then readme.text else "",
                    decodeTree(tree.text),
                    owner,
                    repo))))
  {
    match ParseGitHubUrl(url)
    case Failure(e) => Fetched(Failure(e), [])
    case Success((owner, repo)) =>
      var all := [Metadata(owner, repo), ReadmeRaw(owner, repo), TreeRecursive(owner, repo)];
      var meta := api(Metadata(owner, repo));
      if meta.Raised? then
        Fetched(Failure(HttpError(meta.reason)), all[..1])
      else if meta.status != 200 then
        Fetched(Failure(ValueError(NotFoundMessage)), all[..1])
      else
        var readme := api(ReadmeRaw(owner, repo));
        if readme.Raised? then
          Fetched(Failure(HttpError(readme.reason)), all[..2])
        else
          var tree := api(TreeRecursive(owner, repo));
          if tree.Raised? then
            Fetched(Failure(HttpError(tree.reason)), all)
          else if jsonError(tree.text).Some? then
            Fetched(Failure(ValueError(jsonError(tree.text).value)), all)
          else if jsonError(meta.text).Some? then
            Fetched(Failure(ValueError(jsonError(meta.text).value)), all)
          else
            Fetched(
              Success(RepoData(
                meta.text,
                if readme.status == 200 then readme.text else "",
                decodeTree(tree.text),
                owner,
                repo)),
              all)
  }

  /** A fetch succeeds exactly when the URL parses, the metadata call answers 200,
      the README and tree calls answer with any status, and both decoded bodies
      are JSON; the bundle then names the repository that the URL names. */
  lemma FetchSucceedsIff(url: string, api: Request -> HttpOutcome,
                         jsonError: string -> Option<string>,
                         decodeTree: string -> Option<seq<string>>)
    ensures var f := FetchRepository(url, api, jsonError, decodeTree);
      f.result.Success? <==>
        && ParseGitHubUrl(url).Success?
        && var owner := ParseGitHubUrl(url).value.0;
           var repo := ParseGitHubUrl(url).value.1;
           var meta := api(Metadata(owner, repo));
           var tree := api(TreeRecursive(owner, repo));
           && meta.Answered? && meta.status == 200
           && api(ReadmeRaw(owner, repo)).Answered?
           && tree.Answered?
           && jsonError(tree.text).None?
           && jsonError(meta.text).None?
    ensures var f := FetchRepository(url, api, jsonError, decodeTree);
      f.result.Success? ==> ParseGitHubUrl(url) == Success((f.result.value.owner, f.result.value.repo))
  {
  }
}
