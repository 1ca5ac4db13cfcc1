/** VcsUtils: the string logic around the Git remote of the application,
    once the repository itself has been found. Finding the repository and
    reading its configuration are not part of this model; the remote names
    and the URL text are inputs. */
module VcsUtils {
  import opened Wrappers
  import opened Text

  /** `cleanRepositoryUrl`: a null or empty URL is returned as it is; a URL
      ending in `.git` loses those four characters, once. */
  function CleanRepositoryUrl(url: Option<string>): (r: Option<string>)
    ensures url.None? ==> r.None?
    ensures url.Some? ==> r.Some?
    ensures url.Some? && EndsWith(url.value, ".git") ==> r.value + ".git" == url.value
    ensures url.Some? && !EndsWith(url.value, ".git") ==> r == url
  {
    match url
    case None => None
    case Some(u) =>
      if |u| == 0 then url
      else if EndsWith(u, ".git") then Some(u[..|u| - 4])
      else url
  }

  /** Appending `.git` and cleaning gives the URL back: the suffix is the
      only thing cleaning removes. */
  lemma CleanUndoesSuffix(u: string)
    ensures CleanRepositoryUrl(Some(u + ".git")) == Some(u)
  {
    var w := u + ".git";
    assert w[|w| - 4..] == ".git";
    assert w[..|w| - 4] == u;
  }

  /** Only one suffix goes: `x.git.git` becomes `x.git`. */
  lemma CleanStripsOnce(u: string)
    ensures CleanRepositoryUrl(Some(u + ".git.git")) == Some(u + ".git")
  {
    assert u + ".git.git" == (u + ".git") + ".git";
    CleanUndoesSuffix(u + ".git");
  }

  /** The remote whose URL is read: `origin` when the repository has one,
      otherwise the first name the set yields; none when there is no
      remote (the `isEmpty` check before the choice). The names are given
      in the set's iteration order. */
  function ChooseRemote(remoteNames: seq<string>): (r: Option<string>)
    ensures r.None? <==> |remoteNames| == 0
    ensures r.Some? ==> r.value in remoteNames
    ensures r.Some? ==> (r.value == "origin" <==> "origin" in remoteNames)
    ensures r.Some? && "origin" !in remoteNames ==> r.value == remoteNames[0]
  {
    if |remoteNames| == 0 then None
    else if "origin" in remoteNames then Some("origin")
    else Some(remoteNames[0])
  }

  /** What the repository search finds: the commit `HEAD` resolves to (none
      when it does not resolve), the remote names in iteration order, and
      the URIs configured for each remote. */
  datatype GitRepository = GitRepository(head: Option<string>, remoteNames: seq<string>, uris: string -> seq<string>)

  /** `getCurrentCommitSha`: null without a repository or without a `HEAD`
      commit. */
  function CurrentCommitSha(repository: Option<GitRepository>): (r: Option<string>)
    ensures r.Some? <==> repository.Some? && repository.value.head.Some?
    ensures r.Some? ==> r == repository.value.head
  {
    if repository.None? then None else repository.value.head
  }

  /** `getRepositoryUrl`: the first URI of the chosen remote, cleaned; null
      without a repository, without remotes, or when that remote has no
      URI. */
  function RepositoryUrl(repository: Option<GitRepository>): (r: Option<string>)
    ensures r.Some? <==>
      && repository.Some? && |repository.value.remoteNames| > 0
      && |repository.value.uris(ChooseRemote(repository.value.remoteNames).value)| > 0
    ensures r.Some? ==>
      r == CleanRepositoryUrl(Some(repository.value.uris(ChooseRemote(repository.value.remoteNames).value)[0]))
  {
    if repository.None? then None
    else
      var repo := repository.value;
      match ChooseRemote(repo.remoteNames)
      case None => None
      case Some(remoteName) =>
        var uris := repo.uris(remoteName);
        if |uris| == 0 then None else CleanRepositoryUrl(Some(uris[0]))
  }
}
