/**
 * The git source a sandbox is allocated from: the GitHub clone URL of the
 * repository, and its inverse, which shows that the URL names the repository.
 */
module GitSource {
  import opened Wrappers

  const GitHubPrefix: string := "https://github.com/"
  const GitSuffix: string := ".git"

  /** `https://github.com/{owner}/{repo}.git`: the GitHub host, the path `owner/repo`, the `.git` suffix. */
  function GitUrl(owner: string, repo: string): (url: string)
    ensures |url| == |GitHubPrefix| + |owner| + 1 + |repo| + |GitSuffix|
    ensures url[..|GitHubPrefix|] == GitHubPrefix && url[|url| - |GitSuffix|..] == GitSuffix
    ensures url[|GitHubPrefix|..|url| - |GitSuffix|] == owner + "/" + repo
  {
    GitHubPrefix + owner + "/" + repo + GitSuffix
  }

  /** The position of the first `c` in `s`, if there is one. */
  function FirstIndexOf(s: string, c: char): (r: Option<nat>)
    ensures r.Some? ==> r.value < |s| && s[r.value] == c && c !in s[..r.value]
    ensures r.None? ==> c !in s
  {
    if s == [] then None
    else if s[0] == c then Some(0)
    else match FirstIndexOf(s[1..], c)
      case None => None
      case Some(i) =>
        assert s[..i + 1] == [s[0]] + s[1..][..i];
        Some(i + 1)
  }

  /**
   * Reads owner and repository back from a clone URL; the owner ends at the
   * first slash after the host.
   */
  function ParseGitUrl(url: string): (r: Option<(string, string)>)
    ensures r.Some? ==> '/' !in r.value.0 && GitUrl(r.value.0, r.value.1) == url
  {
    if |url| < |GitHubPrefix| + |GitSuffix|
      || url[..|GitHubPrefix|] != GitHubPrefix
      || url[|url| - |GitSuffix|..] != GitSuffix
    then None
    else
      var path := url[|GitHubPrefix|..|url| - |GitSuffix|];
      match FirstIndexOf(path, '/')
      case None => None
      case Some(i) =>
        assert path == path[..i] + "/" + path[i + 1..];
        assert url == GitHubPrefix + path + GitSuffix;
        Some((path[..i], path[i + 1..]))
  }

  /** A GitHub owner never contains a slash, so the clone URL gives back owner and repository. */
  lemma ParseGitUrlRoundTrip(owner: string, repo: string)
    requires '/' !in owner
    ensures ParseGitUrl(GitUrl(owner, repo)) == Some((owner, repo))
  {
    var url := GitUrl(owner, repo);
    var path := owner + "/" + repo;
    assert url[..|GitHubPrefix|] == GitHubPrefix;
    assert url[|url| - |GitSuffix|..] == GitSuffix;
    assert url[|GitHubPrefix|..|url| - |GitSuffix|] == path;
    assert path[|owner|] == '/';
    assert FirstIndexOf(path, '/') == Some(|owner|);
    assert path[..|owner|] == owner;
    assert path[|owner| + 1..] == repo;
  }

  /** Two repositories with slash-free owners never share a clone URL. */
  lemma GitUrlInjective(owner1: string, repo1: string, owner2: string, repo2: string)
    requires '/' !in owner1 && '/' !in owner2
    requires GitUrl(owner1, repo1) == GitUrl(owner2, repo2)
    ensures owner1 == owner2 && repo1 == repo2
  {
    ParseGitUrlRoundTrip(owner1, repo1);
    ParseGitUrlRoundTrip(owner2, repo2);
  }
}
