/**
 * The URL classifier: `api`, `orgp`, `slug` and `ourl`. Each one turns a
 * configured GitHub page URL into something about its REST endpoint, using
 * JavaScript's `String.prototype.replace` and two regular expressions, which
 * are written out here as searches over the string.
 */
module Urls {
  import opened Wrappers

  /** The web host that `api` rewrites. */
  const Host: string := "github.com"
  /** What `api` puts in place of the first occurrence of the host. */
  const RepoApiHost: string := "api.github.com/repos"
  /** The literal part of the organisation-page pattern `github\.com\/orgs\/[^/]+`. */
  const OrgPath: string := "github.com/orgs/"
  /** The start of every endpoint `ourl` builds. */
  const OrgApiBase: string := "https://api.github.com/orgs/"
  /** The start of every endpoint `api` builds from a configured repository page. */
  const RepoApiBase: string := "https://api.github.com/repos/"
  /** How the configured pages begin. */
  const PagePrefix: string := "https://github.com/"

  predicate NoSlash(s: string) {
    forall k :: 0 <= k < |s| ==> s[k] != '/'
  }

  predicate OccursAt(s: string, pat: string, i: nat) {
    i + |pat| <= |s| && s[i..i + |pat|] == pat
  }

  /** The leftmost occurrence of `pat` in `s` at or after position `i`. */
  function FindFrom(s: string, pat: string, i: nat): (r: Option<nat>)
    decreases |s| - i
    ensures r.Some? ==> i <= r.value && OccursAt(s, pat, r.value)
    ensures r.Some? ==> forall j :: i <= j < r.value ==> !OccursAt(s, pat, j)
    ensures r.None? ==> forall j :: i <= j ==> !OccursAt(s, pat, j)
  {
    if |s| < i + |pat| then None
    else if s[i..i + |pat|] == pat then Some(i)
    else FindFrom(s, pat, i + 1)
  }

  /** `s.replace(pat, rep)` with a string pattern: only the first occurrence is replaced. */
  function ReplaceFirst(s: string, pat: string, rep: string): string {
    match FindFrom(s, pat, 0)
    case None => s
    case Some(i) => s[..i] + rep + s[i + |pat|..]
  }

  /** `s.replace(/\/$/, '')`: without the `m` flag `$` is the end of the input only. */
  function StripTrailingSlash(s: string): string {
    if |s| > 0 && s[|s| - 1] == '/' then s[..|s| - 1] else s
  }

  /** `api(url)`: the repository endpoint for a repository page. */
  function Api(url: string): string {
    StripTrailingSlash(ReplaceFirst(url, Host, RepoApiHost))
  }

  /** The organisation pattern matches at `i`: the literal, then at least one non-`/`. */
  predicate OrgMatchAt(s: string, i: nat) {
    OccursAt(s, OrgPath, i) && i + |OrgPath| < |s| && s[i + |OrgPath|] != '/'
  }

  /** Where the regular-expression engine finds the organisation pattern: the leftmost match at or after `i`. */
  function FindOrg(s: string, i: nat): (r: Option<nat>)
    decreases |s| - i
    ensures r.Some? ==> i <= r.value && OrgMatchAt(s, r.value)
    ensures r.Some? ==> forall j :: i <= j < r.value ==> !OrgMatchAt(s, j)
    ensures r.None? ==> forall j :: i <= j ==> !OrgMatchAt(s, j)
  {
    if |s| <= i + |OrgPath| then None
    else if s[i..i + |OrgPath|] == OrgPath && s[i + |OrgPath|] != '/' then Some(i)
    else FindOrg(s, i + 1)
  }

  /** What the greedy group `([^/]+)` captures from position `j`: the longest run without `/`. */
  function SlashFreeRun(s: string, j: nat): (r: string)
    requires j <= |s|
    decreases |s| - j
    ensures j + |r| <= |s| && s[j..j + |r|] == r && NoSlash(r)
    ensures j + |r| == |s| || s[j + |r|] == '/'
  {
    if j == |s| || s[j] == '/' then [] else [s[j]] + SlashFreeRun(s, j + 1)
  }

  /** Any slash-free text that is followed by `/` or by the end is the run the group captures. */
  lemma {:induction false} SlashFreeRunUnique(s: string, j: nat, r: string)
    requires j + |r| <= |s| && s[j..j + |r|] == r && NoSlash(r)
    requires j + |r| == |s| || s[j + |r|] == '/'
    ensures SlashFreeRun(s, j) == r
    decreases |r|
  {
    if r != [] {
      assert s[j] == r[0];
      assert s[j + 1..j + 1 + |r[1..]|] == r[1..];
      SlashFreeRunUnique(s, j + 1, r[1..]);
    }
  }

  /** `orgp(url)`: the organisation pattern matches somewhere in `url`. */
  predicate Orgp(url: string)
    ensures Orgp(url) <==> exists i: nat :: OrgMatchAt(url, i)
  {
    FindOrg(url, 0).Some?
  }

  /** `slug(url)`: the captured organisation name, or `""` when the pattern does not match. */
  function Slug(url: string): (r: string)
    ensures NoSlash(r)
    ensures r != [] <==> Orgp(url)
    ensures Orgp(url) ==> exists i: nat ::
      && OrgMatchAt(url, i)
      && (forall j :: 0 <= j < i ==> !OrgMatchAt(url, j))
      && OccursAt(url, r, i + |OrgPath|)
      && (i + |OrgPath| + |r| == |url| || url[i + |OrgPath| + |r|] == '/')
  {
    match FindOrg(url, 0)
    case None => []
    case Some(i) => SlashFreeRun(url, i + |OrgPath|)
  }

  /** `ourl(url)`: the organisation-details endpoint. */
  function Ourl(url: string): string {
    OrgApiBase + Slug(url)
  }

  /** A configured repository page, `https://github.com/<owner>/<name>` with an optional trailing slash. */
  function RepoPage(owner: string, name: string, slash: bool): string {
    PagePrefix + owner + "/" + name + (if slash then "/" else "")
  }

  /** A configured organisation page, `https://github.com/orgs/<name>` with an optional trailing slash. */
  function OrgPage(name: string, slash: bool): string {
    PagePrefix + "orgs/" + name + (if slash then "/" else "")
  }

  /** No text starting before position 8 of a configured page can be `github.com`. */
  lemma HostFirstAtEight(url: string, pat: string)
    requires PagePrefix <= url
    requires |pat| > 0 && pat[0] == 'g'
    ensures forall j :: 0 <= j < 8 ==> !OccursAt(url, pat, j)
  {
    forall j | 0 <= j < 8
      ensures !OccursAt(url, pat, j)
    {
      assert url[j] == PagePrefix[j] != 'g';
    }
  }

  /** Replacing the first `github.com` of a configured page rewrites the host right after the scheme. */
  lemma ReplaceHostOfPage(rest: string)
    ensures ReplaceFirst(PagePrefix + rest, Host, RepoApiHost) == "https://" + RepoApiHost + "/" + rest
  {
    var url := PagePrefix + rest;
    assert url[8..8 + |Host|] == Host;
    assert OccursAt(url, Host, 8);
    HostFirstAtEight(url, Host);
    assert FindFrom(url, Host, 0) == Some(8);
    assert url[..8] == "https://";
    assert url[8 + |Host|..] == "/" + rest;
  }

  /**
   * `api` never leaves a trailing slash behind when the page URL ended in
   * exactly one `/`: the replacement contains no `/` at its end, and the one
   * slash is removed.
   */
  lemma ApiStripsSingleSlash(url: string)
    requires |url| > 0 && url[|url| - 1] == '/'
    requires |url| == 1 || url[|url| - 2] != '/'
    ensures var r := Api(url); r == [] || r[|r| - 1] != '/'
  {
    var n := |url|;
    match FindFrom(url, Host, 0)
    case None =>
      assert ReplaceFirst(url, Host, RepoApiHost) == url;
    case Some(i) =>
      var rep := url[..i] + RepoApiHost + url[i + |Host|..];
      assert ReplaceFirst(url, Host, RepoApiHost) == rep;
      assert url[i + |Host| - 1] == url[i..i + |Host|][|Host| - 1] == 'm';
      assert i + |Host| < n;
      assert rep[|rep| - 1] == url[n - 1];
      var stripped := rep[..|rep| - 1];
      assert Api(url) == stripped;
      assert i + |Host| == n - 1 ==> stripped[|stripped| - 1] == RepoApiHost[|RepoApiHost| - 1];
      assert i + |Host| < n - 1 ==> stripped[|stripped| - 1] == url[n - 2];
  }

  /** A repository page maps to `https://api.github.com/repos/<owner>/<name>`, trailing slash removed. */
  lemma ApiOfRepoPage(owner: string, name: string, slash: bool)
    requires |name| > 0 && name[|name| - 1] != '/'
    ensures Api(RepoPage(owner, name, slash)) == RepoApiBase + owner + "/" + name
  {
    var tail := if slash then "/" else "";
    var rest := owner + "/" + name + tail;
    var expected := RepoApiBase + owner + "/" + name;
    calc {
      ReplaceFirst(RepoPage(owner, name, slash), Host, RepoApiHost);
      { assert RepoPage(owner, name, slash) == PagePrefix + rest; }
      ReplaceFirst(PagePrefix + rest, Host, RepoApiHost);
      { ReplaceHostOfPage(rest); }
      "https://" + RepoApiHost + "/" + rest;
      { assert "https://" + RepoApiHost + "/" == RepoApiBase; }
      RepoApiBase + rest;
      expected + tail;
    }
    assert (expected + tail)[..|expected|] == expected;
    assert expected[|expected| - 1] == name[|name| - 1];
  }

  /** An organisation page matches the pattern at 8, and `slug` gives back the organisation name. */
  lemma SlugOfOrgPage(name: string, slash: bool)
    requires |name| > 0 && NoSlash(name)
    ensures Orgp(OrgPage(name, slash))
    ensures Slug(OrgPage(name, slash)) == name
    ensures Ourl(OrgPage(name, slash)) == OrgApiBase + name
  {
    var url := OrgPage(name, slash);
    var start := 8 + |OrgPath|;
    assert url == "https://" + OrgPath + name + (if slash then "/" else "");
    assert url[8..start] == OrgPath;
    assert url[start] == name[0];
    assert OrgMatchAt(url, 8);
    HostFirstAtEight(url, OrgPath);
    assert FindOrg(url, 0) == Some(8);
    assert url[start..start + |name|] == name;
    assert start + |name| == |url| || url[start + |name|] == '/';
    SlashFreeRunUnique(url, start, name);
  }

  /** Where a repository page can have a `/`: the scheme, after the host, between owner and name, at the end. */
  lemma SlashesOfRepoPage(owner: string, name: string, slash: bool, k: nat)
    requires NoSlash(owner) && NoSlash(name)
    requires k < |RepoPage(owner, name, slash)|
    ensures RepoPage(owner, name, slash)[k] == '/' ==>
      k == 6 || k == 7 || k == 18 || k == 19 + |owner| || (slash && k == |RepoPage(owner, name, slash)| - 1)
  {
    var url := RepoPage(owner, name, slash);
    var o := |PagePrefix|;
    if k < o {
      assert url[k] == PagePrefix[k];
    } else if k < o + |owner| {
      assert url[k] == owner[k - o];
    } else if o + |owner| < k < o + |owner| + 1 + |name| {
      assert url[k] == name[k - o - |owner| - 1];
    }
  }

  /** The organisation pattern cannot match at position `i` of a repository page whose owner is not `orgs`. */
  lemma NoOrgMatchInRepoPage(owner: string, name: string, slash: bool, i: nat)
    requires NoSlash(owner) && NoSlash(name) && owner != "orgs"
    ensures !OrgMatchAt(RepoPage(owner, name, slash), i)
  {
    var url := RepoPage(owner, name, slash);
    assert url[19..19 + |owner|] == owner;
    if OccursAt(url, OrgPath, i) {
      var window := url[i..i + |OrgPath|];
      assert window == OrgPath;
      assert url[i + 10] == window[10] == '/';
      assert url[i + 15] == window[15] == '/';
      assert url[i + 11] == window[11] == 'o' && url[i + 12] == window[12] == 'r';
      assert url[i + 13] == window[13] == 'g' && url[i + 14] == window[14] == 's';
      assert url[i + 11..i + 15] == "orgs";
      SlashesOfRepoPage(owner, name, slash, i + 10);
      SlashesOfRepoPage(owner, name, slash, i + 15);
    }
  }

  /**
   * A repository page whose owner is not `orgs` does not match the
   * organisation pattern: the two slashes around `orgs` would have to be the
   * ones around the owner, or the name would have to be followed by nothing.
   */
  lemma RepoPageIsNotOrg(owner: string, name: string, slash: bool)
    requires NoSlash(owner) && NoSlash(name) && owner != "orgs"
    ensures !Orgp(RepoPage(owner, name, slash))
  {
    forall i: nat
      ensures !OrgMatchAt(RepoPage(owner, name, slash), i)
    {
      NoOrgMatchInRepoPage(owner, name, slash, i);
    }
  }
}
