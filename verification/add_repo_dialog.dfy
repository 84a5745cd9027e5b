/** The add-repository dialog's two pure helpers: reading `owner/repo` out of
    what the user typed, and toggling a label in the selected set. */
module AddRepoDialog {
  import opened Base
  import opened Text

  /** `{ owner, repo }`. */
  datatype RepoRef = RepoRef(owner: string, repo: string)

  predicate NoSlash(s: string) {
    forall k :: 0 <= k < |s| ==> s[k] != '/'
  }

  /** The end of the longest run of non-slash characters of `t` starting at `i`:
      what a greedy `[^/]+` consumes. */
  function RunEnd(t: string, i: nat): (j: nat)
    requires i <= |t|
    ensures i <= j <= |t|
    ensures NoSlash(t[i..j])
    ensures j < |t| ==> t[j] == '/'
    decreases |t| - i
  {
    if i == |t| || t[i] == '/' then i
    else
      var j := RunEnd(t, i + 1);
      assert t[i..j] == [t[i]] + t[i + 1..j];
      j
  }

  /** `/^([^/]+)\/([^/]+)$/`: a non-empty owner, one slash, a non-empty repo, nothing else. */
  function SlashPair(t: string): (m: Option<RepoRef>)
    ensures m.Some? ==> t == m.value.owner + "/" + m.value.repo
    ensures m.Some? ==> m.value.owner != [] && m.value.repo != [] && NoSlash(m.value.owner) && NoSlash(m.value.repo)
  {
    var i := RunEnd(t, 0);
    if i == 0 || i == |t| then None
    else
      var j := RunEnd(t, i + 1);
      if j == i + 1 || j != |t| then None
      else
        assert t == t[..i] + "/" + t[i + 1..];
        Some(RepoRef(t[..i], t[i + 1..]))
  }

  const Host := "github.com/"

  predicate HostAt(t: string, p: nat) {
    p + |Host| <= |t| && t[p..p + |Host|] == Host
  }

  /** `/github\.com\/([^/]+)\/([^/]+)/` tried at position `p` only. */
  function GithubAt(t: string, p: nat): (m: Option<RepoRef>)
    requires p <= |t|
    ensures m.Some? ==> OccursAt(t, Host + m.value.owner + "/" + m.value.repo, p)
    ensures m.Some? ==> m.value.owner != [] && m.value.repo != [] && NoSlash(m.value.owner) && NoSlash(m.value.repo)
  {
    if !HostAt(t, p) then None
    else
      var a := p + |Host|;
      var b := RunEnd(t, a);
      if b == a || b == |t| then None
      else
        var c := RunEnd(t, b + 1);
        if c == b + 1 then None
        else
          assert t[p..c] == t[p..a] + t[a..b] + "/" + t[b + 1..c];
          Some(RepoRef(t[a..b], t[b + 1..c]))
  }

  /** The unanchored search: the leftmost position from `p` on where the pattern matches. */
  function GithubFrom(t: string, p: nat): (m: Option<RepoRef>)
    requires p <= |t|
    ensures m.Some? ==> m.value.owner != [] && m.value.repo != [] && NoSlash(m.value.owner) && NoSlash(m.value.repo)
    decreases |t| - p
  {
    var here := GithubAt(t, p);
    if here.Some? || p == |t| then here
    else GithubFrom(t, p + 1)
  }

  /** What the search finds is the match at the leftmost position that has one. */
  lemma {:induction false} GithubFromLeftmost(t: string, p: nat)
    requires p <= |t| && GithubFrom(t, p).Some?
    ensures exists q :: p <= q <= |t| && GithubAt(t, q) == GithubFrom(t, p) &&
                        forall k :: p <= k < q ==> GithubAt(t, k).None?
    decreases |t| - p
  {
    if GithubAt(t, p).None? {
      GithubFromLeftmost(t, p + 1);
      var q :| p + 1 <= q <= |t| && GithubAt(t, q) == GithubFrom(t, p + 1) &&
               forall k :: p + 1 <= k < q ==> GithubAt(t, k).None?;
      assert forall k :: p <= k < q ==> GithubAt(t, k).None?;
    } else {
      assert GithubAt(t, p) == GithubFrom(t, p);
    }
  }

  /** The search fails only when no position matches. */
  lemma {:induction false} GithubFromNone(t: string, p: nat)
    requires p <= |t| && GithubFrom(t, p).None?
    ensures forall q :: p <= q <= |t| ==> GithubAt(t, q).None?
    decreases |t| - p
  {
    if p < |t| {
      GithubFromNone(t, p + 1);
    }
  }

  /** `.replace(/\.git$/, "")`. */
  function StripGit(r: string): (s: string)
    ensures s == r || r == s + ".git"
    ensures |r| >= 4 && r[|r| - 4..] == ".git" ==> r == s + ".git"
  {
    if |r| >= 4 && r[|r| - 4..] == ".git" then
      assert r == r[..|r| - 4] + ".git";
      r[..|r| - 4]
    else r
  }

  /** `parseRepoUrl`: the text is trimmed, the bare form is tried first and the
      github.com form second; the repo loses a trailing `.git`. */
  function ParseRepoUrl(url: string): (r: Option<RepoRef>)
    // the owner is a non-empty name without slashes, and so is the repo before stripping
    ensures r.Some? ==> r.value.owner != [] && NoSlash(r.value.owner) && NoSlash(r.value.repo)
  {
    var t := Trim(url);
    match SlashPair(t)
    case Some(m) => Some(RepoRef(m.owner, StripGit(m.repo)))
    case None =>
      match GithubFrom(t, 0)
      case Some(m) => Some(RepoRef(m.owner, StripGit(m.repo)))
      case None => None
  }

  /** Every answer is read out of the trimmed text: either the whole text is
      `owner/repo`, or `github.com/owner/repo` occurs in it, where the repo may
      carry the `.git` that was stripped. */
  lemma ParseRepoUrlSound(url: string)
    requires ParseRepoUrl(url).Some?
    ensures var r := ParseRepoUrl(url).value;
            exists full :: (full == r.repo || full == r.repo + ".git") &&
              (Trim(url) == r.owner + "/" + full || Contains(Trim(url), Host + r.owner + "/" + full))
  {
    var t := Trim(url);
    var r := ParseRepoUrl(url).value;
    if SlashPair(t).Some? {
      var m := SlashPair(t).value;
      assert t == r.owner + "/" + m.repo;
    } else {
      GithubFromLeftmost(t, 0);
      var q :| 0 <= q <= |t| && GithubAt(t, q) == GithubFrom(t, 0) &&
               forall k :: 0 <= k < q ==> GithubAt(t, k).None?;
      GithubAtOccurs(t, q);
    }
  }

  /** A match at `q` is a substring of the text. */
  lemma GithubAtOccurs(t: string, q: nat)
    requires q <= |t| && GithubAt(t, q).Some?
    ensures Contains(t, Host + GithubAt(t, q).value.owner + "/" + GithubAt(t, q).value.repo)
  {
    var m := GithubAt(t, q).value;
    ContainsIff(t, Host + m.owner + "/" + m.repo);
  }

  /** Text that is exactly `owner/repo`, with no slash in either and nothing to trim, parses to them. */
  lemma ParsesBareForm(owner: string, repo: string)
    requires owner != [] && repo != [] && NoSlash(owner) && NoSlash(repo)
    requires !IsWhitespace(owner[0]) && !IsWhitespace(repo[|repo| - 1])
    ensures ParseRepoUrl(owner + "/" + repo) == Some(RepoRef(owner, StripGit(repo)))
  {
    var t := owner + "/" + repo;
    TrimNoop(t);
    RunEndOver(t, 0, |owner|);
    RunEndOver(t, |owner| + 1, |t|);
    assert t[..|owner|] == owner && t[|owner| + 1..] == repo;
  }

  /** A slash-free stretch ending at a slash or at the end is exactly one run. */
  lemma {:induction false} RunEndOver(t: string, i: nat, j: nat)
    requires i <= j <= |t| && NoSlash(t[i..j]) && (j < |t| ==> t[j] == '/')
    ensures RunEnd(t, i) == j
    decreases j - i
  {
    if i < j {
      assert t[i] == t[i..j][0];
      assert t[i + 1..j] == t[i..j][1..];
      RunEndOver(t, i + 1, j);
    }
  }

  /** `https://github.com/owner/repo` parses to the owner and the stripped repo. */
  lemma ParsesGithubUrl(owner: string, repo: string)
    requires owner != [] && repo != [] && NoSlash(owner) && NoSlash(repo)
    requires !IsWhitespace(repo[|repo| - 1])
    ensures ParseRepoUrl("https://" + (Host + owner + "/" + repo)) == Some(RepoRef(owner, StripGit(repo)))
  {
    HttpsTrimmed(owner, repo);
    HttpsIsNotBare(Host + owner + "/" + repo);
    HttpsFound(owner, repo);
  }

  /** Such a URL has no whitespace at either end to trim. */
  lemma HttpsTrimmed(owner: string, repo: string)
    requires repo != [] && !IsWhitespace(repo[|repo| - 1])
    ensures Trim("https://" + (Host + owner + "/" + repo)) == "https://" + (Host + owner + "/" + repo)
  {
    var t := "https://" + (Host + owner + "/" + repo);
    assert t[0] == 'h' && t[|t| - 1] == repo[|repo| - 1];
    TrimNoop(t);
  }

  /** The first match in such a URL is the one after the scheme. */
  lemma HttpsFound(owner: string, repo: string)
    requires owner != [] && repo != [] && NoSlash(owner) && NoSlash(repo)
    ensures GithubFrom("https://" + (Host + owner + "/" + repo), 0) == Some(RepoRef(owner, repo))
  {
    var rest := Host + owner + "/" + repo;
    HttpsMatchesNoEarlier(rest);
    HttpsMatch(owner, repo);
    GithubFromSkips("https://" + rest, 0, 8);
  }

  /** After `https://` the pattern matches at index 8. */
  lemma HttpsMatch(owner: string, repo: string)
    requires owner != [] && repo != [] && NoSlash(owner) && NoSlash(repo)
    ensures GithubAt("https://" + (Host + owner + "/" + repo), 8) == Some(RepoRef(owner, repo))
  {
    var t := "https://" + (Host + owner + "/" + repo);
    var a := 8 + |Host|;
    assert t[8..a] == Host;
    assert t[a..a + |owner|] == owner;
    assert t[a + |owner|] == '/';
    assert t[a + |owner| + 1..] == repo;
    MatchAt(t, 8, owner, repo);
  }

  /** A URL with a scheme is never the bare form: its first run ends at the colon. */
  lemma HttpsIsNotBare(rest: string)
    ensures SlashPair("https://" + rest).None?
  {
    var t := "https://" + rest;
    assert t[6] == '/' && t[7] == '/';
    RunEndOver(t, 0, 6);
  }

  /** No match starts inside `https://`: none of its characters is a `g`. */
  lemma HttpsMatchesNoEarlier(rest: string)
    ensures forall q :: 0 <= q < 8 ==> GithubAt("https://" + rest, q).None?
  {
    var t := "https://" + rest;
    forall q | 0 <= q < 8 ensures GithubAt(t, q).None? {
      assert t[q] != 'g';
      if q + |Host| <= |t| {
        assert t[q..q + |Host|][0] == t[q];
      }
    }
  }

  /** `github.com/owner/repo` at `p`, running to the end of the text, matches there. */
  lemma MatchAt(t: string, p: nat, owner: string, repo: string)
    requires owner != [] && repo != [] && NoSlash(owner) && NoSlash(repo)
    requires p + |Host| + |owner| + 1 + |repo| == |t|
    requires t[p..p + |Host|] == Host
    requires t[p + |Host|..p + |Host| + |owner|] == owner
    requires t[p + |Host| + |owner|] == '/'
    requires t[p + |Host| + |owner| + 1..] == repo
    ensures GithubAt(t, p) == Some(RepoRef(owner, repo))
  {
    var a := p + |Host|;
    var b := a + |owner|;
    RunEndOver(t, a, b);
    RunEndOver(t, b + 1, |t|);
    assert HostAt(t, p);
    assert t[b + 1..|t|] == repo;
  }

  /** The search from `p` finds the match at `q` when none lies before it. */
  lemma {:induction false} GithubFromSkips(t: string, p: nat, q: nat)
    requires p <= q <= |t| && GithubAt(t, q).Some?
    requires forall k :: p <= k < q ==> GithubAt(t, k).None?
    ensures GithubFrom(t, p) == GithubAt(t, q)
    decreases q - p
  {
    if p < q {
      assert GithubAt(t, p).None?;
      assert GithubFrom(t, p) == GithubFrom(t, p + 1);
      GithubFromSkips(t, p + 1, q);
    }
  }

  /** Text without any slash never parses. */
  lemma NoSlashNoParse(url: string)
    requires NoSlash(Trim(url))
    ensures ParseRepoUrl(url).None?
  {
    var t := Trim(url);
    if GithubFrom(t, 0).Some? {
      GithubFromLeftmost(t, 0);
      assert false;
    }
  }

  /** Text with no slash is refused. */
  lemma RefusesInvalidFormat()
    ensures ParseRepoUrl("invalid-format") == None
  {
    TrimNoop("invalid-format");
    NoSlashNoParse("invalid-format");
  }

  /** `toggleLabel`: drop every copy of a selected label, or append an unselected one. */
  function ToggleLabel(prev: seq<string>, tag: string): (r: seq<string>)
    // the tag's selection flips, and no other tag's does
    ensures tag in r <==> tag !in prev
    ensures forall x :: x != tag ==> (x in r <==> x in prev)
  {
    if tag in prev then Filter(prev, (l: string) => l != tag) else prev + [tag]
  }

  /** An unselected tag is appended at the end, after the selection as it was. */
  lemma ToggleAppends(prev: seq<string>, tag: string)
    requires tag !in prev
    ensures ToggleLabel(prev, tag) == prev + [tag]
  {
  }

  /** Toggling an unselected tag twice gives back the selection. */
  lemma ToggleTwice(prev: seq<string>, tag: string)
    requires tag !in prev
    ensures ToggleLabel(ToggleLabel(prev, tag), tag) == prev
  {
    FilterDropsAppended(prev, tag);
  }

  lemma {:induction false} FilterDropsAppended(s: seq<string>, tag: string)
    requires tag !in s
    ensures Filter(s + [tag], (l: string) => l != tag) == s
  {
    if s != [] {
      assert (s + [tag])[1..] == s[1..] + [tag];
      FilterDropsAppended(s[1..], tag);
    }
  }
}
