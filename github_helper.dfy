/**
  `src/utils/github_helper.py`: parsing GitHub URLs with three regular
  expressions, the GitHub-URL test, the raw-content URL of
  `fetch_raw_content`, the `git clone` command line of `clone_repository`
  and the worklist walk of `fetch_directory_files`.

  Python's `re` semantics are modelled exactly for the three patterns:
  `re.search` tries every start index from the left and the patterns are
  tried in list order, so the first pattern that matches anywhere wins;
  `[^/]+` followed by a slash ends at the next slash, `.+` takes a maximal
  non-empty run of characters other than `'\n'`, and `$` matches at the end
  or just before a final `'\n'`.
*/
module GitHubHelper {
  import opened Wrappers
  import opened Strings

  /** `match.groupdict()`: the blob and tree patterns have four groups, the
      repository pattern only `owner` and `repo`. */
  datatype ParsedUrl =
    | Located(owner: string, repo: string, ref: string, path: string)
    | Bare(owner: string, repo: string)

  /** The three patterns of `parse_github_url`, in the order they are tried. */
  datatype Pattern = BlobPattern | TreePattern | RepoPattern

  const Host: string := "github.com/"

  /** A `[^/]+` group. */
  predicate Segment(x: string) {
    |x| > 0 && '/' !in x
  }

  predicate WellFormed(p: ParsedUrl) {
    Segment(p.owner) && Segment(p.repo)
    && (p.Located? ==> Segment(p.ref) && |p.path| > 0 && '\n' !in p.path)
  }

  /** `a/b` */
  function Slash(a: string, b: string): string {
    a + ("/" + b)
  }

  lemma SlashAppend(a: string, b: string, z: string)
    ensures Slash(a, b + z) == Slash(a, b) + z
  {
  }

  /** The text a blob or tree match covers. */
  function LocatedText(kind: string, o: string, r: string, ref: string, path: string): string {
    Host + Slash(o, Slash(r, Slash(kind, Slash(ref, path))))
  }

  /** The text a repository match covers, up to the optional slash. */
  function BareText(o: string, r: string): string {
    Host + Slash(o, r)
  }

  // ---------------------------------------------------------------------
  // One pattern at one start index
  // ---------------------------------------------------------------------

  /** What a greedy `.+` takes: everything before the first newline. */
  function LinePrefix(t: string): string {
    match SplitOnce(t, '\n')
    case None => t
    case Some((a, _)) => a
  }

  lemma LinePrefixSpec(t: string)
    ensures LinePrefix(t) <= t && '\n' !in LinePrefix(t)
    ensures '\n' !in t ==> LinePrefix(t) == t
  {
    SplitOnceSpec(t, '\n');
    if SplitOnce(t, '\n').Some? {
      var (a, b) := SplitOnce(t, '\n').value;
      assert t == a + (['\n'] + b);
    }
  }

  /** The groups of `(?P<owner>[^/]+)/(?P<repo>[^/]+)/KIND/(?P<ref>[^/]+)/(?P<path>.+)`
      matched at the start of `t` (the text after `github.com/`): each `[^/]+`
      ends at the next slash, which the pattern then requires. */
  function LocatedGroups(t: string, kind: string): Option<ParsedUrl> {
    match SplitOnce(t, '/')
    case None => None
    case Some((o, t1)) =>
      match SplitOnce(t1, '/')
      case None => None
      case Some((rp, t2)) =>
        if o == "" || rp == "" || !StartsWith(t2, kind + "/") then None
        else
          match SplitOnce(t2[|kind| + 1..], '/')
          case None => None
          case Some((rf, t4)) =>
            var path := LinePrefix(t4);
            if rf == "" || path == "" then None else Some(Located(o, rp, rf, path))
  }

  /** The groups of `(?P<owner>[^/]+)/(?P<repo>[^/]+)/?$` matched at the start
      of `t`. A repository group that runs to the end keeps a final newline;
      otherwise only a slash, or a slash and a final newline, may follow it. */
  function BareGroups(t: string): Option<ParsedUrl> {
    match SplitOnce(t, '/')
    case None => None
    case Some((o, t1)) =>
      if o == "" then None
      else
        match SplitOnce(t1, '/')
        case None => if t1 == "" then None else Some(Bare(o, t1))
        case Some((rp, t2)) => if rp != "" && (t2 == "" || t2 == "\n") then Some(Bare(o, rp)) else None
  }

  function KindWord(p: Pattern): string {
    match p
    case BlobPattern => "blob"
    case TreePattern => "tree"
    case RepoPattern => ""
  }

  function Groups(p: Pattern, t: string): Option<ParsedUrl> {
    if p == RepoPattern then BareGroups(t) else LocatedGroups(t, KindWord(p))
  }

  /** One pattern tried at start index `i`. */
  function MatchAt(p: Pattern, s: string, i: nat): Option<ParsedUrl>
    requires i <= |s|
  {
    if OccursAt(s, Host, i) then Groups(p, s[i + |Host|..]) else None
  }

  /** After the host, the pattern sees exactly the rest of the text. */
  lemma MatchAfterHost(pre: string, p: Pattern, t: string)
    ensures MatchAt(p, pre + (Host + t), |pre|) == Groups(p, t)
  {
    var s := pre + (Host + t);
    assert s[|pre|..|pre| + |Host|] == Host;
    assert s[|pre| + |Host|..] == t;
  }

  /** The parts around the first slash, as `Slash` puts them together. */
  lemma SplitSlashSpec(t: string)
    requires SplitOnce(t, '/').Some?
    ensures var (a, b) := SplitOnce(t, '/').value; t == Slash(a, b) && '/' !in a
  {
    SplitOnceSpec(t, '/');
  }

  lemma SplitSlashOf(a: string, b: string)
    requires '/' !in a
    ensures SplitOnce(Slash(a, b), '/') == Some((a, b))
  {
    assert Slash(a, b) == a + ['/'] + b;
    SplitOnceOf(a, b, '/');
  }

  /** Every group captured is non-empty; owner, repository and ref hold no
      slash, and the path no newline. */
  lemma GroupsWellFormed(p: Pattern, t: string)
    ensures Groups(p, t).Some? ==> WellFormed(Groups(p, t).value)
    ensures Groups(p, t).Some? ==> (Groups(p, t).value.Bare? <==> p == RepoPattern)
  {
    if p == RepoPattern {
      BareGroupsWellFormed(t);
    } else {
      LocatedGroupsWellFormed(t, KindWord(p));
    }
  }

  lemma LocatedGroupsWellFormed(t: string, kind: string)
    ensures LocatedGroups(t, kind).Some? ==> LocatedGroups(t, kind).value.Located? && WellFormed(LocatedGroups(t, kind).value)
  {
    if LocatedGroups(t, kind).Some? {
      SplitOnceSpec(t, '/');
      var (o, t1) := SplitOnce(t, '/').value;
      SplitOnceSpec(t1, '/');
      var (rp, t2) := SplitOnce(t1, '/').value;
      var t3 := t2[|kind| + 1..];
      SplitOnceSpec(t3, '/');
      var (rf, t4) := SplitOnce(t3, '/').value;
      LinePrefixSpec(t4);
      assert LocatedGroups(t, kind) == Some(Located(o, rp, rf, LinePrefix(t4)));
    }
  }

  lemma BareGroupsWellFormed(t: string)
    ensures BareGroups(t).Some? ==> BareGroups(t).value.Bare? && WellFormed(BareGroups(t).value)
  {
    if BareGroups(t).Some? {
      SplitOnceSpec(t, '/');
      var (o, t1) := SplitOnce(t, '/').value;
      SplitOnceSpec(t1, '/');
    }
  }

  lemma MatchWellFormed(p: Pattern, s: string, i: nat)
    requires i <= |s| && MatchAt(p, s, i).Some?
    ensures WellFormed(MatchAt(p, s, i).value) && (MatchAt(p, s, i).value.Bare? <==> p == RepoPattern)
  {
    GroupsWellFormed(p, s[i + |Host|..]);
  }

  lemma KindPrefix(t: string, kind: string)
    requires StartsWith(t, kind + "/")
    ensures t == Slash(kind, t[|kind| + 1..])
  {
    assert t == t[..|kind| + 1] + t[|kind| + 1..];
  }

  lemma PrefixRest(x: string, t: string)
    requires x <= t
    ensures t == x + t[|x|..]
  {
  }

  lemma StartsWithAppend(y: string, z: string)
    ensures StartsWith(y + z, y)
  {
    assert (y + z)[..|y|] == y;
  }

  /** Four nested slashes with a tail appended to the innermost part. */
  lemma SlashChain(o: string, rp: string, kind: string, rf: string, path: string, z: string)
    ensures Slash(o, Slash(rp, Slash(kind, Slash(rf, path + z)))) == Slash(o, Slash(rp, Slash(kind, Slash(rf, path)))) + z
  {
    SlashAppend(rf, path, z);
    SlashAppend(kind, Slash(rf, path), z);
    SlashAppend(rp, Slash(kind, Slash(rf, path)), z);
    SlashAppend(o, Slash(rp, Slash(kind, Slash(rf, path))), z);
  }

  /** A blob or tree match starts with the text of its groups. */
  lemma LocatedGroupsText(t: string, kind: string)
    requires LocatedGroups(t, kind).Some?
    ensures var v := LocatedGroups(t, kind).value;
      StartsWith(t, Slash(v.owner, Slash(v.repo, Slash(kind, Slash(v.ref, v.path)))))
  {
    SplitSlashSpec(t);
    var (o, t1) := SplitOnce(t, '/').value;
    SplitSlashSpec(t1);
    var (rp, t2) := SplitOnce(t1, '/').value;
    KindPrefix(t2, kind);
    var t3 := t2[|kind| + 1..];
    SplitSlashSpec(t3);
    var (rf, t4) := SplitOnce(t3, '/').value;
    var path := LinePrefix(t4);
    LinePrefixSpec(t4);
    PrefixRest(path, t4);
    var z := t4[|path|..];
    SlashChain(o, rp, kind, rf, path, z);
    StartsWithAppend(Slash(o, Slash(rp, Slash(kind, Slash(rf, path)))), z);
  }

  lemma KindInText(o: string, r: string, kind: string, rest: string)
    ensures Slash(o, Slash(r, Slash(kind, rest))) == (o + "/" + r) + (("/" + kind + "/") + rest)
  {
  }

  /** The blob or tree pattern needs `/KIND/` right after the repository group. */
  lemma LocatedGroupsHasKind(t: string, kind: string)
    requires LocatedGroups(t, kind).Some?
    ensures Contains(t, "/" + kind + "/")
  {
    LocatedGroupsText(t, kind);
    var v := LocatedGroups(t, kind).value;
    var w := "/" + kind + "/";
    var rest := Slash(v.ref, v.path);
    var y := Slash(v.owner, Slash(v.repo, Slash(kind, rest)));
    KindInText(v.owner, v.repo, kind, rest);
    ContainsPrefix(w + rest, w);
    ContainsConcatRight(v.owner + "/" + v.repo, w + rest, w);
    PrefixRest(y, t);
    ContainsConcatLeft(y, t[|y|..], w);
  }

  /** The blob or tree pattern needs three slashes after the host. */
  lemma LocatedGroupsSlashes(t: string, kind: string)
    requires LocatedGroups(t, kind).Some?
    ensures CountChar(t, '/') >= 3
  {
    var (o, t1) := SplitOnce(t, '/').value;
    var (rp, t2) := SplitOnce(t1, '/').value;
    SplitOnceCount(t, '/');
    SplitOnceCount(t1, '/');
    CountCharSuffix(t2, |kind| + 1, '/');
    SplitOnceCount(t2[|kind| + 1..], '/');
  }

  /** The text a repository match covers: everything up to the end. */
  lemma BareGroupsText(t: string)
    requires BareGroups(t).Some?
    ensures var v := BareGroups(t).value;
      t == Slash(v.owner, v.repo) || t == Slash(v.owner, v.repo) + "/" || t == Slash(v.owner, v.repo) + "/\n"
  {
    SplitSlashSpec(t);
    var (o, t1) := SplitOnce(t, '/').value;
    if SplitOnce(t1, '/').Some? {
      SplitSlashSpec(t1);
      var (rp, t2) := SplitOnce(t1, '/').value;
      SlashAppend(o, rp, "/" + t2);
    }
  }

  /** Components with no slash are recovered by the blob and tree patterns. */
  lemma LocatedGroupsOf(kind: string, o: string, r: string, ref: string, path: string)
    requires Segment(o) && Segment(r) && Segment(ref) && |path| > 0 && '\n' !in path
    ensures LocatedGroups(Slash(o, Slash(r, Slash(kind, Slash(ref, path)))), kind) == Some(Located(o, r, ref, path))
  {
    var t3 := Slash(ref, path);
    var t2 := Slash(kind, t3);
    var t1 := Slash(r, t2);
    SplitSlashOf(o, t1);
    SplitSlashOf(r, t2);
    assert t2 == kind + "/" + t3;
    assert StartsWith(t2, kind + "/");
    assert t2[|kind| + 1..] == t3;
    SplitSlashOf(ref, path);
    LinePrefixSpec(path);
  }

  /** Components with no slash are recovered by the repository pattern. */
  lemma BareGroupsOf(o: string, r: string, tail: string)
    requires Segment(o) && Segment(r) && (tail == "" || tail == "/")
    ensures BareGroups(Slash(o, r) + tail) == Some(Bare(o, r))
  {
    SlashAppend(o, r, tail);
    SplitSlashOf(o, r + tail);
    SplitOnceSpec(r, '/');
    if tail == "/" {
      assert r + tail == Slash(r, "");
      SplitSlashOf(r, "");
    } else {
      assert r + tail == r;
    }
  }

  // ---------------------------------------------------------------------
  // re.search: the leftmost start index
  // ---------------------------------------------------------------------

  /** The first `true` at or after `i`. */
  function FirstHit(h: seq<bool>, i: nat): (r: Option<nat>)
    requires i <= |h|
    ensures r.Some? ==> i <= r.value < |h| && h[r.value]
    ensures r.Some? ==> forall j :: i <= j < r.value ==> !h[j]
    ensures r.None? ==> forall j :: i <= j < |h| ==> !h[j]
    decreases |h| - i
  {
    if i == |h| then None
    else if h[i] then Some(i)
    else FirstHit(h, i + 1)
  }

  /** For every start index, whether the pattern matches there. */
  function MatchStarts(p: Pattern, s: string): seq<bool> {
    seq(|s| + 1, j requires 0 <= j <= |s| => MatchAt(p, s, j).Some?)
  }

  /** `re.search`: the groups of the match at the leftmost start index. */
  function Search(p: Pattern, s: string): Option<ParsedUrl> {
    match FirstHit(MatchStarts(p, s), 0)
    case Some(j) => MatchAt(p, s, j)
    case None => None
  }

  /** `re.search` finds nothing exactly when no start index matches. */
  lemma SearchNone(p: Pattern, s: string)
    ensures Search(p, s).None? <==> forall j :: 0 <= j <= |s| ==> MatchAt(p, s, j).None?
  {
    var h := MatchStarts(p, s);
    var m := FirstHit(h, 0);
    if m.Some? {
      assert h[m.value];
    } else {
      forall j | 0 <= j <= |s| ensures MatchAt(p, s, j).None? {
        assert !h[j];
      }
    }
  }

  /** The first hit is the leftmost `true`. */
  lemma FirstHitAt(h: seq<bool>, k: nat)
    requires k < |h| && h[k]
    requires forall j :: 0 <= j < k ==> !h[j]
    ensures FirstHit(h, 0) == Some(k)
  {
  }

  /** The leftmost match is the one `re.search` reports. */
  lemma SearchFindsFirst(p: Pattern, s: string, k: nat)
    requires k <= |s| && MatchAt(p, s, k).Some?
    requires forall j :: 0 <= j < k ==> MatchAt(p, s, j).None?
    ensures Search(p, s) == MatchAt(p, s, k)
  {
    var h := MatchStarts(p, s);
    forall j | 0 <= j < k ensures !h[j] {
      assert MatchAt(p, s, j).None?;
    }
    FirstHitAt(h, k);
  }

  /** A match found by `re.search` is at some start index. */
  lemma SearchIsMatch(p: Pattern, s: string) returns (j: nat)
    requires Search(p, s).Some?
    ensures j <= |s| && MatchAt(p, s, j) == Search(p, s)
  {
    j := FirstHit(MatchStarts(p, s), 0).value;
  }

  // ---------------------------------------------------------------------
  // parse_github_url
  // ---------------------------------------------------------------------

  /** `GitHubHelper.parse_github_url`: blob, then tree, then bare repository;
      the first pattern found anywhere in the URL wins, `None` if none is. */
  function ParseGitHubUrl(url: string): Option<ParsedUrl> {
    var blob := Search(BlobPattern, url);
    var tree := Search(TreePattern, url);
    var repo := Search(RepoPattern, url);
    if blob.Some? then blob else if tree.Some? then tree else repo
  }

  /** The pattern and start index of a successful parse. */
  lemma ParseMatch(url: string) returns (p: Pattern, j: nat)
    requires ParseGitHubUrl(url).Some?
    ensures j <= |url| && MatchAt(p, url, j) == ParseGitHubUrl(url)
    ensures OccursAt(url, Host, j)
  {
    p := if Search(BlobPattern, url).Some? then BlobPattern
         else if Search(TreePattern, url).Some? then TreePattern else RepoPattern;
    j := SearchIsMatch(p, url);
  }

  /** Every parse result is well formed: non-empty groups, no slash in owner,
      repository or ref, no newline in the path. */
  lemma ParseWellFormed(url: string)
    ensures ParseGitHubUrl(url).Some? ==> WellFormed(ParseGitHubUrl(url).value)
  {
    if ParseGitHubUrl(url).Some? {
      var p, j := ParseMatch(url);
      MatchWellFormed(p, url, j);
    }
  }

  /** The patterns are tried in order: the result is `None` exactly when no
      pattern matches anywhere, and a bare result means that neither the blob
      nor the tree pattern matches anywhere. */
  lemma ParseTriesPatternsInOrder(url: string)
    ensures ParseGitHubUrl(url).None? <==> forall p: Pattern, j :: 0 <= j <= |url| ==> MatchAt(p, url, j).None?
    ensures ParseGitHubUrl(url).Some? && ParseGitHubUrl(url).value.Bare? ==>
      forall j :: 0 <= j <= |url| ==> MatchAt(BlobPattern, url, j).None? && MatchAt(TreePattern, url, j).None?
  {
    SearchNone(BlobPattern, url);
    SearchNone(TreePattern, url);
    SearchNone(RepoPattern, url);
    if ParseGitHubUrl(url).Some? {
      var p, j := ParseMatch(url);
      MatchWellFormed(p, url, j);
    }
  }

  /** A blob or tree match at `j` covers the text of its groups. */
  lemma LocatedMatchText(url: string, j: nat, kind: string)
    requires OccursAt(url, Host, j) && LocatedGroups(url[j + |Host|..], kind).Some?
    ensures var v := LocatedGroups(url[j + |Host|..], kind).value;
      Contains(url, LocatedText(kind, v.owner, v.repo, v.ref, v.path))
  {
    var t := url[j + |Host|..];
    var v := LocatedGroups(t, kind).value;
    LocatedGroupsText(t, kind);
    HostTextIn(url, j, Slash(v.owner, Slash(v.repo, Slash(kind, Slash(v.ref, v.path)))));
  }

  /** Text that starts right after an occurrence of the host occurs, host included. */
  lemma HostTextIn(url: string, j: nat, x: string)
    requires OccursAt(url, Host, j) && StartsWith(url[j + |Host|..], x)
    ensures Contains(url, Host + x)
  {
    var t := url[j + |Host|..];
    OccursAtSplit(url, Host, j);
    PrefixRest(x, t);
    var z := t[|x|..];
    AppendAssoc(Host, x, z);
    ContainsMiddle(url[..j], Host + x, z);
  }

  /** A repository match at `j` runs to the end of the text. */
  lemma BareMatchText(url: string, j: nat)
    requires OccursAt(url, Host, j) && BareGroups(url[j + |Host|..]).Some?
    ensures var v := BareGroups(url[j + |Host|..]).value; var b := BareText(v.owner, v.repo);
      EndsWith(url, b) || EndsWith(url, b + "/") || EndsWith(url, b + "/\n")
  {
    var t := url[j + |Host|..];
    var v := BareGroups(t).value;
    OccursAtSplit(url, Host, j);
    BareGroupsText(t);
    EndsWithAppend(url[..j], Host + t);
    var b := BareText(v.owner, v.repo);
    assert Host + t == b || Host + t == b + "/" || Host + t == b + "/\n";
  }

  /** What a parse promises about the URL text: a located result is a blob or
      tree URL somewhere in the input, and a bare result is the input's end. */
  lemma ParseSound(url: string)
    ensures var r := ParseGitHubUrl(url);
      r.Some? && r.value.Located? ==>
        Contains(url, LocatedText("blob", r.value.owner, r.value.repo, r.value.ref, r.value.path))
        || Contains(url, LocatedText("tree", r.value.owner, r.value.repo, r.value.ref, r.value.path))
    ensures var r := ParseGitHubUrl(url);
      r.Some? && r.value.Bare? ==> var t := BareText(r.value.owner, r.value.repo);
        EndsWith(url, t) || EndsWith(url, t + "/") || EndsWith(url, t + "/\n")
  {
    var r := ParseGitHubUrl(url);
    if r.Some? {
      var p, j := ParseMatch(url);
      MatchWellFormed(p, url, j);
      if p == RepoPattern {
        BareMatchText(url, j);
      } else {
        LocatedMatchText(url, j, KindWord(p));
      }
    }
  }

  /** No start index inside a prefix free of `'g'` can match. */
  lemma NoMatchInPrefix(pre: string, rest: string, p: Pattern, j: nat)
    requires 'g' !in pre && j < |pre|
    ensures MatchAt(p, pre + rest, j).None?
  {
    var s := pre + rest;
    assert s[j] == pre[j] && s[j] != Host[0];
    assert !OccursAt(s, Host, j) by {
      assert j + |Host| <= |s| ==> s[j..j + |Host|][0] == s[j];
    }
  }

  /** A blob URL parses as its parts (after a scheme-like prefix with no `g`). */
  lemma ParseBlobUrl(pre: string, o: string, r: string, ref: string, path: string)
    requires 'g' !in pre
    requires Segment(o) && Segment(r) && Segment(ref) && |path| > 0 && '\n' !in path
    ensures ParseGitHubUrl(pre + LocatedText("blob", o, r, ref, path)) == Some(Located(o, r, ref, path))
  {
    var t := Slash(o, Slash(r, Slash("blob", Slash(ref, path))));
    var s := pre + (Host + t);
    LocatedGroupsOf("blob", o, r, ref, path);
    MatchAfterHost(pre, BlobPattern, t);
    forall j | 0 <= j < |pre| ensures MatchAt(BlobPattern, s, j).None? {
      NoMatchInPrefix(pre, Host + t, BlobPattern, j);
    }
    SearchFindsFirst(BlobPattern, s, |pre|);
  }

  /** A blob match anywhere means the URL holds `/blob/`. */
  lemma BlobMatchHasKind(s: string, j: nat)
    requires j <= |s| && MatchAt(BlobPattern, s, j).Some?
    ensures Contains(s, "/blob/")
  {
    var u := s[j + |Host|..];
    assert OccursAt(s, Host, j);
    assert Groups(BlobPattern, u) == LocatedGroups(u, "blob");
    LocatedGroupsHasKind(u, "blob");
    assert "/" + "blob" + "/" == "/blob/";
    OccursAtSplit(s, Host, j);
    ContainsConcatRight(Host, u, "/blob/");
    ContainsConcatRight(s[..j], Host + u, "/blob/");
  }

  /** A tree URL parses as its parts, provided it holds no `/blob/` (the blob
      pattern is tried first, anywhere in the URL). */
  lemma ParseTreeUrl(pre: string, o: string, r: string, ref: string, path: string)
    requires 'g' !in pre && !Contains(pre + LocatedText("tree", o, r, ref, path), "/blob/")
    requires Segment(o) && Segment(r) && Segment(ref) && |path| > 0 && '\n' !in path
    ensures ParseGitHubUrl(pre + LocatedText("tree", o, r, ref, path)) == Some(Located(o, r, ref, path))
  {
    var t := Slash(o, Slash(r, Slash("tree", Slash(ref, path))));
    var s := pre + (Host + t);
    forall j | 0 <= j <= |s| ensures MatchAt(BlobPattern, s, j).None? {
      if MatchAt(BlobPattern, s, j).Some? {
        BlobMatchHasKind(s, j);
      }
    }
    SearchNone(BlobPattern, s);
    LocatedGroupsOf("tree", o, r, ref, path);
    MatchAfterHost(pre, TreePattern, t);
    forall j | 0 <= j < |pre| ensures MatchAt(TreePattern, s, j).None? {
      NoMatchInPrefix(pre, Host + t, TreePattern, j);
    }
    SearchFindsFirst(TreePattern, s, |pre|);
  }

  /** With at most two slashes after the first host, neither the blob nor the
      tree pattern can match anywhere. */
  lemma FewSlashesNoLocatedMatch(pre: string, t: string, p: Pattern)
    requires 'g' !in pre && p != RepoPattern && CountChar(t, '/') <= 2
    ensures forall j :: 0 <= j <= |pre + (Host + t)| ==> MatchAt(p, pre + (Host + t), j).None?
  {
    var s := pre + (Host + t);
    forall j | 0 <= j <= |s| ensures MatchAt(p, s, j).None? {
      if j < |pre| {
        NoMatchInPrefix(pre, Host + t, p, j);
      } else if OccursAt(s, Host, j) {
        SuffixAfterHost(pre, t, j);
        CountCharSuffix(t, j - |pre|, '/');
        FewSlashesNoGroups(s[j + |Host|..], KindWord(p));
      }
    }
  }

  /** Past the end of `pre`, what follows a host is a suffix of `t`. */
  lemma SuffixAfterHost(pre: string, t: string, j: nat)
    requires |pre| <= j && j + |Host| <= |pre + (Host + t)|
    ensures (pre + (Host + t))[j + |Host|..] == t[j - |pre|..]
  {
  }

  /** The blob or tree pattern fails on text with at most two slashes. */
  lemma FewSlashesNoGroups(u: string, kind: string)
    requires CountChar(u, '/') <= 2
    ensures LocatedGroups(u, kind).None?
  {
    if LocatedGroups(u, kind).Some? {
      LocatedGroupsSlashes(u, kind);
    }
  }

  /** A bare repository URL, with or without a trailing slash, parses as owner
      and repository only. */
  lemma ParseBareUrl(pre: string, o: string, r: string, tail: string)
    requires 'g' !in pre && Segment(o) && Segment(r)
    requires tail == "" || tail == "/"
    ensures ParseGitHubUrl(pre + (BareText(o, r) + tail)) == Some(Bare(o, r))
  {
    var t := Slash(o, r) + tail;
    var s := pre + (Host + t);
    assert BareText(o, r) + tail == Host + t;
    assert CountChar(t, '/') <= 2 by {
      CountCharAppend(Slash(o, r), tail, '/');
      CountCharAppend(o, "/" + r, '/');
      CountCharAppend("/", r, '/');
      CountCharAbsent(o, '/');
      CountCharAbsent(r, '/');
    }
    FewSlashesNoLocatedMatch(pre, t, BlobPattern);
    FewSlashesNoLocatedMatch(pre, t, TreePattern);
    SearchNone(BlobPattern, s);
    SearchNone(TreePattern, s);
    BareGroupsOf(o, r, tail);
    MatchAfterHost(pre, RepoPattern, t);
    forall j | 0 <= j < |pre| ensures MatchAt(RepoPattern, s, j).None? {
      NoMatchInPrefix(pre, Host + t, RepoPattern, j);
    }
    SearchFindsFirst(RepoPattern, s, |pre|);
  }

  /** After owner and repository, a rest that is neither empty, a newline,
      `blob/...` nor `tree/...` fails every pattern. */
  lemma ExtraSegmentsNoGroups(p: Pattern, o: string, r: string, x: string)
    requires Segment(o) && Segment(r) && x != "" && x != "\n"
    requires !StartsWith(x, "blob/") && !StartsWith(x, "tree/")
    ensures Groups(p, Slash(o, Slash(r, x))).None?
  {
    SplitSlashOf(o, Slash(r, x));
    SplitSlashOf(r, x);
    assert KindWord(p) + "/" == if p == BlobPattern then "blob/" else if p == TreePattern then "tree/" else "/";
  }

  /** Extra path segments that are not `blob/...` or `tree/...` are rejected,
      when the URL names the host only once. */
  lemma ParseRejectsExtraSegments(pre: string, o: string, r: string, x: string)
    requires Segment(o) && Segment(r) && x != "" && x != "\n"
    requires !StartsWith(x, "blob/") && !StartsWith(x, "tree/")
    requires forall j :: OccursAt(pre + (BareText(o, r) + "/" + x), Host, j) ==> j == |pre|
    ensures ParseGitHubUrl(pre + (BareText(o, r) + "/" + x)) == None
  {
    var t := Slash(o, Slash(r, x));
    var s := pre + (Host + t);
    assert BareText(o, r) + "/" + x == Host + t;
    forall p: Pattern, j | 0 <= j <= |s| ensures MatchAt(p, s, j).None? {
      if j == |pre| {
        MatchAfterHost(pre, p, t);
        ExtraSegmentsNoGroups(p, o, r, x);
      }
    }
    ParseTriesPatternsInOrder(s);
  }

  // ---------------------------------------------------------------------
  // is_github_url
  // ---------------------------------------------------------------------

  /** `is_github_url`: `'github.com' in input_str.lower()`. */
  predicate IsGitHubUrl(s: string) {
    Contains(Lower(s), "github.com")
  }

  /** The test ignores case: lower-casing the input first changes nothing. */
  lemma IsGitHubUrlIgnoresCase(s: string)
    ensures IsGitHubUrl(Lower(s)) == IsGitHubUrl(s)
  {
    LowerIdempotent(s);
  }

  lemma HostHasName(s: string, j: int)
    requires OccursAt(s, Host, j)
    ensures OccursAt(s, "github.com", j)
  {
    assert s[j..j + 10] == s[j..j + |Host|][..10];
  }

  /** Any text naming the host passes the GitHub-URL test. */
  lemma HostIsGitHubUrl(s: string, j: int)
    requires OccursAt(s, Host, j)
    ensures IsGitHubUrl(s)
  {
    HostHasName(s, j);
    LowerKeepsOccurrence(s, "github.com", j);
    assert 0 <= j <= |Lower(s)| - 10;
  }

  /** Every URL the parser accepts passes the GitHub-URL test. */
  lemma ParsedIsGitHubUrl(url: string)
    requires ParseGitHubUrl(url).Some?
    ensures IsGitHubUrl(url)
  {
    var p, j := ParseMatch(url);
    HostIsGitHubUrl(url, j);
  }

  // ---------------------------------------------------------------------
  // fetch_raw_content: the raw URL
  // ---------------------------------------------------------------------

  const RawHost: string := "https://raw.githubusercontent.com/"

  function RawUrlOf(o: string, r: string, ref: string, path: string): string {
    RawHost + Slash(o, Slash(r, Slash(ref, path)))
  }

  /** The URL `fetch_raw_content` requests, or `None` when the parse has no
      `path` (an unparseable or bare repository URL: no request is made). */
  function RawContentUrl(url: string): (r: Option<string>)
    ensures r.Some? ==> StartsWith(r.value, RawHost)
  {
    match ParseGitHubUrl(url)
    case Some(Located(o, rp, ref, path)) => Some(RawUrlOf(o, rp, ref, path))
    case _ => None
  }

  /** A raw URL is requested exactly for blob and tree URLs. */
  lemma RawContentUrlOnlyWithPath(url: string)
    ensures RawContentUrl(url).Some? <==> ParseGitHubUrl(url).Some? && ParseGitHubUrl(url).value.Located?
  {
  }

  lemma SlashSplit(x: string, y: string, x': string, y': string)
    requires '/' !in x && '/' !in x' && Slash(x, y) == Slash(x', y')
    ensures x == x' && y == y'
  {
    SplitSlashOf(x, y);
    SplitSlashOf(x', y');
  }

  /** The raw URL determines owner, repository, ref and path: distinct files
      never share a raw URL. */
  lemma RawUrlInjective(p: ParsedUrl, q: ParsedUrl)
    requires p.Located? && q.Located? && WellFormed(p) && WellFormed(q)
    requires RawUrlOf(p.owner, p.repo, p.ref, p.path) == RawUrlOf(q.owner, q.repo, q.ref, q.path)
    ensures p == q
  {
    var x := Slash(p.owner, Slash(p.repo, Slash(p.ref, p.path)));
    var y := Slash(q.owner, Slash(q.repo, Slash(q.ref, q.path)));
    assert x == RawUrlOf(p.owner, p.repo, p.ref, p.path)[|RawHost|..];
    assert y == RawUrlOf(q.owner, q.repo, q.ref, q.path)[|RawHost|..];
    SlashSplit(p.owner, Slash(p.repo, Slash(p.ref, p.path)), q.owner, Slash(q.repo, Slash(q.ref, q.path)));
    SlashSplit(p.repo, Slash(p.ref, p.path), q.repo, Slash(q.ref, q.path));
    SlashSplit(p.ref, p.path, q.ref, q.path);
  }

  /** The raw URL of a blob URL is built from its parts. */
  lemma RawUrlOfBlobUrl(pre: string, o: string, r: string, ref: string, path: string)
    requires 'g' !in pre
    requires Segment(o) && Segment(r) && Segment(ref) && |path| > 0 && '\n' !in path
    ensures RawContentUrl(pre + LocatedText("blob", o, r, ref, path)) == Some(RawUrlOf(o, r, ref, path))
  {
    ParseBlobUrl(pre, o, r, ref, path);
  }

  // ---------------------------------------------------------------------
  // clone_repository: the command line and the outcome
  // ---------------------------------------------------------------------

  /** How `subprocess.run(cmd, check=True)` ends. */
  datatype RunOutcome =
    | Succeeded                   // exit status 0
    | CalledProcessError          // non-zero exit status
    | OtherException              // e.g. git not installed

  /** What `clone_repository` did: the command it ran (if any), its return
      value and whether it removed the target directory. */
  datatype CloneReport = CloneReport(command: Option<seq<string>>, result: Option<string>, removedTarget: bool)

  /** `f"https://github.com/{owner}/{repo}.git"` */
  function CanonicalRepoUrl(o: string, r: string): string {
    "https://" + (Host + Slash(o, r + ".git"))
  }

  /** `repo_url.replace('https://', f'https://{token}@')` */
  function WithToken(url: string, token: string): string {
    ReplaceAll(url, "https://", "https://" + token + "@")
  }

  /** No two slashes in a row. */
  predicate NoDoubleSlash(x: string) {
    forall k :: 0 <= k < |x| - 1 ==> !(x[k] == '/' && x[k + 1] == '/')
  }

  lemma SlashNoDouble(a: string, b: string)
    requires '/' !in a && NoDoubleSlash(b) && (b == "" || b[0] != '/')
    ensures NoDoubleSlash(Slash(a, b))
  {
    var x := Slash(a, b);
    forall k | 0 <= k < |x| - 1 ensures !(x[k] == '/' && x[k + 1] == '/') {
      if k < |a| {
        assert x[k] == a[k];
      } else if k == |a| {
        assert x[k + 1] == b[0];
      } else {
        assert x[k] == b[k - |a| - 1] && x[k + 1] == b[k - |a|];
      }
    }
  }

  /** Text with no two slashes in a row never holds a scheme separator. */
  lemma NoDoubleSlashNoScheme(x: string)
    requires NoDoubleSlash(x)
    ensures !Contains(x, "https://")
  {
    forall i | 0 <= i <= |x| - 8 ensures !OccursAt(x, "https://", i) {
      assert !(x[i + 6] == '/' && x[i + 7] == '/');
      assert x[i..i + 8][6] == x[i + 6] && x[i..i + 8][7] == x[i + 7];
    }
  }

  /** The canonical clone URL holds `https://` only at its start, so the token
      lands right after the scheme and nowhere else. */
  lemma TokenAfterScheme(o: string, r: string, token: string)
    requires Segment(o) && Segment(r)
    ensures WithToken(CanonicalRepoUrl(o, r), token) == "https://" + token + "@" + (Host + Slash(o, r + ".git"))
  {
    var g := r + ".git";
    assert '/' !in g;
    assert NoDoubleSlash(g);
    SlashNoDouble(o, g);
    assert "github.com" + ("/" + Slash(o, g)) == Slash("github.com", Slash(o, g));
    SlashNoDouble("github.com", Slash(o, g));
    var rest := Host + Slash(o, g);
    assert rest == Slash("github.com", Slash(o, g));
    NoDoubleSlashNoScheme(rest);
    ReplaceLeading("https://", rest, "https://" + token + "@");
  }

  /** The shape of the `git clone` command for a parsed URL: the shallow
      clone flags, `--branch` with the ref of a blob or tree URL, the clone
      URL (with the token right after the scheme when there is one) and the
      target directory. */
  predicate IsCloneCommand(p: ParsedUrl, token: string, target: string, cmd: seq<string>) {
    && |cmd| == (if p.Located? then 8 else 6)
    && cmd[..4] == ["git", "clone", "--depth", "1"]
    && (p.Located? ==> cmd[4..6] == ["--branch", p.ref])
    && cmd[|cmd| - 1] == target
    && cmd[|cmd| - 2] == if token != "" then "https://" + token + "@" + (Host + Slash(p.owner, p.repo + ".git"))
                         else CanonicalRepoUrl(p.owner, p.repo)
  }

  /** The command line `clone_repository` builds for a parsed URL. */
  method CloneCommand(p: ParsedUrl, token: string, target: string) returns (cmd: seq<string>)
    requires WellFormed(p)
    ensures IsCloneCommand(p, token, target, cmd)
  {
    var repoUrl := CanonicalRepoUrl(p.owner, p.repo);
    cmd := ["git", "clone", "--depth", "1"];
    if p.Located? && p.ref != "" {
      cmd := cmd + ["--branch", p.ref];
    }
    if token != "" {
      var authUrl := WithToken(repoUrl, token);
      TokenAfterScheme(p.owner, p.repo, token);
      cmd := cmd + [authUrl, target];
    } else {
      cmd := cmd + [repoUrl, target];
    }
  }

  /** `GitHubHelper.clone_repository(url, target_dir)`. `token` is the
      helper's `github_token` (`""` when there is none), `tempDir` what
      `tempfile.mkdtemp` returns, `targetExists` whether the target exists when a
      failure is handled, and `outcome` how git ends. */
  method CloneRepository(url: string, token: string, targetDir: Option<string>, tempDir: string,
                         targetExists: bool, outcome: RunOutcome) returns (report: CloneReport)
    ensures ParseGitHubUrl(url).None? <==> report.command.None?
    ensures report.command.None? ==> report == CloneReport(None, None, false)
    ensures report.command.Some? ==> var target := targetDir.GetOr(tempDir);
      && IsCloneCommand(ParseGitHubUrl(url).value, token, target, report.command.value)
      && (report.result.Some? <==> outcome == Succeeded)
      && (report.result.Some? ==> report.result.value == target)
      && (report.removedTarget <==> outcome == CalledProcessError && target != "" && targetExists)
  {
    var parsed := ParseGitHubUrl(url);
    if parsed.None? {
      return CloneReport(None, None, false);
    }
    ParseWellFormed(url);
    var target := if targetDir.None? then tempDir else targetDir.value;
    var cmd := CloneCommand(parsed.value, token, target);
    match outcome
    case Succeeded =>
      report := CloneReport(Some(cmd), Some(target), false);
    case CalledProcessError =>
      report := CloneReport(Some(cmd), None, target != "" && targetExists);
    case OtherException =>
      report := CloneReport(Some(cmd), None, false);
  }

  // ---------------------------------------------------------------------
  // fetch_directory_files: the worklist over a directory listing
  // ---------------------------------------------------------------------

  /** An item of `repo.get_contents`: a file, or a directory together with
      what listing it returns. */
  datatype ContentItem =
    | FileItem(path: string, name: string, htmlUrl: string, size: int)
    | DirItem(path: string, children: seq<ContentItem>)

  /** The dictionary reported for a file. */
  datatype FileInfo = FileInfo(path: string, name: string, url: string, size: int)

  function InfoOf(f: ContentItem): FileInfo
    requires f.FileItem?
  {
    FileInfo(f.path, f.name, f.htmlUrl, f.size)
  }

  /** The filter of `fetch_directory_files`: `*.py` by suffix, or any pattern as a substring. */
  predicate NameMatches(pattern: string, name: string) {
    (pattern == "*.py" && EndsWith(name, ".py")) || Contains(name, pattern)
  }

  /** The number of items in a listing, counting nested ones. */
  function ItemCount(items: seq<ContentItem>): nat {
    if items == [] then 0
    else (match items[0] case FileItem(_, _, _, _) => 1 case DirItem(_, c) => 1 + ItemCount(c)) + ItemCount(items[1..])
  }

  lemma {:induction false} ItemCountAppend(a: seq<ContentItem>, b: seq<ContentItem>)
    ensures ItemCount(a + b) == ItemCount(a) + ItemCount(b)
    decreases |a|
  {
    if a == [] {
      assert a + b == b;
    } else {
      assert (a + b)[0] == a[0];
      assert (a + b)[1..] == a[1..] + b;
      ItemCountAppend(a[1..], b);
    }
  }

  /** The files the worklist reports, in processing order: it pops the head,
      queues a directory's listing at the back, and keeps matching files. */
  function Worklist(pattern: string, work: seq<ContentItem>): seq<FileInfo>
    decreases ItemCount(work)
  {
    if work == [] then []
    else
      var item := work[0];
      assert work == [item] + work[1..];
      ItemCountAppend([item], work[1..]);
      match item
      case DirItem(_, c) =>
        ItemCountAppend(work[1..], c);
        Worklist(pattern, work[1..] + c)
      case FileItem(_, name, _, _) =>
        (if NameMatches(pattern, name) then [InfoOf(item)] else []) + Worklist(pattern, work[1..])
  }

  /** Reference definition: every file reachable from a listing, depth first. */
  function AllFiles(items: seq<ContentItem>): seq<ContentItem> {
    if items == [] then []
    else
      (match items[0]
       case FileItem(_, _, _, _) => [items[0]]
       case DirItem(_, c) => AllFiles(c))
      + AllFiles(items[1..])
  }

  function MatchingInfos(pattern: string, files: seq<ContentItem>): seq<FileInfo> {
    if files == [] then []
    else
      (if files[0].FileItem? && NameMatches(pattern, files[0].name) then [InfoOf(files[0])] else [])
      + MatchingInfos(pattern, files[1..])
  }

  lemma {:induction false} AllFilesAppend(a: seq<ContentItem>, b: seq<ContentItem>)
    ensures AllFiles(a + b) == AllFiles(a) + AllFiles(b)
    decreases |a|
  {
    if a == [] {
      assert a + b == b;
    } else {
      assert (a + b)[0] == a[0];
      assert (a + b)[1..] == a[1..] + b;
      AllFilesAppend(a[1..], b);
    }
  }

  lemma {:induction false} MatchingInfosAppend(pattern: string, a: seq<ContentItem>, b: seq<ContentItem>)
    ensures MatchingInfos(pattern, a + b) == MatchingInfos(pattern, a) + MatchingInfos(pattern, b)
    decreases |a|
  {
    if a == [] {
      assert a + b == b;
    } else {
      assert (a + b)[0] == a[0];
      assert (a + b)[1..] == a[1..] + b;
      MatchingInfosAppend(pattern, a[1..], b);
    }
  }

  /** The walk reports exactly the matching files of the whole tree, each as
      often as it occurs: only the order (breadth first by queue) differs from
      a depth-first listing. */
  lemma {:induction false} WorklistReportsMatchingFiles(pattern: string, work: seq<ContentItem>)
    ensures multiset(Worklist(pattern, work)) == multiset(MatchingInfos(pattern, AllFiles(work)))
    decreases ItemCount(work)
  {
    if work != [] {
      var item := work[0];
      var rest := work[1..];
      assert work == [item] + rest;
      ItemCountAppend([item], rest);
      AllFilesAppend([item], rest);
      match item
      case DirItem(_, c) =>
        ItemCountAppend(rest, c);
        WorklistReportsMatchingFiles(pattern, rest + c);
        AllFilesAppend(rest, c);
        assert AllFiles([item]) == AllFiles(c);
        MatchingInfosAppend(pattern, AllFiles(rest), AllFiles(c));
        MatchingInfosAppend(pattern, AllFiles(c), AllFiles(rest));
      case FileItem(_, _, _, _) =>
        WorklistReportsMatchingFiles(pattern, rest);
        assert AllFiles([item]) == [item];
        MatchingInfosAppend(pattern, [item], AllFiles(rest));
    }
  }

  /** A file is reported iff it is reachable and its name passes the filter. */
  lemma {:induction false} MatchingInfosMembers(pattern: string, files: seq<ContentItem>, info: FileInfo)
    ensures info in MatchingInfos(pattern, files) <==>
      exists f :: f in files && f.FileItem? && NameMatches(pattern, f.name) && InfoOf(f) == info
    decreases |files|
  {
    if files != [] {
      MatchingInfosMembers(pattern, files[1..], info);
      if exists f :: f in files[1..] && f.FileItem? && NameMatches(pattern, f.name) && InfoOf(f) == info {
        var f :| f in files[1..] && f.FileItem? && NameMatches(pattern, f.name) && InfoOf(f) == info;
        assert f in files;
      }
    }
  }

  /** The `while contents:` loop: pop the head, queue a directory's listing,
      keep a file whose name passes the filter. */
  method WalkListing(pattern: string, listing: seq<ContentItem>) returns (files: seq<FileInfo>)
    ensures files == Worklist(pattern, listing)
  {
    files := [];
    var contents := listing;
    while contents != []
      invariant Worklist(pattern, listing) == files + Worklist(pattern, contents)
      decreases ItemCount(contents)
    {
      var item := contents[0];
      var rest := contents[1..];
      assert contents == [item] + rest;
      ItemCountAppend([item], rest);
      contents := rest;
      match item
      case DirItem(_, c) =>
        ItemCountAppend(rest, c);
        contents := contents + c;
      case FileItem(_, name, _, _) =>
        if pattern == "*.py" && EndsWith(name, ".py") {
          files := files + [InfoOf(item)];
        } else if Contains(name, pattern) {
          files := files + [InfoOf(item)];
        }
    }
  }

  /** `fetch_directory_files(url, pattern)`. `listing` is what
      `repo.get_contents(path, ref=ref)` returns for the URL's path: a list,
      each directory carrying its own listing, or `None` when the path names a
      single file (then `contents.pop(0)` raises and the handler returns `[]`);
      `apiError` stands for a `GithubException` raised along the way. */
  method FetchDirectoryFiles(url: string, pattern: string, listing: Option<seq<ContentItem>>, apiError: bool)
    returns (files: seq<FileInfo>)
    ensures ParseGitHubUrl(url).None? || apiError || listing.None? ==> files == []
    ensures ParseGitHubUrl(url).Some? && !apiError && listing.Some? ==> files == Worklist(pattern, listing.value)
  {
    if ParseGitHubUrl(url).None? || apiError || listing.None? {
      return [];
    }
    files := WalkListing(pattern, listing.value);
  }
}
