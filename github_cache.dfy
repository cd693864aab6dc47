/**
  `src/utils/github_cache.py`: a cache of cloned repositories, one directory
  per key under `cache_dir`, plus the process-wide instance.

  The cache directory is the map `entries` from directory name to its
  modification time (integer seconds) and size (integer bytes). The clock,
  the order `iterdir` lists the directories in, the outcome of `git clone`
  and which directories `shutil.rmtree` fails on are parameters; `md5` is the
  function `digest` fixed at construction. Every call is one atomic step, as
  under the class's single lock.
*/
module GitHubCache {
  import opened Wrappers
  import opened Strings
  import GitHubHelper

  /** A cached repository directory. */
  datatype Entry = Entry(mtime: int, size: nat)

  /** A row of `cached_repos` in the clean-up, and of `repos` in the cache info. */
  datatype Candidate = Candidate(name: string, mtime: int, size: nat)

  /** How `subprocess.run(cmd, timeout=300)` ends; a successful clone leaves
      the new directory with its time stamp and size. A git killed at the
      timeout cannot clean up, so it may leave a partial directory behind. */
  datatype CloneOutcome =
    | CloneOk(cloned: Entry)
    | NonZeroExit
    | TimedOut(leftover: Option<Entry>)
    | OtherError

  const BytesPerMb: nat := 1048576
  const SecondsPerHour: nat := 3600

  // ---------------------------------------------------------------------
  // Keys
  // ---------------------------------------------------------------------

  /** `ref or 'default'` */
  function RefOrDefault(ref: Option<string>): string {
    if ref.Some? && ref.value != "" then ref.value else "default"
  }

  /** `f"{repo_url}:{ref or 'default'}"`, the text that is hashed. */
  function KeyString(repoUrl: string, ref: Option<string>): string {
    repoUrl + ":" + RefOrDefault(ref)
  }

  /** No ref, an empty ref and the ref `default` all name the same entry. */
  lemma DefaultRefsShareKey(repoUrl: string)
    ensures KeyString(repoUrl, None) == KeyString(repoUrl, Some(""))
    ensures KeyString(repoUrl, Some("")) == KeyString(repoUrl, Some("default"))
  {
  }

  /** The part after the last occurrence of `c` (all of `s` if there is none). */
  function AfterLast(s: string, c: char): (r: string)
    ensures c !in r
    decreases |s|
  {
    if s == [] || s[|s| - 1] == c then "" else AfterLast(s[..|s| - 1], c) + [s[|s| - 1]]
  }

  lemma {:induction false} AfterLastOf(a: string, b: string, c: char)
    requires c !in b
    ensures AfterLast(a + [c] + b, c) == b
    decreases |b|
  {
    var s := a + [c] + b;
    if b == [] {
      assert s[|s| - 1] == c;
    } else {
      var b' := b[..|b| - 1];
      assert s[..|s| - 1] == a + [c] + b';
      assert s[|s| - 1] == b[|b| - 1];
      AfterLastOf(a, b', c);
      assert b == b' + [b[|b| - 1]];
    }
  }

  /** Distinct repositories or refs give distinct key texts, as long as the
      refs hold no colon (git forbids `:` in ref names). */
  lemma KeyStringInjective(u1: string, r1: Option<string>, u2: string, r2: Option<string>)
    requires ':' !in RefOrDefault(r1) && ':' !in RefOrDefault(r2)
    requires KeyString(u1, r1) == KeyString(u2, r2)
    ensures u1 == u2 && RefOrDefault(r1) == RefOrDefault(r2)
  {
    AfterLastOf(u1, RefOrDefault(r1), ':');
    AfterLastOf(u2, RefOrDefault(r2), ':');
    var s := KeyString(u1, r1);
    assert u1 == s[..|u1|] && u2 == s[..|u2|];
  }

  // ---------------------------------------------------------------------
  // Sorting by modification time (`list.sort`, which is stable)
  // ---------------------------------------------------------------------

  /** `c` goes before `d`: oldest first, or newest first when `desc`. */
  predicate Before(c: Candidate, d: Candidate, desc: bool) {
    if desc then c.mtime >= d.mtime else c.mtime <= d.mtime
  }

  predicate SortedByMtime(s: seq<Candidate>, desc: bool) {
    forall i, j :: 0 <= i < j < |s| ==> Before(s[i], s[j], desc)
  }

  /** Insert `c` in front of the first element it goes before. */
  function Insert(c: Candidate, s: seq<Candidate>, desc: bool): seq<Candidate> {
    if s == [] || Before(c, s[0], desc) then [c] + s else [s[0]] + Insert(c, s[1..], desc)
  }

  /** `sorted(key=mtime, reverse=desc)`: equal times keep their listing order. */
  function SortByMtime(s: seq<Candidate>, desc: bool): seq<Candidate> {
    if s == [] then [] else Insert(s[0], SortByMtime(s[1..], desc), desc)
  }

  lemma {:induction false} InsertPerm(c: Candidate, s: seq<Candidate>, desc: bool)
    ensures multiset(Insert(c, s, desc)) == multiset{c} + multiset(s)
    decreases |s|
  {
    if s != [] && !Before(c, s[0], desc) {
      InsertPerm(c, s[1..], desc);
      assert s == [s[0]] + s[1..];
    }
  }

  lemma SortedHead(s: seq<Candidate>, desc: bool)
    requires SortedByMtime(s, desc) && s != []
    ensures forall x :: x in s[1..] ==> Before(s[0], x, desc)
  {
    forall x | x in s[1..] ensures Before(s[0], x, desc) {
      var k :| 0 <= k < |s[1..]| && s[1..][k] == x;
      assert s[k + 1] == x;
    }
  }

  lemma ConsSorted(h: Candidate, r: seq<Candidate>, desc: bool)
    requires SortedByMtime(r, desc) && forall x :: x in r ==> Before(h, x, desc)
    ensures SortedByMtime([h] + r, desc)
  {
    var t := [h] + r;
    forall i, j | 0 <= i < j < |t| ensures Before(t[i], t[j], desc) {
      assert t[j] == r[j - 1];
      if i > 0 {
        assert t[i] == r[i - 1];
      } else {
        assert r[j - 1] in r;
      }
    }
  }

  lemma {:induction false} InsertSorted(c: Candidate, s: seq<Candidate>, desc: bool)
    requires SortedByMtime(s, desc)
    ensures SortedByMtime(Insert(c, s, desc), desc)
    decreases |s|
  {
    if s == [] || Before(c, s[0], desc) {
      if s != [] {
        SortedHead(s, desc);
        assert s == [s[0]] + s[1..];
      }
      ConsSorted(c, s, desc);
    } else {
      var r := Insert(c, s[1..], desc);
      InsertSorted(c, s[1..], desc);
      InsertPerm(c, s[1..], desc);
      SortedHead(s, desc);
      forall x | x in r ensures Before(s[0], x, desc) {
        assert x in multiset(r);
        assert x == c || x in multiset(s[1..]);
      }
      ConsSorted(s[0], r, desc);
    }
  }

  /** The sort orders by time and is a permutation of its input. */
  lemma {:induction false} SortByMtimeSpec(s: seq<Candidate>, desc: bool)
    ensures SortedByMtime(SortByMtime(s, desc), desc)
    ensures multiset(SortByMtime(s, desc)) == multiset(s)
    decreases |s|
  {
    if s != [] {
      SortByMtimeSpec(s[1..], desc);
      InsertSorted(s[0], SortByMtime(s[1..], desc), desc);
      InsertPerm(s[0], SortByMtime(s[1..], desc), desc);
      assert s == [s[0]] + s[1..];
    }
  }

  // ---------------------------------------------------------------------
  // Eviction: the `while total_size_mb > max and cached_repos` loop
  // ---------------------------------------------------------------------

  function SumSizes(s: seq<Candidate>): nat {
    if s == [] then 0 else s[0].size + SumSizes(s[1..])
  }

  lemma {:induction false} SumSizesAppend(a: seq<Candidate>, b: seq<Candidate>)
    ensures SumSizes(a + b) == SumSizes(a) + SumSizes(b)
    decreases |a|
  {
    if a == [] {
      assert a + b == b;
    } else {
      assert (a + b)[1..] == a[1..] + b;
      SumSizesAppend(a[1..], b);
    }
  }

  function Names(s: seq<Candidate>): set<string> {
    set c | c in s :: c.name
  }

  /** The candidates whose removal succeeds, in order. */
  function Deletable(s: seq<Candidate>, undeletable: set<string>): seq<Candidate> {
    if s == [] then []
    else (if s[0].name in undeletable then [] else [s[0]]) + Deletable(s[1..], undeletable)
  }

  /** What the loop removes from `cands` (oldest first) when the directories
      total `total` bytes against a limit of `limit` bytes: pop the oldest; if
      `rmtree` succeeds, subtract its size; stop once the total is at most the
      limit or nothing is left. */
  function Evict(cands: seq<Candidate>, total: int, limit: int, undeletable: set<string>): seq<Candidate> {
    if total <= limit || cands == [] then []
    else if cands[0].name in undeletable then Evict(cands[1..], total, limit, undeletable)
    else [cands[0]] + Evict(cands[1..], total - cands[0].size, limit, undeletable)
  }

  /** Nothing is removed while the cache is within its limit. */
  lemma EvictNothingWithinLimit(cands: seq<Candidate>, total: int, limit: int, undeletable: set<string>)
    requires total <= limit
    ensures Evict(cands, total, limit, undeletable) == []
  {
  }

  /** The loop removes the oldest deletable directories: a prefix of them, in
      order, never one that could not be deleted. */
  lemma {:induction false} EvictIsPrefix(cands: seq<Candidate>, total: int, limit: int, undeletable: set<string>)
    ensures Evict(cands, total, limit, undeletable) <= Deletable(cands, undeletable)
    decreases |cands|
  {
    if total > limit && cands != [] {
      EvictIsPrefix(cands[1..], if cands[0].name in undeletable then total else total - cands[0].size, limit, undeletable);
    }
  }

  /** The loop stops with the total within the limit, or with every deletable
      directory removed. */
  lemma {:induction false} EvictStops(cands: seq<Candidate>, total: int, limit: int, undeletable: set<string>)
    ensures var r := Evict(cands, total, limit, undeletable);
      total - SumSizes(r) <= limit || r == Deletable(cands, undeletable)
    decreases |cands|
  {
    if total > limit && cands != [] {
      var c := cands[0];
      if c.name in undeletable {
        EvictStops(cands[1..], total, limit, undeletable);
      } else {
        EvictStops(cands[1..], total - c.size, limit, undeletable);
        var r := Evict(cands[1..], total - c.size, limit, undeletable);
        assert ([c] + r)[1..] == r;
      }
    }
  }

  /** The loop removes no more than it must: before each removal the total
      was still above the limit. */
  lemma {:induction false} EvictMinimal(cands: seq<Candidate>, total: int, limit: int, undeletable: set<string>, k: nat)
    requires k < |Evict(cands, total, limit, undeletable)|
    ensures total - SumSizes(Evict(cands, total, limit, undeletable)[..k]) > limit
    decreases |cands|
  {
    var c := cands[0];
    if c.name in undeletable {
      EvictMinimal(cands[1..], total, limit, undeletable, k);
    } else if k > 0 {
      var t := total - c.size;
      var rest := Evict(cands[1..], t, limit, undeletable);
      EvictMinimal(cands[1..], t, limit, undeletable, k - 1);
      var r := [c] + rest;
      assert r[..k] == [c] + rest[..k - 1];
    } else {
      assert Evict(cands, total, limit, undeletable)[..k] == [];
    }
  }

  /** The rows of the directories listed in `order`. */
  function Candidates(order: seq<string>, m: map<string, Entry>): seq<Candidate>
    requires forall i :: 0 <= i < |order| ==> order[i] in m
  {
    seq(|order|, i requires 0 <= i < |order| => Candidate(order[i], m[order[i]].mtime, m[order[i]].size))
  }

  /** `order` lists each directory of `m` exactly once, as `iterdir` does. */
  predicate IsListing(order: seq<string>, m: map<string, Entry>) {
    (forall i :: 0 <= i < |order| ==> order[i] in m)
    && (forall k :: k in m ==> k in order)
    && (forall i, j :: 0 <= i < j < |order| ==> order[i] != order[j])
  }

  /** The directories `_cleanup_old_caches` removes from `m`, oldest first. */
  function Evicted(m: map<string, Entry>, order: seq<string>, limitMb: int, undeletable: set<string>): seq<Candidate>
    requires IsListing(order, m)
  {
    var sorted := SortByMtime(Candidates(order, m), false);
    Evict(sorted, SumSizes(sorted), limitMb * BytesPerMb, undeletable)
  }

  lemma CandidatesMembers(order: seq<string>, m: map<string, Entry>, c: Candidate)
    requires forall i :: 0 <= i < |order| ==> order[i] in m
    requires c in Candidates(order, m)
    ensures c.name in m && m[c.name] == Entry(c.mtime, c.size)
  {
  }

  lemma {:induction false} PrefixMembers(r: seq<Candidate>, s: seq<Candidate>, c: Candidate)
    requires r <= s && c in r
    ensures c in s
  {
    var k :| 0 <= k < |r| && r[k] == c;
    assert s[k] == c;
  }

  lemma {:induction false} DeletableMembers(s: seq<Candidate>, undeletable: set<string>, c: Candidate)
    requires c in Deletable(s, undeletable)
    ensures c in s && c.name !in undeletable
    decreases |s|
  {
    if s[0] != c || s[0].name in undeletable {
      var h := if s[0].name in undeletable then [] else [s[0]];
      assert Deletable(s, undeletable) == h + Deletable(s[1..], undeletable);
      assert c in Deletable(s[1..], undeletable);
      DeletableMembers(s[1..], undeletable, c);
    }
  }

  /** Only directories of the cache that can be deleted are evicted, and a
      directory `rmtree` fails on always stays. */
  lemma EvictedFromCache(m: map<string, Entry>, order: seq<string>, limitMb: int, undeletable: set<string>, c: Candidate)
    requires IsListing(order, m) && c in Evicted(m, order, limitMb, undeletable)
    ensures c.name in m && m[c.name] == Entry(c.mtime, c.size) && c.name !in undeletable
  {
    var cands := Candidates(order, m);
    var sorted := SortByMtime(cands, false);
    SortByMtimeSpec(cands, false);
    EvictIsPrefix(sorted, SumSizes(sorted), limitMb * BytesPerMb, undeletable);
    PrefixMembers(Evicted(m, order, limitMb, undeletable), Deletable(sorted, undeletable), c);
    DeletableMembers(sorted, undeletable, c);
    assert c in multiset(sorted);
    CandidatesMembers(order, m, c);
  }

  /** Directories are evicted oldest first. */
  lemma EvictedOldestFirst(m: map<string, Entry>, order: seq<string>, limitMb: int, undeletable: set<string>)
    requires IsListing(order, m)
    ensures SortedByMtime(Evicted(m, order, limitMb, undeletable), false)
  {
    var sorted := SortByMtime(Candidates(order, m), false);
    SortByMtimeSpec(Candidates(order, m), false);
    EvictIsPrefix(sorted, SumSizes(sorted), limitMb * BytesPerMb, undeletable);
    DeletableSorted(sorted, undeletable);
  }

  lemma {:induction false} DeletableSorted(s: seq<Candidate>, undeletable: set<string>)
    requires SortedByMtime(s, false)
    ensures SortedByMtime(Deletable(s, undeletable), false)
    decreases |s|
  {
    if s != [] {
      DeletableSorted(s[1..], undeletable);
      var rest := Deletable(s[1..], undeletable);
      if s[0].name !in undeletable {
        forall x | x in rest ensures s[0].mtime <= x.mtime {
          DeletableMembers(s[1..], undeletable, x);
          var k :| 0 <= k < |s[1..]| && s[1..][k] == x;
          assert s[k + 1] == x;
        }
        var t := [s[0]] + rest;
        forall i, j | 0 <= i < j < |t| ensures t[i].mtime <= t[j].mtime {
          assert t[j] == rest[j - 1];
          assert rest[j - 1] in rest;
          if i > 0 {
            assert t[i] == rest[i - 1];
          }
        }
      } else {
        assert Deletable(s, undeletable) == rest;
      }
    }
  }

  // ---------------------------------------------------------------------
  // The clone command of get_or_clone
  // ---------------------------------------------------------------------

  /** The URL handed to git: the token goes in only when one is given and the
      URL mentions `github.com` (case sensitive here). */
  function CloneUrl(repoUrl: string, token: Option<string>): string {
    if token.Some? && token.value != "" && Contains(repoUrl, "github.com")
    then GitHubHelper.WithToken(repoUrl, token.value) else repoUrl
  }

  /** An `https://` URL with no further `https://` gets the token right after
      its scheme. */
  lemma CloneUrlTokenAfterScheme(rest: string, token: string)
    requires !Contains(rest, "https://") && Contains(rest, "github.com") && token != ""
    ensures CloneUrl("https://" + rest, Some(token)) == "https://" + token + "@" + rest
  {
    ContainsConcatRight("https://", rest, "github.com");
    ReplaceLeading("https://", rest, "https://" + token + "@");
  }

  /** The command `get_or_clone` runs. */
  function CloneArgs(repoUrl: string, ref: Option<string>, token: Option<string>, shallow: bool, path: string): seq<string> {
    ["git", "clone"]
    + (if shallow then ["--depth", "1"] else [])
    + (if ref.Some? && ref.value != "" then ["--branch", ref.value, "--single-branch"] else [])
    + [CloneUrl(repoUrl, token), path]
  }

  /** `git clone`, then `--depth 1` iff shallow, then the branch options iff
      the ref is non-empty, then the URL and the target path. */
  lemma CloneArgsShape(repoUrl: string, ref: Option<string>, token: Option<string>, shallow: bool, path: string)
    ensures var cmd := CloneArgs(repoUrl, ref, token, shallow, path);
      var d := if shallow then 2 else 0;
      var hasRef := ref.Some? && ref.value != "";
      && |cmd| == 4 + d + (if hasRef then 3 else 0)
      && cmd[..2] == ["git", "clone"]
      && (shallow ==> cmd[2..4] == ["--depth", "1"])
      && (hasRef ==> cmd[2 + d..5 + d] == ["--branch", ref.value, "--single-branch"])
      && cmd[|cmd| - 2..] == [CloneUrl(repoUrl, token), path]
      && ("--depth" in cmd <==> shallow || repoUrl == "--depth" || path == "--depth" || (hasRef && ref.value == "--depth")
                                  || CloneUrl(repoUrl, token) == "--depth")
  {
  }

  /** The `cmd.extend` steps of `get_or_clone`. */
  method BuildCloneCommand(repoUrl: string, ref: Option<string>, token: Option<string>, shallow: bool, path: string)
    returns (cmd: seq<string>)
    ensures cmd == CloneArgs(repoUrl, ref, token, shallow, path)
  {
    var cloneUrl := repoUrl;
    if token.Some? && token.value != "" && Contains(repoUrl, "github.com") {
      cloneUrl := GitHubHelper.WithToken(repoUrl, token.value);
    }
    cmd := ["git", "clone"];
    if shallow {
      cmd := cmd + ["--depth", "1"];
    }
    if ref.Some? && ref.value != "" {
      cmd := cmd + ["--branch", ref.value, "--single-branch"];
    }
    cmd := cmd + [cloneUrl, path];
  }

  // ---------------------------------------------------------------------
  // GitHubRepositoryCache
  // ---------------------------------------------------------------------

  /** The information `get_cache_info` reports. */
  datatype CacheInfo = CacheInfo(totalRepos: nat, totalSize: nat, maxSizeMb: int, repos: seq<Candidate>)

  class RepositoryCache {
    const cacheDir: string
    const maxAgeSeconds: int
    const maxCacheSizeMb: int
    /** `hashlib.md5(...).hexdigest()` */
    const digest: string -> string
    /** The directories under `cacheDir`. */
    var entries: map<string, Entry>

    /** `GitHubRepositoryCache(cache_dir, max_age_hours, max_cache_size_mb)`
        over a cache directory that already holds `existing`. */
    constructor(cacheDir: string, maxAgeHours: int, maxCacheSizeMb: int, digest: string -> string,
                existing: map<string, Entry>)
      ensures this.cacheDir == cacheDir && this.maxAgeSeconds == maxAgeHours * SecondsPerHour
      ensures this.maxCacheSizeMb == maxCacheSizeMb && this.digest == digest
      ensures entries == existing
    {
      this.cacheDir := cacheDir;
      this.maxAgeSeconds := maxAgeHours * SecondsPerHour;
      this.maxCacheSizeMb := maxCacheSizeMb;
      this.digest := digest;
      entries := existing;
    }

    /** `_get_cache_key` */
    function CacheKey(repoUrl: string, ref: Option<string>): (key: string)
      ensures key == digest(KeyString(repoUrl, ref))
    {
      digest(repoUrl + ":" + RefOrDefault(ref))
    }

    /** `_get_cache_path`: `cache_dir / key`. */
    function CachePath(key: string): string {
      cacheDir + "/" + key
    }

    /** `_is_cache_valid`: the directory exists and is younger than the
        maximum age (strictly). */
    predicate IsValid(key: string, now: int)
      reads this
    {
      key in entries && now - entries[key].mtime < maxAgeSeconds
    }

    /** An entry only becomes invalid as time passes, and it is invalid from
        the moment it is `max_age` old. */
    lemma ValidityExpires(key: string, now: int, later: int)
      requires now <= later
      ensures IsValid(key, later) ==> IsValid(key, now)
      ensures key in entries && later >= entries[key].mtime + maxAgeSeconds ==> !IsValid(key, later)
    {
    }

    /** Ref `None`, `""` and `"default"` share one key and one directory. */
    lemma DefaultRefsSharePath(repoUrl: string)
      ensures CachePath(CacheKey(repoUrl, None)) == CachePath(CacheKey(repoUrl, Some("")))
      ensures CachePath(CacheKey(repoUrl, Some(""))) == CachePath(CacheKey(repoUrl, Some("default")))
    {
      DefaultRefsShareKey(repoUrl);
    }

    /** The `for repo_dir in self.cache_dir.iterdir()` loop collecting one
        row per directory, in listing order. */
    method ListCandidates(order: seq<string>) returns (cached: seq<Candidate>)
      requires IsListing(order, entries)
      ensures cached == Candidates(order, entries)
    {
      cached := [];
      for i := 0 to |order|
        invariant cached == Candidates(order[..i], entries)
      {
        var e := entries[order[i]];
        cached := cached + [Candidate(order[i], e.mtime, e.size)];
      }
      assert order[..|order|] == order;
    }

    /** `_cleanup_old_caches`: list the directories, sort them oldest first,
        and remove the oldest while the total exceeds the limit. `order` is the
        `iterdir` order; `rmtree` fails on the names in `undeletable`. */
    method CleanupOldCaches(order: seq<string>, undeletable: set<string>)
      requires IsListing(order, entries)
      modifies this
      ensures entries == old(entries) - Names(Evicted(old(entries), order, maxCacheSizeMb, undeletable))
    {
      var cached := ListCandidates(order);
      cached := SortByMtime(cached, false);
      var total: int := SumSizes(cached);
      var limit := maxCacheSizeMb * BytesPerMb;
      ghost var plan := Evict(cached, total, limit, undeletable);
      ghost var removed: seq<Candidate> := [];
      ghost var start := entries;
      while total > limit && cached != []
        invariant plan == removed + Evict(cached, total, limit, undeletable)
        invariant entries == start - Names(removed)
        decreases |cached|
      {
        var oldest := cached[0];
        cached := cached[1..];
        if oldest.name !in undeletable {
          entries := entries - {oldest.name};
          total := total - oldest.size;
          assert Names(removed + [oldest]) == Names(removed) + {oldest.name};
          removed := removed + [oldest];
        }
      }
      assert removed == plan;
    }

    /** `get_or_clone(repo_url, ref, github_token, shallow)` at time `now`.
        A valid entry is returned untouched. Otherwise the stale directory is
        removed and git runs; `outcome` is how it ends, `order` lists the
        directories after a successful clone and `undeletable` the
        directories `rmtree` fails on: for the stale directory the exception
        escapes (`raised`), in the clean-up it is caught. */
    method GetOrClone(repoUrl: string, ref: Option<string>, token: Option<string>, shallow: bool, now: int,
                      outcome: CloneOutcome, order: seq<string>, undeletable: set<string>)
      returns (result: Option<string>, cmd: Option<seq<string>>, raised: bool)
      requires outcome.CloneOk? && !IsValid(CacheKey(repoUrl, ref), now) ==>
        IsListing(order, (entries - {CacheKey(repoUrl, ref)})[CacheKey(repoUrl, ref) := outcome.cloned])
      modifies this
      ensures var key := CacheKey(repoUrl, ref);
        old(IsValid(key, now)) ==> result == Some(CachePath(key)) && cmd.None? && !raised && entries == old(entries)
      ensures var key := CacheKey(repoUrl, ref);
        raised <==> !old(IsValid(key, now)) && key in old(entries) && key in undeletable
      ensures raised ==> result.None? && cmd.None? && entries == old(entries)
      ensures var key := CacheKey(repoUrl, ref);
        !old(IsValid(key, now)) && !raised ==> cmd == Some(CloneArgs(repoUrl, ref, token, shallow, CachePath(key)))
      ensures var key := CacheKey(repoUrl, ref);
        !old(IsValid(key, now)) && !raised && (outcome.NonZeroExit? || outcome.OtherError? || outcome == TimedOut(None)) ==>
          result.None? && entries == old(entries) - {key}
      ensures var key := CacheKey(repoUrl, ref);
        !old(IsValid(key, now)) && !raised && outcome.TimedOut? && outcome.leftover.Some? ==>
          result.None? && entries == (old(entries) - {key})[key := outcome.leftover.value]
      ensures var key := CacheKey(repoUrl, ref);
        !old(IsValid(key, now)) && !raised && outcome.CloneOk? ==>
          var cloned := (old(entries) - {key})[key := outcome.cloned];
          result == Some(CachePath(key))
          && entries == cloned - Names(Evicted(cloned, order, maxCacheSizeMb, undeletable))
    {
      var key := CacheKey(repoUrl, ref);
      var path := CachePath(key);
      if IsValid(key, now) {
        return Some(path), None, false;
      }
      if key in entries {
        if key in undeletable {
          return None, None, true;
        }
        entries := entries - {key};
      }
      assert entries == old(entries) - {key};
      raised := false;
      var c := BuildCloneCommand(repoUrl, ref, token, shallow, path);
      cmd := Some(c);
      match outcome
      case CloneOk(e) =>
        entries := entries[key := e];
        CleanupOldCaches(order, undeletable);
        result := Some(path);
      case NonZeroExit =>
        result := None;
      case TimedOut(leftover) =>
        if leftover.Some? {
          entries := entries[key := leftover.value];
        }
        result := None;
      case OtherError =>
        result := None;
    }

    /** A clone that times out may leave a partial directory under the key;
        while it is younger than the maximum age, the next `get_or_clone`
        for the same repository and ref serves it as a valid hit without
        running git. */
    method RetryAfterTimeout(repoUrl: string, ref: Option<string>, token: Option<string>, shallow: bool,
                             now: int, partial: Entry, later: int, order: seq<string>, undeletable: set<string>)
      returns (result: Option<string>, cmd: Option<seq<string>>)
      requires !IsValid(CacheKey(repoUrl, ref), now) && CacheKey(repoUrl, ref) !in undeletable
      requires later - partial.mtime < maxAgeSeconds
      modifies this
      ensures result == Some(CachePath(CacheKey(repoUrl, ref))) && cmd.None?
      ensures entries == (old(entries) - {CacheKey(repoUrl, ref)})[CacheKey(repoUrl, ref) := partial]
    {
      var first, _, _ := GetOrClone(repoUrl, ref, token, shallow, now, TimedOut(Some(partial)), order, undeletable);
      assert first.None?;
      var raised;
      result, cmd, raised := GetOrClone(repoUrl, ref, token, shallow, later, NonZeroExit, order, undeletable);
    }

    /** `clear_cache(cache_key)`: a non-empty key removes that directory only;
        no key (or an empty one) empties the whole cache directory. An `rmtree`
        raises on a directory in `undeletable` (it is left in place); a full
        clear stops there, having removed the directories in `removedFirst`
        that it reached before, and does not recreate the cache directory. */
    method ClearCache(cacheKey: Option<string>, undeletable: set<string>, removedFirst: set<string>)
      returns (raised: bool)
      modifies this
      ensures cacheKey.Some? && cacheKey.value != "" ==>
        (raised <==> cacheKey.value in old(entries) && cacheKey.value in undeletable)
      ensures cacheKey.Some? && cacheKey.value != "" && raised ==> entries == old(entries)
      ensures cacheKey.Some? && cacheKey.value != "" && !raised ==>
        forall k :: k in entries <==> k in old(entries) && k != cacheKey.value
      ensures cacheKey.Some? && cacheKey.value != "" ==> forall k :: k in entries ==> entries[k] == old(entries)[k]
      ensures !(cacheKey.Some? && cacheKey.value != "") ==>
        (raised <==> old(entries).Keys * undeletable != {})
      ensures !(cacheKey.Some? && cacheKey.value != "") && !raised ==> entries == map[]
      ensures !(cacheKey.Some? && cacheKey.value != "") && raised ==>
        entries == old(entries) - (removedFirst - undeletable)
    {
      if cacheKey.Some? && cacheKey.value != "" {
        if cacheKey.value in entries {
          if cacheKey.value in undeletable {
            raised := true;
          } else {
            raised := false;
            entries := entries - {cacheKey.value};
          }
        } else {
          raised := false;
        }
      } else if entries.Keys * undeletable != {} {
        raised := true;
        entries := entries - (removedFirst - undeletable);
      } else {
        raised := false;
        entries := map[];
      }
    }

    /** `get_cache_info`: the number of directories, their total size, the
        limit, and the directories newest first. */
    method GetCacheInfo(order: seq<string>) returns (info: CacheInfo)
      requires IsListing(order, entries)
      ensures info.totalRepos == |order| && info.maxSizeMb == maxCacheSizeMb
      ensures info.totalSize == SumSizes(Candidates(order, entries))
      ensures SortedByMtime(info.repos, true)
      ensures multiset(info.repos) == multiset(Candidates(order, entries))
      ensures forall c :: c in info.repos ==> c.name in entries && entries[c.name] == Entry(c.mtime, c.size)
    {
      var repos: seq<Candidate> := [];
      var totalSize: nat := 0;
      for i := 0 to |order|
        invariant repos == Candidates(order[..i], entries)
        invariant totalSize == SumSizes(repos)
      {
        var e := entries[order[i]];
        var row := Candidate(order[i], e.mtime, e.size);
        SumSizesAppend(repos, [row]);
        assert SumSizes([row]) == e.size;
        totalSize := totalSize + e.size;
        repos := repos + [row];
      }
      assert order[..|order|] == order;
      var sorted := SortByMtime(repos, true);
      SortByMtimeSpec(repos, true);
      forall c | c in sorted ensures c.name in entries && entries[c.name] == Entry(c.mtime, c.size) {
        assert c in multiset(repos);
        CandidatesMembers(order, entries, c);
      }
      info := CacheInfo(|repos|, totalSize, maxCacheSizeMb, sorted);
    }
  }

  // ---------------------------------------------------------------------
  // get_github_cache: the process-wide instance
  // ---------------------------------------------------------------------

  /** Where the global cache lives: an explicit directory, else the EFS mount
      (`EFS_MOUNT_PATH`, default `/mnt/efs`), else ephemeral storage. */
  function CacheLocation(cacheDir: Option<string>, useEfs: bool, efsMountEnv: Option<string>): string {
    if cacheDir.Some? && cacheDir.value != "" then cacheDir.value
    else if useEfs then efsMountEnv.GetOr("/mnt/efs") + "/github_cache"
    else "/tmp/github_cache"
  }

  /** The limits of the global cache: size in MB and age in hours. */
  function CacheLimits(useEfs: bool): (limits: (int, int))
  {
    if useEfs then (50000, 168) else (5000, 24)
  }

  /** Location precedence: a given directory wins, then the EFS mount, then
      `/tmp/github_cache`; the limits follow `use_efs` alone. */
  lemma CacheConfigPrecedence(cacheDir: Option<string>, useEfs: bool, efsMountEnv: Option<string>)
    ensures cacheDir.Some? && cacheDir.value != "" ==> CacheLocation(cacheDir, useEfs, efsMountEnv) == cacheDir.value
    ensures !(cacheDir.Some? && cacheDir.value != "") && useEfs ==>
      CacheLocation(cacheDir, useEfs, efsMountEnv) == efsMountEnv.GetOr("/mnt/efs") + "/github_cache"
    ensures !(cacheDir.Some? && cacheDir.value != "") && !useEfs ==> CacheLocation(cacheDir, useEfs, efsMountEnv) == "/tmp/github_cache"
    ensures CacheLimits(useEfs).0 > CacheLimits(false).0 <==> useEfs
    ensures CacheLimits(useEfs).1 > CacheLimits(false).1 <==> useEfs
  {
  }

  /** The module-level `_global_cache`. */
  class CacheRegistry {
    var instance: RepositoryCache?
    const digest: string -> string

    constructor(digest: string -> string)
      ensures instance == null && this.digest == digest
    {
      instance := null;
      this.digest := digest;
    }

    /** `get_github_cache(cache_dir, use_efs)`. The first call creates the
        instance over the directory's current contents `existing`; later calls
        return it and ignore their arguments. */
    method GetGitHubCache(cacheDir: Option<string>, useEfs: bool, efsMountEnv: Option<string>,
                          existing: map<string, Entry>) returns (cache: RepositoryCache)
      modifies this
      ensures instance == cache
      ensures old(instance) != null ==> cache == old(instance)
      ensures old(instance) == null ==> fresh(cache)
      ensures old(instance) == null ==> cache.cacheDir == CacheLocation(cacheDir, useEfs, efsMountEnv)
      ensures old(instance) == null ==> cache.maxCacheSizeMb == CacheLimits(useEfs).0
      ensures old(instance) == null ==> cache.maxAgeSeconds == CacheLimits(useEfs).1 * SecondsPerHour
      ensures old(instance) == null ==> cache.digest == digest && cache.entries == existing
    {
      if instance == null {
        var location: string;
        if cacheDir.Some? && cacheDir.value != "" {
          location := cacheDir.value;
        } else if useEfs {
          location := efsMountEnv.GetOr("/mnt/efs") + "/github_cache";
        } else {
          location := "/tmp/github_cache";
        }
        var maxCacheSize: int;
        var maxAgeHours: int;
        if useEfs {
          maxCacheSize, maxAgeHours := 50000, 168;
        } else {
          maxCacheSize, maxAgeHours := 5000, 24;
        }
        instance := new RepositoryCache(location, maxAgeHours, maxCacheSize, digest, existing);
      }
      cache := instance;
    }
  }
}
