# Code Scout core, modelled in Dafny

This project models the deterministic core of the Code Scout MCP server, a Python tool that indexes the symbols of a Python code base, local or on GitHub. It then answers questions about usages, dependencies and the impact of a change, and formats the answers for a language model. Five parts of it are modelled:

- **GitHub URL helper** (`GitHubHelper`, `github_helper.dfy`):
  - the three regular expressions of `parse_github_url`, with `re.search` semantics: the leftmost start index, patterns tried in order;
  - the case-insensitive GitHub-URL test;
  - the raw-content URL;
  - the `git clone` command line and its failure handling;
  - the worklist walk of `fetch_directory_files` over an abstract listing tree.
- **Repository cache** (`GitHubCache`, `github_cache.dfy`):
  - a `class RepositoryCache` whose directory contents are a `map` from key to modification time and size;
  - the key, the path and the validity test;
  - `get_or_clone` with an abstract clone outcome;
  - the oldest-first eviction loop of `_cleanup_old_caches`;
  - `clear_cache` and `get_cache_info`;
  - the process-wide singleton of `get_github_cache`, as a `class CacheRegistry`.
- **Symbol index and dependency graph** (`CodeScout`, `code_scout.dfy`):
  - the `SymbolVisitor` class over an abstract syntax-tree datatype;
  - the symbol table, kept in insertion order;
  - the per-file merge of `_analyze_file` and `find_symbol`;
  - the two-pass `build_dependency_graph`;
  - `analyze_impact`;
  - the line parsers of `grep_search` and `git_blame`.
- **Natural-language formatter** (`NlFormatter`, `nl_formatter.dfy`):
  - a dynamic `Value` type for Python's JSON-like results;
  - the de-duplication and shape normalisation of `format_response`;
  - the `find_symbol`, small `grep_search`, plan, refactor, tests and generic formatters, including the cache-path rewriting and the truncation rules;
  - the `NaturalLanguageFormatter` class with its lazily initialised client.
- **Refactoring crew code analysis** (`RefactoringCrew`, `refactoring_crew.dfy`): the line-based census of `CodeAnalysisTool._run`.

`strings.dfy` (`Strings`) models the parts of Python's `str` that the code relies on: `in`, `find`, `split`, `join`, `strip`, `rstrip`, `lower`, `replace` and `str(int)`. `wrappers.dfy` holds `Option`. A Python function that can raise on a badly shaped value returns `Option`, with `None` for the exception.

Several things are parameters of the model:

- Subprocess results: how `git clone` ends, and the standard output of `grep` and `git blame`.
- The order in which `iterdir` lists directories, which directories `rmtree` fails on, and which directories a full `clear_cache` removes before it fails.
- The clock (`now`).
- The hash (`digest`, standing for `md5`).
- Whether the Bedrock client can be created, and the text the language model answers.

## Model

| member | source | states |
|---|---|---|
| GitHubHelper.LinePrefixSpec | src/utils/github_helper.py:48 | the greedy `.+` path group takes a prefix of the text holding no newline, and all of it when there is no newline |
| GitHubHelper.MatchAfterHost | src/utils/github_helper.py:48-52 | a pattern tried right after `github.com/` sees exactly the rest of the text |
| GitHubHelper.GroupsWellFormed | src/utils/github_helper.py:46-53 | every captured group is non-empty; owner, repository and ref hold no slash, the path no newline; only the repository pattern gives owner and repository alone |
| GitHubHelper.MatchWellFormed | src/utils/github_helper.py:46-58 | a match at any start index is well formed, and bare exactly for the repository pattern |
| GitHubHelper.LocatedGroupsText | src/utils/github_helper.py:48-50 | a blob or tree match starts with `owner/repo/KIND/ref/path` built from its groups |
| GitHubHelper.LocatedGroupsHasKind | src/utils/github_helper.py:48-50 | a blob or tree match needs `/blob/` or `/tree/` in the text |
| GitHubHelper.LocatedGroupsSlashes | src/utils/github_helper.py:48-50 | a blob or tree match needs at least three slashes after the host |
| GitHubHelper.BareGroupsText | src/utils/github_helper.py:52 | a repository match is `owner/repo` up to the end, with only an optional slash and final newline after it |
| GitHubHelper.LocatedGroupsOf | src/utils/github_helper.py:48-50 | slash-free owner, repository and ref and a newline-free path are recovered exactly |
| GitHubHelper.BareGroupsOf | src/utils/github_helper.py:52 | slash-free owner and repository, with or without a trailing slash, are recovered exactly |
| GitHubHelper.FirstHit | src/utils/github_helper.py:56 | the leftmost start index where a pattern matches, or none when there is none |
| GitHubHelper.SearchNone | src/utils/github_helper.py:56-57 | `re.search` finds nothing exactly when no start index matches |
| GitHubHelper.SearchFindsFirst | src/utils/github_helper.py:56-58 | the leftmost matching start index is the match `re.search` reports |
| GitHubHelper.SearchIsMatch | src/utils/github_helper.py:56-58 | a reported match is the match at some start index |
| GitHubHelper.ParseMatch | src/utils/github_helper.py:55-58 | a successful parse is a pattern matching at an occurrence of `github.com/` |
| GitHubHelper.ParseWellFormed | src/utils/github_helper.py:46-60 | every parse result has non-empty groups, no slash in owner, repository or ref, and no newline in the path |
| GitHubHelper.ParseTriesPatternsInOrder | src/utils/github_helper.py:55-60 | the result is `None` exactly when no pattern matches anywhere; a bare result means neither the blob nor the tree pattern matches anywhere |
| GitHubHelper.LocatedMatchText | src/utils/github_helper.py:48-50 | a blob or tree match occurs in the URL as the text of its groups |
| GitHubHelper.BareMatchText | src/utils/github_helper.py:52 | a repository match is the end of the URL |
| GitHubHelper.ParseSound | src/utils/github_helper.py:46-60 | a blob or tree result is spelled out in the URL, and a bare result ends the URL |
| GitHubHelper.NoMatchInPrefix | src/utils/github_helper.py:48-52 | no pattern matches inside a prefix without `g` |
| GitHubHelper.ParseBlobUrl | src/utils/github_helper.py:46-58 | a blob URL parses as its owner, repository, ref and path |
| GitHubHelper.BlobMatchHasKind | src/utils/github_helper.py:48 | a blob match anywhere means the URL holds `/blob/` |
| GitHubHelper.ParseTreeUrl | src/utils/github_helper.py:46-58 | a tree URL without `/blob/` parses as its owner, repository, ref and path |
| GitHubHelper.FewSlashesNoLocatedMatch | src/utils/github_helper.py:48-50 | with at most two slashes after the host, neither the blob nor the tree pattern matches anywhere |
| GitHubHelper.ParseBareUrl | src/utils/github_helper.py:46-60 | a repository URL, with or without a trailing slash, parses as owner and repository only |
| GitHubHelper.ExtraSegmentsNoGroups | src/utils/github_helper.py:48-52 | segments after the repository other than `blob/...` or `tree/...` fail every pattern |
| GitHubHelper.ParseRejectsExtraSegments | src/utils/github_helper.py:46-60 | such a URL naming the host once parses as `None` |
| GitHubHelper.IsGitHubUrlIgnoresCase | src/utils/github_helper.py:276 | lower-casing the input first does not change the test |
| GitHubHelper.HostIsGitHubUrl | src/utils/github_helper.py:276 | text holding `github.com/` passes the test |
| GitHubHelper.ParsedIsGitHubUrl | src/utils/github_helper.py:46-60 | every URL the parser accepts passes the GitHub-URL test |
| GitHubHelper.RawContentUrl | src/utils/github_helper.py:107-113 | the requested URL, when there is one, is on `raw.githubusercontent.com` |
| GitHubHelper.RawContentUrlOnlyWithPath | src/utils/github_helper.py:107-109 | a raw URL is built exactly for blob and tree URLs; a bare or unparseable URL makes no request |
| GitHubHelper.RawUrlInjective | src/utils/github_helper.py:112-113 | distinct well-formed owner, repository, ref and path never share a raw URL |
| GitHubHelper.RawUrlOfBlobUrl | src/utils/github_helper.py:107-113 | the raw URL of a blob URL is `raw.githubusercontent.com/owner/repo/ref/path` |
| GitHubHelper.NoDoubleSlashNoScheme | src/utils/github_helper.py:152 | text with no two slashes in a row holds no `https://` |
| GitHubHelper.TokenAfterScheme | src/utils/github_helper.py:138-152 | replacing `https://` in the canonical clone URL puts the token right after the scheme and nowhere else |
| GitHubHelper.CloneCommand | src/utils/github_helper.py:138-155 | `git clone --depth 1`, then `--branch ref` exactly for a result with a ref, then the canonical URL (with the token after the scheme when there is one) and the target |
| GitHubHelper.CloneRepository | src/utils/github_helper.py:123-173 | an unparseable URL runs nothing and gives `None`; otherwise the command is the shallow clone of the canonical URL, with `--branch` for a blob or tree ref and the token after the scheme, into the target (a fresh temporary directory by default); the target is returned exactly when git succeeds, and removed exactly on a git failure when it exists |
| GitHubHelper.WorklistReportsMatchingFiles | src/utils/github_helper.py:197-217 | the worklist reports exactly the matching files of the whole tree, each as often as it occurs |
| GitHubHelper.MatchingInfosMembers | src/utils/github_helper.py:203-217 | a file is reported iff it is reachable and its name ends in `.py` for `*.py` or contains the pattern |
| GitHubHelper.WalkListing | src/utils/github_helper.py:197-217 | the `pop(0)`/`extend` loop computes the worklist order: files are reported in the order they are popped |
| GitHubHelper.FetchDirectoryFiles | src/utils/github_helper.py:186-226 | `[]` for an unparseable URL, a single-file path or an API error, otherwise the walk over the listing |
| GitHubCache.DefaultRefsShareKey | src/utils/github_cache.py:51-54 | no ref, the empty ref and `default` give the same key text |
| GitHubCache.KeyStringInjective | src/utils/github_cache.py:53 | with colon-free refs, equal key texts mean the same URL and the same `ref or 'default'` |
| GitHubCache.SortByMtimeSpec | src/utils/github_cache.py:87-88 | the stable sort by modification time is ordered and a permutation of its input |
| GitHubCache.EvictNothingWithinLimit | src/utils/github_cache.py:91-94 | nothing is removed when the total is already within the limit |
| GitHubCache.EvictIsPrefix | src/utils/github_cache.py:94-101 | the removed directories are a prefix of the deletable ones, oldest first; a failed `rmtree` only skips that directory |
| GitHubCache.EvictStops | src/utils/github_cache.py:94-101 | the loop ends with the total within the limit, or with every deletable directory removed |
| GitHubCache.EvictMinimal | src/utils/github_cache.py:94-98 | before each removal the total still exceeded the limit |
| GitHubCache.EvictedFromCache | src/utils/github_cache.py:76-101 | only directories of the cache are removed, with their listed time and size, and never one `rmtree` fails on |
| GitHubCache.EvictedOldestFirst | src/utils/github_cache.py:87-101 | directories are removed in ascending modification time |
| GitHubCache.CloneUrlTokenAfterScheme | src/utils/github_cache.py:139-142 | with a token and `github.com` in the URL, the token goes right after the one `https://` |
| GitHubCache.CloneArgsShape | src/utils/github_cache.py:144-152 | `git clone`, `--depth 1` iff shallow, `--branch ref --single-branch` iff the ref is non-empty, then the URL and the path |
| GitHubCache.BuildCloneCommand | src/utils/github_cache.py:144-152 | the `extend` steps build exactly that command |
| GitHubCache.RepositoryCache.constructor | src/utils/github_cache.py:30-49 | the directory, the age limit in seconds, the size limit and the hash are fixed; the directory holds what it held before |
| GitHubCache.RepositoryCache.ValidityExpires | src/utils/github_cache.py:60-69 | validity only ends as time passes, and an entry `max_age` old or older is invalid |
| GitHubCache.RepositoryCache.DefaultRefsSharePath | src/utils/github_cache.py:51-58 | ref `None`, `''` and `'default'` share one directory |
| GitHubCache.RepositoryCache.ListCandidates | src/utils/github_cache.py:77-85 | one row per directory, in listing order |
| GitHubCache.RepositoryCache.CleanupOldCaches | src/utils/github_cache.py:71-101 | the cache loses exactly the evicted directories |
| GitHubCache.RepositoryCache.GetOrClone | src/utils/github_cache.py:103-178 | a valid hit returns the path and changes nothing; a stale directory that `rmtree` cannot remove raises with nothing changed; otherwise the old directory goes and the clone command runs; a failed clone returns `None` without eviction, leaving only the partial directory a timed-out git may leave; a successful one adds the clone, evicts, and returns the path |
| GitHubCache.RepositoryCache.RetryAfterTimeout | src/utils/github_cache.py:125-175 | after a timeout that leaves a partial directory, the next call for the same repository and ref returns that directory as a valid hit without running git |
| GitHubCache.RepositoryCache.ClearCache | src/utils/github_cache.py:180-196 | a non-empty key removes that directory only, and raises with the cache unchanged exactly when that directory exists and cannot be removed; no key empties the cache, or raises exactly when some directory cannot be removed, leaving every directory it did not reach |
| GitHubCache.RepositoryCache.GetCacheInfo | src/utils/github_cache.py:198-227 | the number of directories, their total size, the limit, and the directories newest first as a permutation of the listing |
| GitHubCache.CacheConfigPrecedence | src/utils/github_cache.py:250-270 | a given directory wins, then the EFS mount, then `/tmp/github_cache`; the larger limits hold exactly when `use_efs` |
| GitHubCache.CacheRegistry.constructor | src/utils/github_cache.py:231 | there is no instance yet |
| GitHubCache.CacheRegistry.GetGitHubCache | src/utils/github_cache.py:234-278 | the first call creates the instance with the chosen location and limits; later calls return it and ignore their arguments |
| CodeScout.TaggedMember | src/agents/code_scout.py:389-397 | a pair is reported iff the name is among the aliases and the type is `import` |
| CodeScout.OwnEventsReports | src/agents/code_scout.py:377-412 | definitions for function and class defs, imports for `import` and for `from` with a module, calls on a name or attribute, references for Load and Store names, and nothing else |
| CodeScout.NodeUsages | src/agents/code_scout.py:357-375 | a node's usages are one per reported symbol, on its line with the stripped context line (`""` past the end), and none without `lineno` |
| CodeScout.AppendAllGet | src/agents/code_scout.py:373-375 | the table holds, for each symbol, its old usages followed by the recorded ones in order |
| CodeScout.AppendAllValid | src/agents/code_scout.py:373-374 | the key order keeps listing every key once |
| CodeScout.AppendAllConcat | src/agents/code_scout.py:357-375 | recording two runs of usages is recording one after the other |
| CodeScout.MergeKeysGet | src/agents/code_scout.py:131-134 | merging appends the visitor's list for each merged key, and leaves other symbols unchanged |
| CodeScout.MergeKeysValid | src/agents/code_scout.py:131-134 | the merge keeps the key order valid |
| CodeScout.MergedGet | src/agents/code_scout.py:131-134 | after merging a table, each symbol's list is the old one followed by the file's |
| CodeScout.AnalyzedGet | src/agents/code_scout.py:120-136 | after a file, each symbol's list is its old list plus the usages the file's tree records; a file that does not parse changes nothing |
| CodeScout.AnalyzedValid | src/agents/code_scout.py:120-136 | analysing a file keeps the table valid |
| CodeScout.SymbolVisitor.constructor | src/agents/code_scout.py:351-355 | the file, its lines split on `\n`, and an empty table |
| CodeScout.SymbolVisitor.AddUsage | src/agents/code_scout.py:357-375 | appends the node's usage for the symbol, or nothing without `lineno` |
| CodeScout.SymbolVisitor.AddAliases | src/agents/code_scout.py:389-397 | appends one import usage per alias, in order |
| CodeScout.SymbolVisitor.VisitOwn | src/agents/code_scout.py:377-411 | appends the node's own usages |
| CodeScout.SymbolVisitor.Visit | src/agents/code_scout.py:377-412 | appends everything the subtree records, parent before children |
| CodeScout.SymbolVisitor.GenericVisit | src/agents/code_scout.py:380-412 | appends what the children record, in order |
| CodeScout.DefinitionsFirst | src/agents/code_scout.py:241-245 | there is a definition iff some usage is one, and the first is the earliest usage of definition type |
| CodeScout.NodesStep | src/agents/code_scout.py:240-249 | adding one symbol keeps the node set equal to the defined symbols seen so far, in distinct order |
| CodeScout.NodesShape | src/agents/code_scout.py:239-249 | the first pass gives nodes exactly to the defined symbols, each filed under its first definition, with no edges |
| CodeScout.FileUsages | src/agents/code_scout.py:254-255 | the usages kept are exactly those in the given file |
| CodeScout.AddLink | src/agents/code_scout.py:262-265 | adding a link keeps the keys, names and files of all nodes |
| CodeScout.ApplyLinks | src/agents/code_scout.py:257-265 | applying links keeps the keys, names and files of all nodes |
| CodeScout.ApplyLinksConcat | src/agents/code_scout.py:252-265 | applying two runs of links is applying one after the other |
| CodeScout.UsageTargetsMember | src/agents/code_scout.py:260-261 | a usage links to exactly the other graph symbols named in its context |
| CodeScout.UsagesLinksMember | src/agents/code_scout.py:257-261 | the links of a symbol come from its import, call and reference usages only |
| CodeScout.LinksOfMember | src/agents/code_scout.py:252-261 | the second pass produces exactly the links of the symbols it visits |
| CodeScout.AllLinksEdges | src/agents/code_scout.py:252-265 | its links are exactly the dependency edges |
| CodeScout.AddLinkMember | src/agents/code_scout.py:262-265 | a link adds the target to the source's dependencies and the source to the target's dependents, and nothing else |
| CodeScout.ApplyLinksMember | src/agents/code_scout.py:257-265 | after the links, `y` depends on `x` iff it did before or `(x, y)` is a link, and the same for dependents |
| CodeScout.AddLinkDistinct | src/agents/code_scout.py:262-265 | a link never duplicates a list entry |
| CodeScout.ApplyLinksDistinct | src/agents/code_scout.py:257-265 | the lists stay duplicate-free |
| CodeScout.DependencyGraphNodes | src/agents/code_scout.py:237-249 | the graph has a node exactly for each defined symbol, named by it and filed under its first definition |
| CodeScout.DependencyGraphEdges | src/agents/code_scout.py:252-265 | `b` is among `a`'s dependencies iff `a` is among `b`'s dependents iff `a` depends on `b` |
| CodeScout.DependencyGraphLists | src/agents/code_scout.py:252-265 | no duplicates, no self-edges, only graph keys |
| CodeScout.LinkUsage | src/agents/code_scout.py:258-265 | the `for other_symbol in graph` loop applies the usage's links |
| CodeScout.LinkPair | src/agents/code_scout.py:262-265 | the two guarded appends add exactly the one link to the graph |
| CodeScout.LinkSymbol | src/agents/code_scout.py:257-265 | the `for usage in file_usages` loop applies the symbol's links |
| CodeScout.AddNodes | src/agents/code_scout.py:239-249 | the first pass builds the node table |
| CodeScout.AddEdges | src/agents/code_scout.py:251-267 | the second pass builds the dependency graph |
| CodeScout.BreakdownSum | src/agents/code_scout.py:333-338 | the four usage-type counts add up to the number of usages |
| CodeScout.FilesBound | src/agents/code_scout.py:326-332 | there are no more affected files than usages |
| CodeScout.GrepLineSpec | src/agents/code_scout.py:216-224 | a line gives a record iff it has at least two colons; file and line number are the colon-free texts before them, the content the stripped rest |
| CodeScout.GrepLineOneColon | src/agents/code_scout.py:217-219 | a line with only one colon gives no record |
| CodeScout.GrepRecordsAppend | src/agents/code_scout.py:216-224 | records keep the order of the output lines |
| CodeScout.ParseGrepOutput | src/agents/code_scout.py:215-224 | the loop computes the records of the stripped output |
| CodeScout.LastValueSpec | src/agents/code_scout.py:300-306 | a field is absent iff no line starts with its prefix, and otherwise comes from the last such line |
| CodeScout.AfterFirstSpace | src/agents/code_scout.py:302-306 | `split(' ', 1)[1]` of such a line is the text after the prefix word |
| CodeScout.ParseBlame | src/agents/code_scout.py:297-308 | the loop keeps the last author, time and summary line |
| CodeScout.CodeScout.constructor | src/agents/code_scout.py:88-90 | a local directory and an empty table |
| CodeScout.CodeScout.AnalyzeFile | src/agents/code_scout.py:120-136 | the table becomes the analysed table, and stays valid |
| CodeScout.CodeScout.MergeTable | src/agents/code_scout.py:130-134 | the merge loop appends each of the visitor's lists, creating missing keys |
| CodeScout.CodeScout.FindSymbol | src/agents/code_scout.py:173-183 | the stored list for a known symbol, `[]` otherwise |
| CodeScout.CodeScout.BuildDependencyGraph | src/agents/code_scout.py:230-267 | the two passes give the dependency graph |
| CodeScout.CodeScout.AnalyzeImpact | src/agents/code_scout.py:313-345 | the total is the number of usages; the affected files are exactly their files and no more numerous; the breakdown sums to the total; dependencies and dependents are present iff the symbol is defined, and are exactly its edges |
| CodeScout.CodeScout.GrepSearch | src/agents/code_scout.py:185-228 | the `grep -rn --include` command, and the parsed records, `[]` when running it raises |
| CodeScout.CodeScout.GitBlame | src/agents/code_scout.py:269-311 | the `git blame -L n,n --porcelain` command, and the parsed fields, `None` when it fails |
| NlFormatter.FirstOfEachKeyKeys | src/utils/natural_language_formatter.py:78-87 | the keys kept are exactly the keys of the dictionaries seen |
| NlFormatter.DedupKeepsFirst | src/utils/natural_language_formatter.py:78-88 | the de-duplication raises exactly on an unhashable key, and otherwise keeps the first dictionary of each (file, line) key in order |
| NlFormatter.FirstOfEachKeyIn | src/utils/natural_language_formatter.py:80-87 | everything kept is a dictionary from the input; non-dictionaries are dropped |
| NlFormatter.FirstOfEachKeyDistinct | src/utils/natural_language_formatter.py:78-88 | the kept keys are pairwise distinct |
| NlFormatter.FirstOfEachKeyOfDistinct | src/utils/natural_language_formatter.py:78-88 | already distinct occurrences are kept as they are |
| NlFormatter.DedupIdempotent | src/utils/natural_language_formatter.py:78-88 | de-duplicating again changes nothing |
| NlFormatter.Dedup | src/utils/natural_language_formatter.py:78-88 | the loop with its `seen` set computes the de-duplication |
| NlFormatter.NormalizedShape | src/utils/natural_language_formatter.py:74-104 | a `find_symbol` list becomes `{symbol, occurrences, count}` over the de-duplicated list, another list `{items, count}`, anything else `{symbol, occurrences, count}`; it raises only on an unhashable key or a value without `len` |
| NlFormatter.RewriteNeedsCachePath | src/utils/natural_language_formatter.py:196-197 | only a non-empty root and a path holding the cache directory can be rewritten |
| NlFormatter.RewriteCachedPath | src/utils/natural_language_formatter.py:196-206 | a cache path with a hash directory and a rest becomes `root/blob/HEAD/rest` for a github.com root, otherwise the rest |
| NlFormatter.RewriteWithoutHashDirectory | src/utils/natural_language_formatter.py:199-200 | with no slash after the cache directory the path is unchanged |
| NlFormatter.Snippet | src/utils/natural_language_formatter.py:210 | the context up to 120 characters; a longer one is its first 120 characters followed by `...` |
| NlFormatter.OccLineShape | src/utils/natural_language_formatter.py:193-213 | every bullet starts with the bullet mark and ends without whitespace |
| NlFormatter.BulletedLine | src/utils/natural_language_formatter.py:213 | stripping the right end of a bullet keeps the bullet mark |
| NlFormatter.GenericDictSummary | src/utils/natural_language_formatter.py:407-423 | the summary opens with the field count and ends with `more fields` iff there are more than five |
| NlFormatter.FormatGeneric | src/utils/natural_language_formatter.py:405-425 | the `+=` loop computes the generic summary |
| NlFormatter.FileSetSpec | src/utils/natural_language_formatter.py:185-190 | the files are exactly the non-empty files of the dictionaries, and no more numerous than the occurrences |
| NlFormatter.BulletLinesSpec | src/utils/natural_language_formatter.py:215-219 | at most one bullet per occurrence, each well shaped |
| NlFormatter.FindSymbolReport | src/utils/natural_language_formatter.py:161-229 | the count is the de-duplicated length; the summary opens with it and the symbol; there are at most ten bullets and no more files than occurrences; more than ten add `... and N more` |
| NlFormatter.SymbolTextFacts | src/utils/natural_language_formatter.py:221-229 | the summary pieces open with the count and symbol and announce the rest beyond ten |
| NlFormatter.RollupKeeps | src/utils/natural_language_formatter.py:231-244 | the roll-up only appends to the summary |
| NlFormatter.DistinctBound | src/utils/natural_language_formatter.py:169-183 | de-duplication never lengthens the list |
| NlFormatter.FindSymbolUnlisted | src/utils/natural_language_formatter.py:183-244 | occurrences that are not a list are counted by `count`: it raises exactly when `count` is not a number, or is over 50 and the occurrences cannot be sliced for the roll-up prompt, and otherwise opens with that count |
| NlFormatter.FormatFindSymbol | src/utils/natural_language_formatter.py:161-246 | the method, with its own de-duplication loop, computes the symbol summary, raising where the function gives `None` |
| NlFormatter.MatchLinesSpec | src/utils/natural_language_formatter.py:259-262 | every match is listed in order, and listing fails only on a match that is not a dictionary |
| NlFormatter.GrepSmallListed | src/utils/natural_language_formatter.py:248-287 | more than 15 matches go to the model; up to 15 list the first ten (which must be dictionaries), open with the count and pattern, and more than ten end with `... and N more` |
| NlFormatter.GrepUnlisted | src/utils/natural_language_formatter.py:248-287 | matches that are not a list are counted by `count`: it raises exactly when `count` is not a number, or is over 15 and the matches cannot be sliced for the prompt |
| NlFormatter.GrepSmallText | src/utils/natural_language_formatter.py:264-268 | the small summary opens with the count and ends with the remainder line |
| NlFormatter.PlanStepsSpec | src/utils/natural_language_formatter.py:345-347 | the steps are exactly the stripped non-blank lines, no more than the lines |
| NlFormatter.StepTurn | src/utils/natural_language_formatter.py:346-347 | one loop turn adds a bullet exactly for a non-blank line |
| NlFormatter.AppendSteps | src/utils/natural_language_formatter.py:345-347 | the loop appends the bullets of the steps |
| NlFormatter.FormatAnalyzeAndPlan | src/utils/natural_language_formatter.py:328-352 | the method computes the plan summary |
| NlFormatter.PlanReport | src/utils/natural_language_formatter.py:328-352 | it raises only on a plan that is neither empty nor a string, lists at most 15 steps, and ends with `... and N more steps` for more than 15 lines |
| NlFormatter.CodeBlockShows | src/utils/natural_language_formatter.py:375-377 | the block shows a prefix of the code, and all of it within the line limit |
| NlFormatter.AppendImprovements | src/utils/natural_language_formatter.py:366-367 | the loop appends a bullet per improvement shown |
| NlFormatter.FormatRefactorCode | src/utils/natural_language_formatter.py:354-380 | the method computes the refactoring summary |
| NlFormatter.RefactorReport | src/utils/natural_language_formatter.py:354-380 | the summary opens with its header, counts improvements beyond five, and gives the code's line count |
| NlFormatter.TestCountSpec | src/utils/natural_language_formatter.py:394-395 | the test count is the number of lines containing `def test_`, at most the number of lines |
| NlFormatter.TestsTextReport | src/utils/natural_language_formatter.py:387-403 | on the `coverage` and `tests` fields alone: it raises only on truthy non-string tests, always opens with the coverage, and non-empty tests give their count |
| NlFormatter.TestsReport | src/utils/natural_language_formatter.py:382-403 | it raises only on tests that are neither empty nor a string, always opens with the coverage, and non-empty tests give their count |
| NlFormatter.ResponseCases | src/utils/natural_language_formatter.py:53-131 | disabled gives the raw result; it raises only when normalising raises; a summary comes with the normalised data; otherwise the raw data or, after a formatter error, the normalised dictionary |
| NlFormatter.FindSymbolResponse | src/utils/natural_language_formatter.py:74-131 | a hashable `find_symbol` list never raises, and the data shown is the de-duplicated list with distinct keys |
| NlFormatter.FindSymbolDictResponse | src/utils/natural_language_formatter.py:99-131 | a dictionary given to `find_symbol` is summarised up to 50 keys; over 50 the roll-up slice raises and the wrapped dictionary is returned raw |
| NlFormatter.DictResultsAreWrapped | src/utils/natural_language_formatter.py:99-104 | a dictionary passed to `format_response` is wrapped, so the plan formatter sees none of its keys |
| NlFormatter.NaturalLanguageFormatter.constructor | src/utils/natural_language_formatter.py:16-34 | summaries are enabled iff asked for and `ENABLE_NL_FORMAT` lower-cases to `true`; not initialised; no context |
| NlFormatter.NaturalLanguageFormatter.Initialize | src/utils/natural_language_formatter.py:36-51 | initialised once enabled and the client is created; a failed creation disables summaries |
| NlFormatter.NaturalLanguageFormatter.Summarise | src/utils/natural_language_formatter.py:112-121 | the formatter `getattr` picks, applied to the normalised result |
| NlFormatter.NaturalLanguageFormatter.FormatResponse | src/utils/natural_language_formatter.py:53-131 | stores the context, then normalises, initialises and formats as the response function says; the state changes only when the result normalises |
| RefactoringCrew.StripAll | src/agents/refactoring_crew.py:90-91 | one stripped line per line, in order |
| RefactoringCrew.AnalyzeCounts | src/agents/refactoring_crew.py:82-89 | the total is the newline count plus one; each count is its list's length and at most the total |
| RefactoringCrew.AnalyzeMembers | src/agents/refactoring_crew.py:82-91 | every line with `def ` (`class `) is listed stripped among the functions (classes); a line with both is in both |
| RefactoringCrew.AnalyzeSound | src/agents/refactoring_crew.py:82-91 | every listed entry is a matching line, stripped |
| RefactoringCrew.AnalyzeConcat | src/agents/refactoring_crew.py:82-91 | joining two pieces of code with a newline adds the counts and concatenates the lists in order |

## Left out

- I/O is not modelled: subprocesses (`git clone`, `grep`, `git blame`), filesystem walks (`rglob`, `iterdir`, `stat`, `rmtree`, `mkdir`), temporary directories and printing. Their outcomes are parameters.
- `hashlib.md5` is a function `digest` fixed at construction; hash collisions are therefore not excluded.
- Locking and concurrency are left out: the cache's `threading.Lock` and the server's asyncio executor. Every cache call is one atomic step.
- Sizes are integer bytes and times integer seconds. The float megabytes, `round(…, 2)` and `datetime`/ISO time stamps are not modelled; the limit test compares bytes against `limit * 1048576`.
- The network is left out: PyGithub, `requests`, `fetch_file_content`, `get_repository_info`, `get_github_content` and the HTTP request in `fetch_raw_content`, of which only the URL is modelled.
- `ast.parse` is replaced by the `Node` datatype. A syntax error is a missing tree.
- `scan_directory`, `analyze_github_file` and `__del__` are left out. They are file enumeration, a network fetch and clean-up around the modelled `_analyze_file`.
- The GitHub branch of the `CodeScout` constructor is left out. It clones through the cache or the helper, both modelled separately; only the local-directory scanner is modelled.
- Calls to the Bedrock model are left out: `_invoke_bedrock`, the prompts, and the `scan_directory`, `analyze_impact` and `build_dependency_graph` formatters, which only forward a prompt. The model's answer is the parameter `llmReply`.
- `json.dumps` rendering and the banner text are left out. A response records the summary and the data it would print.
- `NlFormatter.PyStr`: does not model Python's escaping of quotes and control characters, or the rendering of floats and tuples.
- `NlFormatter.Value` compares Python values structurally. Python's `1 == True` equality of set members is not modelled.
- `Strings.Lower` lower-cases ASCII letters only.
- `NlFormatter.FindSymbolSummary` takes `_initialized` as true. The method is only reached from `format_response` after a successful initialisation.
- `NlFormatter.FindSymbolReport`: states the `... and N more` line for more than ten occurrences, but not its absence otherwise, because a listed bullet may itself end that way.
- `NlFormatter.GrepSmallListed`: states the `... and N more` line for more than ten matches, but not its absence otherwise, for the same reason.
- `NlFormatter.PlanReport`: states the `more steps` line for more than 15 lines, but not its absence otherwise, because a plan step may itself end that way.
- `GitHubCache.RepositoryCache.IsValid` compares integer seconds `now - mtime < max_age` rather than `datetime` values.
- The branches for a missing cache directory (github_cache.py:73-74 and 200-205) are left out: the model's cache directory always exists, since `clear_cache` recreates it, and a full clear that fails leaves it in place around the directory it could not remove. The info reported there, without `max_size_mb`, is therefore not modelled.
- GitHubCache.RepositoryCache.GetOrClone: an exception raised inside `_cleanup_old_caches` after a successful clone (a failing `stat` or `rglob`) is not modelled; there the source returns `None` with the clone kept, while the model always returns the path. The clean-up's own `rmtree` failures are modelled.
- GitHubCache.RepositoryCache.ClearCache: a key is taken as the name of a directory inside the cache. A key containing `/`, or an absolute path, names a directory elsewhere (`self.cache_dir / cache_key`), which the model does not represent. A directory whose `rmtree` fails part-way keeps its entry unchanged, although some of its files may be gone.
- CodeScout.CodeScout.GrepSearch: the root directory is taken as already in `pathlib`'s normal form (no trailing `/`, no leading `./`, no doubled `/`, and `.` for the empty path). The constructor stores it as given and `GrepSearch` passes it to `grep` unchanged, whereas the source passes `str(Path(root_directory))`.
- `GitHubCache.Candidates` reads `iterdir` as listing only directories. Plain files in the cache directory are not modelled.
- The server and HTTP wiring, configuration, logging, examples and client are not part of this model.
