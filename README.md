# Next-version computation, modelled in Dafny

`compute_next_version.py` decides the next release version of a package from the
commits made since its latest version tag. Each commit title is lower-cased and
checked for bump tokens in order of precedence: `[major]`, then `[minor]`, then
`[patch]`/`[fix]`/`[bump]`, then `[no-bump]`/`[no_bump]`/`[nobump]`. A commit is then
either kept with a bump type or disqualified:

- a title with a no-bump token is disqualified;
- a tokenless commit that touched only ignored files, or no file at all, is disqualified;
- any other tokenless commit is a PATCH when force-patching is on, and is disqualified
  when it is off.

Among the kept commits, the bump type of highest precedence is applied to the latest
tag. The tag is first lower-cased and stripped of its leading `v`s. The version style
is `X.Y.Z`, or `X.Y`, where a PATCH bump acts as a MINOR bump. The result is printed;
when no commit was kept, nothing is printed.

The model has one module per concern:

| module | file | models |
|---|---|---|
| `Wrappers` | `wrappers.dfy` | `Option` and `Result` (exceptions become `Failure` values) |
| `Text` | `text.dfy` | `str.lower`/`str.upper` (ASCII), substring search, `str.split`/`"."`-joining, `int()` and `str()` on decimal numerals |
| `Fnmatch` | `fnmatch.dfy` | `fnmatch.fnmatch` with `*` and `?` |
| `Ignore` | `ignore.dfy` | `are_all_files_ignored`, as a method with the source's nested loops |
| `Tokens` | `tokens.dfy` | `BumpType`, `BUMP_TOKENS`, `_has_bump_token`, the precedence scan over a title |
| `Commits` | `commits.dfy` | `BumpableCommit`, `_figure_bump_type` (a method with the source's loop, proved against `Classify`), the filter loop of `get_bumpable_commits` (a method, proved against `Kept`) |
| `Increment` | `increment.dfy` | `major_bump`, `minor_bump`, `patch_bump`, `increment_bump` |
| `NextVersion` | `next_version.dfy` | the decision of `work` (a method, proved against `WorkOutcome`) and the input normalisation of `main` |
| `Scenarios` | `scenarios.dfy` | the repository's tests, each stated and proved as a lemma about the model |

The global `ENV` becomes two parameters: `ignorePaths` (`IGNORE_PATHS`) and `forcePatch`
(`FORCE_PATCH_IF_NO_COMMIT_TOKEN`). The commits of the range are a parameter too: a
sequence of `Commit(sha, title, changedFiles)` in the order `git rev-list` lists them.
The printed version becomes the returned value. `work` returns
`Success(Some(version))`, `Success(None)` when nothing would be printed, or `Failure`
with the exception the source raises:

- `InvalidVersionStyle(style)`;
- `UnparsableVersion(tag, style)`, the `ValueError("Could not parse version ...")`;
- `UnsupportedBump(bump)`, the `ValueError("Bump type not supported ...")`;
- `NoBumpAfterFiltering`, the `RuntimeError` of `work`, which is proved unreachable.

Force-patching is decided per commit, and a no-bump commit is only dropped, never a
veto over the range:

- force-patching is decided per commit, inside `_figure_bump_type`
  (compute_next_version.py:125-126);
- a no-bump commit is dropped from the range like any other disqualified commit
  (compute_next_version.py:114-115).

So a no-bump commit next to a tokenless commit that touches a non-ignored file, with
force-patching on, gives PATCH. `NextVersion.NoBumpIsNotAVeto` proves this.

## Model

| member | source | states |
|---|---|---|
| Text.Lower | compute_next_version.py:104 | `title.lower()` keeps the length and lower-cases each character |
| Text.Upper | compute_next_version.py:292 | `.upper()` keeps the length and upper-cases each character |
| Text.LowerOfLowercase | compute_next_version.py:104 | lower-casing a string without capitals leaves it unchanged |
| Text.UpperOfUppercase | compute_next_version.py:292 | upper-casing a string without small letters leaves it unchanged |
| Text.Contains | compute_next_version.py:64 | `x in string` holds exactly when `x` occurs at some position of `string` |
| Text.LowerContains | compute_next_version.py:104 | a token occurs in the lower-cased title exactly when it occurs in the title up to ASCII case |
| Text.Split | compute_next_version.py:217 | `split(".")` gives at least one part, and no part contains the separator |
| Text.SplitWithoutSeparator | compute_next_version.py:217 | a string without the separator splits into itself alone |
| Text.SplitAtSeparator | compute_next_version.py:217 | splitting `a + "." + b` gives `a` followed by the parts of `b` |
| Text.SplitJoin | compute_next_version.py:217 | splitting parts joined by `.` gives the parts back, when no part contains `.` |
| Text.JoinSplit | compute_next_version.py:217 | joining the parts of a split by `.` gives the string back |
| Text.ShowNat | compute_next_version.py:250 | `str(n)` is a decimal numeral without leading zeros |
| Text.ParseShowNat | compute_next_version.py:217 | `int(str(n)) == n` |
| Text.ParseNat | compute_next_version.py:217 | the model of `int(s)`, restricted to non-empty strings of ASCII digits, leading zeros allowed; any other string is an error |
| Fnmatch.StarsMatchAnything | compute_next_version.py:76 | a pattern made only of `*` matches every name, `/` included |
| Fnmatch.LiteralMatchesItself | compute_next_version.py:76 | a pattern with no wildcard matches exactly the name equal to it |
| Fnmatch.PrefixPattern | compute_next_version.py:76 | a literal followed by stars (such as `docs/**`) matches exactly the names starting with the literal |
| Fnmatch.SuffixPattern | compute_next_version.py:76 | `*` followed by a literal (such as `*.md`) matches exactly the names ending with the literal |
| Fnmatch.Match | compute_next_version.py:76 | `fnmatch.fnmatch(f, pat)` for patterns of literals, `?` and `*`, where `*` matches any run of characters, `/` included |
| Ignore.AreAllFilesIgnored | compute_next_version.py:67-83 | true for an empty list; true exactly when every file matches some pattern; when false, some file matches none and every file before it matches one |
| Ignore.NoPatternsIgnoreNothing | compute_next_version.py:67-83 | with no patterns, a commit counts as all ignored exactly when it changed nothing |
| Tokens.Rank | compute_next_version.py:52-59 | each bump type's position in the ordered token table |
| Tokens.TokensOf | compute_next_version.py:52-59 | `BUMP_TOKENS[bump]`: the tokens of each bump type, taken from the ordered table `BumpTokens` |
| Tokens.HasBumpToken | compute_next_version.py:62-64 | `_has_bump_token`: some token of the bump type occurs in the string |
| Tokens.TitleBump | compute_next_version.py:112-117 | the bump type the scan over the table stops at, or none when the title has no token |
| Tokens.FirstTokenFrom | compute_next_version.py:112-117 | the first bump type from a table position on whose tokens occur in the title, with none before it |
| Tokens.TokenPrecedence | compute_next_version.py:112-117 | a title asks for a bump type exactly when that type's tokens occur in it and no type of higher precedence has a token in it; it asks for none exactly when it contains no token |
| Tokens.TokenAnywhere | compute_next_version.py:64 | a token anywhere in a title is detected, and the title asks for that bump type or one of higher precedence |
| Tokens.CaseInsensitive | compute_next_version.py:104 | a lower-cased title has a bump type's token exactly when the title contains it up to ASCII case |
| Tokens.TokenShape | compute_next_version.py:52-59 | every token in the table is bracketed by one `[` and one `]` and has no capital letter |
| Tokens.TokenOwner | compute_next_version.py:52-59 | no token belongs to two bump types |
| Tokens.TokenAtEnd | compute_next_version.py:112-117 | a title ending in a token, with no `[` before it, asks for exactly that token's bump type |
| Tokens.NoBracketNoToken | compute_next_version.py:112-117 | a title without `[` asks for no bump type |
| Commits.Classify | compute_next_version.py:108-130 | a commit's verdict: a bump type, never no-bump, or the reason it is disqualified |
| Commits.FigureBumpType | compute_next_version.py:108-130 | the token scan with early exit, then the files and force-patch checks, returns `Classify`'s verdict |
| Commits.NoBumpTokenDisqualifies | compute_next_version.py:114-115 | a no-bump token disqualifies the commit, whatever its files or the setting, unless a token of higher precedence is also present |
| Commits.ExplicitTokenWins | compute_next_version.py:116-117 | a major, minor or patch token decides the commit even when its files are all ignored or empty |
| Commits.TokenlessClassification | compute_next_version.py:119-130 | a tokenless commit is disqualified when it changed nothing or only ignored files; otherwise it is PATCH exactly when force-patching is on |
| Commits.GetBumpableCommits | compute_next_version.py:144-171 | the filter loop builds exactly `Kept`: the qualifying commits, in input order |
| Commits.Kept | compute_next_version.py:166-171 | the reference definition of the filter: each qualifying commit as a `BumpableCommit`, in input order |
| Commits.PositionsExact | compute_next_version.py:166-171 | the listed positions are increasing, in range, and exactly those where the commit qualifies |
| Commits.KeptIndicesIncreasing | compute_next_version.py:166-171 | the positions of the kept commits are distinct, increasing, in-range positions of the input |
| Commits.KeptIndicesAreQualifying | compute_next_version.py:166-171 | a position is kept exactly when the commit there is not disqualified |
| Commits.KeptIsSubsequence | compute_next_version.py:166-171 | the kept list is the input commits at the kept positions, in order, each with its classified bump type |
| Commits.KeptBounds | compute_next_version.py:114-117 | the kept list is no longer than the input, and no kept commit has the no-bump type |
| Commits.KeptAppend | compute_next_version.py:146-171 | the filter works commit by commit: filtering a concatenation concatenates the filtered parts |
| Increment.BumpsAreLeastAbove | compute_next_version.py:185-203 | each bump helper gives a larger version, and the least larger one that changes the component it bumps |
| Increment.MajorBump | compute_next_version.py:185-190 | `major_bump`: (M+1, 0, 0) |
| Increment.MinorBump | compute_next_version.py:193-197 | `minor_bump`: (M, N+1, 0) |
| Increment.PatchBump | compute_next_version.py:200-203 | `patch_bump`: (M, N, P+1) |
| Increment.ParseVersion | compute_next_version.py:215-226 | `map(int, version_tag.split("."))` unpacked into 3 (X.Y.Z) or 2 (X.Y, patch 0) numbers; a wrong number of components or a component `int()` refuses is an error |
| Increment.ShowParts | compute_next_version.py:248-252 | a version prints as exactly as many canonical decimal components as the style has |
| Increment.ShowVersion | compute_next_version.py:248-252 | `f"{major}.{minor}.{patch}"` under X.Y.Z, `f"{major}.{minor}"` under X.Y |
| Increment.ParseShowVersion | compute_next_version.py:215-226 | a printed version parses back as itself under its own style |
| Increment.IncrementBump | compute_next_version.py:206-254 | the error cases, in order: unknown style, then unparsable tag, then no-bump; a success is a larger version in the same style |
| Increment.IncrementArithmetic | compute_next_version.py:228-246 | MAJOR gives (M+1, 0, 0), MINOR (M, N+1, 0), and PATCH (M, N, P+1) under X.Y.Z |
| Increment.PatchCollapsesUnderXY | compute_next_version.py:239-241 | under X.Y, a PATCH bump is a MINOR bump |
| Increment.OutputShape | compute_next_version.py:248-252 | the result has exactly 3 (X.Y.Z) or 2 (X.Y) dot-separated components, each a canonical decimal numeral |
| NextVersion.Highest | compute_next_version.py:273-276 | `max` with key `-rank` gives a member of the list that no member outranks |
| NextVersion.Decide | compute_next_version.py:268-276 | nothing exactly when no commit was kept; otherwise a kept commit's bump type that no kept commit outranks |
| NextVersion.BumpTypes | compute_next_version.py:274 | `[c.bump_type for c in commits]`: one bump type per kept commit, in order |
| NextVersion.RangeBump | compute_next_version.py:268-276 | the decision for the whole range: `Decide` on the commits the filter keeps |
| NextVersion.WorkOutcome | compute_next_version.py:268-282 | the reference definition of `work` on the kept commits: no output, the no-bump `RuntimeError`, or `increment_bump` of the decided bump |
| NextVersion.Work | compute_next_version.py:257-282 | `work` returns `WorkOutcome` of the kept commits: nothing exactly when the range calls for no bump, and otherwise `increment_bump` of the range's bump |
| NextVersion.RangeBumpNone | compute_next_version.py:269-270 | the range calls for no bump exactly when every commit is disqualified |
| NextVersion.RangeBumpSome | compute_next_version.py:273-278 | otherwise the range's bump is never no-bump, and it is the bump of some qualifying commit that no qualifying commit outranks |
| NextVersion.SameCommitsSameBump | compute_next_version.py:273-276 | the decision depends only on which commits are in the range |
| NextVersion.OrderIndependent | compute_next_version.py:273-282 | permuting the commits changes neither the decision nor the outcome |
| NextVersion.NoBumpErrorUnreachable | compute_next_version.py:277-278 | the `RuntimeError` after filtering can never be raised |
| NextVersion.TokenForcesBump | compute_next_version.py:273-276 | a commit with a major, minor or patch token forces a bump at least that high; `[major]` forces MAJOR |
| NextVersion.NoBumpIsNotAVeto | compute_next_version.py:112-130 | a no-bump commit beside a tokenless commit touching a non-ignored file, with force-patching on, gives PATCH |
| NextVersion.NormaliseTag | compute_next_version.py:290 | `lower().lstrip("v")`: a suffix of the lower-cased tag, preceded only by `v`s and not starting with `v` |
| NextVersion.LeadingVs | compute_next_version.py:290 | the number of leading `v`s: all of them, and no more |
| NextVersion.NormaliseStyle | compute_next_version.py:292 | the style defaults to X.Y.Z; a given style keeps its length and each character is the upper-casing of the input's |
| NextVersion.Run | compute_next_version.py:285-293 | `main` runs `work` on the normalised tag and style, and never ends in the no-bump `RuntimeError` |
| Scenarios.UnderDocs | tests/test_compute_next_version.py:270 | `docs/**` ignores exactly the names under `docs/` |
| Scenarios.MarkdownFile | tests/test_compute_next_version.py:180 | `*.md` ignores exactly the names ending in `.md` |
| Scenarios.SemverMajor | tests/test_compute_next_version.py:93-96 | MAJOR on 1.2.3 under X.Y.Z gives 2.0.0 |
| Scenarios.SemverMinor | tests/test_compute_next_version.py:97-100 | MINOR on 1.2.3 under X.Y.Z gives 1.3.0 |
| Scenarios.SemverPatch | tests/test_compute_next_version.py:101-104 | PATCH on 1.2.3 under X.Y.Z gives 1.2.4 |
| Scenarios.MajMinMajor | tests/test_compute_next_version.py:109 | MAJOR on 1.2 under X.Y gives 2.0 |
| Scenarios.MajMinMinor | tests/test_compute_next_version.py:110 | MINOR on 1.2 under X.Y gives 1.3 |
| Scenarios.MajMinPatch | tests/test_compute_next_version.py:111 | PATCH on 1.2 under X.Y gives 1.3 |
| Scenarios.IncrementInvalidStyle | tests/test_compute_next_version.py:114-117 | the style `X` is refused with `InvalidVersionStyle` |
| Scenarios.ShortTagUnderXYZ | tests/test_compute_next_version.py:122-123 | the tag 1.2 is refused under X.Y.Z |
| Scenarios.LongTagUnderXY | tests/test_compute_next_version.py:124-125 | the tag 1.2.3 is refused under X.Y |
| Scenarios.PatchPast9 | tests/test_compute_next_version.py:192-197 | PATCH on 0.9.9 gives 0.9.10 |
| Scenarios.Major456 | tests/test_compute_next_version.py:305-311 | MAJOR on 4.5.6 gives 5.0.0 |
| Scenarios.Minor456 | tests/test_compute_next_version.py:350-356 | MINOR on 4.5.6 gives 4.6.0 |
| Scenarios.WorkPatchFromToken | tests/test_compute_next_version.py:133-152 | a `[patch]` commit on 1.2.3 gives 1.2.4 |
| Scenarios.DocsUpdateIsIgnored | tests/test_compute_next_version.py:163 | a tokenless commit touching only `docs/README.md` is disqualified under `docs/**` and `*.md` |
| Scenarios.CiTweakIsIgnored | tests/test_compute_next_version.py:164 | a tokenless commit touching only `notes.md` is disqualified under `docs/**` and `*.md` |
| Scenarios.WorkAllFilesIgnored | tests/test_compute_next_version.py:155-175 | tokenless commits touching only ignored files give no output |
| Scenarios.CoreSourceNotMarkdown | tests/test_compute_next_version.py:180-186 | `*.md` does not ignore `src/core.py` |
| Scenarios.CleanupIsForcedPatch | tests/test_compute_next_version.py:186 | a tokenless commit touching `src/core.py` is PATCH with force-patching on |
| Scenarios.WorkForcePatch | tests/test_compute_next_version.py:178-197 | that commit on 0.9.9 gives 0.9.10 |
| Scenarios.WorkPatchIsMinorUnderXY | tests/test_compute_next_version.py:200-219 | a `[patch]` commit on 1.2 under X.Y gives 1.3 |
| Scenarios.HyphenNoBumpDisqualifies | tests/test_compute_next_version.py:230 | a `[no-bump]` title is disqualified |
| Scenarios.PlainNoBumpDisqualifies | tests/test_compute_next_version.py:231 | a `[nobump]` title is disqualified |
| Scenarios.WorkAllExplicitNoBump | tests/test_compute_next_version.py:222-242 | commits that all carry no-bump tokens give no output |
| Scenarios.WorkBadTagShape | tests/test_compute_next_version.py:245-263 | a `[patch]` commit on the tag 1.2 under X.Y.Z gives the parse error |
| Scenarios.DocsChoreIsIgnored | tests/test_compute_next_version.py:276 | a tokenless commit under `docs/` is disqualified |
| Scenarios.SourceOutsideDocs | tests/test_compute_next_version.py:270-277 | `docs/**` does not ignore `src/kite_eating_tree.py` |
| Scenarios.SourceRefactorNotForced | tests/test_compute_next_version.py:277 | a tokenless commit outside `docs/` is disqualified with force-patching off |
| Scenarios.WorkTokenlessForcePatchOff | tests/test_compute_next_version.py:266-288 | tokenless commits give no output with force-patching off, even when a file is not ignored |
| Scenarios.MajorOnIgnoredFiles | tests/test_compute_next_version.py:299 | `[major]` decides a commit whose only file is ignored |
| Scenarios.NoBumpDespiteForcePatch | tests/test_compute_next_version.py:300 | `[no-bump]` disqualifies a commit, whatever its files, with force-patching on |
| Scenarios.WorkExplicitMajor | tests/test_compute_next_version.py:291-311 | a `[major]` commit on ignored files plus a no-bump commit, on 4.5.6, gives 5.0.0 |
| Scenarios.DocsChoreIgnoredDespiteForcePatch | tests/test_compute_next_version.py:322 | a tokenless commit under `docs/` is disqualified even with force-patching on |
| Scenarios.WorkIgnoredAndNoBump | tests/test_compute_next_version.py:314-334 | an ignored tokenless commit plus a no-bump commit give no output, even with force-patching on |
| Scenarios.WorkMinorWithoutFiles | tests/test_compute_next_version.py:337-356 | a `[minor]` commit that changed no file, on 4.5.6, gives 4.6.0 |
| Scenarios.NormalisedTag | tests/test_compute_next_version.py:378 | `V1.2.3` normalises to `1.2.3` |
| Scenarios.NormalisedStyle | tests/test_compute_next_version.py:380 | the style `X.Y.Z` normalises to itself |
| Scenarios.MainStripsV | tests/test_compute_next_version.py:364-387 | `main` with the tag `V1.2.3` and a `[patch]` commit gives 1.2.4 |

## Left out

- The git queries of `get_bumpable_commits` (compute_next_version.py:137-164) are process
  I/O; the model takes the commits of the range, already split into sha, title and
  changed files, as a parameter.
- Reading the environment, both `from_environment_as_dataclass` (compute_next_version.py:31)
  and `os.environ` (compute_next_version.py:290-292), is left out. The values become
  parameters, and only the string normalisation applied to them is modelled.
- Logging, `pprint` and `dc.asdict` (compute_next_version.py:73-81, 170-181, 263-270) only
  observe the computation, so they are left out.
- The `print` of the next version (compute_next_version.py:282) becomes the returned
  `Success(Some(version))`.
- The messages of `DisqualifiedCommit` become the constructors of `DisqualifyReason`; the
  texts of the other exceptions are not modelled.
- Text.ParseNat: `int()` also accepts surrounding whitespace, a `+` or `-` sign, `_`
  between digits and non-ASCII digits, and refuses a numeral of more than 4300 digits.
  The model accepts every non-empty string of the ASCII digits 0-9, whatever its length,
  and nothing else.
- Increment.ParseVersion: it reads each component with Text.ParseNat and inherits the gaps
  listed on that line, so a tag such as `1. 2.3` or `+1.2.3` is an error here. Python's limit
  on integer-string conversion (since 3.9.14, 3.10.7 and 3.11) is not modelled either:
  `int()` refuses a numeral of more than 4300 digits, so a tag `1.2.` followed by 4301
  nines is a `ValueError("Could not parse version ...")` in the source but parses here;
  and `str()`/f-strings refuse to print such a number, so MAJOR on a tag of 4300 nines
  followed by `.0.0` raises an uncaught `ValueError` at compute_next_version.py:250 in the
  source but succeeds here. Numbers are unbounded in the model.
- Text.ShowNat: prints a number of any size, where Python's `str()` refuses one of more
  than 4300 digits (see the Increment.ParseVersion line).
- Text.Lower: `str.lower` is full Unicode case mapping; the model lower-cases only the ASCII
  letters `A`-`Z`.
- Text.Upper: `str.upper` is full Unicode case mapping; the model upper-cases only the ASCII
  letters `a`-`z`.
- Fnmatch.Match: the bracket classes `[seq]` and `[!seq]` of `fnmatch` are not modelled,
  and `[` matches only itself. `os.path.normcase` is taken to be the identity, as on a POSIX
  system, so matching is case-sensitive.
- The re-checks of the style later in `increment_bump` (compute_next_version.py:243-244,
  253-254) cannot fail once the first check has passed, so they have no branch in the model.
