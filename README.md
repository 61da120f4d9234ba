# resume-tailor, modelled in Dafny

resume-tailor is a job-application assistant. Its Python backend scrapes and
stores job listings, detects duplicates, keeps application status timelines,
and assembles tailored resumes from the user's experiences. Its TypeScript
frontend edits drafts, resumes and settings. This project models the
deterministic core of both halves and proves what that core promises:

- **Ranking** (`Ranking`, `ExperiencesService`, `ExperienceService`). Vector
  hits are accumulated per experience bullet and experiences are scored by
  the sum over their bullets. The top experiences are taken without
  duplicates and pruned to their best bullets.
- **Normalisers** (`Url`, `Deduplication`, `Text`). URL canonicalisation
  covers scheme, host, dot-segment removal, query filtering and sorting, and
  fragment dropping. Text is normalised before fuzzy matching, and there is
  the structure of cosine similarity.
- **Configuration** (`Structure`, `ConfigSchemas`, `ConfigManager`).
  `deep_merge`, `assign_path` and `flatten_structure` are modelled, as are the
  field bounds and defaults and the secret/non-secret split of a save. So are
  the `.env` rewrite, the exposure map and the injection of secrets on load.
- **Backend flows** (`ListingsRouter`, `ResumesRouter`,
  `ApplicationsService`, `Scraping`, `Dates`, `Schemas`). These cover the
  scrape and extract verdict chain, resume assembly order, status-event
  operation lists, draft conversion, and year-month and UTC date handling.
- **Frontend state** (`UrlParams`, `ListingsTable`, `StatusFilter`,
  `ApplicationsPage`, `ListingCache`, `ResumeEditor`, `FieldArray`,
  `JsArray`). These cover URL-synced parameters and their codecs, the sort
  codec, and the status filter menus. They also cover the draft-listing
  cache updaters, the resume section and item editors, and the sortable and
  bullet list inputs.
- **Frontend rules** (`DateUtils`, `DraftListings`, `ListingDetails`,
  `ScrapingPage`, `Timeline`, `ApplicationProgress`, `SavedListings`,
  `Breadcrumb`, `SettingsPage`, `CompanyLogo`). These cover date validators,
  the tab choice, and the listing forms with their payload filters. They also
  cover the scraping page, stage bounds, progress and status maps, the
  breadcrumb trail, the settings form and the logo palette.

Stateful code, such as the editors, list inputs, forms, the URL search
parameters and the ranking loops, is written as classes and methods with
loops. Each is proved against a specification function, and the properties
are proved about those functions. Pure code is written as datatypes,
functions and lemmas. External services are parameters of the functions
that call them. These are the LLM, vector search, the duplicate finder,
HTTP fetches, the database, IDNA and percent codecs, `fuzz.ratio`, UUIDs and
square roots.

## Model

| member | source | states |
|---|---|---|
| Text.LowerChar | backend/app/utils/deduplication.py:5 | ASCII lower-casing of one character leaves no ASCII upper-case letter, keeps other characters, and keeps whitespace as whitespace |
| Text.Lower | backend/app/utils/deduplication.py:5 | ASCII lower-casing keeps the length and lower-cases each character in place |
| Text.LowerIdentity | backend/app/utils/deduplication.py:5 | text without ASCII capitals is unchanged by lower-casing |
| Text.Join | backend/app/utils/deduplication.py:5 | joining nothing gives the empty string, joining one piece gives that piece |
| Text.Split | frontend/src/components/custom/Breadcrumb.tsx:9 | a split has at least one piece and no piece contains the separator |
| Text.JoinSplit | backend/app/config/manager.py:212-231 | joining the pieces of a split with the same separator gives the text back |
| Text.SplitJoin | frontend/src/components/custom/Breadcrumb.tsx:9-11 | splitting a join of separator-free pieces gives the pieces back |
| Text.SplitConcat | backend/app/config/manager.py:212-231 | splitting text around one separator splits each side separately |
| Text.TakeWord | backend/app/utils/deduplication.py:5 | the first word is the longest whitespace-free prefix, ended by whitespace or by the text's end |
| Text.Words | backend/app/utils/deduplication.py:5 | `str.split()` yields non-empty whitespace-free words |
| Text.WordsOfJoin | backend/app/utils/deduplication.py:5 | `split()` undoes `' '.join` of words |
| Text.JoinWordsSingleSpaced | backend/app/utils/deduplication.py:5 | joining words with one space leaves no leading, trailing or doubled whitespace |
| Text.Trim | frontend/src/components/custom/sortable-list-input/Input.tsx:18 | `trim()` returns a slice of the text with no whitespace at either end, empty iff the text is all whitespace |
| Text.TrimStart | frontend/src/components/custom/sortable-list-input/Input.tsx:18 | the leading whitespace is exactly what is removed from the front |
| Text.TrimEnd | frontend/src/components/custom/sortable-list-input/Input.tsx:18 | the trailing whitespace is exactly what is removed from the back |
| Text.TrimIdentity | frontend/src/components/custom/sortable-list-input/Input.tsx:18 | text with no whitespace at its ends is left alone by `trim()` |
| Text.UpperChar | backend/app/config/manager.py:150 | upper-casing one character leaves no lower-case letter and keeps every other character |
| Text.Upper | backend/app/config/manager.py:150 | ASCII upper-casing keeps the length and upper-cases each character in place |
| Text.NatToString | frontend/src/utils/date.ts:16 | `String(n)` is a non-empty string of decimal digits: one digit below 10, two below 100, four from 1000 to 9999 |
| Text.IntToString | frontend/src/utils/date.ts:16 | `String(i)` of a negative integer is a minus sign followed by the digits of its magnitude |
| Text.TrimmedLines | frontend/src/components/custom/sortable-list-input/Input.tsx:16-19 | the trimmed, non-empty lines are no more than the pieces, and none is empty or has whitespace at its ends |
| Text.TrimmedLinesFrom | frontend/src/components/custom/sortable-list-input/Input.tsx:16-19 | every line kept is one of the pieces, trimmed |
| Text.BlankLinesDropped | frontend/src/components/custom/sortable-list-input/Input.tsx:18-21 | pieces that are all whitespace leave no lines at all |
| Deduplication.NormalizeText | backend/app/utils/deduplication.py:4-5 | the normal form has no ASCII upper-case letter and is single-spaced |
| Deduplication.JoinNoUpper | backend/app/utils/deduplication.py:5 | joining lower-case words with spaces has no upper-case letter |
| Deduplication.WordsNoUpper | backend/app/utils/deduplication.py:5 | the words of lower-case text are lower-case |
| Deduplication.LowerTwice | backend/app/utils/deduplication.py:5 | `lower()` is idempotent |
| Deduplication.NormalizeIdempotent | backend/app/utils/deduplication.py:4-5 | normalising twice changes nothing |
| Deduplication.NormalizeIgnoresCase | backend/app/utils/deduplication.py:4-5 | a text and its lower-cased form normalise alike |
| Deduplication.NormalizeIgnoresSpacing | backend/app/utils/deduplication.py:4-5 | texts with the same lower-cased words, however spaced, normalise alike |
| Deduplication.FuzzyBounds | backend/app/utils/deduplication.py:8-19 | with a ratio in [0, 100] that is 100 on equal strings, the similarity is in [0, 1] and is 1 on equal normal forms |
| Deduplication.FuzzyIgnoresCaseAndSpacing | backend/app/utils/deduplication.py:8-19 | changing case or whitespace runs in either argument leaves the similarity unchanged |
| Deduplication.SumSquares | backend/app/utils/deduplication.py:34-35 | a sum of squares is never negative |
| Deduplication.SumSquaresZero | backend/app/utils/deduplication.py:34-35 | the zero vector has magnitude zero |
| Deduplication.CosineSimilarity | backend/app/utils/deduplication.py:22-40 | vectors of different lengths raise (`zip(strict=True)`); a zero magnitude on either side gives 0.0 |
| Deduplication.CosineZeroVector | backend/app/utils/deduplication.py:37-38 | a zero vector on either side gives 0.0 |
| Url.NormalizeScheme | backend/app/utils/url.py:6-14 | the scheme is always `https` |
| Url.NormalizeFragment | backend/app/utils/url.py:103-109 | the fragment is always removed |
| Url.StripWww | backend/app/utils/url.py:30-31 | one leading `www.` is removed and nothing else changes |
| Url.NormalizeNetloc | backend/app/utils/url.py:17-38 | the host is lower-cased, IDNA-encoded and stripped of `www.`; the port follows after `:` only when it is not the original scheme's default and not zero |
| Url.WwwStrippedOnce | backend/app/utils/url.py:30-31 | only one `www.` is stripped |
| Url.DefaultPortDropped | backend/app/utils/url.py:33-36 | `:80` on http and `:443` on https are dropped |
| Url.OtherPortKept | backend/app/utils/url.py:33-38 | any other port is kept, even the other scheme's default (`http://h:443` keeps `:443`) |
| Url.Resolve | backend/app/utils/url.py:53-59 | the segment stack holds no more segments than the path, all ordinary segments taken from it |
| Url.JoinSegmentsShape | backend/app/utils/url.py:64 | joining non-empty segments with `/` gives text without `//` and without a `/` at either end |
| Url.ResolvePath | backend/app/utils/url.py:53-64 | a normalised path is empty or rooted, with no `//` and no trailing `/` |
| Url.NormalizePath | backend/app/utils/url.py:41-64 | the loop re-quotes the path and resolves it into canonical shape |
| Url.ResolveOrdinary | backend/app/utils/url.py:54-59 | ordinary segments are pushed as they are |
| Url.DotSegmentsResolved | backend/app/utils/url.py:45-49 | `..` never climbs above the root, and `.`, empty segments and trailing `/` vanish (`/../a/./b//c/../` becomes `/a/b`) |
| Url.ResolvedSegments | backend/app/utils/url.py:53-59 | every resolved segment is a non-empty path segment |
| Url.SplitPathOf | backend/app/utils/url.py:64 | splitting a rebuilt path on `/` gives back its segments after a leading empty piece |
| Url.ResolvePathIdempotent | backend/app/utils/url.py:41-64 | resolving a normalised path changes nothing |
| Url.SplitOnce | backend/app/utils/url.py:93 | `split(c, 1)` splits at the first occurrence, and fails iff `c` does not occur |
| Url.SplitOnceAt | backend/app/utils/url.py:93 | the split happens at the first separator |
| Url.ParsePieces | backend/app/utils/url.py:93 | `parse_qsl` yields at most one pair per `&`-piece |
| Url.Untracked | backend/app/utils/url.py:92-96 | the kept pairs are no more than the parsed ones, none with a tracking key, all keys lower-case |
| Url.LexTotal | backend/app/utils/url.py:98 | Python string order is total |
| Url.LexTransitive | backend/app/utils/url.py:98 | Python string order is transitive |
| Url.KeyOrder | backend/app/utils/url.py:98 | ordering pairs by key is a total preorder, so `list.sort` applies |
| Url.UrlEncode | backend/app/utils/url.py:100 | `urlencode` is empty iff there are no pairs |
| Url.EncodePairs | backend/app/utils/url.py:100 | each pair is encoded as `quote_plus(key)=quote_plus(value)`, in order |
| Url.NormalizeQuery | backend/app/utils/url.py:67-100 | the method encodes the filtered, sorted pairs |
| Url.QueryPairsFacts | backend/app/utils/url.py:92-98 | the encoded pairs have no tracking key, lower-case keys, are sorted by key, are a permutation of the kept pairs, and keep duplicate keys in input order |
| Url.BlankParametersDropped | backend/app/utils/url.py:93 | `keep_blank_values=False` drops `a=` and a bare `b` |
| Url.Canonical | backend/app/utils/url.py:130-141 | the canonical URL always starts with `https://` |
| Url.NormalizeUrl | backend/app/utils/url.py:112-141 | `normalize_url` assembles the normalised parts with `urlunsplit` |
| Url.CanonicalIgnoresFragment | backend/app/utils/url.py:103-109 | the fragment of the input does not matter |
| Url.NetlocOfWwwHost | backend/app/utils/url.py:28-31 | a host the IDNA codec maps to `www.h` ends up as `h` |
| Url.ExamplePath | backend/app/utils/url.py:45 | the documented example: `/foo/./bar/../baz/` becomes `/foo/baz` |
| Url.ExampleQuery | backend/app/utils/url.py:120-122 | the documented query `b=2&utm_source=test&a=1` becomes `a=1&b=2` |
| Url.DocumentedExample | backend/app/utils/url.py:118-122 | the documented example URL normalises to `https://xn--bcher-kva.com/foo/baz?a=1&b=2` |
| Structure.MergeAt | backend/app/utils/structure.py:20-23 | under a key of the updates, when both sides are dicts the result is a dict with the keys of both that keeps the base's other entries; otherwise the result is the update |
| Structure.Merged | backend/app/utils/structure.py:18-24 | the merge has the keys of both dicts; keys only in the base keep the base value; update keys take `MergeAt` |
| Structure.MergedOver | backend/app/utils/structure.py:18-23 | after handling some update keys, the result has the base keys plus those |
| Structure.DeepMerge | backend/app/utils/structure.py:1-24 | the copy-and-loop computes `Merged` |
| Structure.MergedGetUpdate | backend/app/utils/structure.py:18-24 | every scalar the updates hold is what the merge holds at that path |
| Structure.MergedGetBase | backend/app/utils/structure.py:18-24 | where the updates have nothing on the way to a path, the merge holds what the base holds |
| Structure.MergedKeepsBase | backend/app/utils/structure.py:18-24 | a scalar of the base at any depth survives the merge when the updates hold only dicts (or nothing) on the way to it, e.g. `b` in `{'a': {'b': 1}}` merged with `{'a': {'c': 3}}` |
| Structure.MergeSelf | backend/app/utils/structure.py:1-24 | merging a dict into itself gives it back |
| Structure.MergeIdempotent | backend/app/utils/structure.py:1-24 | applying the same updates twice changes nothing more |
| Structure.MergeNothing | backend/app/utils/structure.py:18-24 | merging no updates returns the base unchanged |
| Structure.MergeExample | backend/app/utils/structure.py:12-16 | the documented example: `{'a': {'b': 1, 'c': 2}}` merged with `{'a': {'c': 3, 'd': 4}}` is `{'a': {'b': 1, 'c': 3, 'd': 4}}` |
| Structure.AssignPath | backend/app/utils/structure.py:27-65 | an empty path fails (`path[-1]` raises) |
| Structure.AssignThenGet | backend/app/utils/structure.py:57-63 | after a successful assignment the path holds the value |
| Structure.AssignIntoDicts | backend/app/utils/structure.py:57-63 | assignment fails only at an existing non-dict on the way; `setdefault` creates missing dicts |
| Structure.EmptyGet | backend/app/utils/structure.py:59 | nothing is found in an empty dict |
| Structure.AssignKeepsOthers | backend/app/utils/structure.py:57-63 | paths that do not overlap the assigned one keep their values |
| Structure.LeafPathGet | backend/app/utils/structure.py:100-106 | a path through dicts to a scalar can be read |
| Structure.FlattenStructure | backend/app/utils/structure.py:68-118 | the result maps every leaf path under `parent`, and only those, to its scalar |
| Structure.FlattenStep | backend/app/utils/structure.py:101-104 | a nested dict contributes its own flattening under its key |
| Structure.FlattenLeafStep | backend/app/utils/structure.py:101-106 | a scalar contributes one entry at its path |
| Structure.EmptyDictNoLeaves | backend/app/utils/structure.py:103-104 | an empty nested dict contributes no entry |
| Structure.Restrict | backend/app/utils/structure.py:57-63 | the part of a dict holding given leaves uses only its keys |
| Structure.UnderLeafPaths | backend/app/utils/structure.py:101-104 | the leaf paths below a key are the leaf paths of its nested dict |
| Structure.UnderAdd | backend/app/utils/structure.py:102 | adding a path adds its tail below its first key only |
| Structure.RestrictOthers | backend/app/utils/structure.py:57-63 | keys other than the first step of a path are unaffected by it |
| Structure.AssignLeaf | backend/app/utils/structure.py:57-63 | assigning one more leaf adds exactly that leaf to the rebuilt structure |
| Structure.AssignAtKey | backend/app/utils/structure.py:57-63 | the assignment changes only the entry under the path's first key |
| Structure.SomeLeaf | backend/app/utils/structure.py:99-118 | a non-empty dict without empty nested dicts has a leaf |
| Structure.RestrictAll | backend/app/utils/structure.py:99-118 | keeping every leaf keeps everything when no nested dict is empty |
| Structure.RestrictGet | backend/app/utils/structure.py:57-63 | a kept leaf reads the same as in the whole structure |
| Structure.GetLeafPath | backend/app/utils/structure.py:100-106 | a scalar found by lookup lies at a leaf path |
| Structure.RestrictLeafPath | backend/app/utils/structure.py:99-118 | restricting to some leaf paths keeps exactly those |
| Structure.AssignAllRestrict | backend/app/utils/structure.py:57-63 | assigning distinct leaves of a dict into `{}` rebuilds the part of it holding those leaves |
| Structure.FlattenAssignRoundTrip | backend/app/utils/structure.py:27-118 | assigning every flattened entry into `{}`, in any order, rebuilds the dict (when no nested dict is empty) |
| ConfigSchemas.ConfigField | backend/app/config/schemas.py:6-17 | a field made by `ConfigField` always records its exposure |
| ConfigSchemas.MakeModelPrefs | backend/app/config/schemas.py:20-37 | building the model section succeeds iff `temperature` lies in [0, 2], and keeps the given values; otherwise the error names `temperature` |
| ConfigSchemas.MakeListingsPrefs | backend/app/config/schemas.py:48-75 | succeeds iff the three thresholds lie in [0, 1] and `search_k > 0`; the error names exactly the fields out of bounds |
| ConfigSchemas.MakeExperiencesPrefs | backend/app/config/schemas.py:78-90 | succeeds iff `top_k > 0` and `max_bullets > 0`; the error names exactly the failing ones |
| ConfigSchemas.MakeScrapingPrefs | backend/app/config/schemas.py:93-109 | succeeds iff `max_length > 0` |
| ConfigSchemas.DefaultModelPrefs | backend/app/config/schemas.py:20-37 | the defaults (`temperature` 0.3) pass the section's own validation |
| ConfigSchemas.DefaultListingsPrefs | backend/app/config/schemas.py:48-75 | the defaults 0.90, 0.85, 0.90 and 5 pass validation |
| ConfigSchemas.DefaultExperiencesPrefs | backend/app/config/schemas.py:78-90 | the defaults 3 and 4 pass validation |
| ConfigSchemas.DefaultScrapingPrefs | backend/app/config/schemas.py:93-109 | the defaults `True`, `True` and 10000 pass validation |
| ConfigManager.SkipSpaces | backend/app/config/manager.py:221 | what `\s*` consumes: a prefix of whitespace, line ends included, after which the rest starts with a non-space |
| ConfigManager.EqualsLineShape | backend/app/config/manager.py:221 | after the key, `\s*` runs over blank lines to the first non-blank one, which must start with `=` for a match |
| ConfigManager.MatchShape | backend/app/config/manager.py:221-224 | `^KEY\s*=.*` matches at a line start iff the line starts with the key and the first non-space after it, on that line or a later one, is `=` |
| ConfigManager.CrossedShape | backend/app/config/manager.py:221-225 | a match that runs over line ends spans the key line, the blank lines and the `=` line, which the replacement joins into one |
| ConfigManager.LiteralTemplate | backend/app/config/manager.py:222-225 | a replacement without backslashes is read by `re.sub` as itself |
| ConfigManager.EnvStepRefusesGroup | backend/app/config/manager.py:222-225 | when an assignment of the key exists, a value ending in `\1` makes `re.sub` raise (a reference to a group the pattern lacks), so the update fails |
| ConfigManager.EnvStepExpandsEscape | backend/app/config/manager.py:222-225 | rewriting an existing assignment with a value holding the two characters `\n` writes a line end there |
| ConfigManager.EnvStepCrossesLines | backend/app/config/manager.py:221-225 | `KEY`, a line end and `=old` are matched as one assignment and become the single line `KEY=value` |
| ConfigManager.EnvStepAppendsLiterally | backend/app/config/manager.py:226-229 | when nothing matches the assignment is appended as written, backslashes and all |
| ConfigManager.GroupRefused | backend/app/config/manager.py:222-225 | the template `\1` is refused: the pattern has no group 1 |
| ConfigManager.EscapedValue | backend/app/config/manager.py:222-225 | the template `KEY=a\nb` stands for `KEY=a`, a line end and `b`, whatever it replaces |
| ConfigManager.MatchPlain | backend/app/config/manager.py:221-224 | on a plain `.env` line the pattern for a variable name matches iff the line starts with `NAME=`, and never runs onto the next line |
| ConfigManager.SubPlain | backend/app/config/manager.py:225 | on plain lines `re.sub` rewrites exactly the lines that start with `NAME=` and keeps the others, line for line |
| ConfigManager.ErrorSticks | backend/app/config/manager.py:212-233 | once a substitution raises, every later update leaves the error in place |
| ConfigManager.WriteNext | backend/app/config/manager.py:216-229 | one pass of the loop: a `None` value is skipped, any other value is the next `EnvStep` |
| ConfigManager.WriteEnv | backend/app/config/manager.py:212-233 | the loop over the updates computes `EnvAfter`: `None` values skipped, each key rewritten where the pattern matches or appended, and a raising `re.sub` an error |
| ConfigManager.AppendedLines | backend/app/config/manager.py:227-229 | appending adds a newline to unterminated content first, so the assignment is a line of its own and every old line stays |
| ConfigManager.RewrittenLines | backend/app/config/manager.py:224-225 | for a key and value free of backslashes and line ends, when the pattern matches, the lines become the substituted lines and the literal assignment is among them |
| ConfigManager.AppendedWhenAbsent | backend/app/config/manager.py:226-229 | when no line matches, `KEY=value` becomes the new last line and the text ends in a newline |
| ConfigManager.EnvLineMatches | backend/app/config/manager.py:221-222 | the written line `KEY=value` matches the key's own pattern on that line |
| ConfigManager.EnvStepSetsKey | backend/app/config/manager.py:216-229 | after one update with a key and a value free of line ends and backslashes, the file holds the line `KEY=value` |
| ConfigManager.EnvStepKeepsLine | backend/app/config/manager.py:216-229 | a line no match can start or run through survives a successful update, whatever the value |
| ConfigManager.SettledAfterRewrite | backend/app/config/manager.py:221-225 | for a plain key and a value free of backslashes and line ends, a second update of the same key after a rewrite changes nothing |
| ConfigManager.SettledAfterAppend | backend/app/config/manager.py:221-229 | for a plain key and a value free of backslashes and line ends, a second update of the same key after an append changes nothing |
| ConfigManager.EnvStepIdempotent | backend/app/config/manager.py:216-229 | writing the same assignment twice gives the same text as writing it once |
| ConfigManager.OtherKeySolid | backend/app/config/manager.py:150 | the line written for one upper-cased field name is one no match of another such name starts in or runs through (also line 221) |
| ConfigManager.WriteEnvSetsAll | backend/app/config/manager.py:212-231 | after `_write_env` with distinct keys, every non-`None` update is in the file as `KEY=value` |
| ConfigManager.EnvStepPlain | backend/app/config/manager.py:216-229 | on a `.env` text of plain lines, one update succeeds, keeps the lines plain, makes `KEY=value` the only assignment of `KEY` and keeps every other name's sole assignment |
| ConfigManager.WriteEnvPlain | backend/app/config/manager.py:212-231 | on a `.env` text of plain lines, `_write_env` succeeds, keeps the lines plain and leaves each written variable exactly one assignment, to its value |
| ConfigManager.ExposureAt | backend/app/config/manager.py:148 | `exposure_map.get(path, 'normal')` |
| ConfigManager.PyStr | backend/app/config/manager.py:151 | `str(v)` of strings, booleans and `None` as Python prints them |
| ConfigManager.RecordSecretsAppend | backend/app/config/manager.py:142-155 | recording the secrets of two runs of leaves in turn is recording them of the concatenation |
| ConfigManager.Walk | backend/app/config/manager.py:142-155 | the recursive walk visits every leaf below `path` once; `yaml_updates` gains exactly those leaves, and `secret_updates` the secret ones as `KEY: str(v)` |
| ConfigManager.WalkKey | backend/app/config/manager.py:144-155 | one entry of `walk`'s loop keeps the walk's invariant: the visited leaves grow by the entry's leaves, `yaml_updates` is the source restricted to them, and `secret_updates` records the secret ones |
| ConfigManager.RecordedKeys | backend/app/config/manager.py:149-151 | every secret leaf visited is recorded under its upper-cased field name |
| ConfigManager.RecordedFrom | backend/app/config/manager.py:149-151 | every recorded secret is an earlier entry or the `str` of a visited secret leaf with that name |
| ConfigManager.SplitUpdates | backend/app/config/manager.py:138-157 | after `walk(new_partial_config)`: `yaml_updates` has exactly the update's leaves with their values (equal to it when no nested dict is empty); every secret leaf is recorded and every record comes from a secret leaf |
| ConfigManager.SectionForYaml | backend/app/config/manager.py:169-179 | a scalar section is kept iff it is not secret; a dict section keeps exactly its non-secret fields and is dropped when none is left |
| ConfigManager.YamlOnly | backend/app/config/manager.py:168-179 | the YAML-only update: no secret fields, no empty sections, every non-secret field kept with its value |
| ConfigManager.YamlOnlyUpdates | backend/app/config/manager.py:168-179 | the loop computes `YamlOnly` |
| ConfigManager.BuildExposureMap | backend/app/config/manager.py:235-253 | the loop over the model's fields computes `ExposureOf`: scalars map to their exposure (default normal), nested models are walked |
| ConfigManager.ExposureKeys | backend/app/config/manager.py:240-252 | every key of the map lies under the prefix and starts with a declared field name |
| ConfigManager.ExposureMatchesSchema | backend/app/config/manager.py:235-253 | with unique field names, a path is in the map iff it names a declared scalar, and the map holds that scalar's exposure |
| ConfigManager.GetSecretPaths | backend/app/config/manager.py:119-129 | the nested loops compute `SecretPathsOf`, in declaration order |
| ConfigManager.SecretPathsMatch | backend/app/config/manager.py:119-129 | `(section, field)` is listed iff the schema declares that field secret, iff the exposure map says secret at `[section, field]` (also lines 235-253) |
| ConfigManager.OnlyApiKeySecret | backend/app/config/manager.py:119-129 | for the application's configuration the only secret path is `("env", "openai_api_key")` |
| ConfigManager.OnlyApiKeyExposedSecret | backend/app/config/manager.py:235-253 | in the application's exposure map exactly `env.openai_api_key` is secret |
| ConfigManager.InjectSecrets | backend/app/config/manager.py:106-111 | the injection loop computes `InjectAll`: a missing section becomes `{}`, then the field is set to the variable's value |
| ConfigManager.AssignTwo | backend/app/config/manager.py:109-111 | assigning `[section, field]` starts a missing section as `{}` and fails on a scalar section |
| ConfigManager.InjectNothing | backend/app/config/manager.py:107-108 | with no secret variable set the merged configuration is unchanged |
| ConfigManager.InjectSets | backend/app/config/manager.py:106-111 | after a successful injection each secret whose variable is set holds that value |
| ConfigManager.InjectErrSticks | backend/app/config/manager.py:106-117 | once an injection fails the whole load fails with that error |
| ConfigManager.InjectFails | backend/app/config/manager.py:106-117 | injection fails exactly when a set secret's section holds a scalar; otherwise every section is kept |
| ConfigManager.InjectKeeps | backend/app/config/manager.py:106-111 | paths unrelated to the injected ones keep their values |
| ConfigManager.LoadConfig | backend/app/config/manager.py:92-117 | `load` returns only configurations validation accepts, and every failure is `ServiceError` |
| ConfigManager.ApiKeyPath | backend/app/config/manager.py:105-107 | `load` reads the one secret from `OPENAI_API_KEY` |
| ConfigManager.LoadWithoutKey | backend/app/config/manager.py:92-113 | without `OPENAI_API_KEY`, `load` validates the merged three files unchanged |
| ConfigManager.LoadInjectsKey | backend/app/config/manager.py:103-113 | with `OPENAI_API_KEY` set, a successful load holds it as `env.openai_api_key` |
| ConfigManager.LoadFails | backend/app/config/manager.py:92-117 | load fails exactly when the key is set and `env` is a scalar, or when validation refuses |
| ConfigManager.LoadPrefersUser | backend/app/config/manager.py:95-100 | outside the secret, a scalar of the user overrides wins over both defaults files |
| ConfigManager.AllDeclared | backend/app/config/manager.py:162-163 | the check over the flattened update accepts iff every path names a declared field |
| ConfigManager.SecretList | backend/app/config/manager.py:216 | `secret_updates.items()` lists each recorded secret once |
| ConfigManager.DeclaredFlat | backend/app/config/manager.py:153-163 | the flattened `yaml_updates` names only declared fields iff the update does |
| ConfigManager.CheckUpdate | backend/app/config/manager.py:136-165 | the validation step of `save`: an undeclared field is refused; otherwise the update is refused iff the merged result fails validation; the secrets are the walk's |
| ConfigManager.WriteYaml | backend/app/config/manager.py:168-206 | the user-overrides document after `save`: the YAML-only update deep-merged in, or left alone when it is empty |
| ConfigManager.ConfigManager.constructor | backend/app/config/manager.py:27-37 | the manager starts with the three documents, the `.env` text and no stored configuration |
| ConfigManager.ConfigManager.Config | backend/app/config/manager.py:39-43 | the `config` property fails with `ServiceError` iff nothing is stored, else returns what is stored |
| ConfigManager.ConfigManager.Load | backend/app/config/manager.py:92-117 | `load` returns `Loaded()`; `load_dotenv(override=True)` leaves the `.env` variables in the environment; the documents, `.env` text and stored configuration are unchanged |
| ConfigManager.ConfigManager.WriteUpdates | backend/app/config/manager.py:181-184 | the user overrides become `UserAfter`; `.env` becomes `EnvAfter` of the recorded secrets when that succeeds and is left as it was when `_write_env` raises; the environment and stored configuration are unchanged |
| ConfigManager.ConfigManager.Save | backend/app/config/manager.py:134-189 | a failed load, an undeclared field or an invalid merge refuses the update and writes nothing; an accepted one writes the YAML-only update, then the secrets, failing with `ServiceError` when `_write_env` raises, else reloads and stores the result |
| ConfigManager.YamlOnlyKeeps | backend/app/config/manager.py:168-179 | a non-secret scalar of the update reads back the same from the YAML-only update |
| ConfigManager.SavedValueLoads | backend/app/config/manager.py:134-185 | after `save`, the next load returns each non-secret scalar of the update at its path |
| ConfigManager.SavedKeyRecorded | backend/app/config/manager.py:148-151 | the secret recorded for `env.openai_api_key` is the string the update gave it |
| ConfigManager.SavedKeyLoads | backend/app/config/manager.py:103-111 | an API key saved by `save` is what the next load returns as `env.openai_api_key` (also lines 148-151, 183-185) |
| ConfigManager.DotenvTwice | backend/app/config/manager.py:103 | reading the same `.env` variables again with `override=True` changes nothing |
| ConfigManager.OnlyApiKeyRecorded | backend/app/config/manager.py:148-151 | `OPENAI_API_KEY` is the only secret `save` records for the application's configuration |
| ConfigManager.SecretNamedAt | backend/app/config/manager.py:148-151 | with one secret path, a recorded secret is named after that path's upper-cased last field |
| ConfigManager.ListedSingle | backend/app/config/manager.py:216 | with one recorded secret, `secret_updates.items()` is that one pair |
| ConfigManager.SingleSecretWritten | backend/app/config/manager.py:183-184 | the one secret written into a plain `.env` text is that variable's only assignment afterwards |
| ConfigManager.DotenvKeyLoads | backend/app/config/manager.py:103-111 | once `load_dotenv` has read a plain text assigning `OPENAI_API_KEY` once, a successful `load` holds that value |
| Ranking.AddBullet | backend/app/services/experiences_service.py:100-101 | adding a hit to an experience's bullet list grows the list by at most one entry |
| Ranking.HitScoreAppend | backend/app/services/experiences_service.py:86-100 | a bullet's score over two concatenated result lists is the sum of its scores over each |
| Ranking.HitScoreOrderFree | backend/app/services/experiences_service.py:86-100 | the order in which two queries' results arrive does not change any bullet score |
| Ranking.AddBulletShape | backend/app/services/experiences_service.py:91-100 | a hit adds its index to the experience's bullet indices, which stay distinct (defaultdict keys) |
| Ranking.AddBulletTotal | backend/app/services/experiences_service.py:100-108 | a hit raises the experience's total by exactly its similarity |
| Ranking.AddBulletScore | backend/app/services/experiences_service.py:100 | a hit raises only its own bullet's score, by its similarity; an unseen bullet starts at 0.0 |
| Ranking.AddToShape | backend/app/services/experiences_service.py:91-100 | a hit adds its experience id to the accumulator, whose ids stay distinct with non-empty bullet maps |
| Ranking.AddToBullets | backend/app/services/experiences_service.py:100-101 | a hit changes the bullet map of its own experience only |
| Ranking.BulletsOfIn | backend/app/services/experiences_service.py:91-122 | looking an id up in the accumulator finds exactly the entry with that id |
| Ranking.IdsContain | backend/app/services/experiences_service.py:107 | every accumulator entry's id is among the accumulator's ids |
| Ranking.AccumulateIds | backend/app/services/experiences_service.py:93-101 | the accumulator holds one entry per experience id with a hit carrying both metadata keys, and no other |
| Ranking.AccumulateBulletScore | backend/app/services/experiences_service.py:93-101 | each bullet's accumulated score is the sum of the similarities of the usable hits naming it, and it is present iff such a hit exists |
| Ranking.AccumulateTotal | backend/app/services/experiences_service.py:106-109 | an experience's total is the sum of the similarities of all its usable hits |
| Ranking.AnyHitBulletSnoc | backend/app/services/experiences_service.py:93-101 | one more hit names a bullet iff it or an earlier hit does |
| Ranking.AnyHitExperienceSnoc | backend/app/services/experiences_service.py:93-101 | one more hit names an experience iff it or an earlier hit does |
| Ranking.Scores | backend/app/services/experiences_service.py:106-109 | `experience_scores` pairs each accumulator entry, in order, with the sum of its bullet scores |
| Ranking.ByScoreTotal | backend/app/services/experiences_service.py:111 | ordering by total score, best first, is a total preorder, so the stable sort applies |
| Ranking.ByBulletScoreTotal | backend/app/services/experiences_service.py:123-124 | ordering bullets by score, best first, is a total preorder |
| Ranking.Chosen | backend/app/services/experiences_service.py:117-120 | the result loop keeps at most as many entries as it is given |
| Ranking.PyIndex | backend/app/services/experiences_service.py:126 | Python indexing: a non-negative index in range, a negative one counts from the end, anything else raises |
| Ranking.BulletTexts | backend/app/services/experiences_service.py:126 | the pruned bullets are the stored bullets at the kept indices, in order, and the lookup fails iff some index is out of Python's range |
| Ranking.Queries | backend/app/services/experiences_service.py:81-84 | one query per requirement, in order, each `Role: {title}\nAchievement: {requirement}` |
| Ranking.SelectShape | backend/app/services/experiences_service.py:115-132 | a successful result holds one pruned record per kept id, in the kept order |
| Ranking.ChosenFrom | backend/app/services/experiences_service.py:116-120 | the kept ids are distinct, skip the ids already added, and come from the ranked list |
| Ranking.ChosenSorted | backend/app/services/experiences_service.py:116-120 | the kept entries keep the order of the ranked list |
| Ranking.RankedFromScores | backend/app/services/experiences_service.py:106-113 | every ranked pair is an accumulator entry with its true total |
| Ranking.RankedSorted | backend/app/services/experiences_service.py:111-113 | the ranked list is in non-increasing score order and has at most `top_k_experiences` entries |
| Ranking.TopBulletsFacts | backend/app/services/experiences_service.py:123-125 | the kept bullets are best first, at most `max_bullets_per_experience` of them, all from the experience's hits |
| Ranking.RankedEntry | backend/app/services/experiences_service.py:93-113 | a ranked experience's score is the sum of its hits' similarities, and it has at least one hit |
| Ranking.PruneCopies | backend/app/services/experiences_service.py:121-129 | a pruned record is the stored record with only its bullets replaced, by at most `max_bullets_per_experience` of its own bullets |
| Ranking.RelevantProperties | backend/app/services/experiences_service.py:72-132 | no requirements or no usable hit gives `[]`; otherwise `[:top_k]` of the hit experiences, distinct, best total first, ties in first-hit order, none left out scoring above a kept one, each the stored record cut to its best `[:max_bullets]` hit bullets |
| Ranking.PrunedBullets | backend/app/services/experiences_service.py:122-126 | each returned bullet is the stored bullet at the index of a kept hit entry, best score first |
| Ranking.RelevantSizes | backend/app/services/experiences_service.py:72-132 | the sizes alone: `[]` without requirements, exactly `[:top_k]` of the hit experiences, at most `max_bullets` bullets each |
| Ranking.SelectProperties | backend/app/services/experiences_service.py:115-132 | when no lookup fails the result loop returns the best records as `SelectedBest` states |
| Ranking.ChosenOrder | backend/app/services/experiences_service.py:111-120 | the loop keeps every ranked id: distinct, non-increasing totals, ties in first-hit order, none left out scoring higher |
| Ranking.SelectRecords | backend/app/services/experiences_service.py:117-130 | each returned record is the pruned stored record of a ranked experience with a hit, carrying its true total |
| Ranking.PruneRecord | backend/app/services/experiences_service.py:121-129 | a record pruned without an index error is the stored one with only its bullets replaced by its best `[:max_bullets]` hit bullets |
| Ranking.RankedChoice | backend/app/services/experiences_service.py:106-113 | `[:top_k]` keeps as many experiences as Python's slice of the hit experiences; one left out scores at most every kept one; equal totals keep first-hit order |
| Ranking.BulletChoice | backend/app/services/experiences_service.py:122-125 | `[:max_bullets]` keeps as many bullets as Python's slice of the hit bullets, the best ones, ties in first-hit order |
| Ranking.AccumulateOrder | backend/app/services/experiences_service.py:91-101 | `experience_hits` lists experiences in the order of their first hits (dict insertion order) |
| Ranking.AccumulateBulletOrder | backend/app/services/experiences_service.py:91-101 | each experience lists its bullets in the order of their first hits |
| Ranking.RankedAllChosen | backend/app/services/experiences_service.py:111-120 | the ranked ids are distinct so the loop skips none, and their number is what Python's `[:top_k]` keeps |
| Ranking.RankedCut | backend/app/services/experiences_service.py:111-113 | an experience cut off by `[:top_k]` scores at most every kept one |
| Ranking.RankedTies | backend/app/services/experiences_service.py:111 | ranked experiences with equal totals keep their order in `experience_scores` (`sorted` is stable) |
| Ranking.TopBulletsCut | backend/app/services/experiences_service.py:123-125 | a bullet cut off by `[:max_bullets]` scores at most every kept one |
| Ranking.TopBulletsTies | backend/app/services/experiences_service.py:123-124 | kept bullets with equal scores keep their order in the experience's entry |
| Ranking.ExperienceCount | backend/app/services/experiences_service.py:91-101 | the accumulator has one entry per experience with a usable hit |
| Ranking.BulletCount | backend/app/services/experiences_service.py:91-101 | an experience's entry has one bullet per bullet index its usable hits name |
| ExperiencesService.PrependNothing | backend/app/services/experiences_service.py:115 | appending to an empty result list leaves the outcome unchanged |
| ExperiencesService.PrependTwice | backend/app/services/experiences_service.py:130 | appending records one after another is appending them together |
| ExperiencesService.FindRelevant | backend/app/services/experiences_service.py:72-132 | the method computes `Relevant`: `[]` without requirements, exactly `[:top_k]` of the hit experiences, at most `max_bullets` bullets each |
| ExperiencesService.BuildQueries | backend/app/services/experiences_service.py:81-84 | one query per requirement, in order, with the role title and requirement text |
| ExperiencesService.SearchAll | backend/app/services/experiences_service.py:86-89 | one `k=5` search per query, results concatenated in query order |
| ExperiencesService.AccumulateHits | backend/app/services/experiences_service.py:91-101 | the accumulation loop computes `Accumulate`, a well-formed accumulator |
| ExperiencesService.ScoreAll | backend/app/services/experiences_service.py:106-109 | the scoring loop computes each experience's total |
| ExperiencesService.SelectAll | backend/app/services/experiences_service.py:115-132 | the result loop computes `Select`: skips seen ids, prunes, and propagates the first failure |
| ExperiencesService.PruneBullets | backend/app/services/experiences_service.py:126 | the comprehension returns the stored bullets at the kept indices or fails on a bad index |
| ExperiencesService.IndexBullets | backend/app/services/experiences_service.py:151-159 | bullet `i` is stored as a row, as the document `Role: ...\nAchievement: ...\n` and with metadata `(experience id, i)` |
| ExperiencesService.ScoreInPresent | backend/app/services/experiences_service.py:100 | every bullet entry in the accumulator can be looked up by its own index |
| ExperiencesService.PruneResolves | backend/app/services/experiences_service.py:121-126 | when every hit's index lies within the stored bullets, pruning never fails |
| ExperiencesService.HitBulletInRange | backend/app/services/experiences_service.py:95-101 | an accumulated bullet index is the index of some hit, so it inherits that hit's range |
| ExperiencesService.IndexedBulletsResolve | backend/app/services/experiences_service.py:155-159 | every document written for an experience names it and, through its `bullet_index`, the bullet it embeds |
| ExperienceService.SearchRelevantExperiences | backend/app/services/experience_service.py:189-274 | the older search computes the same `Relevant` result: `[]` without requirements, exactly `[:top_k]` of the hit experiences |
| ExperienceService.SaveExperienceDocuments | backend/app/services/experience_service.py:36-41 | bullet `i` becomes the embedding document with metadata `(experience id, i)`, and that index finds the bullet again |
| Schemas.NewApplication | backend/app/schemas/application.py:11-19 | a new application has the given listing, no resume and exactly one `SAVED` event at stage 0 |
| ApplicationsService.EventInsert | backend/app/services/applications_service.py:64-75 | the insert of an event carries the event's id and the application's id |
| ApplicationsService.EventInserts | backend/app/services/applications_service.py:62-78 | one insert per status event |
| ApplicationsService.ExtendWithEvents | backend/app/services/applications_service.py:62-78 | `operations.extend(...)` appends the event inserts, in order, after the existing operations |
| ApplicationsService.Create | backend/app/services/applications_service.py:52-81 | refused iff there are no status events; otherwise the application insert first, then the insert of each event in order |
| ApplicationsService.Update | backend/app/services/applications_service.py:83-112 | the delete of the application's events first, then one insert per event, each for this application |
| ApplicationsService.EventsAfterInserts | backend/app/services/applications_service.py:90-109 | after the delete and the first `n` inserts the application's stored events are its first `n` events |
| ApplicationsService.UpdateReplacesEvents | backend/app/services/applications_service.py:83-112 | whatever was stored before, `update` leaves exactly the application's events, in order |
| ApplicationsService.ListAll | backend/app/services/applications_service.py:12-50 | one application per row, with the row's id and listing and only the events that carry an id |
| ApplicationsService.FilterEvents | backend/app/services/applications_service.py:43-45 | the comprehension computes `KeptEvents` |
| ApplicationsService.KeptEventsExact | backend/app/services/applications_service.py:44 | the kept events are exactly those with an id: as many as there are, and each one present iff some element with an id carries it |
| ApplicationsService.PlaceholderDropped | backend/app/services/applications_service.py:18-44 | the null element the LEFT JOIN yields for an application without events is dropped |
| Dates.DigitValue | backend/app/schemas/dates.py:45 | a digit's value is below 10 |
| Dates.YearMonthMeaning | backend/app/schemas/dates.py:45 | the pattern holds iff the text is four Unicode decimal digits (`\d` of a `str` pattern), a dash and two ASCII digits naming a month from 1 to 12; with ASCII year digits it is the frontend's pattern |
| Dates.ValidateYearMonth | backend/app/schemas/dates.py:40-47 | a non-string is refused with "YearMonth must be a string"; a string is returned unchanged iff it matches, else refused with "Invalid format. Expected YYYY-MM" |
| Dates.AcceptedYearMonths | backend/app/schemas/dates.py:45 | `$` also matches before one final newline, so `YYYY-MM\n` is accepted too, newline kept; the year may be in any script's decimal digits |
| Dates.YearMonthExamples | backend/app/schemas/dates.py:40-53 | "2025-12", "2025-12\n" and the full-width "２０２５-12" are accepted; "2025-00", "2025-13", "2025-1" and a full-width month are refused |
| Dates.ForceUtc | backend/app/schemas/dates.py:7-19 | any other type is refused; a string is refused iff `fromisoformat` rejects it; every result is in UTC |
| Dates.ForceUtcMeaning | backend/app/schemas/dates.py:17-19 | a naive datetime is read as UTC; an aware one keeps its instant |
| Dates.ForceUtcIdempotent | backend/app/schemas/dates.py:7-19 | validating an already validated datetime changes nothing |
| Dates.ZuluSuffix | backend/app/schemas/dates.py:22-24 | a UTC timestamp's `+00:00` suffix is serialised as `Z` |
| Sorting.Insert | backend/app/routers/resumes_router.py:102 | inserting adds exactly one element and keeps the others |
| Sorting.SortPermutation | backend/app/routers/resumes_router.py:102 | `sorted` returns a permutation of its input |
| Sorting.InsertSorted | backend/app/routers/resumes_router.py:102 | inserting into an ordered sequence keeps it ordered |
| Sorting.SortSorted | backend/app/routers/resumes_router.py:102 | under a total preorder the output is ordered |
| Sorting.TiesAppend | backend/app/routers/resumes_router.py:102 | the elements equivalent to one element, taken from a concatenation, are those of each part in turn |
| Sorting.InsertTies | backend/app/routers/resumes_router.py:102 | an inserted element lands after the equivalent ones already placed |
| Sorting.SortStable | backend/app/routers/resumes_router.py:102 | `sorted` is stable: equivalent elements keep their input order |
| Sorting.TiesBefore | backend/app/routers/resumes_router.py:102 | an element placed before an equivalent one in a sequence comes first among that sequence's equivalents |
| Sorting.BeforeFromTies | backend/app/routers/resumes_router.py:102 | coming first among the equivalents means coming first in the sequence |
| Sorting.SortKeepsTieOrder | backend/app/routers/resumes_router.py:102 | two equivalent elements in sorted order were in that order in the input |
| Sorting.SortedCut | backend/app/services/experiences_service.py:111-113 | an element a prefix of the sorted output leaves out is ordered after every element the prefix keeps |
| Sorting.PyPrefix | backend/app/services/experiences_service.py:111-113 | Python's `s[:k]`: a prefix of length `min(k, len)`, or `len + k` (at least 0) for a negative `k` |
| Scraping.Values | backend/app/schemas/scraping.py:54-55 | the values of grounded items, one per item in order |
| Scraping.ToListing | backend/app/schemas/scraping.py:49-56 | refused iff the extraction carries an error, with the message naming it; otherwise a listing with the same id, URL and fields and each grounded item replaced by its value |
| Scraping.FromError | backend/app/schemas/scraping.py:58-72 | a failed draft with the error and HTML given, empty text fields and lists, and the given id or else a fresh one |
| Scraping.FailedNeverConverts | backend/app/schemas/scraping.py:49-72 | a draft made by `from_error` can never be converted to a listing |
| Scraping.StatusValue | backend/app/schemas/scraping.py:16-20 | each status serialises to one of its four strings |
| Scraping.StatusValuesDistinct | backend/app/schemas/scraping.py:16-20 | the four strings are pairwise distinct |
| ListingsRouter.HtmlOr | backend/app/routers/listings_router.py:120-123 | `html or ''` |
| ListingsRouter.ErrorText | backend/app/routers/listings_router.py:87 | the error text is never empty, and a non-empty error is kept |
| ListingsRouter.ExtractListing | backend/app/routers/listings_router.py:59-123 | every draft it returns carries the given id and URL and is never a duplicate-URL draft |
| ListingsRouter.ScrapeListing | backend/app/routers/listings_router.py:29-56 | every draft it returns carries the given id and the canonical URL |
| ListingsRouter.ExtractErrors | backend/app/routers/listings_router.py:66-100 | an LLM exception, an extraction error and a failed validation each give an error draft without HTML, with the message the code builds |
| ListingsRouter.ErrorDraftIff | backend/app/routers/listings_router.py:66-100 | an error draft arises exactly from one of those three failures and never carries HTML |
| ListingsRouter.ExtractVerdict | backend/app/routers/listings_router.py:102-123 | after validation, no similar listing gives a unique draft; a similar one gives a duplicate-content draft with its application, or the unhandled error when it has none |
| ListingsRouter.SearchedListing | backend/app/routers/listings_router.py:103-109 | the listing searched for similarity has the draft's id and URL and the grounded values |
| ListingsRouter.DuplicateUrlSkipsScrape | backend/app/routers/listings_router.py:33-44 | a URL already saved gives a duplicate-URL draft whatever the fetch and the LLM would do |
| ListingsRouter.FetchFailure | backend/app/routers/listings_router.py:46-54 | a failed fetch of a new URL gives an error draft without HTML |
| ListingsRouter.ExtractSource | backend/app/routers/listings_router.py:113-123 | a duplicate-content or unique draft carries the fetched page's HTML |
| ListingsRouter.FetchSuccess | backend/app/routers/listings_router.py:56 | a fetched page is decided by `extract_listing` on the canonical URL with the page's HTML |
| ListingsRouter.CanonicalUrlDecides | backend/app/routers/listings_router.py:33 | two spellings of the same URL give the same draft |
| ListingsRouter.SaveListings | backend/app/routers/listings_router.py:132-141 | every listing is returned in order, and each gets an application insert and one `SAVED` event insert at stage 0 |
| ResumesRouter.CreateResume | backend/app/routers/resumes_router.py:48-63 | an unknown application is refused as not found; otherwise an empty resume with the default template, the application pointing to it, and `update`'s statements: delete the application's events, then insert each of its events in order |
| ResumesRouter.Customise | backend/app/routers/resumes_router.py:89-92 | `zip(..., strict=False)`: as many experiences as the shorter side, each with the bullets at its position |
| ResumesRouter.SortKey | backend/app/routers/resumes_router.py:96-100 | a missing end date sorts as `9999-12`; present dates are used as they are |
| ResumesRouter.LexAntisymmetric | backend/app/routers/resumes_router.py:100 | string order is antisymmetric |
| ResumesRouter.PairOrder | backend/app/routers/resumes_router.py:100-102 | tuple order on keys is total and transitive |
| ResumesRouter.NewerFirstOrder | backend/app/routers/resumes_router.py:102 | the reversed key order is a total preorder, so `sorted` is well defined |
| ResumesRouter.ToItem | backend/app/routers/resumes_router.py:104-110 | the item has the experience's title, organisation, dates and bullets |
| ResumesRouter.Items | backend/app/routers/resumes_router.py:103-112 | one item per experience, in order |
| ResumesRouter.WorkExperience | backend/app/routers/resumes_router.py:115-125 | exactly one section: id "1", detailed, "Work Experience", order 0, holding the items |
| ResumesRouter.GenerateResumeContent | backend/app/routers/resumes_router.py:89-125 | the section holds the customised experiences, ordered newest first, as items |
| ResumesRouter.OrderedFacts | backend/app/routers/resumes_router.py:102 | the ordering keeps every experience exactly once and puts keys in non-increasing order |
| ResumesRouter.OrderedStable | backend/app/routers/resumes_router.py:102 | experiences with equal keys keep their input order |
| ResumesRouter.OngoingFirst | backend/app/routers/resumes_router.py:97-102 | nothing that ended before `9999-12` precedes an ongoing experience |
| ResumesRouter.LaterEndFirst | backend/app/routers/resumes_router.py:96-102 | among ended experiences a later end date comes first |
| DateUtils.Pad | frontend/src/utils/date.ts:16 | `padStart(2, '0')`: at least two characters; a one-digit number gets a leading zero |
| DateUtils.Parse | frontend/src/utils/date.ts:36-41 | the value itself iff the pattern accepts it, else the error `Invalid <kind>: <value>` |
| DateUtils.ParseIsoDate | frontend/src/utils/date.ts:13-41 | accepts exactly the `DATE_RE` strings, unchanged |
| DateUtils.ParseIsoDatetime | frontend/src/utils/date.ts:14-70 | accepts exactly the `DATETIME_RE` strings, unchanged |
| DateUtils.ParseYearMonth | frontend/src/utils/date.ts:97-102 | accepts exactly the year-month strings, unchanged, with the pattern of line 15 (`YearMonth.parse` in frontend/src/utils/yearMonth.ts:22-27 is the same check) |
| DateUtils.FourDigitYear | frontend/src/utils/date.ts:82 | a year from 1000 to 9999 prints as four digits |
| DateUtils.PaddedMonth | frontend/src/utils/date.ts:16 | a month from 1 to 12 pads to `01`-`09` or `10`-`12` (also line 82) |
| DateUtils.PaddedDay | frontend/src/utils/date.ts:13-16 | a day from 1 to 31 pads to a day the pattern accepts |
| DateUtils.YearMonthFromPartsValid | frontend/src/utils/date.ts:81-102 | `fromParts` of a four-digit year and a month 1-12 passes `is` and `parse` |
| DateUtils.DateFromPartsValid | frontend/src/utils/date.ts:20-34 | `ISODate.fromParts` of a four-digit year, a month 1-12 and a day 1-31 passes `ISODate.is` |
| DateUtils.ShortYearRejected | frontend/src/utils/date.ts:13 | a year below 1000 is printed without padding, so `fromParts` fails the patterns (also lines 15, 20-22, 81-83) |
| DateUtils.NoCalendarCheck | frontend/src/utils/date.ts:13 | the check is syntactic: `2023-02-31` passes |
| DateUtils.BadMonthsRejected | frontend/src/utils/date.ts:15 | months `00` and `13` are refused |
| DateUtils.DatetimeShape | frontend/src/utils/date.ts:14 | an accepted datetime has `T` at position 10 and ends in `Z`; dropping the fraction keeps it accepted |
| DateUtils.YearMonthAgreement | frontend/src/utils/yearMonth.ts:3-27 | the frontend accepts only what the backend validator accepts; a seven-character value the backend accepts passes the frontend iff its year is in ASCII digits |
| DateUtils.FullWidthYearDisagrees | frontend/src/utils/yearMonth.ts:3-27 | "２０２５-12" is stored by the backend validator and refused by the frontend's `YearMonth.parse` |
| UrlParams.First | frontend/src/hooks/utils/useUrlSyncedState.ts:14-28 | `params.get(key)`: present iff some entry has the key, and then the value of the first such entry |
| UrlParams.AllAppend | frontend/src/hooks/utils/useUrlSyncedState.ts:36 | the values under a key in a concatenation are those of each part in turn (also line 117) |
| UrlParams.AllWithout | frontend/src/hooks/utils/useUrlSyncedState.ts:113 | after `delete(key)` the key has no values and every other key keeps its own |
| UrlParams.FirstAll | frontend/src/hooks/utils/useUrlSyncedState.ts:14-36 | `get` is the first of `getAll`, or null when there is none |
| UrlParams.AllReplaced | frontend/src/hooks/utils/useUrlSyncedState.ts:119 | after `set(key, v)` the key holds exactly `[v]` and every other key keeps its values |
| UrlParams.Under | frontend/src/hooks/utils/useUrlSyncedState.ts:117 | one entry `(key, v)` per value, in order |
| UrlParams.AllUnder | frontend/src/hooks/utils/useUrlSyncedState.ts:117 | the appended entries hold exactly the values under the key and nothing under others |
| UrlParams.SearchParams.constructor | frontend/src/hooks/utils/useUrlSyncedState.ts:87 | the parameters start as the URL's entries |
| UrlParams.SearchParams.Delete | frontend/src/hooks/utils/useUrlSyncedState.ts:113 | every entry under the key is removed and the others keep their order |
| UrlParams.SearchParams.Append | frontend/src/hooks/utils/useUrlSyncedState.ts:117 | the entry is added at the end |
| UrlParams.SearchParams.Set | frontend/src/hooks/utils/useUrlSyncedState.ts:119 | the first entry under the key takes the value and later ones go; with none, the entry is appended |
| UrlParams.SearchParams.AppendAll | frontend/src/hooks/utils/useUrlSyncedState.ts:117 | every value is appended under the key, in order |
| UrlParams.SearchParams.SetValue | frontend/src/hooks/utils/useUrlSyncedState.ts:106-129 | the key's old entries go; the serialised value is written unless the new value equals the default |
| UrlParams.HookValue | frontend/src/hooks/utils/useUrlSyncedState.ts:98-101 | the parsed value, or the default when parsing gives null |
| UrlParams.BooleanDeserialize | frontend/src/hooks/utils/useUrlSyncedState.ts:27-30 | a value is read iff the first entry is exactly `true` or `false` |
| UrlParams.NumberDeserialize | frontend/src/hooks/utils/useUrlSyncedState.ts:19-22 | null iff the parameter is missing or empty |
| UrlParams.ArrayDeserialize | frontend/src/hooks/utils/useUrlSyncedState.ts:35-38 | never an empty list: no values reads as null |
| UrlParams.ChooseHandler | frontend/src/hooks/utils/useUrlSyncedState.ts:92-96 | a custom handler wins over a preset type; with neither the hook throws |
| UrlParams.AfterSetAll | frontend/src/hooks/utils/useUrlSyncedState.ts:110-121 | after `setValue` the key holds exactly what the serialised value writes, and other keys keep theirs |
| UrlParams.OtherKeysUntouched | frontend/src/hooks/utils/useUrlSyncedState.ts:106-129 | `setValue` changes no other parameter |
| UrlParams.DefaultRemovesKey | frontend/src/hooks/utils/useUrlSyncedState.ts:110-115 | writing the default removes the key altogether |
| UrlParams.StringRoundTrip | frontend/src/hooks/utils/useUrlSyncedState.ts:12-15 | a string written through the hook reads back as itself (also lines 98-121) |
| UrlParams.BooleanRoundTrip | frontend/src/hooks/utils/useUrlSyncedState.ts:25-31 | a boolean written through the hook reads back as itself (also lines 98-121) |
| UrlParams.BooleanOtherText | frontend/src/hooks/utils/useUrlSyncedState.ts:27-30 | any other stored text reads as the default (also line 100) |
| UrlParams.ArrayRoundTrip | frontend/src/hooks/utils/useUrlSyncedState.ts:33-39 | a non-empty list reads back as itself; an empty list reads back as the default (also lines 98-121) |
| ListingsTable.SerializeSort | frontend/src/pages/listings-page/table/index.tsx:32-36 | no sort serialises to null; otherwise one string |
| ListingsTable.ParseSort | frontend/src/pages/listings-page/table/index.tsx:38-42 | a missing or empty value gives no sort; any other value gives exactly one entry |
| ListingsTable.DeserializeSort | frontend/src/pages/listings-page/table/index.tsx:37-43 | never null, so the hook's default is never used |
| ListingsTable.SortBy | frontend/src/pages/listings-page/table/index.tsx:129 | `''` when there is no sort |
| ListingsTable.SortOrder | frontend/src/pages/listings-page/table/index.tsx:130 | `desc` iff there is a sort and its first entry is descending, else `asc` |
| ListingsTable.OnlyFirstSerialized | frontend/src/pages/listings-page/table/index.tsx:33-35 | only the first sort entry is ever written |
| ListingsTable.DescIffSuffix | frontend/src/pages/listings-page/table/index.tsx:41-42 | descending iff the text after `:` is exactly `desc` |
| ListingsTable.SortRoundTrip | frontend/src/pages/listings-page/table/index.tsx:31-44 | one entry whose id has no `:` survives serialising and parsing |
| ListingsTable.HookSortRoundTrip | frontend/src/pages/listings-page/table/index.tsx:124-126 | through the URL hook, no sort or one such entry reads back as written |
| StatusFilter.CleanMeans | frontend/src/pages/listings-page/table/StatusFilterMenu.tsx:22-28 | not dirty iff the lengths agree and each list's statuses are in the other |
| StatusFilter.PermutationClean | frontend/src/pages/listings-page/table/StatusFilterMenu.tsx:22-28 | the same statuses in another order are not a change |
| StatusFilter.DuplicatesHideChange | frontend/src/pages/listings-page/table/StatusFilterMenu.tsx:22-28 | `[Saved, Saved, Applied]` against `[Saved, Applied, Applied]` is not dirty though the lists differ |
| StatusFilter.Unchecked | frontend/src/pages/listings-page/table/StatusFilterMenu.tsx:35 | the status is gone and every other status keeps its count |
| StatusFilter.FilterMenu.constructor | frontend/src/pages/listings-page/table/StatusFilterMenu.tsx:15-16 | the draft starts as the current statuses, the menu closed |
| StatusFilter.FilterMenu.CurrentChanged | frontend/src/pages/listings-page/table/StatusFilterMenu.tsx:18-20 | a new current list resets the draft to it, so Apply is disabled |
| StatusFilter.FilterMenu.DraftStatusChange | frontend/src/pages/listings-page/table/StatusFilterMenu.tsx:30-38 | checking appends the status; unchecking removes every occurrence |
| StatusFilter.FilterMenu.OpenChange | frontend/src/pages/listings-page/table/StatusFilterMenu.tsx:40-45 | opening resets the draft to the current statuses; closing keeps it |
| StatusFilter.FilterMenu.Apply | frontend/src/pages/listings-page/table/StatusFilterMenu.tsx:47-85 | the draft is handed over unchanged and the menu closes |
| ApplicationsPage.HandleStatusesChange | frontend/src/pages/applications-page/index.tsx:509-522 | every `status` parameter goes, then the new statuses are appended in order |
| ApplicationsPage.StatusesWritten | frontend/src/pages/applications-page/index.tsx:509-522 | afterwards the `status` parameters are exactly the new statuses and no other parameter changed |
| ApplicationsPage.HandleSortChange | frontend/src/pages/applications-page/index.tsx:547-569 | no sort deletes `sortBy` and `sortOrder`; otherwise they are set from the first entry |
| ApplicationsPage.PageSorting | frontend/src/pages/applications-page/index.tsx:484-487 | no sort without a non-empty `sortBy`; otherwise one entry, descending iff `sortOrder` is `desc` |
| ApplicationsPage.SortRoundTrip | frontend/src/pages/applications-page/index.tsx:484-487 | the sorting read back after a sort change is the first requested entry, or none (also lines 547-569) |
| ApplicationsPage.NextPage | frontend/src/pages/applications-page/index.tsx:537-540 | a next page exists iff `page < pages`, and it is `page + 1` |
| ApplicationsPage.SyncSearch | frontend/src/pages/applications-page/index.tsx:457-473 | the URL is left alone when it already matches; otherwise `q` is set, or deleted for an empty search |
| ApplicationsPage.SearchSynced | frontend/src/pages/applications-page/index.tsx:446-473 | afterwards the URL's search is the debounced input and no other parameter changed |
| ListingCache.IdOf | frontend/src/hooks/listings/useListingCache.ts:15 | `o.id` is defined iff the object has an `id` property |
| ListingCache.OrEmpty | frontend/src/hooks/listings/useListingDraftMutations.ts:42 | `old ?? []` |
| ListingCache.MapWhereId | frontend/src/hooks/listings/useListingDraftMutations.ts:18 | same length; each entry with the id is transformed and the others are kept |
| ListingCache.PendingDraft | frontend/src/hooks/listings/useListingDraftMutations.ts:43 | a pending draft has exactly `id`, `url` and `status: 'pending'` |
| ListingCache.SetListingDraft | frontend/src/hooks/listings/useListingDraftMutations.ts:14-22 | each entry with the id becomes the listing; length and order are kept; an absent cache becomes `[]` |
| ListingCache.ResetToPending | frontend/src/hooks/listings/useListingDraftMutations.ts:31 | only `id`, `url` and `status: 'pending'` remain, with the old id and url |
| ListingCache.SetPendingListingDraft | frontend/src/hooks/listings/useListingDraftMutations.ts:25-36 | the matching entry keeps only its id and url and turns pending; others are kept |
| ListingCache.AddPendingListingDraft | frontend/src/hooks/listings/useListingDraftMutations.ts:39-47 | the old entries, then exactly one pending draft at the end |
| ListingCache.PatchContent | frontend/src/hooks/listings/useListingDraftMutations.ts:55-58 | an entry without `listing` is untouched; otherwise only `listing` changes, the status stays |
| ListingCache.PatchListingDraftContent | frontend/src/hooks/listings/useListingDraftMutations.ts:50-64 | only entries with the id are patched, in place |
| ListingCache.DiscardListingDrafts | frontend/src/hooks/listings/useListingDraftMutations.ts:67-75 | no entry whose id is listed remains |
| ListingCache.Keep | frontend/src/hooks/listings/useListingDraftMutations.ts:71 | the filter keeps no listed entry and never grows the list |
| ListingCache.KeepAppend | frontend/src/hooks/listings/useListingDraftMutations.ts:71 | the filter distributes over concatenation |
| ListingCache.KeepCount | frontend/src/hooks/listings/useListingDraftMutations.ts:71 | every unlisted entry is kept as often as before, no listed one at all |
| ListingCache.DiscardTwice | frontend/src/hooks/listings/useListingDraftMutations.ts:67-75 | discarding twice is discarding both lists at once |
| ListingCache.UpdateListing | frontend/src/hooks/listings/useListingCache.ts:9-20 | an absent cache becomes `[]`; the matching entry is shallow-merged with the updates, the others kept |
| ListingCache.UpdateTwice | frontend/src/hooks/listings/useListingCache.ts:9-20 | two updates of one entry are one update with the merged changes, when the id is not changed |
| ListingCache.ClearListings | frontend/src/hooks/listings/useListingCache.ts:22-24 | the cache becomes empty |
| ListingCache.GetListing | frontend/src/hooks/listings/useListingCache.ts:26-32 | found iff some entry has the id, and then the first such entry |
| ListingCache.IdValue | frontend/src/hooks/listings/useListingCache.ts:27 | the argument is a string or `null` |
| ListingCache.FindIndex | frontend/src/hooks/listings/useListingCache.ts:29 | `find`: the first position with the id, or none when no entry has it |
| ListingCache.SetThenGet | frontend/src/hooks/listings/useListingCache.ts:26-32 | after `setListingDraft` with a listing that keeps the id, `getListing` returns it iff the id was cached |
| ListingCache.AddPendingDrafts | frontend/src/hooks/listings/useListingMutations.ts:37-47 | one pending draft per URL after the existing entries, which are kept |
| ListingCache.PendingDrafts | frontend/src/hooks/listings/useListingMutations.ts:38-42 | one pending draft per URL, with its id |
| ListingCache.ScrapeSucceeded | frontend/src/hooks/listings/useListingMutations.ts:15-19 | the entry with the returned draft's id becomes that draft |
| ListingCache.ScrapeFailed | frontend/src/hooks/listings/useListingMutations.ts:20-34 | the entry keeps its fields and gains `status: 'error'` and the message; others are kept |
| ListingCache.ExtractSucceeded | frontend/src/hooks/listings/useListingMutations.ts:57-61 | like a scrape success, but an absent cache stays absent |
| ListingCache.PendingIds | frontend/src/hooks/listings/useListingMutations.ts:65-68 | the selector reads `variables.id`, which the variables do not have, so every id is `undefined` |
| ListingCache.ExtractLoadingMeaning | frontend/src/hooks/listings/useListingMutations.ts:65-74 | with no listing, loading iff an extraction is pending; a listing with an id is never loading |
| ListingCache.PendingListingIds | frontend/src/hooks/listings/useListingMutations.ts:54-68 | the corrected selector: the id of each pending extraction's draft |
| ListingCache.ExtractLoadingForMeaning | frontend/src/hooks/listings/useListingMutations.ts:70-74 | corrected: a listing is loading iff an extraction of a draft with its id is pending |
| ListingCache.ExtractedDraftNotLoading | frontend/src/hooks/listings/useListingMutations.ts:65-74 | for the draft being extracted, the check as written says not loading and the corrected one says loading |
| ListingCache.Settle | frontend/src/hooks/listings/useListingMutations.ts:49 | settling the scrapes keeps the cache's length |
| ListingCache.SettleUntouched | frontend/src/hooks/listings/useListingMutations.ts:15-49 | an entry whose id none of the scrapes names is never touched |
| JsArray.SpliceStart | frontend/src/pages/resume-generation-page/VisualEditor.tsx:78-99 | where `splice(i, ...)` starts: an index inside the array as is, a negative one counted from the end, both ends clamped |
| JsArray.Insert | frontend/src/pages/resume-generation-page/VisualEditor.tsx:78-86 | `splice(i, 0, x)` on a copy: one longer, `x` at the start position, everything before and after kept in order |
| JsArray.RemoveAt | frontend/src/pages/resume-generation-page/VisualEditor.tsx:99-107 | `splice(i, 1)` on a copy: the element at the start position goes and the rest keep their order; nothing goes when the start is the end |
| JsArray.Replace | frontend/src/pages/resume-generation-page/VisualEditor.tsx:117-118 | `xs[i] = x` on a copy changes position `i` only |
| JsArray.IndexOf | frontend/src/pages/resume-generation-page/VisualEditor.tsx:127-128 | the first position of `x`, or -1 iff it is absent |
| JsArray.IndexOfDistinct | frontend/src/pages/resume-generation-page/VisualEditor.tsx:127-128 | among distinct elements `indexOf` finds the one position holding the element |
| JsArray.ArrayMove | frontend/src/pages/resume-generation-page/VisualEditor.tsx:130-136 | `arrayMove`: same length, the moved element at its target, a permutation |
| JsArray.ArrayMoveAt | frontend/src/pages/resume-generation-page/VisualEditor.tsx:130-136 | every element lands where `MovedIndex` says: those between the two positions shift by one, the rest stay |
| JsArray.ArrayMoveInverse | frontend/src/pages/resume-generation-page/VisualEditor.tsx:130-136 | moving back undoes a move |
| JsArray.Zip | frontend/src/pages/resume-generation-page/VisualEditor.tsx:24 | two lists side by side, position by position |
| JsArray.ZipInsert | frontend/src/pages/resume-generation-page/VisualEditor.tsx:78-86 | inserting into both lists at one index inserts the pair there, so ids stay beside their sections |
| JsArray.ZipRemove | frontend/src/pages/resume-generation-page/VisualEditor.tsx:99-107 | removing from both lists at one index removes the pair |
| JsArray.ZipMove | frontend/src/pages/resume-generation-page/VisualEditor.tsx:130-136 | moving both lists alike moves the pairs |
| ResumeEditor.BlankItem | frontend/src/pages/resume-generation-page/DetailedItemEditor.tsx:49-55 | empty title, subtitle and dates and one empty bullet |
| ResumeEditor.NewContent | frontend/src/pages/resume-generation-page/VisualEditor.tsx:45-67 | `detailed` starts with one blank item, `paragraph` with empty text, any other kind with one empty bullet |
| ResumeEditor.NewSection | frontend/src/pages/resume-generation-page/VisualEditor.tsx:69-75 | the kind, the title "New Section", the kind's content and the given id |
| ResumeEditor.Renumber | frontend/src/pages/resume-generation-page/VisualEditor.tsx:81-83 | each section's order becomes its position and nothing else changes |
| ResumeEditor.RenumberForgetsOrder | frontend/src/pages/resume-generation-page/VisualEditor.tsx:81-83 | lists that differ only in their orders renumber alike |
| ResumeEditor.RenumberSections | frontend/src/pages/resume-generation-page/VisualEditor.tsx:81-83 | the loop computes `Renumber` |
| ResumeEditor.Resized | frontend/src/pages/resume-generation-page/VisualEditor.tsx:27-35 | the ids resynced to the section count: grown with fresh ids at the end or cut to the count |
| ResumeEditor.ResizedDistinct | frontend/src/pages/resume-generation-page/VisualEditor.tsx:27-35 | a resync with fresh ids keeps the ids distinct |
| ResumeEditor.InsertDistinct | frontend/src/pages/resume-generation-page/VisualEditor.tsx:86 | inserting a new id keeps the ids distinct |
| ResumeEditor.RemoveDistinct | frontend/src/pages/resume-generation-page/VisualEditor.tsx:107 | removing keeps the ids distinct |
| ResumeEditor.MoveDistinct | frontend/src/pages/resume-generation-page/VisualEditor.tsx:136 | moving keeps the ids distinct |
| ResumeEditor.VisualEditor.constructor | frontend/src/pages/resume-generation-page/VisualEditor.tsx:23-24 | the editor starts with the sections and no ids |
| ResumeEditor.VisualEditor.SyncIds | frontend/src/pages/resume-generation-page/VisualEditor.tsx:26-35 | afterwards there is one distinct id per section; the sections are unchanged |
| ResumeEditor.VisualEditor.AddSectionAtIndex | frontend/src/pages/resume-generation-page/VisualEditor.tsx:43-92 | the new section is inserted at the index and the orders renumbered; a fresh id is inserted at the same index |
| ResumeEditor.VisualEditor.RemoveSectionAtIndex | frontend/src/pages/resume-generation-page/VisualEditor.tsx:94-113 | refused with at most one section; otherwise section and id go at the index and the orders are renumbered |
| ResumeEditor.VisualEditor.UpdateSection | frontend/src/pages/resume-generation-page/VisualEditor.tsx:115-122 | only that position changes; nothing is renumbered |
| ResumeEditor.VisualEditor.HandleDragEnd | frontend/src/pages/resume-generation-page/VisualEditor.tsx:124-140 | no target or the same one changes nothing; otherwise sections and ids move alike and the orders are renumbered |
| ResumeEditor.DetailedItemEditor.constructor | frontend/src/pages/resume-generation-page/DetailedItemEditor.tsx:29-30 | the editor starts with the items and no ids |
| ResumeEditor.DetailedItemEditor.SyncIds | frontend/src/pages/resume-generation-page/DetailedItemEditor.tsx:32-39 | one distinct id per item afterwards; the items are unchanged |
| ResumeEditor.DetailedItemEditor.AddAtIndex | frontend/src/pages/resume-generation-page/DetailedItemEditor.tsx:47-65 | a blank item and a fresh id at the same index |
| ResumeEditor.DetailedItemEditor.RemoveAtIndex | frontend/src/pages/resume-generation-page/DetailedItemEditor.tsx:67-80 | refused with at most one item; otherwise item and id go at the index |
| ResumeEditor.DetailedItemEditor.UpdateItem | frontend/src/pages/resume-generation-page/DetailedItemEditor.tsx:82-89 | only that position changes |
| ResumeEditor.DetailedItemEditor.HandleDragEnd | frontend/src/pages/resume-generation-page/DetailedItemEditor.tsx:91-101 | no target or the same one changes nothing; otherwise items and ids move alike |
| ResumeEditor.DragLandsOnTarget | frontend/src/pages/resume-generation-page/DetailedItemEditor.tsx:94-98 | the dragged entry lands where the target was, with its id beside it |
| FieldArray.Keys | frontend/src/components/custom/sortable-list-input/Root.tsx:59-60 | the fields' keys, in order |
| FieldArray.Spread | frontend/src/components/custom/sortable-list-input/Input.tsx:26 | spreading an object copies it; spreading `undefined` gives `{}` |
| FieldArray.WithValue | frontend/src/components/custom/sortable-list-input/Input.tsx:23-26 | `{...o, value: line}`: `value` is the line and every other property of `o` is kept |
| FieldArray.FieldObject | frontend/src/components/custom/sortable-list-input/Input.tsx:23 | a field as the form hands it out carries its key under `id` |
| FieldArray.DefaultItem | frontend/src/components/custom/sortable-list-input/Root.tsx:40-45 | the first default of the array; `{}` when the default is not an array; `undefined` for an empty array |
| FieldArray.PasteLines | frontend/src/components/custom/sortable-list-input/Input.tsx:16-19 | no pasted line is empty (where each comes from is `PasteLinesPieces`) |
| FieldArray.PasteLinesPieces | frontend/src/components/custom/sortable-list-input/Input.tsx:16-19 | every pasted line is one of the text's pieces between newlines, trimmed, so it holds no newline |
| FieldArray.PastedFields | frontend/src/components/custom/sortable-list-input/Input.tsx:24-26 | each further line becomes the template with that line as `value`, in order |
| FieldArray.InsertAfterAdded | frontend/src/components/custom/sortable-list-input/Input.tsx:26 | inserting at `index + 1 + i` extends the lines inserted so far |
| FieldArray.PastedFieldsGrow | frontend/src/components/custom/sortable-list-input/Input.tsx:24-26 | one more line adds one more field at the end of the pasted ones |
| FieldArray.SortableList.constructor | frontend/src/components/custom/sortable-list-input/Root.tsx:23-45 | the list starts with the form's fields, its flags and the computed default item |
| FieldArray.SortableList.EnsureNonEmpty | frontend/src/components/custom/sortable-list-input/Root.tsx:47-49 | an empty list gets the default item appended; a non-empty one is left alone; afterwards there is at least one item |
| FieldArray.SortableList.HandlePaste | frontend/src/components/custom/sortable-list-input/Input.tsx:11-28 | text without a newline, or only blank lines, changes nothing; otherwise the first line replaces the item's value and the others are inserted after it |
| FieldArray.SortableList.InsertPasted | frontend/src/components/custom/sortable-list-input/Input.tsx:24-26 | the `forEach` of inserts puts the pasted fields, in order, at the position |
| FieldArray.SortableList.HandleKeyDown | frontend/src/components/custom/sortable-list-input/Input.tsx:30-43 | Enter inserts the default item below; Backspace in an empty item removes it unless it is the only one; any other key changes nothing |
| FieldArray.SortableList.HandleDragEnd | frontend/src/components/custom/sortable-list-input/Root.tsx:55-63 | ignored while disabled or read-only, without a target or onto itself; otherwise the dragged field moves to the target's position |
| FieldArray.SortableList.IsLocked | frontend/src/components/custom/sortable-list-input/DeleteButton.tsx:10 | an unlocked button means at least two items |
| FieldArray.SortableList.DeleteClick | frontend/src/components/custom/sortable-list-input/DeleteButton.tsx:10-17 | a locked button does nothing; otherwise the item goes; at least one item always remains |
| FieldArray.PasteLayout | frontend/src/components/custom/sortable-list-input/Input.tsx:16-26 | after a paste each line is in its own item, in order, from the pasted item on, and later items shift after them |
| FieldArray.BulletList.constructor | frontend/src/components/custom/BulletInput.tsx:61-66 | the list starts with the form's fields and its flag |
| FieldArray.BulletList.EmptyBullet | frontend/src/components/custom/BulletInput.tsx:101 | `{ value: '' }` |
| FieldArray.BulletList.HandleDragEnd | frontend/src/components/custom/BulletInput.tsx:72-80 | ignored only while disabled, without a target or onto itself; otherwise the field moves |
| FieldArray.BulletList.InsertAbove | frontend/src/components/custom/BulletInput.tsx:101 | an empty bullet is inserted at the item's position |
| FieldArray.BulletList.InsertBelow | frontend/src/components/custom/BulletInput.tsx:102-104 | an empty bullet is inserted after the item |
| FieldArray.BulletList.Delete | frontend/src/components/custom/BulletInput.tsx:105 | the item goes, with no guard, so the last bullet can be removed too |
| FieldArray.InsertAroundItem | frontend/src/components/custom/BulletInput.tsx:101-104 | the empty bullet lands right before or right after the item, which is kept |
| DraftListings.StatusOf | frontend/src/constants/draftListings.ts:6-15 | each draft variant has exactly one of the five statuses the definitions are keyed by |
| DraftListings.DefinitionOf | frontend/src/constants/draftListings.ts:6-15 | exactly the two duplicate statuses are shown in orange |
| DraftListings.DefinitionLabelsDistinct | frontend/src/constants/draftListings.ts:10-14 | no two statuses share a label |
| DraftListings.Shown | frontend/src/constants/draftListings.ts:17-57 | unique drafts show their extraction's title, company and domain, both duplicate kinds those of the stored listing, pending and error drafts nothing |
| DraftListings.AccessorsAgree | frontend/src/constants/draftListings.ts:17-57 | title, company and domain all come from the same record; pending reads "Scraping...", error "Error", and both have an empty company and domain |
| DraftListings.TargetTab | frontend/src/pages/new-listings-page/reference/index.tsx:26-33 | the first tab that is not disabled, in the order info, source, extract; 'error' only when all three are |
| DraftListings.TabFlags | frontend/src/pages/new-listings-page/reference/index.tsx:12-24 | info is disabled exactly for unique drafts, extract exactly for duplicates, and source is enabled exactly for unique or content-duplicate drafts with non-empty HTML |
| DraftListings.NeverErrorTab | frontend/src/pages/new-listings-page/reference/index.tsx:26-33 | the 'error' fallback is never reached: non-unique drafts open on info, unique ones on source when they have HTML and on extract otherwise |
| ListingDetails.OrBlank | frontend/src/pages/new-listings-page/details/index.tsx:153 | a present location is kept; a missing one becomes the empty string |
| ListingDetails.Ungrounded | frontend/src/pages/new-listings-page/details/index.tsx:147-148 | stored strings become grounded items without a quote, one for one and in order |
| ListingDetails.ValuesOf | frontend/src/pages/new-listings-page/details/index.tsx:147-148 | the values of grounded items, one for one |
| ListingDetails.FromExtracted | frontend/src/pages/new-listings-page/details/index.tsx:144-158 | an extraction's fields fill the form unchanged, a null location as the empty string |
| ListingDetails.FromStored | frontend/src/pages/new-listings-page/details/index.tsx:144-158 | a stored listing's fields fill the form, a null location as the empty string; its string skills and requirements become items without a quote whose values are those strings |
| ListingDetails.PanelFor | frontend/src/pages/new-listings-page/details/index.tsx:37-81 | no selection shows the empty state; pending and error drafts show a message, an error's never empty; the three other kinds show the form |
| ListingDetails.InitialValues | frontend/src/pages/new-listings-page/details/index.tsx:141-158 | a URL duplicate's form holds the stored listing, the other kinds their extraction |
| ListingDetails.ValidateDetails | frontend/src/pages/new-listings-page/details/index.tsx:25-33 | accepted exactly when title and company are non-empty, unchanged; each missing one yields its own message |
| ListingDetails.BlankMeansTrimmedEmpty | frontend/src/pages/new-listings-page/details/index.tsx:107-108 | a value counts as blank exactly when it trims to the empty string |
| ListingDetails.NonBlank | frontend/src/pages/new-listings-page/details/index.tsx:107-108 | every kept item is non-blank and no item is added |
| ListingDetails.NonBlankCount | frontend/src/pages/new-listings-page/details/index.tsx:107-108 | a blank item is gone and every other item is kept as often as before |
| ListingDetails.NonBlankIdempotent | frontend/src/pages/new-listings-page/details/index.tsx:107-108 | dropping blank items twice is the same as once |
| ListingDetails.Payload | frontend/src/pages/new-listings-page/details/index.tsx:103-110 | the payload drops blank requirements and blank skills and keeps every other field |
| ListingDetails.FormValuesAsWritten | frontend/src/pages/new-listings-page/Details.tsx:44-97 | unique and content duplicates show their extraction, pending and error the blank form, and a URL duplicate's requirements are its stored skills and vice versa |
| ListingDetails.SwappedFieldsShow | frontend/src/pages/new-listings-page/Details.tsx:62-63 | a URL duplicate with skill "Go" and requirement "5 years" opens with "Go" as its requirement |
| ListingDetails.FormValuesFor | frontend/src/pages/new-listings-page/Details.tsx:44-97 | as intended: every field shows the field of the same name |
| ListingDetails.FormsAgree | frontend/src/pages/new-listings-page/Details.tsx:44-97 | the corrected older form opens with exactly the details panel's initial values |
| ListingDetails.FormFor | frontend/src/pages/new-listings-page/Details.tsx:106-118 | no selection gives the blank form; a selection gives its values |
| ListingDetails.Submitted | frontend/src/pages/new-listings-page/Details.tsx:122-127 | the older form drops only blank requirements and keeps every other field |
| ListingDetails.BlankSkillsKept | frontend/src/pages/new-listings-page/Details.tsx:123 | a blank skill survives the older form's submit but not the panel's |
| ListingDetails.ReadOnlyRules | frontend/src/pages/new-listings-page/Details.tsx:151 | the older form is disabled for both duplicate kinds, the panel read-only for URL duplicates only |
| ScrapingPage.OrNull | frontend/src/pages/scraping-page/index.tsx:35-36 | a falsy location or date becomes null; a non-empty one is kept |
| ScrapingPage.Values | frontend/src/pages/scraping-page/index.tsx:37-38 | grounded items flattened to their values, one for one |
| ScrapingPage.ToListing | frontend/src/pages/scraping-page/index.tsx:29-39 | a usable result becomes a listing with the same id, URL, title, company, domain and description, flattened items and null for a falsy location or date |
| ScrapingPage.UniqueListings | frontend/src/pages/scraping-page/index.tsx:19-40 | no listing is invented |
| ScrapingPage.DuplicateListings | frontend/src/pages/scraping-page/index.tsx:42-70 | no duplicate is invented |
| ScrapingPage.UniqueExactly | frontend/src/pages/scraping-page/index.tsx:19-40 | a listing is unique exactly when it comes from a completed result with all four required fields |
| ScrapingPage.DuplicatesExactly | frontend/src/pages/scraping-page/index.tsx:42-70 | a pair is a duplicate exactly when it comes from a URL or semantic duplicate that names its original and has all four required fields |
| ScrapingPage.UniqueAndDuplicatesDisjoint | frontend/src/pages/scraping-page/index.tsx:19-70 | with distinct result ids no listing is both unique and a duplicate |
| ScrapingPage.PreSelection | frontend/src/pages/scraping-page/index.tsx:72-82 | exactly the ids of completed results, usable or not |
| ScrapingPage.ScrapeRequest | frontend/src/pages/scraping-page/index.tsx:105-116 | the trimmed non-empty lines; nothing is sent when there are none |
| ScrapingPage.Selected | frontend/src/pages/scraping-page/index.tsx:209 | only selected listings, none invented |
| ScrapingPage.SelectedExactly | frontend/src/pages/scraping-page/index.tsx:209 | a listing is kept exactly when it is in the list and its id is selected |
| ScrapingPage.DuplicateListingsOnly | frontend/src/pages/scraping-page/index.tsx:207 | the duplicates' listings, one for one |
| ScrapingPage.SaveRequest | frontend/src/pages/scraping-page/index.tsx:202-212 | nothing is saved without a result |
| ScrapingPage.SaveExactly | frontend/src/pages/scraping-page/index.tsx:202-212 | what is saved is every selected unique listing and every selected duplicate's listing, and nothing else |
| ScrapingPage.LoadedAsResult | frontend/src/pages/scraping-page/index.tsx:135-145 | a stored listing becomes a completed result with the same id and URL, no duplicate, and unquoted items with the same values |
| ScrapingPage.LoadedRoundTrip | frontend/src/pages/scraping-page/index.tsx:130-149 | a loaded listing with its required fields set comes back unchanged as the only unique listing and is the only one pre-selected |
| ScrapingPage.LoadedWithoutTitle | frontend/src/pages/scraping-page/index.tsx:19-40 | a loaded listing without a title is pre-selected but the save sends nothing (also lines 72-82, 130-149) |
| ScrapingPage.FindById | frontend/src/pages/scraping-page/index.tsx:132 | the first listing with the id; none exactly when no listing has it |
| ScrapingPage.Page.constructor | frontend/src/pages/scraping-page/index.tsx:12-14 | empty URL text, no result, nothing selected |
| ScrapingPage.Page.ScrapeSucceeded | frontend/src/pages/scraping-page/index.tsx:72-92 | the result is shown and its completed results are pre-selected |
| ScrapingPage.Page.SelectionChange | frontend/src/pages/scraping-page/index.tsx:118-128 | the id is added or removed and nothing else changes |
| ScrapingPage.Page.LoadExisting | frontend/src/pages/scraping-page/index.tsx:130-149 | a chosen, known listing becomes the only result and the selection; otherwise nothing changes |
| ScrapingPage.Page.SaveSucceeded | frontend/src/pages/scraping-page/index.tsx:98-103 | result and URL text are cleared and the selection is kept |
| Timeline.MinStage | frontend/src/pages/applications-page/drawer/TimelineEditor.tsx:98-99 | the lowest stage is 1 exactly for screening and interview and 0 otherwise |
| Timeline.MaxStage | frontend/src/pages/applications-page/drawer/TimelineEditor.tsx:100 | 19 for screening, 39 for interview, 0 otherwise; above the minimum for a stageable status |
| Timeline.StageOnChange | frontend/src/pages/applications-page/drawer/TimelineEditor.tsx:112-117 | the stage set on a status change is the lowest the new status allows, so it is within its bounds |
| Timeline.DrawerStageOnChange | frontend/src/pages/applications-page/Drawer.tsx:140-143 | the older editor sets stage 1 whatever the status |
| Timeline.DrawerStageOutOfBounds | frontend/src/pages/applications-page/Drawer.tsx:84-143 | the older editor's stage is within bounds exactly for stageable statuses |
| Timeline.AppliedGetsStageOne | frontend/src/pages/applications-page/Drawer.tsx:84-143 | choosing Applied gives stage 1 against a maximum of 0 |
| Timeline.RulesAgreeOnStageable | frontend/src/pages/applications-page/drawer/TimelineEditor.tsx:112-117 | the two editors set the same stage exactly for stageable statuses |
| Timeline.NotesOrNull | frontend/src/pages/applications-page/drawer/TimelineEditor.tsx:86 | empty notes become null; other notes are sent unchanged |
| Timeline.Current | frontend/src/pages/applications-page/drawer/TimelineEditor.tsx:97 | the first chosen status; none exactly when nothing is chosen |
| Timeline.StatusForm.constructor | frontend/src/pages/applications-page/drawer/TimelineEditor.tsx:73-80 | the form starts with no status, stage 0 and empty notes |
| Timeline.StatusForm.SubmitDisabled | frontend/src/pages/applications-page/drawer/TimelineEditor.tsx:169 | submit is disabled exactly while no status is chosen |
| Timeline.StatusForm.StageDisabled | frontend/src/pages/applications-page/drawer/TimelineEditor.tsx:98-149 | the stage input is disabled unless the status is screening or interview |
| Timeline.StatusForm.ChangeStatus | frontend/src/pages/applications-page/drawer/TimelineEditor.tsx:112-117 | the status is recorded, the stage moves to the lowest the status allows, the notes stay |
| Timeline.StatusForm.ChangeStage | frontend/src/pages/applications-page/drawer/TimelineEditor.tsx:154 | only the stage changes |
| Timeline.StatusForm.ChangeNotes | frontend/src/pages/applications-page/drawer/TimelineEditor.tsx:167 | only the notes change |
| Timeline.StatusForm.Submit | frontend/src/pages/applications-page/drawer/TimelineEditor.tsx:25-29 | an event is sent exactly when a status is chosen and the stage is not negative; it carries the first status, the stage and null for empty notes; the form then resets to stage 1; an invalid form is left unchanged (also lines 82-95) |
| Timeline.DrawerForm.constructor | frontend/src/pages/applications-page/Drawer.tsx:57-64 | the older form starts with no status, stage 1 and empty notes |
| Timeline.DrawerForm.ChangeStatus | frontend/src/pages/applications-page/Drawer.tsx:140-143 | the status is recorded and the stage is set to 1; the notes stay |
| Timeline.DrawerForm.Submit | frontend/src/pages/applications-page/Drawer.tsx:38-81 | sent only with a selected application and a valid form; the notes pass through unchanged; then the form resets |
| Timeline.ListingData | frontend/src/pages/applications-page/Drawer.tsx:242-249 | four rows (role, location, posted date, skills joined by ", ") for a loaded application, none otherwise |
| CompanyLogo.CodeSum | frontend/src/components/custom/CompanyLogo.tsx:29 | the empty name sums to 0 |
| CompanyLogo.AccumulateIsSum | frontend/src/components/custom/CompanyLogo.tsx:29 | the left fold over the characters adds exactly the sum of their codes to its seed |
| CompanyLogo.PickPalette | frontend/src/components/custom/CompanyLogo.tsx:25-32 | the palette is always one of the nine colours |
| CompanyLogo.PaletteIndex | frontend/src/components/custom/CompanyLogo.tsx:28-31 | the index is the code sum modulo nine and lies in [0, 9) |
| CompanyLogo.EmptyNameIsRed | frontend/src/components/custom/CompanyLogo.tsx:25-32 | the empty name gets red |
| CompanyLogo.CodeSumConcat | frontend/src/components/custom/CompanyLogo.tsx:29 | the code sum of a concatenation is the sum of the parts' code sums |
| CompanyLogo.CodeSumPermutation | frontend/src/components/custom/CompanyLogo.tsx:29 | the code sum does not depend on the order of the characters |
| CompanyLogo.AnagramsShareAPalette | frontend/src/components/custom/CompanyLogo.tsx:25-32 | two names made of the same characters get the same palette |
| ApplicationProgress.PipelineStep | frontend/src/pages/listings-page/drawer/Application.tsx:22-33 | a status's place on the pipeline is at most 4, and 0 only for saved |
| ApplicationProgress.ProgressIsStep | frontend/src/pages/listings-page/drawer/Application.tsx:22-44 | progress is 25 per pipeline step, within [0, 100], and 100 exactly at an outcome |
| ApplicationProgress.ProgressMonotone | frontend/src/pages/listings-page/drawer/Application.tsx:22-33 | progress never decreases along the pipeline |
| ApplicationProgress.IsClosed | frontend/src/pages/listings-page/drawer/Application.tsx:53 | closed exactly for rejected, ghosted, withdrawn and rescinded |
| ApplicationProgress.ActivityOf | frontend/src/pages/listings-page/drawer/Application.tsx:53-55 | 'Closed' exactly for the closed statuses, 'Active' otherwise |
| ApplicationProgress.ClosedIsComplete | frontend/src/pages/listings-page/drawer/Application.tsx:22-55 | a closed application shows 100%, and the only complete ones still active are offers and acceptances |
| ApplicationProgress.ShownStage | frontend/src/pages/listings-page/drawer/Application.tsx:49 | the stage is shown exactly when it is positive |
| ApplicationProgress.AppliedAndUpdated | frontend/src/pages/listings-page/drawer/Application.tsx:68-77 | the Applied and Updated dates are timeline entries, the same one for a single entry |
| ApplicationProgress.AppendMovesUpdated | frontend/src/pages/listings-page/drawer/Application.tsx:68-77 | a new event moves the Updated date to it and keeps the Applied date |
| SavedListings.MapStatusCases | frontend/src/pages/saved-listings-page/index.tsx:35-52 | rejected and ghosted land in Rejected, accepted in Offer, interview in Interview 1, applied in Applied, and every other status falls back to Saved |
| SavedListings.InterviewTwoUnused | frontend/src/pages/saved-listings-page/index.tsx:28-52 | no status is ever mapped to the second interview column |
| SavedListings.CaptionsDistinct | frontend/src/pages/saved-listings-page/index.tsx:25-32 | no two columns share a caption |
| Breadcrumb.DropEmpty | frontend/src/components/custom/Breadcrumb.tsx:9 | the result keeps only non-empty strings taken from the input, and is no longer than the input |
| Breadcrumb.DropEmptyKeeps | frontend/src/components/custom/Breadcrumb.tsx:9 | a list without empty strings is kept whole |
| Breadcrumb.Segments | frontend/src/components/custom/Breadcrumb.tsx:9 | the segments are non-empty and contain no slash |
| Breadcrumb.PathTo | frontend/src/components/custom/Breadcrumb.tsx:11 | a segment link's target is an absolute path |
| Breadcrumb.PathLinks | frontend/src/components/custom/Breadcrumb.tsx:10-15 | Home first, pointing at '/', then one link per segment, captioned by the title-cased segment |
| Breadcrumb.HomeHasNoSegments | frontend/src/components/custom/Breadcrumb.tsx:15 | the Home link's path has no segments |
| Breadcrumb.SplitLeadingSlash | frontend/src/components/custom/Breadcrumb.tsx:9-11 | splitting a path with a leading slash gives an empty first piece and then the rest's pieces |
| Breadcrumb.PathToRoundTrip | frontend/src/components/custom/Breadcrumb.tsx:9-11 | the link of segment i leads to a path whose segments are the first i + 1 |
| Breadcrumb.LinksLeadToPrefixes | frontend/src/components/custom/Breadcrumb.tsx:9-15 | every link in the trail leads to a page whose trail is the matching prefix of this one |
| Breadcrumb.Render | frontend/src/components/custom/Breadcrumb.tsx:20-38 | one item per link, in order |
| Breadcrumb.RenderShape | frontend/src/components/custom/Breadcrumb.tsx:21-35 | only the last item is the current page, and a non-empty separator follows every item but the last |
| Breadcrumb.CurrentIsHere | frontend/src/components/custom/Breadcrumb.tsx:7-21 | with the default separator the last item is the current page and its link points at the page itself |
| SettingsPage.FlatKey | frontend/src/pages/settings-page/index.tsx:39 | the key is the section name, one dot, then the field name |
| SettingsPage.DefaultValues | frontend/src/pages/settings-page/index.tsx:34-43 | no values before the settings load; afterwards the flattened tree |
| SettingsPage.FieldsMapKeys | frontend/src/pages/settings-page/index.tsx:38-40 | a section's keys are exactly its fields' flat keys |
| SettingsPage.FlattenKeys | frontend/src/pages/settings-page/index.tsx:34-43 | the flattened keys are exactly the keys of the declared fields |
| SettingsPage.FlatKeySection | frontend/src/pages/settings-page/index.tsx:39 | when section names have no dot, the key determines both the section and the field name |
| SettingsPage.FieldsMapValue | frontend/src/pages/settings-page/index.tsx:38-40 | with distinct field names, each field's key holds that field's value |
| SettingsPage.FlatKeyField | frontend/src/pages/settings-page/index.tsx:39 | within one section, the key determines the field name |
| SettingsPage.FlattenValue | frontend/src/pages/settings-page/index.tsx:34-43 | with distinct section names without dots and distinct field names, every field's key holds that field's value |
| SettingsPage.VisibleFields | frontend/src/pages/settings-page/index.tsx:50-55 | no field is invented |
| SettingsPage.VisibleFieldsExactly | frontend/src/pages/settings-page/index.tsx:50-55 | a field is listed exactly when it is in the section and is normal, secret, or advanced with the switch on |
| SettingsPage.AdvancedShowsAll | frontend/src/pages/settings-page/index.tsx:50-55 | with the switch on every field is listed, in order |
| SettingsPage.DropBare | frontend/src/pages/settings-page/index.tsx:64 | only sections with fields are kept, none invented |
| SettingsPage.VisibleSections | frontend/src/pages/settings-page/index.tsx:45-65 | nothing before the settings load; every shown section has a visible field |
| SettingsPage.DropBareKeepsOrder | frontend/src/pages/settings-page/index.tsx:64 | the kept sections stay in their order |
| SettingsPage.DropBareExactly | frontend/src/pages/settings-page/index.tsx:64 | a section is kept exactly when it has a field |
| SettingsPage.VisibleSectionsExactly | frontend/src/pages/settings-page/index.tsx:45-65 | the shown sections are exactly the projected sections with a visible field, in the settings' order |
| SettingsPage.Lookup | frontend/src/pages/settings-page/index.tsx:80 | a key the form does not hold reads as undefined |
| SettingsPage.DirtySpec | frontend/src/pages/settings-page/index.tsx:77-82 | exactly the keys marked dirty are sent |
| SettingsPage.DirtyData | frontend/src/pages/settings-page/index.tsx:76-85 | the loop over the dirty flags builds exactly the specified payload |
| SettingsPage.DirtyDataMeaning | frontend/src/pages/settings-page/index.tsx:76-85 | an untouched form sends nothing, and every value sent is the form's value |

## Left out

- Vector search, the LLM, the duplicate finder (`find_similar`), HTTP fetching, the database and the file system are not modelled. They are parameters (oracles) or are left out, because they are foreign calls with no logic of their own here.
- IDNA encoding, percent quoting and unquoting, and `urlsplit` are uninterpreted parameters, and so is the re-serialisation of URLs by the `HttpUrl` type. Their behaviour belongs to the standard library.
- `fuzz.ratio`, `uuid4`, `math.sqrt`, `crypto.randomUUID`, the keys that react-hook-form generates, JavaScript's `Number()` and `toTitleCase` (utils/text.ts is not part of this model) are parameters. They are external or random.
- Deduplication.SumSquaresZero: only the direction "the zero vector has magnitude zero" is proved, because the converse needs nonlinear real arithmetic the solver does not settle reliably.
- Floating-point arithmetic is modelled with mathematical reals, and Python's `str()` of a float is not modelled.
- Pydantic validation is a boolean parameter of the save. Reading and writing YAML and `.env` files are modelled as values in and out, not as I/O.
- `load_dotenv`: how python-dotenv parses a `.env` text is the `dotenv` parameter, whose result is merged over the environment (`override=True`). ConfigManager.SavedKeyLoads and ConfigManager.DotenvKeyLoads assume only that it reads a plain `NAME=value` line as written (`ReadsPlainLines`).
- ConfigManager.EnvStepSetsKey, ConfigManager.EnvStepIdempotent, ConfigManager.WriteEnvSetsAll, ConfigManager.RewrittenLines, ConfigManager.SettledAfterRewrite, ConfigManager.SettledAfterAppend: stated only for keys and values without line ends or backslashes (the Settled lemmas and EnvStepIdempotent also for a plain key). With a backslash the value is a `re.sub` template, which expands escapes or raises, as ConfigManager.EnvStepExpandsEscape and ConfigManager.EnvStepRefusesGroup show.
- ConfigManager.MatchAt: the key is put into the pattern unescaped; the model matches it as literal text. The two agree for the keys `save` writes, upper-cased field names made of letters, digits and `_`.
- The message text of each `ServiceError` is not modelled, only which error it is.
- The `paths` configuration property is left out, because its schema class is not part of this model.
- Dictionary iteration order is modelled as sequence order wherever the source depends on it.
- UrlParams: `JSON.stringify` comparison of parameter values is modelled as equality of values.
- Values that JavaScript compares by reference (`===` on objects) are compared by value.
- ResumeEditor: the visual editor mutates section objects that are shared with the previous state. The model copies instead, so aliasing between old and new state is not captured.
- FieldArray.PasteLines: the pattern `\r?\n` is modelled as a split at `\n` followed by a trim, which removes the same `\r`.
- CompanyLogo.CodeSum: `charCodeAt` counts UTF-16 code units; the model sums Unicode scalar values, which agree below U+10000.
- CompanyLogo: loading the favicon image and checking its width is I/O and is left out.
- SettingsPage.DirtySpec: react-hook-form nests dotted field names into objects and reports `dirtyFields` that way; the model keeps the flat `section.field` keys.
- Values of disabled form fields, which react-hook-form leaves undefined, are not modelled.
- The shape of a listing draft is taken from how the hooks and pages use it, because its declaration is not part of this model. Fields of a scraping listing that no modelled page reads are dropped.
- ApplicationsService.Update: the service writes only status-event operations, so a `resume_id` set by `create_resume` is never persisted through it. It also reads an event's `.date` while the schema names it `created_at`. Both are modelled as written.
- SavedListings.MapStatusCases: statuses outside the six-status union declared in types/application.ts fall back to the saved column. That follows the declared union and is not a defect.
- Progress labels and date formatting (`DisplayDate`), status icons, the timeline rendering and every other piece of React or Chakra rendering are left out.
- The iframe highlighting messages, debouncing, timers, local storage and IndexedDB are left out, because their point is timing or display.
- URLSearchParams is modelled by the `UrlParams.SearchParams` class. Browser history and navigation are left out.
- Text.LowerChar: only the ASCII capitals are lower-cased. Python's `str.lower()` maps every Unicode upper-case letter ("É" becomes "é"), because full Unicode case mapping is a table this model does not carry.
- Text.Lower: ASCII lower-casing keeps the length; Python's `str.lower()` maps all of Unicode and can lengthen the text ('İ' becomes two code points).
- Text.LowerIdentity: "no upper-case letter" means no ASCII capital, so a text holding "É" counts as unchanged although Python lowers it.
- Text.UpperChar: only ASCII letters are upper-cased, while Python's `upper()` also maps 'é' and 'ß'; the text it is applied to is a configuration field name, which is ASCII.
- Text.Upper: ASCII upper-casing keeps the length, while Python's `upper()` turns 'ß' into "SS"; it is applied only to configuration field names, which are ASCII.
- Deduplication.NormalizeText: lower-cases ASCII letters only (see Text.Lower), so texts that differ only in the case of non-ASCII letters normalise differently here and alike in the source.
- Dates.AcceptedYearMonths: Python's `$` also matches before a final newline, so the year-month pattern accepts a trailing `\n`. The model states this as a property of the validator.
- Sorting: Python's stable `sorted` is modelled by a stable insertion sort. Only its result is specified, not its running time.
- Ranking.BulletChoice: equal bullet scores are ordered by the bullets' first hits, which is the insertion order of the inner `defaultdict`.

## Findings

| source | as written | input that shows it | evidently intended | confidence | as-written member | corrected member |
|---|---|---|---|---|---|---|
| frontend/src/pages/new-listings-page/Details.tsx:62-63 | a URL duplicate's form fills requirements from the stored skills and skills from the stored requirements | a URL duplicate whose stored listing has skills ["Go"] and requirements ["5 years"] opens with requirement "Go" | each form field shows the stored field of the same name, as the newer details panel does | high, not executed | ListingDetails.SwappedFieldsShow | ListingDetails.FormsAgree |
| frontend/src/pages/applications-page/Drawer.tsx:140-143 | choosing any status sets stage 1 | choosing Applied gives stage 1 while the stage input allows at most 0 (Drawer.tsx:84-86) | stage 1 for screening and interview, 0 otherwise, as TimelineEditor.tsx:112-117 does | high, not executed | Timeline.AppliedGetsStageOne | Timeline.StageOnChange |
| frontend/src/hooks/listings/useListingMutations.ts:65-74 | pending extractions are identified by `variables.id`, but an extraction's variables are `{ listing, content }` | while the draft `{ id: 'a' }` is being extracted, `isExtractLoading` for that draft is false | identify a pending extraction by `variables.listing.id` | high, not executed | ListingCache.ExtractedDraftNotLoading | ListingCache.ExtractLoadingForMeaning |
