# wdtools linker core in Dafny

This project models the core of wdtools, a set of Python helpers that link text mentions to Wikidata items
and to Google Knowledge Graph (GKG) entities.
It follows the repository's five core files, one Dafny module each:

- **`EntityTypes`** (`entity_types.py`): the table from Wikidata type ids to the names they go by.
  It also covers the name-to-ids index built from that table at import time, and `wd_types`.
  `wd_types` expands type names (Wikidata ids, Wikidata labels, spaCy labels) into Wikidata ids.
- **`WdSearch`** (`wd_search.py`): covers four things.
  - `wd_string_search` and `get_types`. They sort search candidates into target hits and ok hits, using the
    candidates' type closure, and return the top hits.
  - The string helpers `remove_prefix`, `wd_entity_id` and `encode_string`.
  - The alias parsing of `get_ladw`.
  - The hit summaries.
- **`SpacyPlus`** (`spacy_plus.py`): mention heuristics on top of spaCy.
  - `trim`, `alldigits`, `abbreviate`, `entity_in_text` and `get_nc_text`.
  - The two-pass coreference and abbreviation matcher `find_link_strings`, which fills the
    module-level `link_string` table.
- **`ScaleReports`** (`scale_reports.py`): the report builder's link bookkeeping.
  - The merge of named-entity links per mention text in `process_named_entity_mentions`.
  - `analyze_links`.
  - The nominal-concept loop and merge of `process_nominal_concepts`.
  - `bad_nc`, `truncate` and `link_summary`.
  - The module-level tables these update, held in the class `Reports`.
- **`GkgSearch`** (`gkg_search.py`): `gkg_search`, `simplify_detailed_description`, `link`,
  `summary1`/`summary` and `gkg_types`.
  - JSON dicts are heap objects (class `Dict`) because the source mutates the result dicts in place.
  - Every method is proved equal to a functional specification over a snapshot of the dicts it may touch.

Two supporting modules do not model the repository itself:

- `Wrappers` defines `Option` and `Result`. Python's `IndexError`, `KeyError` and `TypeError` are error values, not preconditions.
- `PyStr` holds the Python `str` operations the core uses:
  - `startswith`/`endswith`, `find`, `replace` and `split`/`join`;
  - slicing with negative bounds;
  - ASCII `upper`/`lower`/`isupper`;
  - `int(x/2)`.

Network services are inputs to the model:

- the Wikidata search API and the SPARQL endpoint (candidate titles, and a function from a candidate id to its
  type-closure rows);
- the GKG API (the list of elements it returns);
- the linker `wds.link` (a function from a text and a sentence to an optional link).

spaCy's parse is also an input: entity mentions are records of text, label and token span, and the lemma of a
nominal concept is given.

## Model

| member | source | states |
|---|---|---|
| EntityTypes.InsertFacts | entity_types.py:31-60 | Adding a key to a dict literal keeps its keys unique. A new key is appended, and an existing key keeps its position but takes the new value. No other key's value changes. |
| EntityTypes.DictFromLiteralFacts | entity_types.py:31-60 | The dict built from a literal has unique keys, and each key maps to the value of its last occurrence in the literal. |
| EntityTypes.TableKeysUnique | entity_types.py:31-60 | The table that `wdtype2names` ends up as has no repeated type id. |
| EntityTypes.DuplicateKeyLaterWins | entity_types.py:52-59 | The literal as written gives the table with Q4438121 at its first position. Its value is the later list, ["sports organization", "sports team"]. |
| EntityTypes.BuildIndexKeys | entity_types.py:158-163 | A name is a key of the index exactly when it is a type id of the table or one of the table's names. |
| EntityTypes.BuildIndexKeyLookup | entity_types.py:160-161 | When no name is also a type id, each type id maps to exactly `[id]`. |
| EntityTypes.BuildIndexNameLookup | entity_types.py:162-163 | A name that is not a type id maps to the ids listing it, in table order and with repetitions. |
| EntityTypes.KeysMapToThemselves | entity_types.py:158-163 | In `name2wdtypes` built from the table, every type id maps to itself alone. |
| EntityTypes.CityAlias | entity_types.py:53-55 | "city" maps to Q515, Q7930989 and Q15284, in that order. |
| EntityTypes.NorpAlias | entity_types.py:42-43 | The spaCy label "NORP" maps to Q16334295 and Q7210356. |
| EntityTypes.OrgAlias | entity_types.py:41 | "ORG" maps to Q43229 only. |
| EntityTypes.UnlistedNames | entity_types.py:52-59 | "athletic team" (listed only in the overridden first Q4438121 item) and the lower-case "org" are not in the index. |
| EntityTypes.ExpandFromRaised | entity_types.py:176-177 | The loop of `wd_types` raises exactly when some name is empty (`name[0]`). |
| EntityTypes.ExpandFromIds | entity_types.py:175-185 | Without empty names, the ids are the Q-names plus the index entries of the other names. Every non-Q name is in the index afterwards, because the defaultdict read inserts it. |
| EntityTypes.KnownNamesNotReported | entity_types.py:180-182 | When every non-Q name is already in the index, nothing is reported and the index is unchanged. |
| EntityTypes.ExpandNamesIds | entity_types.py:175-186 | `wd_types` over a list raises iff some name is empty. Otherwise it returns the expected id set. |
| EntityTypes.SecondCallSilent | entity_types.py:180-184 | A second call with the same names reports nothing and returns the same ids: the first call's defaultdict reads added the unknown names as keys. |
| EntityTypes.Enumerate | entity_types.py:171-172 | `list(set)` has one element per set member and the same members. |
| EntityTypes.AddIds | entity_types.py:183-184 | Adding the index entries of a name adds exactly those ids to the set. |
| EntityTypes.TypeRegistry.constructor | entity_types.py:158-163 | The import-time loop builds exactly the index specified by `BuildIndex`. |
| EntityTypes.TypeRegistry.WdTypes | entity_types.py:165-186 | It covers the argument dispatch (str, set, list, anything else gives an empty result), the order of the loop, the raised IndexError, the reported unknown names, the ids, and the new index. All of these agree with the functional `wd_types`. |
| EntityTypes.WdTypesOnTable | entity_types.py:165-186 | On the real table, ["city", "Q5"] expands to {Q515, Q7930989, Q15284, Q5} with nothing reported. ["org", "athletic team"] expands to no ids and reports both names. |
| EntityTypes.ExpandCityQ5 | entity_types.py:175-186 | With any index in which "city" has the three ids, ["city", "Q5"] gives those ids plus Q5 and reports nothing. |
| EntityTypes.ExpandUnknownPair | entity_types.py:180-184 | Two distinct unknown non-Q names give no ids and are both reported, in order. |
| WdSearch.RemovePrefix | wd_search.py:322-323 | If the text starts with the prefix, the prefix followed by the result is the text. Otherwise the text is returned unchanged. |
| WdSearch.RemovePrefixInverse | wd_search.py:322-323 | Removing a prefix that was prepended gives the original back. |
| WdSearch.WdEntityId | wd_search.py:342-344 | A non-entity url is returned as is. An entity url gives a prefix of the text after the entity prefix, and that prefix does not contain the entity prefix. When the entity prefix occurs again, the result ends exactly where it does. |
| WdSearch.WdEntityIdStrips | wd_search.py:342-344 | With a single occurrence of the entity prefix, `wd_entity_id` is `remove_prefix`. |
| WdSearch.GetTypes | wd_search.py:200-224 | The loop over the closure rows returns the expected (target, ok) pair sets. It bails out with two empty sets on the first bad row. |
| WdSearch.ClassifyFacts | wd_search.py:214-223 | Target types are non-empty iff there is no bad row and some target row. Ok types are non-empty iff there is no bad row and some non-target ok row. A bad row empties both. Once `ok_types` holds pairs, nothing is ok. |
| WdSearch.Select | wd_search.py:146-153 | The selection is the target hits followed by the ok hits, each carrying its title, types and the query. It is cut as Python slices `[:top]`: all hits when there are at most `top`, exactly `top` when there are more, none for `top == 0`, and all but the last `-top` for negative `top`. |
| WdSearch.ScanCandidate | wd_search.py:133-144 | One iteration of the candidate loop, including the rebinding of `ok_types`, matches its functional step. |
| WdSearch.SelectHits | wd_search.py:146-153 | The method computes the selection function. |
| WdSearch.SearchCandidates | wd_search.py:133-153 | The candidate loop with its early break, followed by the selection, equals the functional scan and selection. |
| WdSearch.WdStringSearch | wd_search.py:108-153 | The target, ok and bad names are expanded by three `wd_types` runs in that order, each starting from the index the previous run left and visiting its names in loop order. The search raises IndexError iff one of the runs raises, and the index is the one the last run reached. Otherwise the target, ok and bad ids are those of the three runs, and the result is the selection of the candidate scan over them, with at most `top` hits. |
| WdSearch.ScanFromSound | wd_search.py:133-144 | Every target hit has a target type and no bad type. Every ok hit has an ok type that is not a target type, and no bad type. |
| WdSearch.PairsBlockOk | wd_search.py:136 | Once `ok_types` is rebound to a set of pairs, no later candidate becomes an ok hit. |
| WdSearch.HitLists | wd_search.py:133-144 | Starting from the search's initial state, the hits are sound, and at most one ok hit exists (only the first candidate can be one). |
| WdSearch.EarlyStop | wd_search.py:143-144 | Once `top` target hits are found, candidates after that point do not change the outcome. |
| WdSearch.EarlyStopRun | wd_search.py:143-144 | The same holds for any step function. |
| WdSearch.AllTargetsWhenTopZero | wd_search.py:143 | With `top == 0`, the target hit titles are exactly the qualifying candidates. |
| WdSearch.SearchResult | wd_search.py:108-153 | Every returned hit is a candidate with no bad type and with a target type or an ok non-target type. It carries the query, and there are at most `top` of them. |
| WdSearch.TitlesFromCandidates | wd_search.py:133-141 | Every hit comes from the candidate list. |
| WdSearch.EncodeString | wd_search.py:346-354 | The loop escapes the special characters ( ) , ' / @ in that order, then escapes a trailing dot. The result equals the specification `Escaped`. |
| WdSearch.EscapeStep | wd_search.py:348-350 | One pass of the loop escapes one more special character. |
| WdSearch.EscapeKeeps | wd_search.py:348-350 | Escaping never removes a character. |
| WdSearch.EscapeIgnoresAbsent | wd_search.py:349 | Skipping a character that does not occur is the same as escaping it. |
| WdSearch.EncodeRoundTrip | wd_search.py:346-354 | For text without backslashes, dropping the backslashes from the encoded text gives the text back. |
| WdSearch.SpecialsEscaped | wd_search.py:348-350 | Every special character in the escaped text is preceded by a backslash. |
| WdSearch.ParseAliases | wd_search.py:266-267 | No parsed alias contains the separator. The result is never the single empty alias, and a missing value gives no aliases. |
| WdSearch.AliasesRoundTrip | wd_search.py:266-267 | Joining bar-free aliases with the bar character and parsing them back gives the aliases, except for the single empty alias. |
| WdSearch.AliasesJoinBack | wd_search.py:266-267 | Parsing and then joining gives the string back. |
| WdSearch.GetLadw | wd_search.py:260-270 | No answer gives None. The result is an error iff the answer has no bindings, and the error is IndexError. Otherwise the first binding's label, description and wikiname are read, with `''` as default. Its aliases join back to the bound string, contain no bar and are never `['']`, and they are `[]` when unbound. |
| WdSearch.Summary1 | wd_search.py:359-363 | A falsy hit gives four empty strings. A hit fails iff "en" or its label or description is missing, and the error is KeyError. Otherwise the result is the id, the English label and description, and the page url. |
| WdSearch.SummaryList | wd_search.py:365-367 | The list case succeeds iff every hit's summary does, and is then pointwise. Its error is KeyError. |
| WdSearch.Summary | wd_search.py:365-369 | A list gives the rows of `SummaryList`, one per hit, or KeyError when one hit's summary fails. Anything else gives the single summary or its error. |
| SpacyPlus.Trim | spacy_plus.py:5-17 | The result is a prefix of the text after its leading article, if any, and at most three characters shorter than that. |
| SpacyPlus.TrimExact | spacy_plus.py:5-17 | Text with no article, newline, `'` or `'s` is unchanged. For every w, "The " + w + "'s\n" trims to exactly w. |
| SpacyPlus.TrimDecorated | spacy_plus.py:5-17 | For every w, an optional "The "/"the ", then w, then an optional `'` or `'s`, then an optional newline, trims to exactly w. An omitted part must not be one that w itself supplies: w has no article when none is given, does not end in `'` or `'s` when no quote is given, and does not end in a newline when neither quote nor newline is given. |
| SpacyPlus.TrimDecomposes | spacy_plus.py:5-17 | Every text is its trimmed form with such decorations around it. Together with `TrimDecorated`: `trim(text) == w` exactly when the text is a decorated w. |
| SpacyPlus.AllDigits | spacy_plus.py:19-24 | True iff every character is a digit or a space. |
| SpacyPlus.KeepWords | spacy_plus.py:85-86 | No stopword survives, and the list does not grow. |
| SpacyPlus.KeepWordsMembers | spacy_plus.py:85-86 | A token is kept iff it is in the list and is not a stopword. |
| SpacyPlus.KeepWordsIdempotent | spacy_plus.py:86 | Filtering twice is filtering once. |
| SpacyPlus.Abbreviate | spacy_plus.py:83-87 | It succeeds iff no kept token is empty (`t[0]`). The result then has the upper-cased first letter of each kept token, in order. |
| SpacyPlus.AbbreviateIgnoresStopwords | spacy_plus.py:86 | Removing stopwords first does not change the abbreviation. |
| SpacyPlus.WindowStart | spacy_plus.py:94-95 | The window start is never negative. When the mention was found (`estart >= 0`) and is no longer than `max_length`, the window starts at or before it and reaches past its end. |
| SpacyPlus.EntityInText | spacy_plus.py:89-96 | The window is at most `max_length + 1` characters long. |
| SpacyPlus.BracketPlaced | spacy_plus.py:91-93 | The bracketed mention is placed at the first occurrence of the mention. |
| SpacyPlus.BracketFound | spacy_plus.py:91-93 | When the mention occurs, the bracketed mention occurs in the bracketed sentence. |
| SpacyPlus.WindowKeeps | spacy_plus.py:96 | A Python slice that starts at or before an occurrence and ends at or after its end contains the occurrence. |
| SpacyPlus.WindowShowsFirst | spacy_plus.py:93-96 | A window as wide as the pattern, placed as `entity_in_text` places it, contains the pattern's first occurrence. |
| SpacyPlus.WindowShowsMention | spacy_plus.py:89-96 | When the mention occurs and fits, the window contains the bracketed mention. |
| SpacyPlus.GetNcText | spacy_plus.py:99-105 | When the lemma equals the last token's text, the concept text is unchanged. |
| SpacyPlus.NcTextIsReplacement | spacy_plus.py:102-105 | The result is the text with the last token replaced by its lemma everywhere. A last token that does not occur leaves the text unchanged. |
| SpacyPlus.CountIsUnanimity | spacy_plus.py:51 | `matches.count(matches[0]) == len(matches)` (here and at line 77) holds iff all matches are equal. |
| SpacyPlus.PersonMatchesExact | spacy_plus.py:44-50 | A text is a pass-one match iff some other multi-token PERSON mention has that text and its trimmed, lower-cased last word equals the mention's. |
| SpacyPlus.CollectPersonMatches | spacy_plus.py:43-50 | The inner loop collects exactly the pass-one matches. |
| SpacyPlus.Pass1Links | spacy_plus.py:35-52 | After pass one, a key is linked iff some single-token PERSON mention with that key had unanimous matches. Its value comes from the last such mention. |
| SpacyPlus.AbbrevMatchesExact | spacy_plus.py:59-74 | A string is a pass-two match iff some other mention with the same label, and with as many tokens (after dropping an article) as the abbreviation has letters, abbreviates to it and joins to that string. |
| SpacyPlus.AbbrevErrSticky | spacy_plus.py:71 | An IndexError from `abbreviate` on a prefix of the mentions is the result for the whole list. |
| SpacyPlus.CollectAbbrevMatches | spacy_plus.py:59-74 | The inner loop computes exactly the pass-two matches, or the IndexError. |
| SpacyPlus.Pass2Sticky | spacy_plus.py:55-80 | Once pass two raises, later mentions change nothing. |
| SpacyPlus.Pass2Links | spacy_plus.py:55-80 | Without an error, a key is linked iff pass one linked it or some abbreviation-like mention with that key had unanimous matches. The last such mention wins, and a PERSON key keeps its pass-one link. |
| SpacyPlus.LinkStrings.constructor | spacy_plus.py:27 | The table starts empty. |
| SpacyPlus.LinkStrings.FindLinkStrings | spacy_plus.py:29-80 | The table is reset and then set to the links of both passes. The result is IndexError exactly when pass two raises. |
| ScaleReports.Truncate | scale_reports.py:366-367 | A string within the limit is returned unchanged. A longer one becomes a prefix followed by "...", and its length is `max + 3` when `max >= 0`. |
| ScaleReports.BadNc | scale_reports.py:333-338 | The loop computes the token verdict over the space-split text. |
| ScaleReports.BadNcMeaning | scale_reports.py:333-338 | Without empty tokens, the verdict is true iff some token starts or ends with a hyphen. An IndexError needs an empty token. |
| ScaleReports.LinkSummary | scale_reports.py:375-381 | The result is the id, the English label or `''`, and the English description truncated to 80, or `''`. |
| ScaleReports.DistinctIds | scale_reports.py:269-271 | The loop collects exactly the set of link ids. |
| ScaleReports.BucketMeaning | scale_reports.py:266-272 | A single link counts in bucket 0. Otherwise the bucket is the number of distinct ids, and it is 1 iff all ids agree. |
| ScaleReports.Confusions | scale_reports.py:274 | It succeeds iff every link has an English label. It then lists each link's id, label and score in order. |
| ScaleReports.BestIndex | scale_reports.py:236 | `min` by rank returns the first link of least rank. |
| ScaleReports.FirstGroupFor | scale_reports.py:241-243 | It finds the first group whose best link has the qid, or -1 when there is none. |
| ScaleReports.MergeCounts | scale_reports.py:230-251 | `final_links` has one entry per qid. The entry is the best link of the first group that chose the qid, with `counts` the summed sizes of all groups that chose it. |
| ScaleReports.NeFromFacts | scale_reports.py:230-254 | Unless `analyze_links` raises, `topic2links[part]` ends as the full merge. The loop raises only on a group with a link that has no English label. |
| ScaleReports.NeRunFacts | scale_reports.py:230-254 | The same holds from the empty `final_links`. |
| ScaleReports.NcVisitKeepsMemo | scale_reports.py:294-310 | One visit keeps every counted concept text memoized in `nc2link`, keeps the counts non-negative, and never raises. |
| ScaleReports.NcFromKeepsMemo | scale_reports.py:289-315 | The concept loop never raises KeyError on `nc2link`, and it keeps the memo. |
| ScaleReports.NcVisitSighting | scale_reports.py:294-300 | A visit adds one to its text's count. It sends the text to the linker exactly when the text had no earlier count. |
| ScaleReports.NcFromSightings | scale_reports.py:289-315 | Each concept text's count grows by its number of sightings. It is sent to the linker at most once, and exactly when it is first sighted. |
| ScaleReports.NcLoopSightings | scale_reports.py:289-315 | The same holds for the whole loop of a part. |
| ScaleReports.NcSightingCounts | scale_reports.py:307-315 | A sighting of a linked concept adds one to that link's overall and part counts and records the part. NOLINK touches no link count. |
| ScaleReports.NcMergeStepAt | scale_reports.py:318-330 | One merge step inserts or adds counts only at its own qid. |
| ScaleReports.NcMergeKeepsCount | scale_reports.py:320 | Merging never changes `el_count`. |
| ScaleReports.NcMergeHas | scale_reports.py:318-330 | After the merge a qid has an entry iff it had one or some concept link has it. |
| ScaleReports.GainIsProduct | scale_reports.py:320-327 | What the merge adds is the overall count times the number of links with the qid. |
| ScaleReports.NcMergeCounts | scale_reports.py:318-330 | An entry's counts grow by the qid's overall count, once per concept link with that qid. |
| ScaleReports.GainNone | scale_reports.py:318-330 | A qid with no concept link gains nothing. |
| ScaleReports.Reports.constructor | scale_reports.py:262-263 | All module-level tables start empty. |
| ScaleReports.Reports.AnalyzeLinks | scale_reports.py:264-275 | The new tables are the functional `analyze_links` step, and the method raises exactly when that step does. |
| ScaleReports.Reports.MergeNamedEntityLinks | scale_reports.py:230-254 | The new tables and the error are those of the functional merge loop. |
| ScaleReports.Reports.CountLink | scale_reports.py:312-315 | It adds one sighting of a link id in a part. |
| ScaleReports.Reports.RecordSighting | scale_reports.py:294-296 | It updates the counters of a concept sighting. |
| ScaleReports.Reports.Visit | scale_reports.py:292-315 | One iteration of the concept loop equals the functional visit: the tables, the part's links, the lookups and the raised error. |
| ScaleReports.Reports.ConceptLoop | scale_reports.py:289-315 | The loop equals the functional concept loop. |
| ScaleReports.Reports.MergeConceptLink | scale_reports.py:319-330 | One merge step equals its function. |
| ScaleReports.Reports.MergeConceptLinks | scale_reports.py:318-330 | The merge loop equals the functional merge. |
| ScaleReports.Reports.ProcessNominalConcepts | scale_reports.py:280-331 | The whole operation is the concept loop followed, unless it raised, by the merge. |
| GkgSearch.GkgTypesAsWrittenIsBar | gkg_search.py:36-38 | Splitting the one-character bar string on the type string, as written, gives the set holding only the bar, for any type string of length at least two. |
| GkgSearch.GkgTypesAreTheNames | gkg_search.py:36-38 | Splitting the bar-joined names gives back exactly the set of names. |
| GkgSearch.SimplifyFields | gkg_search.py:81-85 | It succeeds iff "license" is present, and KeyError otherwise. "license" and "inLanguage" are gone afterwards. "@language" takes the old "inLanguage" when there was one. Every other key is unchanged, and no new value appears. |
| GkgSearch.Run | gkg_search.py:77-85 | Simplifying never adds or removes dicts from the heap. |
| GkgSearch.RunFrame | gkg_search.py:77-85 | Dicts not reachable from the argument are unchanged. |
| GkgSearch.RunFromFrame | gkg_search.py:79-80 | The same holds for the list loop from any index. |
| GkgSearch.RunClosed | gkg_search.py:77-85 | Simplifying keeps every dict's values inside the heap. |
| GkgSearch.SimplifyDetailedDescription | gkg_search.py:77-85 | The recursive method's result and new dict contents are those of the functional specification. |
| GkgSearch.RunDistinct | gkg_search.py:79-85 | A list of distinct dicts that all carry a license is simplified without error. |
| GkgSearch.RunDistinctEach | gkg_search.py:79-85 | Each of those dicts ends up as its own `SimplifyFields` result. |
| GkgSearch.DictNotLater | gkg_search.py:79-80 | A dict that does not occur after position i is untouched by the rest of the loop. |
| GkgSearch.AliasedDictRaises | gkg_search.py:80-82 | A list holding the same dict twice raises KeyError, because its license was already deleted. |
| GkgSearch.RunKeeps | gkg_search.py:77-85 | Simplifying leaves every key other than "license", "inLanguage" and "@language" unchanged, in every dict. |
| GkgSearch.RunFromKeeps | gkg_search.py:79-80 | The same holds for the list loop from any index. |
| GkgSearch.Visit | gkg_search.py:69-74 | One step of the loop keeps the heap's dicts and their values inside the heap. |
| GkgSearch.VisitFacts | gkg_search.py:70-74 | It covers the error cases: a non-dict element, a missing "result" or "resultScore", and a result that is not a dict. On success the element's result is the returned dict. Without "detailedDescription" only "resultscore" is set. With one, "resultscore" is the element's score. |
| GkgSearch.VisitKeeps | gkg_search.py:69-74 | One element changes no key other than "resultscore" and the three keys simplification rewrites, in any dict. |
| GkgSearch.VisitScore | gkg_search.py:69-74 | On success the yielded dict is the element's "result". It holds the element's "resultScore" as "resultscore", and no other dict's "resultscore" changes. |
| GkgSearch.SearchFrom | gkg_search.py:69-75 | On success the results list grows by one per remaining element, and the earlier results are kept. |
| GkgSearch.SearchFromResults | gkg_search.py:69-75 | On success the result at each position is the "result" dict that the matching element held before the search. |
| GkgSearch.SearchFromKeepsScore | gkg_search.py:69-75 | A dict that no remaining element yields keeps its "resultscore". |
| GkgSearch.DistinctStep | gkg_search.py:69-74 | After one visit, the remaining elements still have distinct "result" dicts, none of them the one just yielded. |
| GkgSearch.SearchFromScores | gkg_search.py:69-75 | When the elements' "result" dicts are distinct, each result ends holding, as "resultscore", the "resultScore" of the element it came from. |
| GkgSearch.SearchFromFails | gkg_search.py:69-70 | A non-dict element among the first `top` elements makes the search fail. |
| GkgSearch.Search | gkg_search.py:59-75 | On success there is one result per element of `candidates[:top]`. For `top >= 0` there are at most `top` results. |
| GkgSearch.SearchResults | gkg_search.py:59-75 | On success the k-th result is the "result" dict of the k-th candidate. |
| GkgSearch.SearchScores | gkg_search.py:59-75 | When the kept candidates have distinct "result" dicts, the k-th result ends with the k-th candidate's "resultScore" as its "resultscore". |
| GkgSearch.VisitElement | gkg_search.py:70-74 | The method equals the functional step, on both the result and the dicts. |
| GkgSearch.GkgSearchResults | gkg_search.py:59-75 | The loop equals the functional search. |
| GkgSearch.Link | gkg_search.py:87-90 | It is the search with top 1. It gives None exactly when there are no candidates, and otherwise the first element's result. |
| GkgSearch.LinkFirst | gkg_search.py:87-90 | The same facts hold for the functional search. |
| GkgSearch.Summary1 | gkg_search.py:92-99 | A falsy hit gives `''`. A truthy non-dict gives TypeError. Otherwise the result holds the id and name. With a detailed description it adds the first 60 characters of the article body plus "..." (at most 63 characters, a prefix of the body). Without one it is the pair. |
| GkgSearch.SummaryEach | gkg_search.py:105-106 | The list case succeeds iff every summary does, and is then pointwise. An error is that of the first failing hit. |
| GkgSearch.SummaryOf | gkg_search.py:103-110 | A list gives one summary per hit, a truthy value gives its summary, and anything else gives "No match". |

## Left out

- The network calls are not modelled:
  - the Wikidata search API request and the SPARQL endpoint;
  - the DBpedia queries;
  - `gkg_query` (with its url construction and `et.names2schematypes`);
  - the `.api_key` file read.

  Their answers are parameters. The network does not exist in the model.
- spaCy is not modelled (the parser, `Doc`, `Span`, the matcher). Mentions and nominal concepts are records with
  the fields the core reads.
- The linker `wds.link`, which `scale_reports.py` calls, is a function parameter. Its scoring and context use live
  in code outside the core.
- The mention loop of `process_named_entity_mentions` is not modelled (`scale_reports.py:197-226`). This covers
  `IGNORE_TYPES` and the `link_string` lookup by mention text.
  - Its output, the groups of links per mention text, is the input of the merge loop.
  - The `em` passed to `analyze_links` at line 233 is given as the model's parameter. In the source it is the
    key left over from the mention loop.
  - Line 207 looks up the mention text, a string, in `sp.link_string`, whose keys are `(text, label)` pairs
    (`spacy_plus.py:38`, `spacy_plus.py:79`). The test is never true, so the report never uses the table that
    `LinkStrings.FindLinkStrings` builds.
- The human-readable `topic2em2link` loop is not modelled (`scale_reports.py:257-259`). It only feeds the
  report text.
- The report writers, the argument parsing and `main` are not modelled. Neither are the files other than the five
  core files (`spacy_ner_reports.py`, `evaluate_column.py`, `create_mesh_items_set_pkl.py`). They do I/O and
  printing.
- `complete_item`, `wikidata_search` and the other query helpers of `wd_search.py` are not modelled. They only
  forward SPARQL answers.
- The `limit` parameter of the searches is not modelled. It is only sent to the service.
- `hits_string` and `text_has_emoji` are not modelled. They are JSON printing and an emoji table lookup.
- `print` diagnostics are left out. `wd_types` reports unknown names as a returned list instead.
- `sp.reset_link_string` is not modelled. `LinkStrings.FindLinkStrings` resets the table itself, as the source does at
  line 33.
- Floating-point scores and ranks are `real` values that are only copied and compared.
- `avg` is not modelled.
- The `scores` dict with its aliased lists (`ts_prob` and `score` are the same list at line 240) is not modelled.
  Neither is the `'source'` field the loops set on links. Only the fields the bookkeeping reads are kept.
- The nested per-topic defaultdicts are flattened into maps keyed by `(part, key)` pairs. A defaultdict read
  that inserts a default is modelled where a later membership test can see it (`name2wdtypes`, `el_count` at
  line 320).
- `upper`, `lower` and `isupper` are ASCII-only.
- `re.split(' |-', ...)` is modelled as a split on the set of space and hyphen.
- EntityTypes.TypeRegistry.WdTypes: returns a Dafny `set` for `list(wd_types)`, with an order-free result.
  `EntityTypes.Enumerate` shows only that the list holds the same members.
- ScaleReports.BestIndex: requires a non-empty group (`min` over an empty list raises). The merge loop only sees
  non-empty groups, because a group exists only after a link was appended to it.
- GkgSearch.Search: `top` and `limit` are parameters. The defaults `default_top = 2` and `default_limit = 10`
  (`gkg_search.py:31-32`) and the `top=1` of `link` are passed in by the caller.
- GkgSearch.SimplifyDetailedDescription: Python dicts are `Dict` objects in a ghost set `s` that frames them. The
  snapshot of `s` is the state the contracts speak about.
- GkgSearch.Summary1: an `articleBody` that is not a string gives TypeError in the model. For a dict
  `articleBody`, the slice raises TypeError before Python 3.12 and KeyError from Python 3.12 on (slices became
  hashable). The model follows the earlier behaviour.
- WdSearch.WdEntityId: follows the code rather than the docstring. `url.split(prefix)[1]` stops at a second
  occurrence of the prefix. `WdEntityIdStrips` states when it agrees with `remove_prefix`.
- WdSearch.GetLadw: a falsy query answer gives None, as the function's implicit return does.
- SpacyPlus.EntityInText: follows the code rather than the docstring. The docstring promises a window of at most
  `max_length` characters, but the slice at `spacy_plus.py:96` takes up to `max_length + 1`.
- SpacyPlus.Trim: its own ensures only bounds the result. The exact result is stated by `TrimDecorated` and
  `TrimDecomposes`, which together characterise it.
- WdSearch.ScanCandidate: a hit's types are a set of `id:label` strings. The source stores the list
  `list(targ_types | ok_types)` (`wd_search.py:137`), whose order is the set's iteration order and is not modelled.
- GkgSearch.SearchScores: requires that the kept candidates name distinct "result" dicts. When two candidates share
  a result dict, the later score overwrites the earlier one, and only `SearchResults` holds.

## Findings

| source | as written | input that shows it | evidently intended | confidence | as-written member | corrected member |
|---|---|---|---|---|---|---|
| gkg_search.py:38 | the bar string is split on the type string instead of the reverse, so `gkg_types` is the set holding only the bar | the type string at line 36 (any string of length ≥ 2) | `typestrings.split` on the bar, giving the set of type names | high; not executed | GkgSearch.GkgTypesAsWrittenIsBar | GkgSearch.GkgTypesAreTheNames |
