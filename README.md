# Verified model of the nds CLI helpers

This project models, in Dafny, the logic at the heart of a set of command-line
wrappers that agents use to talk to Confluence, GitLab, MySQL, Oracle, Sentry,
Mattermost Boards, Elasticsearch/Kibana, Figma, macOS launchd and a local
knowledge-graph memory. Each script is mostly HTTP, subprocess and argument
glue; what is modelled here is the deterministic part that turns inputs into
outputs once the environment values and the network or subprocess results are
passed in as parameters.

Modules, one per script, plus shared value modules:

- `Text` — Python `str` semantics the scripts rely on: `isspace`, `strip` and
  its variants, `split`, `join`, `int()` on digits and `str()` of an integer.
- `Json` — the values `json.loads` produces (dicts keep insertion order) with
  `get`, assignment and truthiness.
- `Url` — `urllib.parse.quote`/`unquote` and `urlsplit` as the scripts use them.
- `ConfluenceInline`, `ConfluenceMarkdown`, `ConfluenceMarkdownLines`,
  `ConfluenceReduce`, `ConfluenceCli` — the Markdown to Confluence storage
  renderer (a `while` loop over lines with five block flags, modelled as a
  method proved equal to a line-by-line definition), its inline pass, the light
  HTML to Markdown reducer, and the CQL and page helpers.
- `Memory` — the knowledge graph as a class whose entity and relation lists the
  create, add and delete commands update in place, with search and open.
- `Mysql` — the batch-output unescaper, the TSV parser, the read-only query
  gate and account/schema selection.
- `Mattermost` — the Boards card URL parser, content ordering and card
  property values.
- `Cron` — the launchd schedule mini-language (parse and format), the plist
  schedule part and the job table as a class.
- `Elasticsearch` — the KQL to query-DSL builder, the relative time range, the
  Kibana URL parser and the service-log query.
- `FigmaCli`, `FigmaDoc` — file-name suffixing, rate-limit headers, node
  filtering, frame collection, file-name sanitising and export batching.
- `BoardResolver` — completeness check, question output, integer score tiers,
  ranking and keyword extraction.
- `Gitlab`, `GitlabIssues`, `GitlabMergeRequests` — pagination headers,
  project-id encoding, `key=value` parameters and request payloads.
- `Oracle` — JDBC URL and sqlplus login builders, the SELECT gate and the
  engine fallback.
- `Sentry` — Link-header and issue-URL parsing, environment lookup, the issue
  update body and the list wrapping of responses.

Regular expressions are modelled as hand-written scanners that match the
patterns exactly as written, including the places where a later substitution
scans text an earlier one produced.

## Model

| member | source | states |
|---|---|---|
| BoardResolver.Iter | skills/board-resolver/scripts/board_resolver_cli.py:55 | `for x in j` visits a list's items, a string's characters or a dict's keys; other values cannot be iterated |
| BoardResolver.PropKeywords | skills/board-resolver/scripts/board_resolver_cli.py:55-58 | the property loop succeeds exactly when every entry is a dict; otherwise it fails with an attribute error |
| BoardResolver.ContentKeywords | skills/board-resolver/scripts/board_resolver_cli.py:61-65 | the content candidates are the truthy content titles, in order |
| BoardResolver.StrippedSet | skills/board-resolver/scripts/board_resolver_cli.py:68 | the keyword set, or the error of a truthy candidate that is not a string |
| BoardResolver.StrippedSetMembers | skills/board-resolver/scripts/board_resolver_cli.py:68 | a string is a keyword exactly when it is the stripped form, not empty, of some candidate |
| BoardResolver.StripIdempotent | skills/board-resolver/scripts/board_resolver_cli.py:68 | stripping twice is stripping once |
| BoardResolver.KeywordsClean | skills/board-resolver/scripts/board_resolver_cli.py:68 | the keywords repeat nothing, none is empty, none has blanks at either end, each comes from a candidate |
| BoardResolver.PropValueIsCandidate | skills/board-resolver/scripts/board_resolver_cli.py:56-58 | a property value that is a string with something besides blanks becomes a keyword |
| BoardResolver.PropCandidatesAreValues | skills/board-resolver/scripts/board_resolver_cli.py:55-58 | every property candidate is a non-empty string value of some property |
| BoardResolver.TitleIsKeyword | skills/board-resolver/scripts/board_resolver_cli.py:48-52 | a title that is a string with something besides blanks becomes a keyword |
| BoardResolver.CollectPropKeywords | skills/board-resolver/scripts/board_resolver_cli.py:55-58 | the loop over the properties yields exactly the property candidates, or their error |
| BoardResolver.CollectContentKeywords | skills/board-resolver/scripts/board_resolver_cli.py:61-65 | the loop over the contents yields exactly the content candidates, or their error |
| BoardResolver.ExtractKeywords | skills/board-resolver/scripts/board_resolver_cli.py:43-68 | the keywords are the stripped set of the title, property values and content titles, or the first error |
| BoardResolver.ContentPrefixErr | skills/board-resolver/scripts/board_resolver_cli.py:61-65 | a bad content entry makes the whole extraction fail with its error |
| BoardResolver.Picked | skills/board-resolver/scripts/board_resolver_cli.py:73-118 | the questions whose flag is set, in their given order |
| BoardResolver.PickedMembers | skills/board-resolver/scripts/board_resolver_cli.py:77-118 | among distinct questions, one is picked exactly when its flag is set |
| BoardResolver.PickedFrom | skills/board-resolver/scripts/board_resolver_cli.py:77-118 | every picked question is one of the given ones |
| BoardResolver.PickedOrder | skills/board-resolver/scripts/board_resolver_cli.py:77-118 | picked questions keep their relative order |
| BoardResolver.CheckInfo | skills/board-resolver/scripts/board_resolver_cli.py:71-124 | a verdict exists exactly for a dict context, and it is complete exactly when no required question is asked |
| BoardResolver.QuestionsDistinct | skills/board-resolver/scripts/board_resolver_cli.py:78-117 | the three required questions are distinct, and so are the four optional ones |
| BoardResolver.CheckInfoQuestions | skills/board-resolver/scripts/board_resolver_cli.py:77-118 | a required question is asked exactly when its field is falsy, an optional one exactly when its field is truthy |
| BoardResolver.Asked | skills/board-resolver/scripts/board_resolver_cli.py:77-118 | one question is asked exactly when its flag is set |
| BoardResolver.CheckInfoOrder | skills/board-resolver/scripts/board_resolver_cli.py:77-118 | asked questions keep the order of the checks |
| BoardResolver.QuestionLines | skills/board-resolver/scripts/board_resolver_cli.py:232-234 | two lines per question, numbered from the start number |
| BoardResolver.QuestionLinesAt | skills/board-resolver/scripts/board_resolver_cli.py:232-234 | question k sits on line 2k numbered start + k, with its reason on the next line |
| BoardResolver.SectionAt | skills/board-resolver/scripts/board_resolver_cli.py:230-243 | inside a section, question k stands 2k + 1 lines after the heading |
| BoardResolver.Numbering | skills/board-resolver/scripts/board_resolver_cli.py:230-243 | required questions are numbered 1..r and optional ones continue r+1..r+o, each followed by its reason |
| BoardResolver.RequiredNumbering | skills/board-resolver/scripts/board_resolver_cli.py:230-235 | the required half of the numbering |
| BoardResolver.OptionalNumbering | skills/board-resolver/scripts/board_resolver_cli.py:237-243 | the optional half of the numbering, starting after the required count |
| BoardResolver.AppendQuestions | skills/board-resolver/scripts/board_resolver_cli.py:232-234 | the section loop appends exactly the numbered question lines |
| BoardResolver.SectionLines | skills/board-resolver/scripts/board_resolver_cli.py:230-243 | the method builds exactly the specified section: heading, numbered questions, blank line, or nothing without questions |
| BoardResolver.FormatQuestionOutput | skills/board-resolver/scripts/board_resolver_cli.py:222-247 | the method builds exactly the specified text: the completion line, or header, sections and closing joined by newlines |
| BoardResolver.WeightsFor | skills/board-resolver/scripts/board_resolver_cli.py:131-154 | each priority's weight set sums to 100 percent; urgent raises complexity, improvement raises risk |
| BoardResolver.RelevanceTwice | skills/board-resolver/scripts/board_resolver_cli.py:171-173 | the relevance score, doubled to stay integral, is 200, 125 or 50; a list or dict fails as unhashable |
| BoardResolver.ComplexityTier | skills/board-resolver/scripts/board_resolver_cli.py:177-184 | the complexity score of a change is 100, 80, 60 or 20 |
| BoardResolver.LinesOf | skills/board-resolver/scripts/board_resolver_cli.py:176-177 | `lines <= 5` can be evaluated exactly for an integer or a boolean |
| BoardResolver.RiskTier | skills/board-resolver/scripts/board_resolver_cli.py:187-189 | the risk score is 100, 75, 50 or 25; a list or dict fails as unhashable |
| BoardResolver.TestTier | skills/board-resolver/scripts/board_resolver_cli.py:192-194 | the testability score is 100, 67 or 33; a list or dict fails as unhashable |
| BoardResolver.In | skills/board-resolver/scripts/board_resolver_cli.py:161 | `in` on a list holds exactly when some element equals the constraint by Python's `==`; it fails unless `modifies` is a list, a string with a string constraint, or a dict with a hashable constraint |
| BoardResolver.FirstViolation | skills/board-resolver/scripts/board_resolver_cli.py:160-161 | a violation found is a listed constraint that `in` finds in `modifies`; none found means `in` finds no listed constraint |
| BoardResolver.BonusOf | skills/board-resolver/scripts/board_resolver_cli.py:200-204 | 10 points exactly when a truthy preferred approach is given and equals the solution's by Python's `==`, else 0 |
| BoardResolver.ScoreOf | skills/board-resolver/scripts/board_resolver_cli.py:127-219 | a result exists only for a dict solution |
| BoardResolver.ComplexityMonotone | skills/board-resolver/scripts/board_resolver_cli.py:177-184 | a larger change never scores higher on complexity |
| BoardResolver.ScoresInRange | skills/board-resolver/scripts/board_resolver_cli.py:171-194 | every score the tables give lies in its table's range |
| BoardResolver.WeightedBounds | skills/board-resolver/scripts/board_resolver_cli.py:197 | the weighted total of in-range scores lies between 20 and 100 |
| BoardResolver.FinalScoreBounds | skills/board-resolver/scripts/board_resolver_cli.py:206 | the final score lies between 20 and 100 and the bonus adds exactly 10 points up to the cap |
| BoardResolver.ScoreBounds | skills/board-resolver/scripts/board_resolver_cli.py:206-219 | a scored result lies between 20 and 100, its weights sum to 100 percent and its bonus is 0 or 10 |
| BoardResolver.NoFeedbackScore | skills/board-resolver/scripts/board_resolver_cli.py:139-204 | without feedback nothing is excluded, the default weights apply and there is no bonus |
| BoardResolver.ConstraintExcludes | skills/board-resolver/scripts/board_resolver_cli.py:157-166 | a solution whose `modifies` list holds a value equal to a listed constraint is excluded, naming a listed constraint found in `modifies` |
| BoardResolver.ListViolation | skills/board-resolver/scripts/board_resolver_cli.py:160-161 | when `modifies` is a list holding a value equal to a listed constraint, a violation is always found |
| BoardResolver.OneExcludesTrue | skills/board-resolver/scripts/board_resolver_cli.py:160-161 | the constraint `1` is found in `modifies` `[true]`, as `1 == True` |
| BoardResolver.ExcludedModifies | skills/board-resolver/scripts/board_resolver_cli.py:160-166 | an excluded solution names a constraint that it modifies |
| BoardResolver.PreferenceBonus | skills/board-resolver/scripts/board_resolver_cli.py:200-206 | an approach equal to the preferred one raises the same solution's score by 10 points, up to the cap |
| BoardResolver.ScoredAs | skills/board-resolver/scripts/board_resolver_cli.py:168-219 | the score of a solution that passes the constraint check |
| BoardResolver.FindViolation | skills/board-resolver/scripts/board_resolver_cli.py:160-166 | the constraint loop finds exactly the first violation |
| BoardResolver.CalculateScore | skills/board-resolver/scripts/board_resolver_cli.py:127-219 | the method computes exactly the specified score |
| BoardResolver.Insert | skills/board-resolver/scripts/board_resolver_cli.py:295 | the entry placed after every entry whose key is not greater |
| BoardResolver.SortByKey | skills/board-resolver/scripts/board_resolver_cli.py:295 | `list.sort(key=...)` as a stable insertion sort |
| BoardResolver.SortPermutes | skills/board-resolver/scripts/board_resolver_cli.py:295 | the sort rearranges its input and nothing else |
| BoardResolver.InsertWithKey | skills/board-resolver/scripts/board_resolver_cli.py:295 | inserting adds the entry after those with the same key |
| BoardResolver.SortKeepsKeyOrder | skills/board-resolver/scripts/board_resolver_cli.py:295 | entries with the same key keep their order |
| BoardResolver.InsertSorted | skills/board-resolver/scripts/board_resolver_cli.py:295 | inserting into a sorted list keeps it sorted |
| BoardResolver.SortSorted | skills/board-resolver/scripts/board_resolver_cli.py:295 | the sorted list is ordered by key |
| BoardResolver.RankingOrder | skills/board-resolver/scripts/board_resolver_cli.py:294-295 | non-excluded results come first in descending score, and the ranking is a stable permutation |
| BoardResolver.RankedList | skills/board-resolver/scripts/board_resolver_cli.py:287-292 | one result per solution, or the first error |
| BoardResolver.Entry | skills/board-resolver/scripts/board_resolver_cli.py:289-291 | an entry exists exactly when the solution scores, and it carries the index, the name and the score |
| BoardResolver.RankedListAt | skills/board-resolver/scripts/board_resolver_cli.py:288-292 | entry i of the unsorted results is solution i's score under its name |
| BoardResolver.RankingEntries | skills/board-resolver/scripts/board_resolver_cli.py:287-295 | every solution appears in the ranking with its own index, name and score, and nothing else does |
| BoardResolver.ScoreEntry | skills/board-resolver/scripts/board_resolver_cli.py:289-292 | one turn of the loop yields exactly the specified entry |
| BoardResolver.ScoreAll | skills/board-resolver/scripts/board_resolver_cli.py:287-292 | the loop yields exactly the specified results, or the first error |
| BoardResolver.ScoreMultiple | skills/board-resolver/scripts/board_resolver_cli.py:282-297 | the output is the specified ranking of the solutions |
| BoardResolver.RankedListStep | skills/board-resolver/scripts/board_resolver_cli.py:288-292 | one more solution extends the results by its entry, or fails with its error |
| BoardResolver.RankedPrefixErr | skills/board-resolver/scripts/board_resolver_cli.py:288-292 | a failing solution makes the whole ranking fail with its error |
| BoardResolver.Chars | skills/board-resolver/scripts/board_resolver_cli.py:55 | iterating over a string gives its characters as one-character strings |
| BoardResolver.TitleOf | skills/board-resolver/scripts/board_resolver_cli.py:48-50 | the `fields` title or else the card title, failing when the card or its fields is not a dict |
| BoardResolver.Candidates | skills/board-resolver/scripts/board_resolver_cli.py:45-65 | the title, the truthy string property values and the truthy content titles, in that order |
| BoardResolver.Keywords | skills/board-resolver/scripts/board_resolver_cli.py:43-68 | the set of stripped, non-empty candidates |
| ConfluenceCli.WrapSimpleQueryToCql | skills/gabia-dev-mcp-confluence/scripts/confluence_cli.py:77-82 | the query is returned as it is exactly when it holds one of the CQL markers |
| ConfluenceCli.QuoteEscapedCons | skills/gabia-dev-mcp-confluence/scripts/confluence_cli.py:81 | escaping works character by character: a quote becomes `\"`, anything else stays |
| ConfluenceCli.QuoteEscapedHead | skills/gabia-dev-mcp-confluence/scripts/confluence_cli.py:81 | the escaped term never starts with a quote |
| ConfluenceCli.QuoteRoundTrip | skills/gabia-dev-mcp-confluence/scripts/confluence_cli.py:81 | unescaping the term gives the query back |
| ConfluenceCli.QuotesGuarded | skills/gabia-dev-mcp-confluence/scripts/confluence_cli.py:81-82 | every quote of the term has a backslash before it, so the term cannot end the literal it sits in |
| ConfluenceCli.WrappedTerm | skills/gabia-dev-mcp-confluence/scripts/confluence_cli.py:81-82 | a plain query becomes `siteSearch ~ "…"` around its escaped text |
| ConfluenceCli.SpaceClauses | skills/gabia-dev-mcp-confluence/scripts/confluence_cli.py:91 | one `space = "k"` clause per key, in order |
| ConfluenceCli.ApplySpacesFilter | skills/gabia-dev-mcp-confluence/scripts/confluence_cli.py:85-92 | the query is unchanged exactly when the filter names no space; otherwise it ends with `) AND (cql)` |
| ConfluenceCli.SpaceKeysAppend | skills/gabia-dev-mcp-confluence/scripts/confluence_cli.py:88 | the keys of two runs of pieces follow each other |
| ConfluenceCli.SpaceKeysOne | skills/gabia-dev-mcp-confluence/scripts/confluence_cli.py:88 | one piece gives its stripped text when that is not empty, and nothing otherwise |
| ConfluenceCli.SpaceKeysClean | skills/gabia-dev-mcp-confluence/scripts/confluence_cli.py:88 | each key is non-empty, holds no `,` and has no blank at either end |
| ConfluenceCli.FilterKeysClean | skills/gabia-dev-mcp-confluence/scripts/confluence_cli.py:88 | the same for the keys of a whole filter string |
| ConfluenceCli.PagesAt | skills/gabia-dev-mcp-confluence/scripts/confluence_cli.py:326 | a `/pages/(\d+)` match captures only digits |
| ConfluenceCli.SearchPages | skills/gabia-dev-mcp-confluence/scripts/confluence_cli.py:326 | the leftmost match captures only digits |
| ConfluenceCli.ResolvePageId | skills/gabia-dev-mcp-confluence/scripts/confluence_cli.py:322-329 | an all-digit id is kept; anything else resolves to itself or to digits |
| ConfluenceCli.BuildPageUrl | skills/gabia-dev-mcp-confluence/scripts/confluence_cli.py:410-413 | a URL exists exactly when base, space key and page id are all non-empty |
| ConfluenceCli.SearchPagesNone | skills/gabia-dev-mcp-confluence/scripts/confluence_cli.py:326 | no match anywhere from the start when the search finds none |
| ConfluenceCli.SearchPagesFirst | skills/gabia-dev-mcp-confluence/scripts/confluence_cli.py:326 | the search finds the first match |
| ConfluenceCli.PageUrlResolves | skills/gabia-dev-mcp-confluence/scripts/confluence_cli.py:322-329 | a page URL built from a numeric id resolves back to that id, when the part before `/pages/` holds no match of its own |
| ConfluenceCli.UrlTail | skills/gabia-dev-mcp-confluence/scripts/confluence_cli.py:326 | the id right after `/pages/` is matched whole |
| ConfluenceCli.PrefixNoMatch | skills/gabia-dev-mcp-confluence/scripts/confluence_cli.py:326 | no match starts inside a prefix that has none of its own |
| ConfluenceCli.NormalizeBody | skills/gabia-dev-mcp-confluence/scripts/confluence_cli.py:480-486 | the representation is storage or wiki; the content is kept, or rendered to storage; wiki keeps it |
| ConfluenceCli.NormalizeBodyDefault | skills/gabia-dev-mcp-confluence/scripts/confluence_cli.py:481-486 | without a format the content is rendered to storage |
| ConfluenceCli.ExtractBody | skills/gabia-dev-mcp-confluence/scripts/confluence_cli.py:387-407 | the format name is `storage`, `markdown` or `html` as asked; markdown is the light conversion of the export view or the stored body |
| ConfluenceCli.ExtractBodyEmpty | skills/gabia-dev-mcp-confluence/scripts/confluence_cli.py:397-407 | a page without a body reads as empty text in every format |
| ConfluenceCli.NoBodyValues | skills/gabia-dev-mcp-confluence/scripts/confluence_cli.py:397-399 | without a body neither the export view nor the stored body has a value |
| ConfluenceCli.ExportViewFirst | skills/gabia-dev-mcp-confluence/scripts/confluence_cli.py:404-407 | the export view wins over the stored body when it is there |
| ConfluenceInline.ReplaceCons | skills/gabia-dev-mcp-confluence/scripts/confluence_cli.py:121-122 | the three replacements work character by character, since `&` is replaced first |
| ConfluenceInline.EscapeHtmlIsReplace | skills/gabia-dev-mcp-confluence/scripts/confluence_cli.py:121-122 | the three chained replacements and the escape character by character agree on every text |
| ConfluenceInline.EscapeHtmlCons | skills/gabia-dev-mcp-confluence/scripts/confluence_cli.py:121-122 | escaping a text is escaping its first character, then the rest |
| ConfluenceInline.EscapeHtmlEmpty | skills/gabia-dev-mcp-confluence/scripts/confluence_cli.py:121-122 | the empty text escapes to itself |
| ConfluenceInline.EscapeHtmlClean | skills/gabia-dev-mcp-confluence/scripts/confluence_cli.py:121-122 | the escaped text holds no `<` or `>`, gains no character other than those of the entities, and is never shorter |
| ConfluenceInline.EscapeCharClean | skills/gabia-dev-mcp-confluence/scripts/confluence_cli.py:121-122 | the escape of one character holds no `<` or `>` and no other new character |
| ConfluenceInline.EscapeHtmlAppend | skills/gabia-dev-mcp-confluence/scripts/confluence_cli.py:121-122 | escaping distributes over concatenation |
| ConfluenceInline.EscapeHtmlPlain | skills/gabia-dev-mcp-confluence/scripts/confluence_cli.py:121-122 | text without `&`, `<` and `>` is its own escape |
| ConfluenceInline.BodyEnd | skills/gabia-dev-mcp-confluence/scripts/confluence_cli.py:127-135 | a `[^f]+f` body ends at the first `f` after a non-empty run |
| ConfluenceInline.BodyEndFirst | skills/gabia-dev-mcp-confluence/scripts/confluence_cli.py:127-135 | the first `f` after a non-empty run is found |
| ConfluenceInline.MatchAt | skills/gabia-dev-mcp-confluence/scripts/confluence_cli.py:126-135 | a match at a position ends after it |
| ConfluenceInline.Strong | skills/gabia-dev-mcp-confluence/scripts/confluence_cli.py:132-133 | a `**…**` or `__…__` match ends after its start |
| ConfluenceInline.MatchNeedsOpener | skills/gabia-dev-mcp-confluence/scripts/confluence_cli.py:126-135 | no pass matches where its opening character is absent |
| ConfluenceInline.SubWithoutOpener | skills/gabia-dev-mcp-confluence/scripts/confluence_cli.py:126-135 | a pass leaves text without its opening character unchanged |
| ConfluenceInline.SubWhole | skills/gabia-dev-mcp-confluence/scripts/confluence_cli.py:126-135 | the same, for a whole line |
| ConfluenceInline.PlainRendersEscaped | skills/gabia-dev-mcp-confluence/scripts/confluence_cli.py:124-136 | a line without `[`, a backtick, `*` or `_` renders to exactly its escaped text |
| ConfluenceInline.LinkMatches | skills/gabia-dev-mcp-confluence/scripts/confluence_cli.py:126-130 | a link at a position is replaced by its anchor, and the scan goes on after its `)` |
| ConfluenceInline.LinkScan | skills/gabia-dev-mcp-confluence/scripts/confluence_cli.py:127 | on a link, the scanner finds both closing brackets and the text and target between them |
| ConfluenceInline.LinkAtParts | skills/gabia-dev-mcp-confluence/scripts/confluence_cli.py:126-130 | the link pass matches once both brackets close |
| ConfluenceInline.LinkMatchShape | skills/gabia-dev-mcp-confluence/scripts/confluence_cli.py:126-130 | every link match has the link shape |
| ConfluenceInline.LinkAtSome | skills/gabia-dev-mcp-confluence/scripts/confluence_cli.py:126-130 | a link match closes both brackets and is replaced by the anchor of its text and target |
| ConfluenceInline.LinkSliceShape | skills/gabia-dev-mcp-confluence/scripts/confluence_cli.py:127 | the matched stretch is `[text](target)` |
| ConfluenceInline.EscapeLinkPunct | skills/gabia-dev-mcp-confluence/scripts/confluence_cli.py:121-122 | the link's brackets are not escaped |
| ConfluenceInline.EscapeLinkSource | skills/gabia-dev-mcp-confluence/scripts/confluence_cli.py:125 | escaping a link's source escapes its text and its target |
| ConfluenceInline.LinkLine | skills/gabia-dev-mcp-confluence/scripts/confluence_cli.py:125-130 | the link pass on a line that is one link: the text is escaped once, the target twice |
| ConfluenceInline.LinkOnlyLine | skills/gabia-dev-mcp-confluence/scripts/confluence_cli.py:124-136 | a line that is one link without other markers renders to the anchor with a doubly-escaped target |
| ConfluenceInline.LinkOnlyMarks | skills/gabia-dev-mcp-confluence/scripts/confluence_cli.py:128 | a marker absent from the text and the target is absent from the anchor |
| ConfluenceInline.AnchorMarkFree | skills/gabia-dev-mcp-confluence/scripts/confluence_cli.py:128 | the anchor adds no marker characters |
| ConfluenceInline.AmpersandTwice | skills/gabia-dev-mcp-confluence/scripts/confluence_cli.py:125-128 | escaping twice turns every `&` into `&amp;amp;` |
| ConfluenceInline.EscapeEntityAgain | skills/gabia-dev-mcp-confluence/scripts/confluence_cli.py:128 | the entity `&amp;`, escaped again, becomes `&amp;amp;` |
| ConfluenceInline.PlainFacts | skills/gabia-dev-mcp-confluence/scripts/confluence_cli.py:121-135 | plain text is its own escape and holds no marker |
| ConfluenceInline.UnderscorePositions | skills/gabia-dev-mcp-confluence/scripts/confluence_cli.py:135 | the two underscores of `a_b_c` sit right after `a` and after `b` |
| ConfluenceInline.EmUnderOneSpan | skills/gabia-dev-mcp-confluence/scripts/confluence_cli.py:135 | the `_` pass on a text with exactly one `_…_` span wraps it in `<em>` |
| ConfluenceInline.UnderscoreFree | skills/gabia-dev-mcp-confluence/scripts/confluence_cli.py:135 | no underscore before the span or after it |
| ConfluenceInline.SubOneMatch | skills/gabia-dev-mcp-confluence/scripts/confluence_cli.py:126-135 | a pass that finds exactly one match replaces exactly that stretch |
| ConfluenceInline.SubAtMatch | skills/gabia-dev-mcp-confluence/scripts/confluence_cli.py:126-135 | a match is replaced and the scan resumes at its end |
| ConfluenceInline.NoOpenerNoMatch | skills/gabia-dev-mcp-confluence/scripts/confluence_cli.py:126-135 | no match starts in a stretch without the opening character |
| ConfluenceInline.EmUnderSpanAt | skills/gabia-dev-mcp-confluence/scripts/confluence_cli.py:135 | the one `_…_` span matches at its first underscore |
| ConfluenceInline.EmphasisInsideHref | skills/gabia-dev-mcp-confluence/scripts/confluence_cli.py:126-135 | the emphasis passes also scan inside the `href` the link pass wrote: a target `u1_b_u2` comes out with `<em>b</em>` in it |
| ConfluenceInline.HrefSpanText | skills/gabia-dev-mcp-confluence/scripts/confluence_cli.py:128-135 | the anchor with the emphasised span, piece by piece |
| ConfluenceInline.HrefSpanLinkPass | skills/gabia-dev-mcp-confluence/scripts/confluence_cli.py:125-130 | the link pass writes the anchor around the target's underscores |
| ConfluenceInline.HrefSpanAnchor | skills/gabia-dev-mcp-confluence/scripts/confluence_cli.py:128 | the anchor of the target is the text around its two underscores |
| ConfluenceInline.HrefSpanTarget | skills/gabia-dev-mcp-confluence/scripts/confluence_cli.py:127-128 | a plain target with one span is a link target and its own escape |
| ConfluenceInline.HrefSpanPieces | skills/gabia-dev-mcp-confluence/scripts/confluence_cli.py:128 | the pieces around the span hold no marker characters |
| ConfluenceInline.AnchorHeadFree | skills/gabia-dev-mcp-confluence/scripts/confluence_cli.py:128 | the head of the anchor holds no marker characters |
| ConfluenceInline.AnchorTailFree | skills/gabia-dev-mcp-confluence/scripts/confluence_cli.py:128 | the tail of the anchor holds no marker characters |
| ConfluenceInline.HrefSpanMiddlePasses | skills/gabia-dev-mcp-confluence/scripts/confluence_cli.py:131-134 | the code, strong and `*` passes leave a text with only `_` markers unchanged |
| ConfluenceInline.SubWithoutStrong | skills/gabia-dev-mcp-confluence/scripts/confluence_cli.py:132-133 | without a doubled marker anywhere, the strong pass copies its input |
| ConfluenceInline.SubCopies | skills/gabia-dev-mcp-confluence/scripts/confluence_cli.py:126-135 | a pass copies a suffix in which it finds no match |
| ConfluenceInline.SubCopiesBefore | skills/gabia-dev-mcp-confluence/scripts/confluence_cli.py:126-135 | a pass copies a stretch without matches, then goes on at its end |
| ConfluenceInline.SubMiss | skills/gabia-dev-mcp-confluence/scripts/confluence_cli.py:126-135 | where a pass finds no match it copies one character |
| ConfluenceInline.UnderscoreLookahead | skills/gabia-dev-mcp-confluence/scripts/confluence_cli.py:135 | the lookahead is literally `_ `: `_a__ b` gives no emphasis, while `_a__b` does |
| ConfluenceInline.EscapeHtml | skills/gabia-dev-mcp-confluence/scripts/confluence_cli.py:121-122 | `&`, `<` and `>` replaced by their entities |
| ConfluenceInline.RenderInline | skills/gabia-dev-mcp-confluence/scripts/confluence_cli.py:124-136 | the escaped text with the link, inline code, bold and italic substitutions applied in that order |
| ConfluenceMarkdown.Lines | skills/gabia-dev-mcp-confluence/scripts/confluence_cli.py:138 | splitting after normalising line breaks yields at least one line |
| ConfluenceMarkdown.LinesHaveNoBreak | skills/gabia-dev-mcp-confluence/scripts/confluence_cli.py:138 | no line holds a newline once CR LF and CR are folded to LF and the text is split |
| ConfluenceMarkdown.LeadRun | skills/gabia-dev-mcp-confluence/scripts/confluence_cli.py:234 | the run of a character at the head of a line is maximal: every counted character is that one and the next is not |
| ConfluenceMarkdown.Heading | skills/gabia-dev-mcp-confluence/scripts/confluence_cli.py:234 | a heading match has a level from 1 to 6 |
| ConfluenceMarkdown.ParseCells | skills/gabia-dev-mcp-confluence/scripts/confluence_cli.py:172-173 | splitting a row yields at least one cell |
| ConfluenceMarkdown.StripEach | skills/gabia-dev-mcp-confluence/scripts/confluence_cli.py:173 | stripping each cell keeps the number of cells |
| ConfluenceMarkdown.ParseCellsNoPipe | skills/gabia-dev-mcp-confluence/scripts/confluence_cli.py:172-173 | no parsed cell holds a pipe |
| ConfluenceMarkdown.TableEnd | skills/gabia-dev-mcp-confluence/scripts/confluence_cli.py:212-214 | the end of a table body lies between its first row and the end of the input |
| ConfluenceMarkdown.TableEndMaximal | skills/gabia-dev-mcp-confluence/scripts/confluence_cli.py:212-214 | every line before the end of a table body holds a pipe and does not start with '#', and the line at the end (if any) does not |
| ConfluenceMarkdown.ParseRows | skills/gabia-dev-mcp-confluence/scripts/confluence_cli.py:211-214 | one parsed row per body line |
| ConfluenceMarkdown.RowFrags | skills/gabia-dev-mcp-confluence/scripts/confluence_cli.py:218-219 | one table row element per parsed row |
| ConfluenceMarkdown.CloseBlocks | skills/gabia-dev-mcp-confluence/scripts/confluence_cli.py:206-208 | closing paragraph, lists and quote leaves all four block flags down and the code flag as it was |
| ConfluenceMarkdown.Classify | skills/gabia-dev-mcp-confluence/scripts/confluence_cli.py:175-292 | a line is a fence close or a code line exactly when inside a code block, a fence opens only outside one, and a table spans at least its header and separator |
| ConfluenceMarkdown.Outside | skills/gabia-dev-mcp-confluence/scripts/confluence_cli.py:197-292 | outside a code block no line is classified as a fence or a code line |
| ConfluenceMarkdown.Single | skills/gabia-dev-mcp-confluence/scripts/confluence_cli.py:225-292 | a single non-blank, non-table line is a rule, a heading, a quoted line or another line |
| ConfluenceMarkdown.Step | skills/gabia-dev-mcp-confluence/scripts/confluence_cli.py:175-292 | each iteration of the loop advances past at least one line and not past the end |
| ConfluenceMarkdown.CloseParaBalances | skills/gabia-dev-mcp-confluence/scripts/confluence_cli.py:148-152 | closing the paragraph keeps every tag's open and close counts balanced against the open flags |
| ConfluenceMarkdown.CloseListsBalances | skills/gabia-dev-mcp-confluence/scripts/confluence_cli.py:154-161 | closing the lists keeps every tag balanced against the open flags |
| ConfluenceMarkdown.CloseQuoteBalances | skills/gabia-dev-mcp-confluence/scripts/confluence_cli.py:163-167 | closing the quote keeps every tag balanced against the open flags |
| ConfluenceMarkdown.CloseBlocksBalances | skills/gabia-dev-mcp-confluence/scripts/confluence_cli.py:206-208 | closing all blocks keeps every tag balanced against the open flags |
| ConfluenceMarkdown.TextBalances | skills/gabia-dev-mcp-confluence/scripts/confluence_cli.py:193 | emitting a fragment that is no tag keeps every tag balanced |
| ConfluenceMarkdown.QuoteOpenBalances | skills/gabia-dev-mcp-confluence/scripts/confluence_cli.py:247-251 | opening a blockquote keeps every tag balanced against the open flags |
| ConfluenceMarkdown.QuoteLineBalances | skills/gabia-dev-mcp-confluence/scripts/confluence_cli.py:246-258 | a quoted line keeps every tag balanced against the open flags |
| ConfluenceMarkdown.OpenParaBalances | skills/gabia-dev-mcp-confluence/scripts/confluence_cli.py:253-255 | opening a paragraph keeps every tag balanced against the open flags |
| ConfluenceMarkdown.CloseOlBalances | skills/gabia-dev-mcp-confluence/scripts/confluence_cli.py:268-270 | closing an ordered list before a bullet item keeps every tag balanced |
| ConfluenceMarkdown.CloseUlBalances | skills/gabia-dev-mcp-confluence/scripts/confluence_cli.py:279-281 | closing a bullet list before a numbered item keeps every tag balanced |
| ConfluenceMarkdown.UlLineBalances | skills/gabia-dev-mcp-confluence/scripts/confluence_cli.py:265-275 | a bullet item keeps every tag balanced against the open flags |
| ConfluenceMarkdown.UlOpenBalances | skills/gabia-dev-mcp-confluence/scripts/confluence_cli.py:266-272 | opening a bullet list keeps every tag balanced against the open flags |
| ConfluenceMarkdown.OlLineBalances | skills/gabia-dev-mcp-confluence/scripts/confluence_cli.py:276-286 | a numbered item keeps every tag balanced against the open flags |
| ConfluenceMarkdown.OlOpenBalances | skills/gabia-dev-mcp-confluence/scripts/confluence_cli.py:277-283 | opening an ordered list keeps every tag balanced against the open flags |
| ConfluenceMarkdown.ParaLineBalances | skills/gabia-dev-mcp-confluence/scripts/confluence_cli.py:288-292 | a paragraph line keeps every tag balanced against the open flags |
| ConfluenceMarkdown.BlockBalances | skills/gabia-dev-mcp-confluence/scripts/confluence_cli.py:263-292 | a list item or paragraph line keeps every tag balanced against the open flags |
| ConfluenceMarkdown.RowFragsUntagged | skills/gabia-dev-mcp-confluence/scripts/confluence_cli.py:218-219 | table body rows open and close no block tag |
| ConfluenceMarkdown.TableFragsUntagged | skills/gabia-dev-mcp-confluence/scripts/confluence_cli.py:215-221 | a rendered table opens and closes no block tag |
| ConfluenceMarkdown.OtherBalances | skills/gabia-dev-mcp-confluence/scripts/confluence_cli.py:259-292 | any line after the quote check keeps every tag balanced |
| ConfluenceMarkdown.ActBalances | skills/gabia-dev-mcp-confluence/scripts/confluence_cli.py:179-292 | every kind of line, handled in a consistent state, keeps every tag balanced against the open flags |
| ConfluenceMarkdown.StepBalances | skills/gabia-dev-mcp-confluence/scripts/confluence_cli.py:175-292 | one loop iteration keeps every tag balanced against the open flags |
| ConfluenceMarkdown.RenderFromBalances | skills/gabia-dev-mcp-confluence/scripts/confluence_cli.py:175-296 | from any line to the end (final closes included) every block tag closes as often as it opens, except that an unclosed code fence leaves one pre open |
| ConfluenceMarkdown.FragmentsBalanced | skills/gabia-dev-mcp-confluence/scripts/confluence_cli.py:175-296 | the output opens and closes each of p, ul, ol and blockquote equally often, and pre/code too unless the input ends inside a fence |
| ConfluenceMarkdown.ActReachable | skills/gabia-dev-mcp-confluence/scripts/confluence_cli.py:179-292 | no block other than the code block is open while inside a code block, and each line keeps it so |
| ConfluenceMarkdown.StepReachable | skills/gabia-dev-mcp-confluence/scripts/confluence_cli.py:175-292 | one loop iteration keeps the code block exclusive of the other blocks |
| ConfluenceMarkdown.EscapedLines | skills/gabia-dev-mcp-confluence/scripts/confluence_cli.py:193 | one escaped line per raw line inside a code block |
| ConfluenceMarkdown.OpenFenceToEnd | skills/gabia-dev-mcp-confluence/scripts/confluence_cli.py:188-195 | after an unclosed fence every remaining raw line is emitted escaped and the code block is never closed |
| ConfluenceMarkdown.MarkdownToStorage | skills/gabia-dev-mcp-confluence/scripts/confluence_cli.py:120-297 | the loop over lines with its flags produces the rendering the line-by-line definition gives |
| ConfluenceMarkdown.ProcessLine | skills/gabia-dev-mcp-confluence/scripts/confluence_cli.py:176-292 | one loop iteration appends the fragments and sets the flags and index that the definition gives |
| ConfluenceMarkdown.OutsideLineM | skills/gabia-dev-mcp-confluence/scripts/confluence_cli.py:197-292 | a line outside a code block is handled as its classification says |
| ConfluenceMarkdown.SingleLineM | skills/gabia-dev-mcp-confluence/scripts/confluence_cli.py:224-292 | a rule, heading, quoted or other line is handled as its classification says |
| ConfluenceMarkdown.ApplyClosing | skills/gabia-dev-mcp-confluence/scripts/confluence_cli.py:225-243 | a rule or a heading closes every block and appends its own element |
| ConfluenceMarkdown.ApplyQuoted | skills/gabia-dev-mcp-confluence/scripts/confluence_cli.py:246-258 | a quoted line appends the quote rendering and moves to the next line |
| ConfluenceMarkdown.ApplyOther | skills/gabia-dev-mcp-confluence/scripts/confluence_cli.py:259-292 | any other line closes the quote and is rendered as a list item or paragraph text |
| ConfluenceMarkdown.CloseParaM | skills/gabia-dev-mcp-confluence/scripts/confluence_cli.py:148-152 | appends the paragraph close when one is open and lowers the flag |
| ConfluenceMarkdown.CloseListsM | skills/gabia-dev-mcp-confluence/scripts/confluence_cli.py:154-161 | appends the list closes for open lists and lowers both flags |
| ConfluenceMarkdown.CloseQuoteM | skills/gabia-dev-mcp-confluence/scripts/confluence_cli.py:163-167 | appends the blockquote close when one is open and lowers the flag |
| ConfluenceMarkdown.CloseBlocksM | skills/gabia-dev-mcp-confluence/scripts/confluence_cli.py:180-182 | runs the three closers in order |
| ConfluenceMarkdown.QuoteLineM | skills/gabia-dev-mcp-confluence/scripts/confluence_cli.py:246-258 | renders a quoted line as the definition gives |
| ConfluenceMarkdown.BlockLineM | skills/gabia-dev-mcp-confluence/scripts/confluence_cli.py:259-292 | closes the quote, then renders the line as a list item or paragraph text |
| ConfluenceMarkdown.BlockM | skills/gabia-dev-mcp-confluence/scripts/confluence_cli.py:263-292 | renders a list item or paragraph line as the definition gives |
| ConfluenceMarkdown.UlLineM | skills/gabia-dev-mcp-confluence/scripts/confluence_cli.py:265-275 | renders a bullet item as the definition gives |
| ConfluenceMarkdown.OlLineM | skills/gabia-dev-mcp-confluence/scripts/confluence_cli.py:276-286 | renders a numbered item as the definition gives |
| ConfluenceMarkdown.ParaLineM | skills/gabia-dev-mcp-confluence/scripts/confluence_cli.py:288-292 | renders a paragraph line as the definition gives |
| ConfluenceMarkdown.TableM | skills/gabia-dev-mcp-confluence/scripts/confluence_cli.py:215-221 | builds the table element from header and rows as the definition gives |
| ConfluenceMarkdown.TableRows | skills/gabia-dev-mcp-confluence/scripts/confluence_cli.py:210-214 | the row loop stops at the maximal end of the body and collects the parsed rows of exactly those lines |
| ConfluenceMarkdownLines.OtherKind | skills/gabia-dev-mcp-confluence/scripts/confluence_cli.py:175-263 | a line outside code that starts with no blank, backtick, '#' or '>', holds no pipe and is no rule is classified as an other line, to be read as list item or paragraph |
| ConfluenceMarkdownLines.HeadingOf | skills/gabia-dev-mcp-confluence/scripts/confluence_cli.py:234-240 | one to six hashes, a space and text are a heading of that level with that text |
| ConfluenceMarkdownLines.HeadingKind | skills/gabia-dev-mcp-confluence/scripts/confluence_cli.py:234-243 | such a line outside code is classified as a heading |
| ConfluenceMarkdownLines.HeadingStep | skills/gabia-dev-mcp-confluence/scripts/confluence_cli.py:234-243 | a heading line closes every block and appends the h element of its level |
| ConfluenceMarkdownLines.UlItemOf | skills/gabia-dev-mcp-confluence/scripts/confluence_cli.py:263 | a dash or star, a space and text form a bullet item with that text |
| ConfluenceMarkdownLines.OlItemOf | skills/gabia-dev-mcp-confluence/scripts/confluence_cli.py:264 | digits, a dot, a space and text form a numbered item with that text |
| ConfluenceMarkdownLines.UlKind | skills/gabia-dev-mcp-confluence/scripts/confluence_cli.py:263 | a bullet line outside code, without a pipe, is classified as an other line, to be read as a list item |
| ConfluenceMarkdownLines.OlKind | skills/gabia-dev-mcp-confluence/scripts/confluence_cli.py:264 | a numbered line outside code, without a pipe, is classified as an other line, to be read as a list item |
| ConfluenceMarkdownLines.UlAfterOlAct | skills/gabia-dev-mcp-confluence/scripts/confluence_cli.py:265-273 | a bullet item inside an ordered list closes the paragraph and the ordered list, opens a bullet list and appends the item |
| ConfluenceMarkdownLines.OlAfterUlAct | skills/gabia-dev-mcp-confluence/scripts/confluence_cli.py:276-284 | a numbered item inside a bullet list closes the paragraph and the bullet list, opens an ordered list and appends the item |
| ConfluenceMarkdownLines.SameListAct | skills/gabia-dev-mcp-confluence/scripts/confluence_cli.py:265-286 | an item of the list already open only appends the item |
| ConfluenceMarkdownLines.UlAfterOl | skills/gabia-dev-mcp-confluence/scripts/confluence_cli.py:263-275 | a bullet line after an ordered list switches list kinds in one iteration |
| ConfluenceMarkdownLines.OlAfterUl | skills/gabia-dev-mcp-confluence/scripts/confluence_cli.py:276-286 | a numbered line after a bullet list switches list kinds in one iteration |
| ConfluenceMarkdownLines.UlInUl | skills/gabia-dev-mcp-confluence/scripts/confluence_cli.py:273-275 | a bullet line inside a bullet list appends only the item |
| ConfluenceMarkdownLines.OlInOl | skills/gabia-dev-mcp-confluence/scripts/confluence_cli.py:284-286 | a numbered line inside an ordered list appends only the item |
| ConfluenceMarkdownLines.PlainAfterQuote | skills/gabia-dev-mcp-confluence/scripts/confluence_cli.py:259-292 | a plain line after a quote closes the blockquote and continues (or opens) the paragraph with the line |
| ConfluenceMarkdownLines.PlainAct | skills/gabia-dev-mcp-confluence/scripts/confluence_cli.py:259-292 | a line that is no list item, after a quote, closes the blockquote and becomes paragraph text |
| ConfluenceMarkdownLines.TableBody | skills/gabia-dev-mcp-confluence/scripts/confluence_cli.py:211-219 | the body holds one row per body line, each rendered from that line's cells |
| ConfluenceMarkdownLines.TableKind | skills/gabia-dev-mcp-confluence/scripts/confluence_cli.py:205-214 | a line with a pipe followed by a separator row is a table with the line's cells as header and the parsed rows up to the maximal end of its body |
| ConfluenceMarkdownLines.TableStep | skills/gabia-dev-mcp-confluence/scripts/confluence_cli.py:205-222 | a table closes every block, appends table, head, body rows and closes, and resumes at the first non-row line |
| ConfluenceMarkdownLines.TableAct | skills/gabia-dev-mcp-confluence/scripts/confluence_cli.py:206-221 | the table element is head row, tbody, one row per parsed row, and closes, after closing every block |
| ConfluenceReduce.FindLit | skills/gabia-dev-mcp-confluence/scripts/confluence_cli.py:303-317 | finds the first occurrence of a literal at or after a position, or reports that there is none |
| ConfluenceReduce.SpaceRun | skills/gabia-dev-mcp-confluence/scripts/confluence_cli.py:307 | the run of whitespace is maximal |
| ConfluenceReduce.MatchAt | skills/gabia-dev-mcp-confluence/scripts/confluence_cli.py:303-318 | a match of any pass starts at a '<' and consumes at least one character |
| ConfluenceReduce.PairAt | skills/gabia-dev-mcp-confluence/scripts/confluence_cli.py:303-317 | a paired-tag match consumes at least one character and stays within the text |
| ConfluenceReduce.BrAt | skills/gabia-dev-mcp-confluence/scripts/confluence_cli.py:307 | a br match consumes at least one character and stays within the text |
| ConfluenceReduce.LinkAt | skills/gabia-dev-mcp-confluence/scripts/confluence_cli.py:312 | a link match consumes at least one character and stays within the text |
| ConfluenceReduce.ListTagAt | skills/gabia-dev-mcp-confluence/scripts/confluence_cli.py:314-315 | a list-tag match consumes at least one character and stays within the text |
| ConfluenceReduce.PreCodeAt | skills/gabia-dev-mcp-confluence/scripts/confluence_cli.py:316 | a pre/code match consumes at least one character and stays within the text |
| ConfluenceReduce.AnyTagAt | skills/gabia-dev-mcp-confluence/scripts/confluence_cli.py:318 | a generic tag match consumes at least one character and stays within the text |
| ConfluenceReduce.Passes | skills/gabia-dev-mcp-confluence/scripts/confluence_cli.py:303-318 | every pass is well formed and the last one removes any tag |
| ConfluenceReduce.ReducedHasNoTag | skills/gabia-dev-mcp-confluence/scripts/confluence_cli.py:300-319 | the reduced text holds no substring of the form '<', a non-'>' character, ..., '>' |
| ConfluenceReduce.LastPassNoTag | skills/gabia-dev-mcp-confluence/scripts/confluence_cli.py:318 | whatever the earlier passes leave, the final tag-removal pass leaves no tag |
| ConfluenceReduce.AnyTagPass | skills/gabia-dev-mcp-confluence/scripts/confluence_cli.py:318 | removing every tag match leaves no tag |
| ConfluenceReduce.NoTagStrip | skills/gabia-dev-mcp-confluence/scripts/confluence_cli.py:319 | stripping whitespace keeps a text tag-free |
| ConfluenceReduce.SubWithoutLt | skills/gabia-dev-mcp-confluence/scripts/confluence_cli.py:303-318 | a pass leaves text without '<' unchanged |
| ConfluenceReduce.RunPassesWithoutLt | skills/gabia-dev-mcp-confluence/scripts/confluence_cli.py:303-318 | all passes together leave text without '<' unchanged |
| ConfluenceReduce.PlainTextReduced | skills/gabia-dev-mcp-confluence/scripts/confluence_cli.py:300-319 | text without '<' reduces to itself with whitespace stripped |
| ConfluenceReduce.PairMatchAt | skills/gabia-dev-mcp-confluence/scripts/confluence_cli.py:303-317 | a paired tag with attributes up to '>' and its first closing tag is replaced by prefix, inner text and suffix |
| ConfluenceReduce.HtmlToMarkdownLight | skills/gabia-dev-mcp-confluence/scripts/confluence_cli.py:300-319 | the reduction passes applied in order to the page body |
| Cron.WeekdayNumber | skills/mac-cron/scripts/cron_manager.py:375-379 | a known day name maps to its number below 7, found back at that index of the table; an unknown token maps to nothing |
| Cron.IndexFrom | skills/mac-cron/scripts/cron_manager.py:375 | the day table searched from a position: a hit is at or after it, a miss means no later entry matches |
| Cron.Apply | skills/mac-cron/scripts/cron_manager.py:377-385 | one token: a day name sets only the weekday (0-6), `H:M` sets only the hour and minute from the two halves (a ValueError otherwise), a digit run sets only the day, anything else changes nothing |
| Cron.ApplyAll | skills/mac-cron/scripts/cron_manager.py:377-387 | the token loop stops at the first ValueError; a schedule it returns has no month and a weekday within the table |
| Cron.ScheduleOf | skills/mac-cron/scripts/cron_manager.py:358-387 | `interval:N` yields a schedule holding only the interval; no result ever has a month; every weekday is in the table |
| Cron.ParseSchedule | skills/mac-cron/scripts/cron_manager.py:358-387 | the method returns exactly the schedule (or the error) of the specification function |
| Cron.IntervalHasColon | skills/mac-cron/scripts/cron_manager.py:369-370 | a text starting with `interval:` splits at `:` into at least two parts, so `split(":")[1]` exists |
| Cron.IntervalRoundTrip | skills/mac-cron/scripts/cron_manager.py:369-371 | `interval:` followed by `str(n)` parses back to the interval `n` and nothing else |
| Cron.LaterTokenWins | skills/mac-cron/scripts/cron_manager.py:377-385 | applying two tokens of the same kind is the same as applying only the second |
| Cron.UnknownTokensIgnored | skills/mac-cron/scripts/cron_manager.py:377-385 | a prefix of unrecognised tokens does not change the result of the loop |
| Cron.TimeTokenRoundTrip | skills/mac-cron/scripts/cron_manager.py:380-383 | `str(h):str(m)` sets exactly that hour and minute |
| Cron.SplitTime | skills/mac-cron/scripts/cron_manager.py:381 | two digit runs joined by `:` split back into those two runs |
| Cron.DayTokenRoundTrip | skills/mac-cron/scripts/cron_manager.py:384-385 | `str(d)` sets exactly that day of the month |
| Cron.TextParts | skills/mac-cron/scripts/cron_manager.py:199-210 | one display part per key present, in the order month, day, weekday, hour, minute |
| Cron.FormatSchedule | skills/mac-cron/scripts/cron_manager.py:194-212 | the appending method yields the display text of the specification function |
| Cron.IntervalHidesCalendar | skills/mac-cron/scripts/cron_manager.py:196-197 | with an interval, every calendar key is ignored by the display |
| Cron.FormatEmpty | skills/mac-cron/scripts/cron_manager.py:212 | without an interval, the display is "설정 없음" exactly when no calendar key is present |
| Cron.ParsedSchedulesFormat | skills/mac-cron/scripts/cron_manager.py:204-206 | every parsed schedule has a weekday the display table can index and at most four calendar parts |
| Cron.PaddedClock | skills/mac-cron/scripts/cron_manager.py:207-210 | hours and minutes below ten are shown with a leading zero (`:02d`) |
| Cron.Entry | skills/mac-cron/scripts/cron_manager.py:85-94 | one `<key>`/`<integer>` entry exactly when the key is present, holding its value |
| Cron.CalendarEntries | skills/mac-cron/scripts/cron_manager.py:84-95 | one calendar entry per key present |
| Cron.CalendarKeys | skills/mac-cron/scripts/cron_manager.py:84-95 | the calendar dict holds Hour, Minute, Weekday, Day and Month entries exactly for the keys present, with their values |
| Cron.IntervalXml | skills/mac-cron/scripts/cron_manager.py:98-103 | the schedule XML starts with `StartInterval` exactly when the schedule has an interval |
| Cron.PlistMatchesDisplay | skills/mac-cron/scripts/cron_manager.py:84-95 | the plist has as many calendar entries as the display has parts |
| Cron.UpdatedFields | skills/mac-cron/scripts/cron_manager.py:278-292 | each given field replaces the old value, every other field is kept, the update time becomes the new time and the creation time is kept |
| Cron.UpdateIdempotent | skills/mac-cron/scripts/cron_manager.py:278-292 | updating twice with the same fields equals updating once at the later time |
| Cron.JobStore.constructor | skills/mac-cron/scripts/cron_manager.py:23-40 | an empty job table with no plists |
| Cron.JobStore.AddJob | skills/mac-cron/scripts/cron_manager.py:137-168 | an existing id is refused and nothing changes; a refused `launchctl load` removes the plist and records nothing; otherwise the plist stays and exactly one new job is recorded with its creation and update times set to the two clock readings taken for them; every recorded job keeps a plist |
| Cron.JobStore.RemoveJob | skills/mac-cron/scripts/cron_manager.py:243-264 | an unknown id is refused and nothing changes; otherwise the job and its plist go and the table shrinks by one |
| Cron.JobStore.UpdateJob | skills/mac-cron/scripts/cron_manager.py:269-316 | an unknown id is refused; the plist is rewritten before `launchctl load`; the table changes only on success, and then only that job, to its updated form |
| Elasticsearch.RelativeOffset | skills/gabia-dev-mcp-elasticsearch/scripts/elasticsearch_cli.py:188-200 | an offset is read only from `now-`, digits and one unit letter, and is that count with that unit |
| Elasticsearch.Before | skills/gabia-dev-mcp-elasticsearch/scripts/elasticsearch_cli.py:191-201 | `now` minus N units succeeds exactly when the month delta of N times 30 days fits a `timedelta` and the instant is not before the year 1, and is then exactly N units before now |
| Elasticsearch.Resolve | skills/gabia-dev-mcp-elasticsearch/scripts/elasticsearch_cli.py:183-204 | text other than `now` and `now-N<unit>` is returned stripped and never fails; a resolved instant is never after now; the only error is the OverflowError of an offset |
| Elasticsearch.ParseTimeRange | skills/gabia-dev-mcp-elasticsearch/scripts/elasticsearch_cli.py:174-206 | the range is given exactly when both ends resolve, and is then the pair of resolved ends |
| Elasticsearch.ResolveRelative | skills/gabia-dev-mcp-elasticsearch/scripts/elasticsearch_cli.py:188-201 | `now-N<unit>` is N units before now, a month being 30 days, or an OverflowError when N times 30 days exceeds 999999999 days (for any unit) or the instant falls before the year 1 |
| Elasticsearch.ResolveStripped | skills/gabia-dev-mcp-elasticsearch/scripts/elasticsearch_cli.py:184 | blanks around a time expression do not matter |
| Elasticsearch.SpaceEnd | skills/gabia-dev-mcp-elasticsearch/scripts/elasticsearch_cli.py:298 | the end of the maximal run of blanks starting at a position |
| Elasticsearch.AndMatch | skills/gabia-dev-mcp-elasticsearch/scripts/elasticsearch_cli.py:298 | a separator match at a position ends after it |
| Elasticsearch.SplitAndFrom | skills/gabia-dev-mcp-elasticsearch/scripts/elasticsearch_cli.py:298 | splitting from a position gives at least one part |
| Elasticsearch.SplitAnd | skills/gabia-dev-mcp-elasticsearch/scripts/elasticsearch_cli.py:298 | splitting at `AND`/`and` surrounded by blanks gives at least one part |
| Elasticsearch.SkipNoMatch | skills/gabia-dev-mcp-elasticsearch/scripts/elasticsearch_cli.py:298 | positions without a separator are passed over |
| Elasticsearch.SplitAndNone | skills/gabia-dev-mcp-elasticsearch/scripts/elasticsearch_cli.py:298 | text without a blank-surrounded `AND` or `and` is one part |
| Elasticsearch.FieldEnd | skills/gabia-dev-mcp-elasticsearch/scripts/elasticsearch_cli.py:306-317 | the end of the maximal run of field characters (`[\w.@-]`) |
| Elasticsearch.FieldAndRest | skills/gabia-dev-mcp-elasticsearch/scripts/elasticsearch_cli.py:306-317 | the field read is a field name, and the text after it starts with no blank |
| Elasticsearch.ValueClause | skills/gabia-dev-mcp-elasticsearch/scripts/elasticsearch_cli.py:309-323 | a value with `*` gives a wildcard on `field.keyword`, any other a `match_phrase` on the field |
| Elasticsearch.ClauseOf | skills/gabia-dev-mcp-elasticsearch/scripts/elasticsearch_cli.py:305-327 | a part that no field pattern reads, in particular one without a colon, is passed to `query_string` as it is |
| Elasticsearch.PartClauses | skills/gabia-dev-mcp-elasticsearch/scripts/elasticsearch_cli.py:300-303 | one part gives at most one clause |
| Elasticsearch.Clauses | skills/gabia-dev-mcp-elasticsearch/scripts/elasticsearch_cli.py:300-327 | no more clauses than parts |
| Elasticsearch.QueryOf | skills/gabia-dev-mcp-elasticsearch/scripts/elasticsearch_cli.py:266-334 | a query is built exactly when the time range resolves, and otherwise the error is the OverflowError; there is no `must` list exactly when the KQL is missing or blank; the time filter uses the field and the resolved bounds |
| Elasticsearch.BuildEsQuery | skills/gabia-dev-mcp-elasticsearch/scripts/elasticsearch_cli.py:266-334 | the method builds exactly the specified query |
| Elasticsearch.ClausesAppend | skills/gabia-dev-mcp-elasticsearch/scripts/elasticsearch_cli.py:300-327 | the clauses of consecutive runs of parts follow each other |
| Elasticsearch.ClausesPrefixStep | skills/gabia-dev-mcp-elasticsearch/scripts/elasticsearch_cli.py:300-327 | the loop adds the clause of each part in turn |
| Elasticsearch.ClausesSnoc | skills/gabia-dev-mcp-elasticsearch/scripts/elasticsearch_cli.py:300-327 | one more part adds its clause at the end |
| Elasticsearch.ClausesFirst | skills/gabia-dev-mcp-elasticsearch/scripts/elasticsearch_cli.py:300-303 | a part that is not blank gives exactly one clause, in its place |
| Elasticsearch.FieldAndRestOf | skills/gabia-dev-mcp-elasticsearch/scripts/elasticsearch_cli.py:306-317 | `field : rest`, with any blanks around the colon, reads as the field and the rest |
| Elasticsearch.FieldAndRestEnds | skills/gabia-dev-mcp-elasticsearch/scripts/elasticsearch_cli.py:306-317 | where the field, the blanks and the colon of `field : rest` end |
| Elasticsearch.FieldAndRestAt | skills/gabia-dev-mcp-elasticsearch/scripts/elasticsearch_cli.py:306-317 | the reading of a part whose field, blanks and colon end at known places |
| Elasticsearch.FieldEndOf | skills/gabia-dev-mcp-elasticsearch/scripts/elasticsearch_cli.py:306-317 | a field name followed by another character ends where the name ends |
| Elasticsearch.SpaceEndOf | skills/gabia-dev-mcp-elasticsearch/scripts/elasticsearch_cli.py:306-317 | a run of blanks followed by a non-blank ends where the run ends |
| Elasticsearch.FieldEndAt | skills/gabia-dev-mcp-elasticsearch/scripts/elasticsearch_cli.py:306-317 | the field run ends at the first non-field character |
| Elasticsearch.SpaceEndAt | skills/gabia-dev-mcp-elasticsearch/scripts/elasticsearch_cli.py:298-306 | the blank run ends at the first non-blank character |
| Elasticsearch.QuotedClause | skills/gabia-dev-mcp-elasticsearch/scripts/elasticsearch_cli.py:306-314 | `field : "value"` tests the value with its quotes removed |
| Elasticsearch.ClauseOfQuoted | skills/gabia-dev-mcp-elasticsearch/scripts/elasticsearch_cli.py:306-314 | a part whose value is quoted tests the unquoted value |
| Elasticsearch.TokenClause | skills/gabia-dev-mcp-elasticsearch/scripts/elasticsearch_cli.py:317-324 | `field : token` tests the token when it is not quoted |
| Elasticsearch.OrIsQueryString | skills/gabia-dev-mcp-elasticsearch/scripts/elasticsearch_cli.py:317-327 | `field : x OR y` is no single field test: it goes to `query_string` as written |
| Elasticsearch.ServiceLogsFirstClause | skills/gabia-dev-mcp-elasticsearch/scripts/elasticsearch_cli.py:407-427 | whenever the query is built, the service test is its first clause, a wildcard on `kubernetes.service-name.keyword` |
| Elasticsearch.ServiceKqlStripped | skills/gabia-dev-mcp-elasticsearch/scripts/elasticsearch_cli.py:410-413 | the service KQL has no blanks at either end |
| Elasticsearch.ServiceTestClause | skills/gabia-dev-mcp-elasticsearch/scripts/elasticsearch_cli.py:410 | the service test clause is a wildcard, since its value holds `*` |
| Elasticsearch.ServiceFieldName | skills/gabia-dev-mcp-elasticsearch/scripts/elasticsearch_cli.py:410 | `kubernetes.service-name` is a field name |
| Elasticsearch.ServiceTestFirstPart | skills/gabia-dev-mcp-elasticsearch/scripts/elasticsearch_cli.py:410-413 | the service KQL splits first right after the service test |
| Elasticsearch.ServiceTestBlanks | skills/gabia-dev-mcp-elasticsearch/scripts/elasticsearch_cli.py:410 | the service test has blanks only around its colon |
| Elasticsearch.NoMatchInServiceTest | skills/gabia-dev-mcp-elasticsearch/scripts/elasticsearch_cli.py:410-413 | no blank inside the service test starts an `AND` separator |
| Elasticsearch.RunEnd | skills/gabia-dev-mcp-elasticsearch/scripts/elasticsearch_cli.py:222-241 | the end of a greedy negated character class |
| Elasticsearch.LazyKql | skills/gabia-dev-mcp-elasticsearch/scripts/elasticsearch_cli.py:235 | the captured KQL holds no quote |
| Elasticsearch.MatchAt | skills/gabia-dev-mcp-elasticsearch/scripts/elasticsearch_cli.py:222-241 | a capture is non-empty except for the KQL one |
| Elasticsearch.FirstMatch | skills/gabia-dev-mcp-elasticsearch/scripts/elasticsearch_cli.py:222-241 | `re.search` finds the leftmost position where the pattern matches, or none when it matches nowhere |
| Elasticsearch.Search | skills/gabia-dev-mcp-elasticsearch/scripts/elasticsearch_cli.py:222-241 | nothing is captured exactly when the pattern matches nowhere |
| Elasticsearch.KibanaOf | skills/gabia-dev-mcp-elasticsearch/scripts/elasticsearch_cli.py:213-247 | no result exactly when no search matches; the space is searched in the URL, the rest in its percent-decoded form |
| Elasticsearch.ParseKibanaUrl | skills/gabia-dev-mcp-elasticsearch/scripts/elasticsearch_cli.py:213-247 | the method fills exactly the specified result |
| Elasticsearch.SpaceShape | skills/gabia-dev-mcp-elasticsearch/scripts/elasticsearch_cli.py:222-224 | a space found is a non-empty run without `/` between `/s/` and `/app/discover` |
| Elasticsearch.SpaceMatchShape | skills/gabia-dev-mcp-elasticsearch/scripts/elasticsearch_cli.py:222 | the same, for a match at a known position |
| Elasticsearch.DiscoverUrlFound | skills/gabia-dev-mcp-elasticsearch/scripts/elasticsearch_cli.py:222-247 | every `/s/<space>/app/discover` makes the result present |
| Elasticsearch.RunEndAt | skills/gabia-dev-mcp-elasticsearch/scripts/elasticsearch_cli.py:222-241 | the greedy run ends at the first stop character |
| Elasticsearch.CaptureClasses | skills/gabia-dev-mcp-elasticsearch/scripts/elasticsearch_cli.py:230-245 | the captured index id, time bounds and KQL keep to their character classes |
| FigmaCli.HeaderValueSpec | skills/gabia-dev-mcp-figma/scripts/figma_cli.py:54-59 | no value exactly when no key matches the name in any case; otherwise the value of the first key that does |
| FigmaCli.HeaderNameCase | skills/gabia-dev-mcp-figma/scripts/figma_cli.py:57 | asking with a name in another case gives the same answer |
| FigmaCli.GetHeader | skills/gabia-dev-mcp-figma/scripts/figma_cli.py:54-59 | the loop over the keys returns exactly the specified value |
| FigmaCli.RetryText | skills/gabia-dev-mcp-figma/scripts/figma_cli.py:61 | the text `int()` reads is never empty: the header, or `60` when it is absent or empty |
| FigmaCli.InfoOf | skills/gabia-dev-mcp-figma/scripts/figma_cli.py:61-71 | the record fails exactly when `int()` cannot read the retry text, and otherwise carries the three other header values unchanged |
| FigmaCli.ParseRateLimitHeaders | skills/gabia-dev-mcp-figma/scripts/figma_cli.py:51-71 | the method builds exactly the specified record, or the `int()` error |
| FigmaCli.RetryDefault | skills/gabia-dev-mcp-figma/scripts/figma_cli.py:61 | with no Retry-After value, or an empty one, the wait is 60 seconds |
| FigmaCli.RetryGiven | skills/gabia-dev-mcp-figma/scripts/figma_cli.py:61 | a Retry-After value holding a number is read as that number |
| FigmaCli.AbsentHeader | skills/gabia-dev-mcp-figma/scripts/figma_cli.py:56-59 | a header that no key matches, in any case, stays `None` |
| FigmaCli.SeatOf | skills/gabia-dev-mcp-figma/scripts/figma_cli.py:36 | the seat description is the View/Collaborator one exactly for the `low` type |
| FigmaCli.MessageParts | skills/gabia-dev-mcp-figma/scripts/figma_cli.py:32-39 | the retry sentence first, then one part for each optional field that is given |
| FigmaCli.MessageStartsWithRetry | skills/gabia-dev-mcp-figma/scripts/figma_cli.py:32-40 | the message always starts with the retry sentence |
| FigmaCli.MessageBare | skills/gabia-dev-mcp-figma/scripts/figma_cli.py:32-40 | with nothing optional given the message is the retry sentence alone |
| FigmaCli.MessageFull | skills/gabia-dev-mcp-figma/scripts/figma_cli.py:32-40 | with everything given, the four parts appear in order, separated by ` \| ` |
| FigmaCli.OptJson | skills/gabia-dev-mcp-figma/scripts/figma_cli.py:23-29 | an absent value becomes null, and only then |
| FigmaCli.ToDict | skills/gabia-dev-mcp-figma/scripts/figma_cli.py:23-29 | the dict has exactly the four keys, in order |
| FigmaCli.ToDictRoundTrip | skills/gabia-dev-mcp-figma/scripts/figma_cli.py:23-29 | `to_dict` loses nothing: the record can be read back from it |
| FigmaCli.ApplySuffix | skills/gabia-dev-mcp-figma/scripts/figma_cli.py:246-254 | the name is unchanged exactly when the suffix is not given or already in it; otherwise the suffix is added with one dash |
| FigmaCli.ApplySuffixBeforeDot | skills/gabia-dev-mcp-figma/scripts/figma_cli.py:251-253 | the extension after the last dot is kept, and the suffix sits right before it |
| FigmaCli.ApplySuffixAtEnd | skills/gabia-dev-mcp-figma/scripts/figma_cli.py:254 | without a dot past the first character, the suffix is appended |
| FigmaCli.ApplySuffixIdempotent | skills/gabia-dev-mcp-figma/scripts/figma_cli.py:246-254 | applying the same suffix twice is applying it once |
| FigmaCli.NodeItems | skills/gabia-dev-mcp-figma/scripts/figma_cli.py:263-270 | no more items are kept than given |
| FigmaCli.NodeItemsMembers | skills/gabia-dev-mcp-figma/scripts/figma_cli.py:264-270 | the kept items are exactly the dicts with a non-empty string `fileName` |
| FigmaCli.NodeItemsAppend | skills/gabia-dev-mcp-figma/scripts/figma_cli.py:264-270 | keeping items commutes with concatenation, so the kept items stay in input order |
| FigmaCli.ReadNodesOf | skills/gabia-dev-mcp-figma/scripts/figma_cli.py:257-273 | success only with a path, a list and at least one kept item, which are exactly the kept items; otherwise one of the three errors |
| FigmaCli.ReadNodes | skills/gabia-dev-mcp-figma/scripts/figma_cli.py:257-273 | the loop yields exactly the specified items or error |
| FigmaCli.ItemName | skills/gabia-dev-mcp-figma/scripts/figma_cli.py:289-291 | a file name is produced only from a string `fileName` |
| FigmaCli.ItemsOf | skills/gabia-dev-mcp-figma/scripts/figma_cli.py:287-300 | at most one item per node, each with a non-empty file name |
| FigmaCli.BuildItems | skills/gabia-dev-mcp-figma/scripts/figma_cli.py:287-300 | the loop yields exactly the specified items or error |
| FigmaCli.ItemsErrStays | skills/gabia-dev-mcp-figma/scripts/figma_cli.py:288-300 | once a node fails, the whole list fails with the same error |
| FigmaCli.NodeLands | skills/gabia-dev-mcp-figma/scripts/figma_cli.py:339-340 | a string node id is rendered as SVG when its file name ends with `.svg` in any case, and as PNG otherwise |
| FigmaCli.NodesPartition | skills/gabia-dev-mcp-figma/scripts/figma_cli.py:339-340 | every string node id lands in exactly one of the two lists, each as often as it occurs |
| FigmaCli.HeaderValue | skills/gabia-dev-mcp-figma/scripts/figma_cli.py:54-59 | the value of the first header whose name matches ignoring case |
| FigmaCli.Message | skills/gabia-dev-mcp-figma/scripts/figma_cli.py:31-40 | the retry message, then the plan tier, limit type and upgrade parts that are given, joined with a vertical bar between blanks |
| FigmaDoc.GetDefault | skills/gabia-dev-mcp-figma/scripts/figma_doc.py:160-170 | `d.get(k, default)` is the default or one of the dict's values |
| FigmaDoc.ChildrenOf | skills/gabia-dev-mcp-figma/scripts/figma_doc.py:180 | a non-empty children list is the value of one of the node's keys |
| FigmaDoc.FrameInfos | skills/gabia-dev-mcp-figma/scripts/figma_doc.py:166-174 | one frame record per recorded node |
| FigmaDoc.FrameInfosAppend | skills/gabia-dev-mcp-figma/scripts/figma_doc.py:181-182 | the records of two runs of nodes follow each other |
| FigmaDoc.CollectFrames | skills/gabia-dev-mcp-figma/scripts/figma_doc.py:157-184 | the recursive method yields exactly the specified frames, or the first error |
| FigmaDoc.CollectChildren | skills/gabia-dev-mcp-figma/scripts/figma_doc.py:180-182 | the loop over the children yields exactly the specified frames, or the first error |
| FigmaDoc.CollectedListErr | skills/gabia-dev-mcp-figma/scripts/figma_doc.py:181-182 | a child that fails makes the whole walk fail |
| FigmaDoc.ErrExtends | skills/gabia-dev-mcp-figma/scripts/figma_doc.py:181-182 | a failure among the first children is the failure of all of them |
| FigmaDoc.CollectedAreFrames | skills/gabia-dev-mcp-figma/scripts/figma_doc.py:164 | only frames, components and component sets are recorded |
| FigmaDoc.CollectedListAreFrames | skills/gabia-dev-mcp-figma/scripts/figma_doc.py:181-182 | the same, for a list of children |
| FigmaDoc.RootNotRecorded | skills/gabia-dev-mcp-figma/scripts/figma_doc.py:163-164 | the root (depth 0) is never recorded: what comes back is its children's frames |
| FigmaDoc.DeepFrameIsLeaf | skills/gabia-dev-mcp-figma/scripts/figma_doc.py:176-177 | a frame recorded at or below `max_depth` contributes nothing beneath it |
| FigmaDoc.ShallowFrameThenChildren | skills/gabia-dev-mcp-figma/scripts/figma_doc.py:164-182 | a frame above `max_depth` comes first, then everything found beneath it |
| FigmaDoc.OtherNodesDescend | skills/gabia-dev-mcp-figma/scripts/figma_doc.py:180-182 | any other node is walked through, recording nothing itself, and a canvas hands its own name to its children |
| FigmaDoc.FrameDefaults | skills/gabia-dev-mcp-figma/scripts/figma_doc.py:161-173 | any frame node with no id, name or bounding box gets `""`, `Untitled`, 0 and 0 |
| FigmaDoc.FrameFields | skills/gabia-dev-mcp-figma/scripts/figma_doc.py:165-171 | a frame node's id and name are its own, and its width and height those of its bounding box |
| FigmaDoc.GetDefaultLookup | skills/gabia-dev-mcp-figma/scripts/figma_doc.py:159-160 | `d.get(k, default)` is the value stored under `k`, or the default when `k` is missing |
| FigmaDoc.DropRun | skills/gabia-dev-mcp-figma/scripts/figma_doc.py:190-192 | what is left after a leading run starts with no character of the class |
| FigmaDoc.Squash | skills/gabia-dev-mcp-figma/scripts/figma_doc.py:190-192 | every maximal run of the class becomes one `_`; other characters are kept |
| FigmaDoc.SquashedSingles | skills/gabia-dev-mcp-figma/scripts/figma_doc.py:192 | after squashing underscores no two are adjacent |
| FigmaDoc.SquashNone | skills/gabia-dev-mcp-figma/scripts/figma_doc.py:190 | a text without characters of the class is left as it is |
| FigmaDoc.SquashSingles | skills/gabia-dev-mcp-figma/scripts/figma_doc.py:192 | lone underscores are each their own run |
| FigmaDoc.NoDoubleTail | skills/gabia-dev-mcp-figma/scripts/figma_doc.py:192 | a text without `__` has none after its first character either |
| FigmaDoc.LoneUnderscoreRun | skills/gabia-dev-mcp-figma/scripts/figma_doc.py:192 | a lone `_` is a run of one |
| FigmaDoc.SanitizeClean | skills/gabia-dev-mcp-figma/scripts/figma_doc.py:187-193 | the output has no unsafe character, no `__`, and no `_` at either end |
| FigmaDoc.StrippedClean | skills/gabia-dev-mcp-figma/scripts/figma_doc.py:193 | stripping `_` from both ends of a safe text without `__` makes it clean |
| FigmaDoc.SquashedSafe | skills/gabia-dev-mcp-figma/scripts/figma_doc.py:190-192 | squashing both classes leaves no unsafe character |
| FigmaDoc.InnerClean | skills/gabia-dev-mcp-figma/scripts/figma_doc.py:193 | a piece cut from the middle of a safe text, with no `_` at either end, is clean |
| FigmaDoc.SanitizeIdempotent | skills/gabia-dev-mcp-figma/scripts/figma_doc.py:187-193 | sanitizing twice is sanitizing once |
| FigmaDoc.Chunks | skills/gabia-dev-mcp-figma/scripts/figma_doc.py:366-367 | every batch is non-empty and holds at most the batch size |
| FigmaDoc.ChunksConcat | skills/gabia-dev-mcp-figma/scripts/figma_doc.py:366-367 | the batches, put back together, are the ids |
| FigmaDoc.ChunksCount | skills/gabia-dev-mcp-figma/scripts/figma_doc.py:365-367 | there are `(n + size - 1) // size` batches, the reported total |
| FigmaDoc.RenderBatches | skills/gabia-dev-mcp-figma/scripts/figma_doc.py:362-378 | the loop yields exactly the specified batches |
| FigmaDoc.SuffixAt | skills/gabia-dev-mcp-figma/scripts/figma_doc.py:607 | pathlib's suffix starts at the last dot, when it is neither first nor last |
| FigmaDoc.StemSuffix | skills/gabia-dev-mcp-figma/scripts/figma_doc.py:607 | stem and suffix together are the file name |
| FigmaDoc.DropNumber | skills/gabia-dev-mcp-figma/scripts/figma_doc.py:608 | dropping the number prefix never lengthens the stem |
| FigmaDoc.DisplayNameShape | skills/gabia-dev-mcp-figma/scripts/figma_doc.py:608-609 | a display name has no underscore and no blank at either end |
| FigmaDoc.ReplacedAway | skills/gabia-dev-mcp-figma/scripts/figma_doc.py:609 | replacing `_` by a space leaves no `_` |
| FigmaDoc.DisplayNameUnnumbered | skills/gabia-dev-mcp-figma/scripts/figma_doc.py:608-609 | a stem that does not start with a digit keeps all of it before the underscores are replaced |
| FigmaDoc.Zeros | skills/gabia-dev-mcp-figma/scripts/figma_doc.py:612 | a run of n zeros |
| FigmaDoc.Pad3 | skills/gabia-dev-mcp-figma/scripts/figma_doc.py:612 | `{n:03d}` has at least three characters, all digits |
| FigmaDoc.ZerosValue | skills/gabia-dev-mcp-figma/scripts/figma_doc.py:612 | leading zeros do not change a number's value |
| FigmaDoc.ZerosOnly | skills/gabia-dev-mcp-figma/scripts/figma_doc.py:612 | a run of zeros is worth 0 |
| FigmaDoc.Pad3Value | skills/gabia-dev-mcp-figma/scripts/figma_doc.py:612 | the padded number reads back as the number |
| FigmaDoc.OutFileNamesDiffer | skills/gabia-dev-mcp-figma/scripts/figma_doc.py:605-612 | different positions give different output file names |
| FigmaDoc.NumberedDiffer | skills/gabia-dev-mcp-figma/scripts/figma_doc.py:612 | different numbers give different names, whatever follows |
| FigmaDoc.NumberBeforeUnderscore | skills/gabia-dev-mcp-figma/scripts/figma_doc.py:612 | two digit strings each followed by `_` start equal texts only when they are equal |
| FigmaDoc.FirstUnderscore | skills/gabia-dev-mcp-figma/scripts/figma_doc.py:612 | in digits followed by `_`, the first `_` is right after the digits |
| FigmaDoc.BuildNames | skills/gabia-dev-mcp-figma/scripts/figma_doc.py:604-624 | one pair per image, in order: the display name of its stem and its numbered output file name |
| FigmaDoc.Sanitize | skills/gabia-dev-mcp-figma/scripts/figma_doc.py:187-193 | runs of unsafe characters and blanks become one `_`, runs of `_` are squashed, and `_` is stripped from both ends |
| FigmaDoc.DisplayName | skills/gabia-dev-mcp-figma/scripts/figma_doc.py:608-609 | the stem without its number prefix (the whole stem when nothing is left), with `_` read as a space, stripped |
| FigmaDoc.BatchesOf | skills/gabia-dev-mcp-figma/scripts/figma_doc.py:362-367 | the consecutive batches of `batch_size` ids, the error of a zero size, and no batch for a negative size |
| Gitlab.EncodeProjectId | skills/gabia-dev-mcp-gitlab-issues/scripts/gitlab_issue_cli.py:40-42 | an encoded project id holds no `/`, so it is one path segment |
| Gitlab.EncodeIdempotent | skills/gabia-dev-mcp-gitlab-issues/scripts/gitlab_issue_cli.py:40-42 | encoding an encoded id changes nothing more |
| Gitlab.EncodePlainId | skills/gabia-dev-mcp-gitlab-issues/scripts/gitlab_issue_cli.py:40-42 | an id without `%` is simply quoted, and unquoting gives it back |
| Gitlab.PaginationDefaults | skills/gabia-dev-mcp-gitlab-issues/scripts/gitlab_issue_cli.py:72-85 | a header that is missing or not an integer gives its default: 1, 20, 0, 0 |
| Gitlab.PaginationRoundTrip | skills/gabia-dev-mcp-gitlab-issues/scripts/gitlab_issue_cli.py:72-85 | headers holding the numbers in decimal are read back exactly |
| Gitlab.ParseParam | skills/gabia-dev-mcp-gitlab-issues/scripts/gitlab_issue_cli.py:166-171 | a missing `=` or an empty key is an error, exactly, whose message quotes the parameter with `repr`; otherwise key and value split at the first `=` and join back to the parameter |
| Gitlab.ParamRoundTrip | skills/gabia-dev-mcp-gitlab-issues/scripts/gitlab_issue_cli.py:168-171 | a key without `=` and any value make a parameter that reads back as themselves |
| Gitlab.ParseParams | skills/gabia-dev-mcp-gitlab-issues/scripts/gitlab_issue_cli.py:165-171 | one pair per parameter, in order, or the first error |
| Gitlab.ParseParamsSpec | skills/gabia-dev-mcp-gitlab-issues/scripts/gitlab_issue_cli.py:165-171 | the parameters fail exactly when one is malformed, and otherwise each is its own split |
| Gitlab.ParamsPrefixErr | skills/gabia-dev-mcp-gitlab-issues/scripts/gitlab_issue_cli.py:165-171 | a bad parameter fails the whole list with its error |
| Gitlab.AppendParams | skills/gabia-dev-mcp-gitlab-issues/scripts/gitlab_issue_cli.py:165-171 | the loop appends exactly the parsed pairs, or stops with the first error |
| Gitlab.Present | skills/gabia-dev-mcp-gitlab-issues/scripts/gitlab_issue_cli.py:125-128 | no more entries than options |
| Gitlab.PresentMembers | skills/gabia-dev-mcp-gitlab-issues/scripts/gitlab_issue_cli.py:125-128 | an entry is kept exactly when its option was given with that value |
| Gitlab.PresentNone | skills/gabia-dev-mcp-gitlab-issues/scripts/gitlab_issue_cli.py:125-128 | options none of which was given leave nothing |
| Gitlab.PresentOnly | skills/gabia-dev-mcp-gitlab-issues/scripts/gitlab_issue_cli.py:125-128 | an option whose name no other has is sent, with its value, exactly when it was given |
| Gitlab.PresentKeys | skills/gabia-dev-mcp-gitlab-issues/scripts/gitlab_issue_cli.py:192-214 | a payload holds keys for the given options, in order, and no others |
| Gitlab.KeysAppend | skills/gabia-dev-mcp-gitlab-issues/scripts/gitlab_issue_cli.py:192-214 | the keys of two runs of entries follow each other |
| Gitlab.PresentLookup | skills/gabia-dev-mcp-gitlab-issues/scripts/gitlab_issue_cli.py:192-214 | with distinct names, reading a key gives its option's value; an option not given has no key |
| Gitlab.GivenNamesFrom | skills/gabia-dev-mcp-gitlab-issues/scripts/gitlab_issue_cli.py:192-214 | every given name is the name of an option |
| Gitlab.PresentKeysOf | skills/gabia-dev-mcp-gitlab-issues/scripts/gitlab_issue_cli.py:192-214 | a name is a key exactly when it is a given name |
| Gitlab.LookupAppend | skills/gabia-dev-mcp-gitlab-issues/scripts/gitlab_issue_cli.py:104-114 | reading a key of two runs of entries looks in the first run first |
| Gitlab.AddAll | skills/gabia-dev-mcp-gitlab-issues/scripts/gitlab_issue_cli.py:136-163 | the sequence of `add` calls appends exactly the given options |
| Gitlab.BoolText | skills/gabia-dev-mcp-gitlab-issues/scripts/gitlab_issue_cli.py:142 | `str(bool(x)).lower()` is `true` exactly for a true switch |
| Gitlab.Each | skills/gabia-dev-mcp-gitlab-issues/scripts/gitlab_issue_cli.py:137-138 | one pair per value, in order, all under the same name |
| Gitlab.AppendEach | skills/gabia-dev-mcp-gitlab-issues/scripts/gitlab_issue_cli.py:137-138 | the loop appends exactly one pair per value |
| Gitlab.ValuesAppend | skills/gabia-dev-mcp-gitlab-issues/scripts/gitlab_issue_cli.py:137-138 | the values under a name of two runs follow each other |
| Gitlab.ValuesOfEach | skills/gabia-dev-mcp-gitlab-issues/scripts/gitlab_issue_cli.py:137-138 | each value becomes its own pair, in order |
| Gitlab.ValuesOfOthers | skills/gabia-dev-mcp-gitlab-issues/scripts/gitlab_issue_cli.py:136-163 | options with other names contribute no value under a name |
| Gitlab.PaginationOf | skills/gabia-dev-mcp-gitlab-issues/scripts/gitlab_issue_cli.py:72-85 | the four pagination headers read as integers, with the defaults 1, 20, 0 and 0 for missing or malformed values |
| GitlabIssues.ListPath | skills/gabia-dev-mcp-gitlab-issues/scripts/gitlab_issue_cli.py:130-134 | project issues when a non-empty project id is given, all visible issues otherwise |
| GitlabIssues.BuildListParams | skills/gabia-dev-mcp-gitlab-issues/scripts/gitlab_issue_cli.py:123-171 | the method fills exactly the specified parameter list, or the first `--param` error |
| GitlabIssues.OptionNamesDiffer | skills/gabia-dev-mcp-gitlab-issues/scripts/gitlab_issue_cli.py:136-163 | no single-valued option is named `assignee_username[]` |
| GitlabIssues.ListQueryMembers | skills/gabia-dev-mcp-gitlab-issues/scripts/gitlab_issue_cli.py:136-163 | a pair under any other name is sent exactly when that option was given with that value |
| GitlabIssues.ListAssignees | skills/gabia-dev-mcp-gitlab-issues/scripts/gitlab_issue_cli.py:137-138 | each assignee username is its own `assignee_username[]` pair, in order, and no other pair has that name |
| GitlabIssues.RestOnce | skills/gabia-dev-mcp-gitlab-issues/scripts/gitlab_issue_cli.py:139-163 | the single-valued options after the usernames have distinct names |
| GitlabIssues.NotInLead | skills/gabia-dev-mcp-gitlab-issues/scripts/gitlab_issue_cli.py:136-163 | the pairs of the usernames and of `assignee_id` are named otherwise |
| GitlabIssues.ListSwitches | skills/gabia-dev-mcp-gitlab-issues/scripts/gitlab_issue_cli.py:141-161 | a given switch is sent as `true` or `false`; a switch left unset is not sent |
| GitlabIssues.ListLabels | skills/gabia-dev-mcp-gitlab-issues/scripts/gitlab_issue_cli.py:146-147 | labels are sent once, joined with `,`, and only when some were given |
| GitlabIssues.ListExtras | skills/gabia-dev-mcp-gitlab-issues/scripts/gitlab_issue_cli.py:165-171 | the extras fail the command exactly when one is malformed; otherwise they follow the options, each split at its first `=` |
| GitlabIssues.IntArray | skills/gabia-dev-mcp-gitlab-issues/scripts/gitlab_issue_cli.py:107-108 | a list of ids as a JSON list of integers, in order |
| GitlabIssues.BuildCreatePayload | skills/gabia-dev-mcp-gitlab-issues/scripts/gitlab_issue_cli.py:104-114 | the method fills exactly the specified body |
| GitlabIssues.CreateFields | skills/gabia-dev-mcp-gitlab-issues/scripts/gitlab_issue_cli.py:104-114 | the body starts with the title, and each optional key holds its option exactly when it is given (labels joined with `,`) |
| GitlabIssues.BuildUpdatePayload | skills/gabia-dev-mcp-gitlab-issues/scripts/gitlab_issue_cli.py:192-214 | the method fills exactly the specified body |
| GitlabIssues.UpdateFields | skills/gabia-dev-mcp-gitlab-issues/scripts/gitlab_issue_cli.py:192-214 | the body has a key for each given option and for nothing else, each reading back as given |
| GitlabIssues.UpdateNothing | skills/gabia-dev-mcp-gitlab-issues/scripts/gitlab_issue_cli.py:192-214 | an update with no options sends the empty body |
| GitlabIssues.IntStrs | skills/gabia-dev-mcp-gitlab-issues/scripts/gitlab_issue_cli.py:325-326 | `str(iid)` for each iid, in order |
| GitlabIssues.BuildMilestoneParams | skills/gabia-dev-mcp-gitlab-issues/scripts/gitlab_issue_cli.py:318-333 | the method fills exactly the specified parameter list |
| GitlabIssues.MilestoneIids | skills/gabia-dev-mcp-gitlab-issues/scripts/gitlab_issue_cli.py:325-326 | each iid is its own `iids[]` pair, in order, written in decimal |
| GitlabIssues.MilestoneNames | skills/gabia-dev-mcp-gitlab-issues/scripts/gitlab_issue_cli.py:327-333 | no other option is named `iids[]` |
| GitlabIssues.MilestoneOptionsSent | skills/gabia-dev-mcp-gitlab-issues/scripts/gitlab_issue_cli.py:327-333 | the other pairs are exactly the given options |
| GitlabIssues.ListQuery | skills/gabia-dev-mcp-gitlab-issues/scripts/gitlab_issue_cli.py:120-163 | the query of `list`: each option that was given, in the order the code adds it |
| GitlabIssues.CreatePayload | skills/gabia-dev-mcp-gitlab-issues/scripts/gitlab_issue_cli.py:98-117 | the body of `create`: the title, then the options that were given |
| GitlabIssues.UpdatePayload | skills/gabia-dev-mcp-gitlab-issues/scripts/gitlab_issue_cli.py:186-217 | the body of `update`: only the options that were given |
| GitlabMergeRequests.BranchLookup | skills/gabia-dev-mcp-gitlab-merge-requests/scripts/gitlab_mr_cli.py:111-115 | the lookup by source branch sends exactly that branch, a missing one as the text `None` |
| GitlabMergeRequests.GetRequest | skills/gabia-dev-mcp-gitlab-merge-requests/scripts/gitlab_mr_cli.py:102-115 | an error exactly when neither id nor branch is given; by id when an id is given, by branch otherwise |
| GitlabMergeRequests.BranchMatch | skills/gabia-dev-mcp-gitlab-merge-requests/scripts/gitlab_mr_cli.py:116-120 | the first merge request found, or `null` |
| GitlabMergeRequests.BranchMatchNull | skills/gabia-dev-mcp-gitlab-merge-requests/scripts/gitlab_mr_cli.py:116-120 | `null` only when nothing was found or the first match is itself `null` |
| GitlabMergeRequests.DiffsIid | skills/gabia-dev-mcp-gitlab-merge-requests/scripts/gitlab_mr_cli.py:127-134 | a given id is used as it is; a branch lookup that finds nothing is an error, and so is a first match that is not a dict; otherwise `str` of the first match's `iid` (the decimal text of an integer) |
| GitlabMergeRequests.DiffsMissingIid | skills/gabia-dev-mcp-gitlab-merge-requests/scripts/gitlab_mr_cli.py:134 | a first match without `iid` reads the changes of merge request `None` |
| GitlabMergeRequests.DiffsRequest | skills/gabia-dev-mcp-gitlab-merge-requests/scripts/gitlab_mr_cli.py:136-139 | the changes path of the iid, and the `view` pair exactly when a view is given |
| GitlabMergeRequests.DiffsOutput | skills/gabia-dev-mcp-gitlab-merge-requests/scripts/gitlab_mr_cli.py:141-144 | the `changes` of a dict that has them, the whole answer otherwise |
| GitlabMergeRequests.DiscussionParams | skills/gabia-dev-mcp-gitlab-merge-requests/scripts/gitlab_mr_cli.py:151-155 | a pair for each given page option, with its digits, `page` first |
| GitlabMergeRequests.BuildCreatePayload | skills/gabia-dev-mcp-gitlab-merge-requests/scripts/gitlab_mr_cli.py:173-195 | the method fills exactly the specified body |
| GitlabMergeRequests.OptionLookup | skills/gabia-dev-mcp-gitlab-merge-requests/scripts/gitlab_mr_cli.py:178-195 | an option's key reads its option's value when the name is not one of the fixed keys |
| GitlabMergeRequests.CreateDistinct | skills/gabia-dev-mcp-gitlab-merge-requests/scripts/gitlab_mr_cli.py:178-195 | the optional keys are distinct and none is a fixed key |
| GitlabMergeRequests.RequiredFirst | skills/gabia-dev-mcp-gitlab-merge-requests/scripts/gitlab_mr_cli.py:173-177 | the fixed keys come first and read back as given, whatever follows |
| GitlabMergeRequests.CreateRequired | skills/gabia-dev-mcp-gitlab-merge-requests/scripts/gitlab_mr_cli.py:173-177 | the body starts with the title and the two branches, as given |
| GitlabMergeRequests.CreateFields | skills/gabia-dev-mcp-gitlab-merge-requests/scripts/gitlab_mr_cli.py:178-195 | each optional key holds its option exactly when it is given: lists only when non-empty, labels joined with `,`, switches as booleans |
| GitlabMergeRequests.BuildListParams | skills/gabia-dev-mcp-gitlab-merge-requests/scripts/gitlab_mr_cli.py:205-245 | the method fills exactly the specified parameter list, or the first `--param` error |
| GitlabMergeRequests.ListOptionsSent | skills/gabia-dev-mcp-gitlab-merge-requests/scripts/gitlab_mr_cli.py:212-237 | the query holds a pair exactly for each option that was given, with its text |
| GitlabMergeRequests.ListLabels | skills/gabia-dev-mcp-gitlab-merge-requests/scripts/gitlab_mr_cli.py:222-223 | labels are sent once, joined with `,`, and only when some were given |
| GitlabMergeRequests.ListExtras | skills/gabia-dev-mcp-gitlab-merge-requests/scripts/gitlab_mr_cli.py:239-245 | the extras fail the command exactly when one is malformed, and otherwise follow the options in order |
| Mattermost.NonEmpty | skills/gabia-dev-mcp-mattermost/scripts/mattermost_cli.py:134 | the segments kept are exactly the non-empty ones |
| Mattermost.NonEmptyKeeps | skills/gabia-dev-mcp-mattermost/scripts/mattermost_cli.py:134 | a list without empty segments is kept whole |
| Mattermost.FirstKeyword | skills/gabia-dev-mcp-mattermost/scripts/mattermost_cli.py:137-138 | the index of the first keyword segment, compared case-insensitively, or -1 when there is none |
| Mattermost.FromKeyword | skills/gabia-dev-mcp-mattermost/scripts/mattermost_cli.py:139 | the segments from the first keyword on are segments of the path |
| Mattermost.ParseTeam | skills/gabia-dev-mcp-mattermost/scripts/mattermost_cli.py:143-160 | a team link names the team, and its board, view and card stand at their places in the path |
| Mattermost.ParseBoard | skills/gabia-dev-mcp-mattermost/scripts/mattermost_cli.py:162-176 | a board or shared link names board, view and card at their places, and no team |
| Mattermost.ParseWorkspace | skills/gabia-dev-mcp-mattermost/scripts/mattermost_cli.py:178-194 | a workspace link names board, view and card at their places; the workspace id is not kept |
| Mattermost.ParseSegments | skills/gabia-dev-mcp-mattermost/scripts/mattermost_cli.py:196-205 | a card is found only under a keyword head, has a team exactly for a team link, and needs at least four segments |
| Mattermost.ParseBoardCardUrl | skills/gabia-dev-mcp-mattermost/scripts/mattermost_cli.py:131-207 | nothing when `urlparse` fails (the exception is caught); a card found from a link has a view, and none of its ids holds a slash |
| Mattermost.CardOfPath | skills/gabia-dev-mcp-mattermost/scripts/mattermost_cli.py:134-205 | a card found from a path has a view, and its board id holds no slash |
| Mattermost.SegmentsHaveNoSlash | skills/gabia-dev-mcp-mattermost/scripts/mattermost_cli.py:134-139 | no segment holds a slash |
| Mattermost.ParseIgnoresTrailing | skills/gabia-dev-mcp-mattermost/scripts/mattermost_cli.py:143-194 | segments after a recognised card change nothing |
| Mattermost.FromKeywordDropsPrefix | skills/gabia-dev-mcp-mattermost/scripts/mattermost_cli.py:138-139 | segments before the first keyword are dropped |
| Mattermost.NoKeywordNoCard | skills/gabia-dev-mcp-mattermost/scripts/mattermost_cli.py:139-205 | a path without any keyword segment names no card |
| Mattermost.TeamCard | skills/gabia-dev-mcp-mattermost/scripts/mattermost_cli.py:155-160 | `team/T/B/V/C` names board B, card C, view V and team T |
| Mattermost.TeamSharedCard | skills/gabia-dev-mcp-mattermost/scripts/mattermost_cli.py:148-154 | `team/T/shared/B/V/C` names board B, card C, view V and team T |
| Mattermost.BoardCard | skills/gabia-dev-mcp-mattermost/scripts/mattermost_cli.py:162-176 | `board/B/V/C` and `shared/B/V/C` name board B, card C, view V and no team |
| Mattermost.WorkspaceCard | skills/gabia-dev-mcp-mattermost/scripts/mattermost_cli.py:189-194 | `workspace/W/B/V/C` names board B, card C, view V and no team |
| Mattermost.WorkspaceSharedCard | skills/gabia-dev-mcp-mattermost/scripts/mattermost_cli.py:182-188 | `workspace/W/shared/B/V/C` names board B, card C, view V and no team |
| Mattermost.CardUrl | skills/gabia-dev-mcp-mattermost/scripts/mattermost_cli.py:133-134 | an `https` link with a bracket-free host and a plain path is read by its path |
| Mattermost.CardUrlUnbalanced | skills/gabia-dev-mcp-mattermost/scripts/mattermost_cli.py:131-207 | a link whose host has a bracket without its partner names no card, whatever its path |
| Mattermost.CardOfSegments | skills/gabia-dev-mcp-mattermost/scripts/mattermost_cli.py:134-139 | a path made of the given segments is read by those segments, from the first keyword on |
| Mattermost.PathOfSegments | skills/gabia-dev-mcp-mattermost/scripts/mattermost_cli.py:133 | the joined segments make a plain path |
| Mattermost.SplitOfSegments | skills/gabia-dev-mcp-mattermost/scripts/mattermost_cli.py:134 | splitting the joined path gives back an empty head and the segments |
| Mattermost.SplitLeadingSlash | skills/gabia-dev-mcp-mattermost/scripts/mattermost_cli.py:134 | a leading slash splits off one empty segment |
| Mattermost.OrderIdsAppend | skills/gabia-dev-mcp-mattermost/scripts/mattermost_cli.py:263-264 | collecting over two lists in turn is collecting over each |
| Mattermost.OrderIdsOfStrings | skills/gabia-dev-mcp-mattermost/scripts/mattermost_cli.py:245-247 | a flat list of strings is collected as it is |
| Mattermost.NestedOrderIds | skills/gabia-dev-mcp-mattermost/scripts/mattermost_cli.py:248-250 | a nested list is collected as its items spliced into place |
| Mattermost.OtherValuesIgnored | skills/gabia-dev-mcp-mattermost/scripts/mattermost_cli.py:245-250 | values that are neither strings nor lists add nothing |
| Mattermost.IdCollector.constructor | skills/gabia-dev-mcp-mattermost/scripts/mattermost_cli.py:262 | the collector starts empty |
| Mattermost.IdCollector.Collect | skills/gabia-dev-mcp-mattermost/scripts/mattermost_cli.py:245-250 | the collector gains exactly the ids of the element, appended in order |
| Mattermost.ExtractContentOrder | skills/gabia-dev-mcp-mattermost/scripts/mattermost_cli.py:253-265 | the method yields exactly the specified content order: none without a card, a dict `fields` or a list `contentOrder` |
| Mattermost.ContentOrderOfList | skills/gabia-dev-mcp-mattermost/scripts/mattermost_cli.py:253-265 | a card whose content order is a list of ids gives those ids |
| Mattermost.Insert | skills/gabia-dev-mcp-mattermost/scripts/mattermost_cli.py:273 | inserting adds the block and nothing else |
| Mattermost.SortByCreated | skills/gabia-dev-mcp-mattermost/scripts/mattermost_cli.py:273 | the sort by `createAt or 0` rearranges the blocks and nothing else |
| Mattermost.InsertSorted | skills/gabia-dev-mcp-mattermost/scripts/mattermost_cli.py:273 | inserting into a sorted list keeps it sorted |
| Mattermost.InsertAbove | skills/gabia-dev-mcp-mattermost/scripts/mattermost_cli.py:273 | a lower bound of the keys survives an insertion above it |
| Mattermost.SortedSorted | skills/gabia-dev-mcp-mattermost/scripts/mattermost_cli.py:273 | the sorted list is ordered by creation time |
| Mattermost.InsertStable | skills/gabia-dev-mcp-mattermost/scripts/mattermost_cli.py:273 | inserting adds the block in front of the blocks with its key |
| Mattermost.SortStable | skills/gabia-dev-mcp-mattermost/scripts/mattermost_cli.py:273 | the sort is stable: blocks with equal keys keep their relative order |
| Mattermost.IndexKeepsLast | skills/gabia-dev-mcp-mattermost/scripts/mattermost_cli.py:275 | the index fails with `TypeError` exactly when some block carries a truthy list or dict id; otherwise it holds, for each truthy id, the last block carrying it, and nothing for ids no block carries |
| Mattermost.IndexFiled | skills/gabia-dev-mcp-mattermost/scripts/mattermost_cli.py:275 | when the index is built, every indexed block is one of the blocks, filed under its own id |
| Mattermost.IndexErrStays | skills/gabia-dev-mcp-mattermost/scripts/mattermost_cli.py:275 | once the comprehension fails on some block it fails as a whole, whatever follows |
| Mattermost.Ordered | skills/gabia-dev-mcp-mattermost/scripts/mattermost_cli.py:278-281 | at most one listed block per id of the order |
| Mattermost.Unseen | skills/gabia-dev-mcp-mattermost/scripts/mattermost_cli.py:284 | the filter fails with `TypeError` exactly when some block's id is a list or a dict, even an empty one; otherwise the remaining blocks are blocks whose id was not seen |
| Mattermost.SeenBlocks | skills/gabia-dev-mcp-mattermost/scripts/mattermost_cli.py:284 | fails exactly when the filter does; otherwise the blocks left out of the remainder are exactly those whose id was seen |
| Mattermost.CardContentsFails | skills/gabia-dev-mcp-mattermost/scripts/mattermost_cli.py:268-286 | the contents fail, with `TypeError`, exactly when there are blocks, a content order, and some block whose id is a list or a dict |
| Mattermost.UnhashableIdFails | skills/gabia-dev-mcp-mattermost/scripts/mattermost_cli.py:275-284 | a single block with a list id, or an empty dict id, under a non-empty order gives `TypeError` |
| Mattermost.FetchCardContents | skills/gabia-dev-mcp-mattermost/scripts/mattermost_cli.py:268-286 | the method yields exactly the specified contents, or the same `TypeError`, given the card's blocks |
| Mattermost.IndexBlocks | skills/gabia-dev-mcp-mattermost/scripts/mattermost_cli.py:275 | the loop builds exactly the specified index, and stops with `TypeError` at the first truthy list or dict id |
| Mattermost.ListOrdered | skills/gabia-dev-mcp-mattermost/scripts/mattermost_cli.py:276-282 | the loop yields exactly the listed blocks and the set of ids seen |
| Mattermost.AppendAll | skills/gabia-dev-mcp-mattermost/scripts/mattermost_cli.py:284-285 | the loop appends exactly the remaining blocks |
| Mattermost.NoOrderSorts | skills/gabia-dev-mcp-mattermost/scripts/mattermost_cli.py:272-273 | without a content order nothing fails and the contents are the blocks sorted, stably, by creation time |
| Mattermost.OrderedPrefix | skills/gabia-dev-mcp-mattermost/scripts/mattermost_cli.py:278-281 | the blocks listed for a prefix of the order are a prefix of those for the whole order |
| Mattermost.OrderedInOrder | skills/gabia-dev-mcp-mattermost/scripts/mattermost_cli.py:278-281 | the block found for the i-th id comes right after the blocks found for the ids before it |
| Mattermost.OrderedThenSorted | skills/gabia-dev-mcp-mattermost/scripts/mattermost_cli.py:275-286 | when the contents are built, the listed blocks come first, followed by the unseen blocks sorted by creation time |
| Mattermost.NoDupCount | skills/gabia-dev-mcp-mattermost/scripts/mattermost_cli.py:284 | in a list without repeats each element counts once |
| Mattermost.NoDupMultiset | skills/gabia-dev-mcp-mattermost/scripts/mattermost_cli.py:284 | two lists without repeats holding the same elements are permutations of each other |
| Mattermost.PartitionSeen | skills/gabia-dev-mcp-mattermost/scripts/mattermost_cli.py:284 | when the filter succeeds, the seen and the unseen blocks together are all the blocks |
| Mattermost.SeenBlocksNoDup | skills/gabia-dev-mcp-mattermost/scripts/mattermost_cli.py:284 | with distinct ids the seen blocks, when computed, repeat nothing |
| Mattermost.OrderedMembers | skills/gabia-dev-mcp-mattermost/scripts/mattermost_cli.py:278-281 | the listed blocks are exactly the indexed blocks under the ids of the order |
| Mattermost.OrderedNoDup | skills/gabia-dev-mcp-mattermost/scripts/mattermost_cli.py:278-281 | an order without repeats lists no block twice |
| Mattermost.ContentsPermute | skills/gabia-dev-mcp-mattermost/scripts/mattermost_cli.py:268-286 | with distinct block ids and an order without repeats, contents that are built are the blocks rearranged: none lost, none repeated |
| Mattermost.Dicts | skills/gabia-dev-mcp-mattermost/scripts/mattermost_cli.py:303 | the dicts kept are exactly the dict items of the list |
| Mattermost.BuildCardPropertyValues | skills/gabia-dev-mcp-mattermost/scripts/mattermost_cli.py:289-316 | the method yields exactly the specified property values, or the `TypeError` of the template lookup |
| Mattermost.ValueFromTemplate | skills/gabia-dev-mcp-mattermost/scripts/mattermost_cli.py:307-315 | when the template lookup is built, each value carries its property id and value, and the name and type of its last template |
| Mattermost.PropertyValuesSpec | skills/gabia-dev-mcp-mattermost/scripts/mattermost_cli.py:296-316 | for a card with properties: the values fail with `TypeError` exactly when a template has a truthy list or dict id; otherwise one value per card property, in order, with its id, value and template |
| Mattermost.NoPropertyValues | skills/gabia-dev-mcp-mattermost/scripts/mattermost_cli.py:290-298 | no board, no card, or a card without properties gives no values and never fails |
| Mattermost.SortKey | skills/gabia-dev-mcp-mattermost/scripts/mattermost_cli.py:273 | the sort key `b.get("createAt") or 0`: an integer as it is, `True` as 1, anything falsy or not a number as 0 |
| Mattermost.ContentOrder | skills/gabia-dev-mcp-mattermost/scripts/mattermost_cli.py:253-265 | no ids for a missing card, a `fields` that is not a dict or a `contentOrder` that is not a list; otherwise the ids collected from each element in order |
| Memory.RelationSetSnoc | skills/gabia-dev-mcp-memory/scripts/memory_cli.py:181 | adding a relation to the list adds its triple to the set of existing triples |
| Memory.NameSetSnoc | skills/gabia-dev-mcp-memory/scripts/memory_cli.py:151 | adding an entity to the list adds its name to the set of existing names |
| Memory.DecodeEntities | skills/gabia-dev-mcp-memory/scripts/memory_cli.py:139-148 | each input item is read on its own: one reading per item, in order |
| Memory.DecodeRelations | skills/gabia-dev-mcp-memory/scripts/memory_cli.py:168-178 | each relation item is read on its own: one reading per item, in order |
| Memory.NewEntitiesStep | skills/gabia-dev-mcp-memory/scripts/memory_cli.py:138-151 | the loop takes the items in order: the item at the current position is decided first |
| Memory.NewEntitiesFresh | skills/gabia-dev-mcp-memory/scripts/memory_cli.py:146-151 | the created entities take no name that existed and no name twice |
| Memory.CreateKeepsNamesDistinct | skills/gabia-dev-mcp-memory/scripts/memory_cli.py:136-151 | entity names stay unique through create-entities |
| Memory.NewEntitiesDecoded | skills/gabia-dev-mcp-memory/scripts/memory_cli.py:148 | every created entity is the reading of one input item |
| Memory.NewEntitiesCover | skills/gabia-dev-mcp-memory/scripts/memory_cli.py:144-151 | every valid item whose name did not exist leads to an entity of that name |
| Memory.NewRelationsStep | skills/gabia-dev-mcp-memory/scripts/memory_cli.py:167-181 | the loop takes the relation items in order |
| Memory.NewRelationsFresh | skills/gabia-dev-mcp-memory/scripts/memory_cli.py:176-181 | the created relations repeat no existing triple and none of each other |
| Memory.CreateKeepsRelationsDistinct | skills/gabia-dev-mcp-memory/scripts/memory_cli.py:165-181 | the relation list stays free of duplicates through create-relations |
| Memory.NewRelationsCover | skills/gabia-dev-mcp-memory/scripts/memory_cli.py:173-181 | every valid item's triple is present afterwards, old or new |
| Memory.NewRelationsDecoded | skills/gabia-dev-mcp-memory/scripts/memory_cli.py:178 | every created relation is the reading of one input item |
| Memory.NewObservations | skills/gabia-dev-mcp-memory/scripts/memory_cli.py:207 | the new observations are exactly the strings of `contents` not already observed |
| Memory.NewObservationsAppend | skills/gabia-dev-mcp-memory/scripts/memory_cli.py:207 | the filter works piece by piece over `contents` |
| Memory.NewObservationsTwice | skills/gabia-dev-mcp-memory/scripts/memory_cli.py:207 | a new string given twice in one item is appended twice (the check is against the observations before the item) |
| Memory.LastIndex | skills/gabia-dev-mcp-memory/scripts/memory_cli.py:195 | `{e.name: e for e in entities}[n]`: absent exactly for an unknown name, otherwise the last entity of that name |
| Memory.DecodeAdditions | skills/gabia-dev-mcp-memory/scripts/memory_cli.py:198-203 | each observation item is read on its own, in order |
| Memory.AddObservationsStep | skills/gabia-dev-mcp-memory/scripts/memory_cli.py:197-209 | the loop takes the items in order |
| Memory.AddObservationsKeeps | skills/gabia-dev-mcp-memory/scripts/memory_cli.py:204-209 | on success every entity keeps its place, name, type and old observations in front; earlier reports stay in front |
| Memory.NameSetUpdate | skills/gabia-dev-mcp-memory/scripts/memory_cli.py:208 | extending one entity's observations leaves the set of names unchanged |
| Memory.AddObservationsUnknown | skills/gabia-dev-mcp-memory/scripts/memory_cli.py:204-206 | an item naming an entity not in the graph makes the command fail |
| Memory.KeepEntities | skills/gabia-dev-mcp-memory/scripts/memory_cli.py:224 | the entities kept are exactly those whose name is not deleted |
| Memory.KeepRelationsAway | skills/gabia-dev-mcp-memory/scripts/memory_cli.py:225 | the relations kept are exactly those touching no deleted name at either end |
| Memory.KeepEntitiesAppend | skills/gabia-dev-mcp-memory/scripts/memory_cli.py:224 | the entity filter works piece by piece, keeping order |
| Memory.KeepRelationsAwayAppend | skills/gabia-dev-mcp-memory/scripts/memory_cli.py:225 | the relation filter works piece by piece, keeping order |
| Memory.KeepEntitiesDistinct | skills/gabia-dev-mcp-memory/scripts/memory_cli.py:224 | deleting entities keeps the remaining names unique |
| Memory.DeleteEntitiesKeepsLinked | skills/gabia-dev-mcp-memory/scripts/memory_cli.py:223-225 | when every relation joined two entities, it still does after delete-entities |
| Memory.DecodeDeletions | skills/gabia-dev-mcp-memory/scripts/memory_cli.py:240-249 | each deletion item is read on its own, in order |
| Memory.Without | skills/gabia-dev-mcp-memory/scripts/memory_cli.py:250 | the observations kept are exactly those not listed for removal, in order |
| Memory.DeleteObservationsStep | skills/gabia-dev-mcp-memory/scripts/memory_cli.py:239-250 | one deletion item keeps the number of entities; an unknown entity is skipped |
| Memory.DeleteObservationsAll | skills/gabia-dev-mcp-memory/scripts/memory_cli.py:239-250 | the loop keeps the number of entities |
| Memory.DeleteObservationsStepAt | skills/gabia-dev-mcp-memory/scripts/memory_cli.py:239-250 | the loop takes the deletion items in order |
| Memory.DeleteObservationsKeeps | skills/gabia-dev-mcp-memory/scripts/memory_cli.py:239-250 | every entity keeps its place, name and type, only ever loses observations, and an entity no item names is unchanged |
| Memory.DeleteObservationsRemoves | skills/gabia-dev-mcp-memory/scripts/memory_cli.py:246-250 | with unique names, an observation listed for an entity is gone from it afterwards |
| Memory.DeleteKeys | skills/gabia-dev-mcp-memory/scripts/memory_cli.py:263-271 | the triples to delete are exactly those of the valid items |
| Memory.KeepRelations | skills/gabia-dev-mcp-memory/scripts/memory_cli.py:274 | the relations kept are exactly those whose triple is not deleted |
| Memory.KeepRelationsAppend | skills/gabia-dev-mcp-memory/scripts/memory_cli.py:274 | the filter works piece by piece, keeping order |
| Memory.KeepRelationsAwayDistinct | skills/gabia-dev-mcp-memory/scripts/memory_cli.py:225 | deleting relations keeps the rest free of duplicates |
| Memory.KeepRelationsDistinct | skills/gabia-dev-mcp-memory/scripts/memory_cli.py:274 | deleting relations keeps the rest free of duplicates |
| Memory.FilterMatching | skills/gabia-dev-mcp-memory/scripts/memory_cli.py:289-293 | the entities kept are exactly those matching the query in their name, type or an observation |
| Memory.FilterNamed | skills/gabia-dev-mcp-memory/scripts/memory_cli.py:303 | the entities kept are exactly those with a requested name |
| Memory.RelationsAmong | skills/gabia-dev-mcp-memory/scripts/memory_cli.py:295 | the relations kept are exactly those with both ends among the names |
| Memory.SearchNodes | skills/gabia-dev-mcp-memory/scripts/memory_cli.py:285-296 | exactly the entities matching the lowered query, and exactly the relations between them |
| Memory.OpenNodes | skills/gabia-dev-mcp-memory/scripts/memory_cli.py:299-306 | exactly the entities with a requested name, and exactly the relations between them |
| Memory.SearchEmptyQuery | skills/gabia-dev-mcp-memory/scripts/memory_cli.py:287-293 | the empty query matches every entity |
| Memory.FilterAllMatch | skills/gabia-dev-mcp-memory/scripts/memory_cli.py:292 | the empty query keeps every entity |
| Memory.OpenAllNodes | skills/gabia-dev-mcp-memory/scripts/memory_cli.py:299-306 | opening every name of a linked graph gives back the whole graph |
| Memory.EntityNames | skills/gabia-dev-mcp-memory/scripts/memory_cli.py:301 | the names of the entities, in order |
| Memory.FilterNamedAll | skills/gabia-dev-mcp-memory/scripts/memory_cli.py:303 | when every entity is named, every entity is kept |
| Memory.RelationsAmongAll | skills/gabia-dev-mcp-memory/scripts/memory_cli.py:305 | when every relation is between named entities, every relation is kept |
| Memory.EntityJsons | skills/gabia-dev-mcp-memory/scripts/memory_cli.py:121-123 | one printed object per entity, in order |
| Memory.RelationJsons | skills/gabia-dev-mcp-memory/scripts/memory_cli.py:124 | one printed object per relation, in order |
| Memory.EntityJsonRoundTrip | skills/gabia-dev-mcp-memory/scripts/memory_cli.py:122 | a printed entity reads back, as an input item, as the same entity |
| Memory.EntityJsonFields | skills/gabia-dev-mcp-memory/scripts/memory_cli.py:122 | a printed entity holds `name`, `entityType` and `observations` |
| Memory.RelationJsonRoundTrip | skills/gabia-dev-mcp-memory/scripts/memory_cli.py:124 | a printed relation reads back as the same relation |
| Memory.GraphToJsonRoundTrip | skills/gabia-dev-mcp-memory/scripts/memory_cli.py:119-125 | the printed graph holds `entities` then `relations`, each item reading back as itself |
| Memory.KnowledgeGraph.constructor | skills/gabia-dev-mcp-memory/scripts/memory_cli.py:51-85 | the graph as loaded |
| Memory.KnowledgeGraph.CreateEntities | skills/gabia-dev-mcp-memory/scripts/memory_cli.py:128-154 | a non-list `entities` is refused and changes nothing; otherwise exactly the new entities are appended and reported; names stay unique |
| Memory.KnowledgeGraph.AppendNewEntities | skills/gabia-dev-mcp-memory/scripts/memory_cli.py:138-151 | the loop appends and reports exactly the new entities |
| Memory.KnowledgeGraph.CreateRelations | skills/gabia-dev-mcp-memory/scripts/memory_cli.py:157-184 | a non-list `relations` is refused; otherwise exactly the new relations are appended and reported; the list stays free of duplicates |
| Memory.KnowledgeGraph.AppendNewRelations | skills/gabia-dev-mcp-memory/scripts/memory_cli.py:167-181 | the loop appends and reports exactly the new relations |
| Memory.KnowledgeGraph.AddObservations | skills/gabia-dev-mcp-memory/scripts/memory_cli.py:187-212 | a non-list input is refused; an unknown entity fails the command and nothing is saved; otherwise the entities and the reports are those of the specification |
| Memory.KnowledgeGraph.ApplyAdditions | skills/gabia-dev-mcp-memory/scripts/memory_cli.py:197-209 | the loop yields the entities and reports of the specification, or its error |
| Memory.KnowledgeGraph.DeleteEntities | skills/gabia-dev-mcp-memory/scripts/memory_cli.py:215-227 | input other than a list of strings is refused; otherwise the named entities and every relation touching them are dropped |
| Memory.KnowledgeGraph.DeleteObservations | skills/gabia-dev-mcp-memory/scripts/memory_cli.py:230-253 | a non-list input is refused; otherwise every item is applied in turn to the entities |
| Memory.KnowledgeGraph.ApplyDeletions | skills/gabia-dev-mcp-memory/scripts/memory_cli.py:239-250 | the loop yields the entities of the specification |
| Memory.KnowledgeGraph.DeleteRelations | skills/gabia-dev-mcp-memory/scripts/memory_cli.py:256-276 | a non-list input is refused; otherwise exactly the relations whose triple an item gives are dropped |
| Memory.CollectKeys | skills/gabia-dev-mcp-memory/scripts/memory_cli.py:263-271 | the loop gathers exactly the triples of the valid items |
| Mysql.Env | skills/gabia-dev-mcp-mysql/scripts/mysql_cli.py:14-19 | an unset variable reads as unset; a value that is not blank reads as its stripped form, which is non-empty and strips to itself |
| Mysql.NormalizeAccount | skills/gabia-dev-mcp-mysql/scripts/mysql_cli.py:43-59 | an entry is refused exactly when it has no truthy host (or hostname), no truthy username (or user), or no password; an accepted account has a non-empty host, username and port |
| Mysql.DefaultPortText | skills/gabia-dev-mcp-mysql/scripts/mysql_cli.py:48 | the default port 3306 is rendered as `"3306"` |
| Mysql.AccountDefaults | skills/gabia-dev-mcp-mysql/scripts/mysql_cli.py:43-59 | an entry with only host, username and password gets the fallback name, port `3306` and an empty database |
| Mysql.AccountAliases | skills/gabia-dev-mcp-mysql/scripts/mysql_cli.py:45-49 | `hostname`, `user` and `schema` are taken when `host`, `username` and `database` are not truthy |
| Mysql.FirstNamed | skills/gabia-dev-mcp-mysql/scripts/mysql_cli.py:115-117 | the search finds an account exactly when one has the name, and the one it finds has it |
| Mysql.SelectAccount | skills/gabia-dev-mcp-mysql/scripts/mysql_cli.py:113-133 | an explicit name selects an account of that name or fails; a single account is chosen without a name; otherwise `MYSQL_DEFAULT_ACCOUNT` must name one; the chosen account is always from the list and every error ends with the list of names |
| Mysql.SelectFirstOfName | skills/gabia-dev-mcp-mysql/scripts/mysql_cli.py:115-117 | with several accounts of the requested name, the first is chosen |
| Mysql.ResolveSchema | skills/gabia-dev-mcp-mysql/scripts/mysql_cli.py:247-253 | the schema argument wins, then `MYSQL_DEFAULT_SCHEMA`, then the account's database; an empty database gives none |
| Mysql.TrimStatement | skills/gabia-dev-mcp-mysql/scripts/mysql_cli.py:232-234 | the statement stripped, with one trailing `;` removed and stripped again; never longer than the input |
| Mysql.NormalizeQuery | skills/gabia-dev-mcp-mysql/scripts/mysql_cli.py:231-242 | accepted exactly when the trimmed statement is non-empty and its first word upper-cased is one of SELECT, WITH, EXPLAIN, SHOW, DESCRIBE, DESC; the error distinguishes an empty query from a write |
| Mysql.TrimmedIsStripped | skills/gabia-dev-mcp-mysql/scripts/mysql_cli.py:232-234 | the trimmed statement has no blank at either end |
| Mysql.NormalizeQueryIdempotent | skills/gabia-dev-mcp-mysql/scripts/mysql_cli.py:231-242 | an accepted statement without a trailing `;` passes again unchanged |
| Mysql.NormalizeQuerySemicolon | skills/gabia-dev-mcp-mysql/scripts/mysql_cli.py:233-234 | one appended `;` changes neither the verdict nor the result |
| Mysql.Unescape | skills/gabia-dev-mcp-mysql/scripts/mysql_cli.py:172-203 | the decoding, as a function over the text: never longer than the input |
| Mysql.UnescapeAt | skills/gabia-dev-mcp-mysql/scripts/mysql_cli.py:175-202 | one step: a backslash with a following character decodes the pair, anything else is copied |
| Mysql.UnescapeMysql | skills/gabia-dev-mcp-mysql/scripts/mysql_cli.py:172-203 | the index loop yields exactly the decoding function's result |
| Mysql.UnescapePlain | skills/gabia-dev-mcp-mysql/scripts/mysql_cli.py:172-203 | a text without a backslash decodes to itself |
| Mysql.EscapeChar | skills/gabia-dev-mcp-mysql/scripts/mysql_cli.py:179-198 | the batch escaping of one character (the inverse the decoder reads back), never a tab or a line feed |
| Mysql.Escape | skills/gabia-dev-mcp-mysql/scripts/mysql_cli.py:179-198 | an escaped value holds no tab and no line feed |
| Mysql.EscapeCharCodes | skills/gabia-dev-mcp-mysql/scripts/mysql_cli.py:179-198 | each character is kept or written as a backslash and a code that decodes back to it |
| Mysql.UnescapeEscapeAppend | skills/gabia-dev-mcp-mysql/scripts/mysql_cli.py:172-203 | decoding undoes escaping, whatever text follows |
| Mysql.EscapeRoundTrip | skills/gabia-dev-mcp-mysql/scripts/mysql_cli.py:172-203 | decoding an escaped value gives the value back |
| Mysql.TrailingBackslashKept | skills/gabia-dev-mcp-mysql/scripts/mysql_cli.py:177 | a lone trailing backslash is kept as it is |
| Mysql.CellValue | skills/gabia-dev-mcp-mysql/scripts/mysql_cli.py:220-223 | a cell is NULL exactly for `\N`, otherwise a decoded string |
| Mysql.ValueAt | skills/gabia-dev-mcp-mysql/scripts/mysql_cli.py:219-223 | a cell missing from a short line reads as the empty string |
| Mysql.RowKeys | skills/gabia-dev-mcp-mysql/scripts/mysql_cli.py:217-224 | a row's keys are the column names, each once |
| Mysql.RowLookup | skills/gabia-dev-mcp-mysql/scripts/mysql_cli.py:218-224 | a column's value is the cell at its index, decoded; with a repeated column name the later cell wins |
| Mysql.RowDropsExtra | skills/gabia-dev-mcp-mysql/scripts/mysql_cli.py:218-219 | cells beyond the last column make no difference |
| Mysql.TsvShape | skills/gabia-dev-mcp-mysql/scripts/mysql_cli.py:208-226 | empty output parses to no columns and no rows; otherwise one row per line after the header, each keyed by exactly the column names |
| Mysql.LineRowKeys | skills/gabia-dev-mcp-mysql/scripts/mysql_cli.py:215-225 | every row holds exactly the column names, each once |
| Mysql.FillRow | skills/gabia-dev-mcp-mysql/scripts/mysql_cli.py:217-224 | the inner loop builds exactly the row of the specification function |
| Mysql.ParseTsv | skills/gabia-dev-mcp-mysql/scripts/mysql_cli.py:208-226 | the method returns the columns and rows of the specification function |
| Mysql.DecodeHeader | skills/gabia-dev-mcp-mysql/scripts/mysql_cli.py:213 | the comprehension decodes each header cell |
| Mysql.BuildRows | skills/gabia-dev-mcp-mysql/scripts/mysql_cli.py:215-225 | the outer loop yields one row per later line, in order |
| Mysql.DecodeEncodedCell | skills/gabia-dev-mcp-mysql/scripts/mysql_cli.py:220-223 | a cell written by the batch format decodes to the value written, NULL included |
| Mysql.EscapeNotNull | skills/gabia-dev-mcp-mysql/scripts/mysql_cli.py:220 | no escaped string is the NULL marker |
| Mysql.EncodeCellClean | skills/gabia-dev-mcp-mysql/scripts/mysql_cli.py:216 | a written cell holds no tab or line feed, so splitting at tabs finds the cells |
| Mysql.LineClean | skills/gabia-dev-mcp-mysql/scripts/mysql_cli.py:209 | a written line holds no line feed |
| Mysql.HeaderClean | skills/gabia-dev-mcp-mysql/scripts/mysql_cli.py:209 | a written header line holds no line feed |
| Mysql.HeaderRoundTrip | skills/gabia-dev-mcp-mysql/scripts/mysql_cli.py:213 | the header line splits back into the column names |
| Mysql.LineValues | skills/gabia-dev-mcp-mysql/scripts/mysql_cli.py:216-223 | a written line splits back into cells decoding to the written values, and a missing cell reads as empty |
| Mysql.BatchRoundTrip | skills/gabia-dev-mcp-mysql/scripts/mysql_cli.py:208-226 | with lines cut at line feeds only, the parse of any batch output gives back its header, its row count and, for each unrepeated column, each written value |
| Mysql.EscapeKept | skills/gabia-dev-mcp-mysql/scripts/mysql_cli.py:197-198 | characters the escaping keeps are written verbatim |
| Mysql.FormFeedSplitsRow | skills/gabia-dev-mcp-mysql/scripts/mysql_cli.py:209 | as written (`splitlines`), one row holding a form feed parses as two rows, while cutting at line feeds finds the one row |
| Mysql.FormFeedOutput | skills/gabia-dev-mcp-mysql/scripts/mysql_cli.py:209 | the batch output of one column and one row holding a form feed |
| Mysql.FormFeedLines | skills/gabia-dev-mcp-mysql/scripts/mysql_cli.py:209 | `splitlines` cuts that output into three lines |
| Mysql.ParsedTsv | skills/gabia-dev-mcp-mysql/scripts/mysql_cli.py:208-226 | `_parse_tsv` as written, on the lines `splitlines` gives |
| Mysql.BatchTable | skills/gabia-dev-mcp-mysql/scripts/mysql_cli.py:208-226 | the same parse on lines cut at line feeds only |
| Oracle.Env | skills/gabia-dev-mcp-oracle/scripts/oracle_cli.py:12-17 | a variable reads as unset when it is unset or blank, and otherwise as its stripped value |
| Oracle.EnvStripped | skills/gabia-dev-mcp-oracle/scripts/oracle_cli.py:16-17 | a value read this way is non-empty, has no blank at either end and strips to itself |
| Oracle.RequireEnv | skills/gabia-dev-mcp-oracle/scripts/oracle_cli.py:20-24 | the value when present, otherwise the error naming the variable |
| Oracle.OracleConfig | skills/gabia-dev-mcp-oracle/scripts/oracle_cli.py:27-41 | host, username and password are required in that order (the first missing one is reported); port and SID default to 1521 and DEVGABIA; a missing service name is empty |
| Oracle.ConfigDefaults | skills/gabia-dev-mcp-oracle/scripts/oracle_cli.py:31-38 | with only the three required variables, the port is 1521, the SID DEVGABIA and the service name empty |
| Oracle.ConfigBlankPort | skills/gabia-dev-mcp-oracle/scripts/oracle_cli.py:31 | a blank `ORACLE_PORT` falls back to 1521 like an unset one |
| Oracle.JdbcUrl | skills/gabia-dev-mcp-oracle/scripts/oracle_cli.py:44-47 | every JDBC URL starts with `jdbc:oracle:thin:@` |
| Oracle.ConnectStringsAgree | skills/gabia-dev-mcp-oracle/scripts/oracle_cli.py:44-47 | the JDBC URL and the sqlplus login (lines 240-242) make the same service-name test and name the same host, port and service or SID; only the URL marks the service form with `//` |
| Oracle.JdbcServiceForm | skills/gabia-dev-mcp-oracle/scripts/oracle_cli.py:45-47 | for a host not starting with `/`, the URL has `@//` exactly when a service name is set |
| Oracle.NormalizeQuery | skills/gabia-dev-mcp-oracle/scripts/oracle_cli.py:262-268 | accepted exactly when the trimmed statement upper-cased starts with `SELECT`, and then returned trimmed; refused with the fixed error otherwise |
| Oracle.SelectPrefixGate | skills/gabia-dev-mcp-oracle/scripts/oracle_cli.py:262-268 | a blank query is refused; any statement whose first six letters are `select` in any case passes, whatever follows them |
| Oracle.NormalizeQueryIdempotent | skills/gabia-dev-mcp-oracle/scripts/oracle_cli.py:262-268 | an accepted query without a trailing `;` passes the gate again unchanged |
| Oracle.TrimFixed | skills/gabia-dev-mcp-oracle/scripts/oracle_cli.py:263-265 | a stripped statement without a trailing `;` is left as it is by the trimming |
| Oracle.ReadQuery | skills/gabia-dev-mcp-oracle/scripts/oracle_cli.py:293-300 | `--query` wins, then the `--query-file` text, then standard input; only a terminal standard input with neither option is an error |
| Oracle.SelectScript | skills/gabia-dev-mcp-oracle/scripts/oracle_cli.py:313-316 | the script is the fixed settings line, the query, `;` and `exit;`, and the query can be read back from it |
| Oracle.Fallback | skills/gabia-dev-mcp-oracle/scripts/oracle_cli.py:245-247 | sqlplus receives the script when it exists; otherwise the command fails with the sqlplus-not-found error |
| Oracle.AutoAlwaysFallsBack | skills/gabia-dev-mcp-oracle/scripts/oracle_cli.py:275-285 | as written, `auto` always ends in the sqlplus fallback, whatever the Java run returned |
| Oracle.AutoFailsAfterJdbcSuccess | skills/gabia-dev-mcp-oracle/scripts/oracle_cli.py:304-318 | as written, a successful JDBC run followed by a missing sqlplus fails with the sqlplus error |
| Oracle.RunEnginesIntended | skills/gabia-dev-mcp-oracle/scripts/oracle_cli.py:275-286 | as intended, `auto` starts sqlplus exactly when the JDBC engine could not run, and a completed Java run's exit code is final; `jdbc` and `sqlplus` behave as written |
| Oracle.RunEnginesAsWritten | skills/gabia-dev-mcp-oracle/scripts/oracle_cli.py:275-286 | the engine choice as the code runs it: `jdbc` ends with the Java exit; `sqlplus` goes straight to the fallback; `auto` tries Java and then always falls back |
| Oracle.RunEngines | skills/gabia-dev-mcp-oracle/scripts/oracle_cli.py:275-286 | the engine choice as evidently intended (see Oracle.RunEnginesIntended) |
| Oracle.SqlplusLogin | skills/gabia-dev-mcp-oracle/scripts/oracle_cli.py:240-242 | the `user/password@connect` login, with the service form when a service name is set (see Oracle.ConnectStringsAgree) |
| Oracle.TestCommand | skills/gabia-dev-mcp-oracle/scripts/oracle_cli.py:271-286 | as the code runs: a configuration error ends the command before any engine; `jdbc` ends with the Java exit; `sqlplus` runs the fixed test script; `auto` tries Java and then always runs the sqlplus fallback |
| Oracle.SelectQuery | skills/gabia-dev-mcp-oracle/scripts/oracle_cli.py:302-318 | a query that cannot be read or that the gate refuses ends with that error and starts nothing; with `auto`, an accepted query is tried on Java and then always falls back to sqlplus with the gated query's script |
| Oracle.SelectCommand | skills/gabia-dev-mcp-oracle/scripts/oracle_cli.py:289-318 | a configuration error ends the command before the query is read; with `auto` and no sqlplus, an accepted query fails with the sqlplus-not-found error whatever Java returned |
| Oracle.SelectScriptGated | skills/gabia-dev-mcp-oracle/scripts/oracle_cli.py:302-316 | sqlplus only receives the script of a query that passed the gate, in the trimmed form the gate returned |
| Sentry.Env | skills/gabia-dev-mcp-sentry/scripts/sentry_cli.py:23-25 | a variable reads as nothing exactly when it is unset or empty; otherwise it is stripped |
| Sentry.EnvBlank | skills/gabia-dev-mcp-sentry/scripts/sentry_cli.py:25 | a non-empty all-blank variable reads as the empty string, not as nothing |
| Sentry.RequireEnv | skills/gabia-dev-mcp-sentry/scripts/sentry_cli.py:28-32 | succeeds exactly when the stripped variable is present and non-empty, and then returns it |
| Sentry.OrDefault | skills/gabia-dev-mcp-sentry/scripts/sentry_cli.py:40 | `x or default`: a present non-empty value wins, otherwise the default |
| Sentry.ApiBase | skills/gabia-dev-mcp-sentry/scripts/sentry_cli.py:39-40 | the API base never ends with `/` |
| Sentry.SkipsCertificateCheck | skills/gabia-dev-mcp-sentry/scripts/sentry_cli.py:59-66 | an unset `SENTRY_SSL_VERIFY` turns certificate checking off |
| Sentry.Fields | skills/gabia-dev-mcp-sentry/scripts/sentry_cli.py:113 | the pattern matcher for a sequence of fields (opening text, group of a character class, optional blanks): one group per field, each in its class |
| Sentry.FieldsSound | skills/gabia-dev-mcp-sentry/scripts/sentry_cli.py:113 | every match is the pattern's own text for the groups it returns and the blanks it skipped |
| Sentry.FieldsText | skills/gabia-dev-mcp-sentry/scripts/sentry_cli.py:113 | for an unambiguous pattern, the text of any groups is matched back with exactly those groups |
| Sentry.MatchPos | skills/gabia-dev-mcp-sentry/scripts/sentry_cli.py:113 | the first start position with a match; no earlier position matches |
| Sentry.Search | skills/gabia-dev-mcp-sentry/scripts/sentry_cli.py:113 | `re.search`: the groups of the match at the first matching position, or nothing when no position matches |
| Sentry.LinkAt | skills/gabia-dev-mcp-sentry/scripts/sentry_cli.py:113 | the Link pattern at a position: URL without `>`, rel and results words of `\w`, cursor without `"` |
| Sentry.LinkAtText | skills/gabia-dev-mcp-sentry/scripts/sentry_cli.py:113 | every well-formed link text, with any blank runs, is matched at its start with exactly its four fields |
| Sentry.LinkFits | skills/gabia-dev-mcp-sentry/scripts/sentry_cli.py:113 | the Link pattern is unambiguous and every well-formed link fits it |
| Sentry.LinkSearchText | skills/gabia-dev-mcp-sentry/scripts/sentry_cli.py:112-113 | in a comma-separated part, the first link text is found whatever blanks precede its `<` |
| Sentry.Entry | skills/gabia-dev-mcp-sentry/scripts/sentry_cli.py:115-119 | the pagination entry holds exactly `url`, `results` and `cursor`, `results` true only for the word `true` |
| Sentry.ParseLinkHeader | skills/gabia-dev-mcp-sentry/scripts/sentry_cli.py:109-120 | the loop over the comma-separated parts yields the dict of the specification function |
| Sentry.LinkInfoLookup | skills/gabia-dev-mcp-sentry/scripts/sentry_cli.py:111-120 | each rel maps to the entry of the LAST part carrying that rel, and absent rels map to nothing; the keys are distinct |
| Sentry.IssueAt | skills/gabia-dev-mcp-sentry/scripts/sentry_cli.py:133 | the issue pattern: a non-empty organisation slug without `/` and an all-digit issue id |
| Sentry.IssueAtText | skills/gabia-dev-mcp-sentry/scripts/sentry_cli.py:133 | every `/organizations/ORG/issues/ID/` with such a slug and id is matched at its start with exactly that slug and id |
| Sentry.NoIssueWithoutSlash | skills/gabia-dev-mcp-sentry/scripts/sentry_cli.py:133-135 | text without `/` never holds an issue path |
| Sentry.ParseSentryUrl | skills/gabia-dev-mcp-sentry/scripts/sentry_cli.py:127-142 | nothing exactly when no position holds an issue path; otherwise the `urlparse` error when it fails, else the slug and id found first, with the `project` query value |
| Sentry.IssueFirst | skills/gabia-dev-mcp-sentry/scripts/sentry_cli.py:133 | the search returns the slug and id of the first position holding an issue path |
| Sentry.ParseSentryUrlFinds | skills/gabia-dev-mcp-sentry/scripts/sentry_cli.py:133-138 | a URL that contains an issue path is recognised unless `urlparse` fails on it, and fails exactly then |
| Sentry.IssueUrlUnbalanced | skills/gabia-dev-mcp-sentry/scripts/sentry_cli.py:133-138 | an issue link whose host has an unbalanced bracket makes the command fail with `Invalid IPv6 URL` |
| Sentry.IssueTarget | skills/gabia-dev-mcp-sentry/scripts/sentry_cli.py:237-243 | an issue URL overrides the organisation and the id; a plain id keeps the `--org` or default organisation; a failing `urlparse` fails the command |
| Sentry.Response | skills/gabia-dev-mcp-sentry/scripts/sentry_cli.py:91-101 | an empty body reads as `{}`; a list with a `Link` header is wrapped as `items` and `pagination`; anything else is returned as parsed |
| Sentry.ResponseWrapped | skills/gabia-dev-mcp-sentry/scripts/sentry_cli.py:96-100 | a response is wrapped exactly when it is a list with a Link header, and the wrapper keeps the list under `items` |
| Sentry.WithLatest | skills/gabia-dev-mcp-sentry/scripts/sentry_cli.py:275-281 | on a dict issue, `_latestEvent` is the latest event or `None` when fetching it failed, and every other key is kept; a non-dict issue cannot take the key |
| Sentry.UpdateBody | skills/gabia-dev-mcp-sentry/scripts/sentry_cli.py:246-255 | the update is refused exactly when the body would be empty, and otherwise sends that body |
| Sentry.MaybePut | skills/gabia-dev-mcp-sentry/scripts/sentry_cli.py:247-252 | an optional assignment sets the key when given and leaves the dict non-empty when it was or when the key was given |
| Sentry.MaybePutOther | skills/gabia-dev-mcp-sentry/scripts/sentry_cli.py:247-252 | an optional assignment leaves every other key as it was |
| Sentry.UpdateFieldsSpec | skills/gabia-dev-mcp-sentry/scripts/sentry_cli.py:246-255 | the body is empty exactly when no status, assignee or seen flag is given, and otherwise holds each given field with its value |
| Sentry.UpdateFieldsOnly | skills/gabia-dev-mcp-sentry/scripts/sentry_cli.py:246-252 | the body holds no key other than `status`, `assignedTo` and `hasSeen` |
| Sentry.HasSeenFalseIsTrue | skills/gabia-dev-mcp-sentry/scripts/sentry_cli.py:332 | as written (`type=bool`), the text `false` converts to true |
| Sentry.HasSeenArg | skills/gabia-dev-mcp-sentry/scripts/sentry_cli.py:332 | the intended conversion: `true`/`1`/`yes` and `false`/`0`/`no` in any letter case, anything else refused |
| Sentry.HasSeenRoundTrip | skills/gabia-dev-mcp-sentry/scripts/sentry_cli.py:332 | the intended conversion reads back the words `true` and `false` as the booleans they name |
| Sentry.Pairs | skills/gabia-dev-mcp-sentry/scripts/sentry_cli.py:305-310 | a repeated option sends one query pair per value, in order |
| Sentry.IssuesQueryRepeats | skills/gabia-dev-mcp-sentry/scripts/sentry_cli.py:164-178 | every `--project` and `--environment` value is sent, and `limit` is sent exactly when it is non-zero, as `str(limit)` |
| Sentry.LinkInfo | skills/gabia-dev-mcp-sentry/scripts/sentry_cli.py:109-120 | one entry per `Link` part that matches the pattern, under its `rel` name, a later part overwriting an earlier one of the same name |
| Sentry.UpdateFields | skills/gabia-dev-mcp-sentry/scripts/sentry_cli.py:245-252 | the body of `issue-update`: `status` and `assignedTo` when truthy, `hasSeen` when given, in that order |
| Sentry.IssuesQuery | skills/gabia-dev-mcp-sentry/scripts/sentry_cli.py:160-178 | the query of `issues`: each truthy option in the order the code sets it |
| Sentry.HasSeenAsWritten | skills/gabia-dev-mcp-sentry/scripts/sentry_cli.py:332 | `type=bool` as written: any non-empty text is true |
| Url.SplitParts | skills/gabia-dev-mcp-mattermost/scripts/mattermost_cli.py:133 | the parts `urlsplit` cuts: the path holds no `?` or `#`, the network location no `/`, `?` or `#`, no parameters |
| Url.UrlSplit | skills/gabia-dev-mcp-mattermost/scripts/mattermost_cli.py:133 | `urlsplit` raises `Invalid IPv6 URL` exactly when the network location holds a bracket without its partner, and otherwise gives those parts |
| Url.UrlParse | skills/gabia-dev-mcp-mattermost/scripts/mattermost_cli.py:133 | `urlparse` fails exactly when `urlsplit` does; otherwise it keeps the scheme and network location and cuts the path to a prefix |
| Url.SplitParams | skills/gabia-dev-mcp-mattermost/scripts/mattermost_cli.py:133 | the path before its `;` parameters is a prefix of the path |
| Url.WithParams | skills/gabia-dev-mcp-mattermost/scripts/mattermost_cli.py:133 | only the path changes, to a prefix of itself, and only when it holds `;` |
| Url.SplitPlainUrl | skills/gabia-dev-mcp-mattermost/scripts/mattermost_cli.py:133 | an `https` link with a bracket-free host and a plain path splits into exactly those parts |
| Url.SplitUnbalancedHost | skills/gabia-dev-mcp-mattermost/scripts/mattermost_cli.py:133 | an `https` link whose host has a bracket without its partner makes `urlsplit` fail |
| Url.PlainUrlClean | skills/gabia-dev-mcp-mattermost/scripts/mattermost_cli.py:133 | cleaning a plain `https` link of control characters changes nothing |
| Url.CutFirst | skills/gabia-dev-mcp-mattermost/scripts/mattermost_cli.py:133 | `split(c, 1)`: the head holds no `c`, and head, `c` and tail give back the text |
| Url.FirstOf | skills/gabia-dev-mcp-mattermost/scripts/mattermost_cli.py:133 | the first position at or after a start holding one of the characters, or the end |
| Url.LStripC0 | skills/gabia-dev-mcp-mattermost/scripts/mattermost_cli.py:133 | the stripped link is a suffix that starts with no control character or blank |
| Url.RemoveUnsafe | skills/gabia-dev-mcp-mattermost/scripts/mattermost_cli.py:133 | no tab or line break is left, and a link without them is unchanged |
| Url.Quote | skills/gabia-dev-mcp-gitlab-issues/scripts/gitlab_issue_cli.py:42 | `quote(s, safe="")` leaves no `/` |
| Url.QuoteAppend | skills/gabia-dev-mcp-gitlab-issues/scripts/gitlab_issue_cli.py:42 | quoting works piece by piece |
| Url.DecodeQuoted | skills/gabia-dev-mcp-gitlab-issues/scripts/gitlab_issue_cli.py:41-42 | the escapes of one quoted character decode back to that character |
| Url.UnquotePlain | skills/gabia-dev-mcp-elasticsearch/scripts/elasticsearch_cli.py:227 | text without `%` is its own unquoting |
| Url.UnquoteQuote | skills/gabia-dev-mcp-gitlab-issues/scripts/gitlab_issue_cli.py:41-42 | unquoting a quoted text gives it back |
| Url.EscapesOfBytes | skills/gabia-dev-mcp-gitlab-issues/scripts/gitlab_issue_cli.py:42 | the `%XX` escapes of a byte string read back as the bytes |
| Url.Utf8 | skills/gabia-dev-mcp-gitlab-issues/scripts/gitlab_issue_cli.py:42 | a character's UTF-8 encoding is one to four bytes |
| Url.SequenceLength | skills/gabia-dev-mcp-elasticsearch/scripts/elasticsearch_cli.py:227 | a lead byte announces at most four bytes |
| Url.DecodeHead | skills/gabia-dev-mcp-elasticsearch/scripts/elasticsearch_cli.py:227 | decoding the head of a text consumes at least one character and no more than there are |
| Url.Unquote | skills/gabia-dev-mcp-elasticsearch/scripts/elasticsearch_cli.py:227 | `unquote`: each run of `%XX` escapes decoded as UTF-8, an invalid sequence replaced by U+FFFD, other text kept |
| PyRepr.QuoteOf | skills/gabia-dev-mcp-gitlab-issues/scripts/gitlab_issue_cli.py:167 | `repr` quotes with `"` exactly when the text holds a `'` and no `"`, and with `'` otherwise |
| PyRepr.EscapeChar | skills/gabia-dev-mcp-gitlab-issues/scripts/gitlab_issue_cli.py:167 | a character is written as itself unless it is the quote, a backslash, a tab or line break, or a character `repr` writes as `\xhh` |
| PyRepr.StrRepr | skills/gabia-dev-mcp-gitlab-issues/scripts/gitlab_issue_cli.py:167 | `repr(s)` begins and ends with the chosen quote |
| PyRepr.UnescapeChar | skills/gabia-dev-mcp-gitlab-issues/scripts/gitlab_issue_cli.py:167 | one escaped character reads back as itself, whatever follows |
| PyRepr.UnescapeEscape | skills/gabia-dev-mcp-gitlab-issues/scripts/gitlab_issue_cli.py:167 | the escaped text between the quotes reads back as the string |
| PyRepr.ReprRoundTrip | skills/gabia-dev-mcp-gitlab-issues/scripts/gitlab_issue_cli.py:167 | the literal `repr` writes reads back as the string it came from |
| PyRepr.PlainRepr | skills/gabia-dev-mcp-gitlab-issues/scripts/gitlab_issue_cli.py:167 | a string with nothing to escape is written between single quotes as it is |
| PyRepr.PlainEscape | skills/gabia-dev-mcp-gitlab-issues/scripts/gitlab_issue_cli.py:167 | text with nothing to escape is kept as it is between the quotes |
| PyRepr.JsonRepr | skills/gabia-dev-mcp-mysql/scripts/mysql_cli.py:54-58 | `repr` of a parsed value is never empty; a string is its quoted literal, a list is bracketed and a dict braced |
| PyRepr.PyStr | skills/gabia-dev-mcp-mysql/scripts/mysql_cli.py:54-58 | `str(v)` is a string itself and the `repr` of anything else; a truthy value never renders as empty |
| Json.NumberOf | skills/board-resolver/scripts/board_resolver_cli.py:161 | the integer a comparison sees: an integer as it is, a boolean as 1 or 0, and nothing for any other value |
| Json.PyEqRefl | skills/board-resolver/scripts/board_resolver_cli.py:161 | every value equals itself under Python's `==` |
| Json.PyEqScalars | skills/board-resolver/scripts/board_resolver_cli.py:161 | `True == 1` and `0 == False`, while `True != "1"` and `None != False` |
| Json.PyEqDictOrder | skills/board-resolver/scripts/board_resolver_cli.py:202 | two dicts holding the same pairs in either order are equal |
| Text.Strip | skills/board-resolver/scripts/board_resolver_cli.py:68 | `s.strip()` never lengthens the text |
| Text.StripEnds | skills/board-resolver/scripts/board_resolver_cli.py:68 | `s.strip()` leaves no blank at either end |
| Text.Split | skills/gabia-dev-mcp-sentry/scripts/sentry_cli.py:112 | `s.split(c)` for a one-character separator always gives at least one part |
| Text.SplitNoSep | skills/gabia-dev-mcp-sentry/scripts/sentry_cli.py:112 | no part of `s.split(c)` holds the separator |
| Text.SplitLines | skills/gabia-dev-mcp-mysql/scripts/mysql_cli.py:209 | `splitlines`: no line holds a line boundary, and there are no lines exactly when the text is empty |

## Left out

- HTTP, cookies, SSL contexts, retries with `time.sleep`, subprocess runs (mysql, sqlplus, javac/java, launchctl, the board resolver calling the Mattermost script) and file reads and writes: their results are parameters of the model, and only the decisions taken on them are modelled.
- Environment variables and `argparse` wiring: option values and environment entries are parameters.
- `json.loads`/`json.dumps`: the model works on parsed values (`Json.Json`), not on JSON text; the memory store's JSON-lines persistence (`_load_graph`/`_save_graph`) is not modelled, and neither is the account list `_load_accounts` reads from the `MYSQL_ACCOUNTS` variable (a JSON list or object) or builds from `MYSQL_HOST`, `MYSQL_USERNAME`, `MYSQL_PASSWORD`, `MYSQL_PORT` and `MYSQL_DATABASE`: Mysql.NormalizeAccount and Mysql.SelectAccount take the parsed entries.
- `urllib.parse.urlencode` and `parse_qs`: the query strings the scripts hand to the HTTP layer are modelled as lists of key/value pairs, not as encoded text.
- The clock: the current time is a parameter (`now`) of the relative time range and of the job table updates, and `Cron.JobStore.AddJob` takes its two separate readings (`createdAt`, `updatedAt`) as two parameters; `datetime` formatting is not modelled.
- Floating-point arithmetic: the board resolver's weighted total is computed exactly in integers scaled by 200; bit-equality with Python floats is not claimed. Figma image resizing and frame sizes are not modelled.
- Unicode: `\s`, `isspace` and `strip` follow Python's full whitespace set, but `\w`, `\d`, `isdigit`, `lower` and `upper` are modelled on ASCII only; the reducer's case-insensitive matching covers ASCII letters and the special folds of `i` and `s`.
- Unicode NFC normalisation of page titles in the Confluence download command is not modelled.
- The remaining Confluence commands (`to_simple_results` and the `cmd_*` wrappers around HTTP) are not modelled beyond the helpers named in the table.
- The user-supplied frame-name regex of the Figma document filter is not modelled.
- Mattermost.SortKey: a `createAt` that is neither a number nor a boolean is read as 0, where Python would compare it as it is (or fail comparing it with a number).
- Url.UrlSplit: only the bracket-balance check of `urlsplit` is modelled; the later checks of a bracketed host (that it is an IPv6 or IPvFuture address, with nothing before `[` and only a port after `]`, present in recent Python releases) and the NFKC check of a non-ASCII network location are not, so such URLs split without error in the model where Python may raise `ValueError`.
- PyRepr.EscapeChar: among characters above U+00FF, those `str.isprintable` rejects (such as U+2028 or U+200B) are written as they are, where `repr` writes a `\u` or `\U` escape; everything at or below U+00FF is escaped as Python does.
- BoardResolver.LinesOf: a `lines_changed` that is a JSON float (such as `7.5`) is not modelled, because the model's JSON values have no float case; Python compares it with 5, 20 and 50 as it is, and BoardResolver.ComplexityTier is stated on integers only.
- Mysql.NormalizeAccount: a float value (a port written `3306.0`) is not modelled, because the model's JSON values have no float case; every other value is rendered with Python's `str`, lists and dicts through their `repr`.
- Elasticsearch.ServiceLogsFirstClause: stated for extra KQL that does not end in a blank; an extra KQL made only of blanks leaves the query ending in ` AND` once stripped, and then no separator follows the service test, so the first part is not the service test alone.
- Json.Lookup: a dict is read at the first pair holding a key; a parsed dict never holds a key twice, so pair lists with repeated keys (which `json.loads` would collapse to the last value) stand for no Python value.

## Findings

| source | as written | input that shows it | evidently intended | confidence | as-written member | corrected member |
|---|---|---|---|---|---|---|
| skills/gabia-dev-mcp-oracle/scripts/oracle_cli.py:275-285 | with engine `auto`, the `SystemExit` raised to end a finished Java run is caught by the same `except SystemExit`, so sqlplus always runs next | engine `auto`, a Java run that exits 0, then sqlplus missing: the command fails | `auto` falls back to sqlplus only when the JDBC engine could not run, and a finished Java run's exit code is final | not executed | Oracle.RunEnginesAsWritten (shown by Oracle.AutoAlwaysFallsBack and Oracle.AutoFailsAfterJdbcSuccess) | Oracle.RunEngines (proved by Oracle.RunEnginesIntended) |
| skills/gabia-dev-mcp-mysql/scripts/mysql_cli.py:209 | `splitlines` also cuts at form feed, vertical tab, the file/group/record separators and U+0085, U+2028, U+2029, which the batch output never escapes | one row whose value holds a form feed parses as two rows | rows are cut at line feeds only, the separator the batch format escapes | not executed | Mysql.ParsedTsv (shown by Mysql.FormFeedSplitsRow) | Mysql.BatchTable (proved by Mysql.BatchRoundTrip) |
| skills/gabia-dev-mcp-sentry/scripts/sentry_cli.py:332 | `type=bool` converts any non-empty text to true | `--has-seen false` sends `hasSeen: true` | the words `true`/`false` (and the like) are read as the booleans they name | not executed | Sentry.HasSeenAsWritten (shown by Sentry.HasSeenFalseIsTrue) | Sentry.HasSeenArg (proved by Sentry.HasSeenRoundTrip) |
