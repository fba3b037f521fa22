# Pulsar core, modelled in Dafny

Pulsar is a Slack bot for an OpenStack operations team, and this project models its core.
The bot links PagerDuty incidents to the Slack alert messages that announced them. On a timer, the incident syncer walks the open incidents and the configured channels. It finds the alert message belonging to each incident and marks it as follows:

- a threaded `PD Incident (n): url` reply and a `:pagerduty:` reaction once the incident is linked;
- a `:male-firefighter:` reaction and an attribution reply once the incident is acknowledged.

An "Acknowledge" button on an alert message acknowledges the matching incident in PagerDuty on behalf of whoever pressed it. Chat commands list the open incidents and the people on call, and only authorized users may run them.

The model covers:

- **Correlator** (`Correlator`): the fixed regular expression that reads `(region, alertname)` from an incident summary or alert text, written as a predicate over characters that follows RE2's leftmost-first semantics. A scanner `ParseSplit` is proved to select exactly RE2's match.
- **Cluster extractor** (`ClusterParse`): the find-all of the cluster pattern, followed by normalisation and de-duplication.
- **Helpers and filter** (`Slice`, `Strings`, `Filters`): the list helpers, the Go string functions they rely on, and the incident filter.
- **PagerDuty client** (`PagerdutyTypes`, `Pagerduty`): user, schedule and on-call look-ups, the incident listing, and the acknowledgement record.
- **Synchroniser and button handler** (`SyncSpec`, `Api`): the reconciliation cycle, the acknowledge path and the interaction handler with its status-code ladder.
- **Authorizer and dispatcher** (`Auth`, `Bot`): the authorizer and the message dispatcher of the bot.
- **Configuration** (`Config`): configuration defaulting and validation.
- **Renderers** (`Models`, `SlackTable`, `TimeUtil`, `Commands`): the incident record and its Slack rendering, the table and duration renderers, and the two list commands.
- **Fixtures** (`CorrelatorFixtures`, `ChatFixtures`, `FilterFixtures`, `ClusterFixtures`): the test inputs, stated as lemmas. The cluster titles are proved through a general argument: every match of the cluster pattern contains one of the adjacent pairs `-` then a digit, `dm` or `ag`, so the find-all passes over any stretch free of them.

The two remote services are objects with oracle reads and a write log:

- **Slack**: `SlackApi.Workspace` has a fixed message history, a reaction map that changes, and a log of calls. The position of each call in the log decides whether it fails.
- **PagerDuty**: `Pagerduty.PagerdutyApi` has oracle functions for its reads and a log of writes whose outcomes are an oracle.

Each imperative operation is a method whose `ensures` ties its result and the new state to a specification function of the old state. The properties are proved about those functions.

Time is an integer:

- Incident creation times are nanoseconds since the Unix epoch.
- Message timestamps are seconds, parsed the way `strconv.ParseInt` parses them.
- "Now" and calendar formatting are parameters.

## Model

| member | source | states |
|---|---|---|
| Strings.LowerChar | pkg/clients/util.go:63 | an upper-case ASCII letter moves up by 32 code points, and every other character is kept |
| Strings.ToLower | pkg/clients/util.go:63 | the result has the input's length, and each position is the lower-case form of the input's character |
| Strings.ToLowerConcat | pkg/api/incident_syncer.go:95 | lower-casing distributes over concatenation |
| Strings.TrimLeftSpace | pkg/clients/util.go:64 | the result is a suffix of the input that does not start with white space, and everything dropped is white space |
| Strings.TrimRightSpace | pkg/clients/util.go:64 | the result is a prefix of the input that does not end with white space, and everything dropped is white space |
| Strings.TrimSpace | pkg/clients/util.go:64 | the result is no longer than the input and neither starts nor ends with white space |
| Strings.TrimSpacePiece | pkg/clients/util.go:64 | the result of `TrimSpace` is the piece of the input that starts right after its leading white space, and everything dropped before and after that piece is white space |
| Strings.TrimmedPiece | pkg/clients/util.go:64 | dropping white space from the front and then from the back leaves a piece of the input with only white space around it |
| Strings.TrimSpaceOfTrimmed | pkg/clients/util.go:64 | a string that neither starts nor ends with white space is left unchanged |
| Strings.LowerKeepsSpace | pkg/bot/bot.go:120 | lower-casing a character never changes whether it is white space |
| Strings.LowerSpaceAround | pkg/clients/util.go:62-65 | white space around a piece of the lower-cased string is white space at the same positions of the original |
| Strings.TrimSpaceInfix | pkg/clients/util.go:64 | the result of `TrimSpace` occurs inside its input |
| Strings.TrimSpaceOfLower | pkg/clients/util.go:62-65 | trimming a lower-case string leaves it lower-case |
| Strings.TrimSpaceOfNoSpace | pkg/clients/util.go:64 | a string without white space is left unchanged |
| Strings.ContainsAt | pkg/api/incident_syncer.go:82 | the recursive `strings.Contains` holds exactly when the substring occurs at some position |
| Strings.TrimPrefix | pkg/util/slice.go:49 | when the prefix is present the input is the prefix followed by the result; otherwise the result is the input |
| Strings.Split | pkg/config/slack.go:100-104 | there is always at least one part, no part holds the separator, and joining the parts with it gives back the input |
| Strings.Decimal | pkg/util/time.go:39 | the decimal rendering of a natural number is a non-empty string of digits |
| Strings.DecimalValue | pkg/util/time.go:39 | reading the digits of `Decimal(n)` back gives `n` |
| Strings.ParseInt | pkg/api/incident_syncer.go:120 | a syntax error exactly when nothing follows the optional sign, or when something other than a decimal digit follows it and the leading digits read so far stay within 2^64 - 1; a range error whenever those leading digits exceed 2^64 - 1, whatever follows them; otherwise the value is the digits' decimal value, negated after a `-`, when it lies in the 64-bit range, and a range error clamped to the bound on the sign's side when it does not |
| Strings.DigitRun | pkg/api/incident_syncer.go:120 | the longest run of decimal digits at the start of the text: all digits, a prefix of the text, followed by a non-digit or the end, and the whole text when it is all digits |
| Strings.DigitsValueGrows | pkg/api/incident_syncer.go:120 | reading more digits never lowers the value read so far, which is why the digit loop can stop at the first overflow |
| Strings.ParseIntOverflowIgnoresRest | pkg/api/incident_syncer.go:120 | leading digits worth more than 2^64 - 1, after any sign and followed by anything, give a range error clamped to the bound on the sign's side |
| Strings.ParseIntOfDigits | pkg/api/incident_syncer.go:120 | a non-empty run of decimal digits alone, worth at most the largest 64-bit integer, parses to its value |
| Strings.ParseIntOfSignedDecimal | pkg/api/incident_syncer.go:120 | `ParseInt` reads back the decimal rendering of every 64-bit integer, negative ones included |
| Strings.ParseIntOfDecimal | pkg/api/incident_syncer.go:120 | `ParseInt` reads back the decimal rendering of every 64-bit natural number |
| Correlator.AlertEnd | pkg/clients/util.go:30 | the lazy `(?P<alertname>.+?)\s\-` ends at the first delimiter before any newline; when none exists, no alertname can start there |
| Correlator.ShapeAt | pkg/clients/util.go:30 | finds a match with its `\s\[` at `w` and the shortest alertname, or shows that no match has its `\s\[` at `w` |
| Correlator.ShapeDetermined | pkg/clients/util.go:30 | the region end of any match at `w` is where the `[\w-]` run ends, so the scanner's guard accepts every match |
| Correlator.LastOnLine | pkg/clients/util.go:30 | the greedy leading `.*` selects the last qualifying position on the line of the first one |
| Correlator.QualifiesIsHit | pkg/clients/util.go:30 | the scanner's test at a position holds exactly when the pattern can match with its `\s\[` there |
| Correlator.SelectedStart | pkg/clients/util.go:30 | the selected position lies inside the text |
| Correlator.SelectedStartChosen | pkg/clients/util.go:30 | with no selected position nothing qualifies; otherwise the selected position opens the match RE2 chooses |
| Correlator.ParseSplit | pkg/clients/util.go:30 | the region lies before the alertname and both lie inside the text |
| Correlator.ParseSplitSpec | pkg/clients/util.go:30-39 | the split found is RE2's leftmost-first match (`Chosen`); none is found only when the pattern matches nowhere |
| Correlator.ChosenUnique | pkg/clients/util.go:30 | RE2's choice is unique: two chosen matches coincide |
| Correlator.SelectedWhenIsolated | pkg/clients/util.go:30 | a match with the shortest alertname and no other `\s\[` on its line, or before it, is the one parsed |
| Correlator.NormalizeString | pkg/clients/util.go:62-65 | the result is lower-case and carries no white space at either end |
| Correlator.NormalizePiece | pkg/clients/util.go:62-65 | the result of `normalizeString` is the piece of the lower-cased input that starts right after its leading white space, and everything dropped from the input before and after that piece is white space |
| Correlator.NormalisedFixedPoint | pkg/clients/util.go:62-65 | normalised strings are exactly the fixed points of `normalizeString` |
| Correlator.NormalizeIdempotent | pkg/clients/util.go:62-65 | normalising twice equals normalising once |
| Correlator.ToLowerIdempotent | pkg/clients/util.go:45-46 | the region's extra lower-casing before normalisation changes nothing |
| Correlator.ParseRegionAndAlertname | pkg/clients/util.go:35-60 | `parseRegionAndAlertnameFromText`; its contract is stated by `ParseCaptures`, `ParseMatchesRegex` and `ParseNormalised`: success exactly when the pattern matches, then the normalised captures of RE2's chosen match, otherwise the error |
| Correlator.ParseCaptures | pkg/clients/util.go:35-60 | parsing succeeds exactly when a split is found, and returns the normalised region and alertname captures of that split |
| Correlator.ParseMatchesRegex | pkg/clients/util.go:30-59 | parsing succeeds exactly when the pattern matches somewhere; it then returns the normalised captures of RE2's chosen match, and otherwise the error |
| Correlator.ParseNormalised | pkg/clients/util.go:45-59 | both components of a successful parse are lower-case and trimmed |
| CorrelatorFixtures.PiecesParse | pkg/clients/util.go:30 | a first line, a bracket-free second-line prefix, a ` [region] alertname -` piece and a bracket-free tail parse to that region and alertname |
| CorrelatorFixtures.SummaryParses | pkg/clients/filter_test.go:10-13 | every summary laid out like the PagerDuty fixtures parses to its own normalised region and alertname |
| CorrelatorFixtures.ParseOfSplit | pkg/clients/util.go:45-59 | the captures of a selected split, with the region's extra lower-casing folded away |
| CorrelatorFixtures.LbaasSummaryParses | pkg/clients/filter_test.go:10 | the first summary fixture parses to `EU-DE-1` and `OpenstackLbaasApiFlapping`, normalised |
| CorrelatorFixtures.IronicSummaryParses | pkg/clients/filter_test.go:11 | the second summary fixture, whose description holds `ap-sa-1`, parses to `AP-SA-1` and `BaremetalIronicSensorCritical`, normalised |
| CorrelatorFixtures.DatastoreSummaryParses | pkg/clients/filter_test.go:12 | the third summary fixture parses to `EU-DE-2` and `VVOLDatastoreNotAccessibleFromHost`, normalised; its `[7 Alerts]` group is passed over |
| CorrelatorFixtures.NeutronSummaryParses | pkg/clients/filter_test.go:13 | the fourth summary fixture, with an empty description, parses to `EU-NL-1` and `OpenstackNeutronDatapathDown`, normalised |
| ChatFixtures.NoSpaceBeforeBracketRejected | pkg/clients/util.go:30 | a text with no white space directly before any `[` fails to parse |
| ChatFixtures.ChatLayoutRejected | pkg/clients/util_test.go:30-33 | the `\n*[severity]* *[region]* rest` chat layout always fails to parse |
| ChatFixtures.SlackTextRejected | pkg/clients/util_test.go:30-41 | the first chat fixture fails to parse, although the test expects `ap-sa-1` |
| ChatFixtures.SlackTextWithLinkRejected | pkg/clients/util_test.go:31-45 | the second chat fixture fails to parse, although the test expects `AP-JP-1` |
| ChatFixtures.SlackTextMultiRejected | pkg/clients/util_test.go:32-49 | the third chat fixture fails to parse, although the test expects `EU-RU-1` |
| ChatFixtures.SlackTextMultipleNoDescriptionRejected | pkg/clients/util_test.go:33-53 | the fourth chat fixture fails to parse, although the test expects `EU-RU-1` |
| ClusterParse.TailTokenMatches | pkg/util/parse.go:27 | a match of the first alternative `[\w-]*\w{2}-\w{2}-\d` matches the whole pattern |
| ClusterParse.MatchesCases | pkg/util/parse.go:27 | a match of the pattern is either the first alternative or one of the literals `admin` and `staging` |
| ClusterParse.LastTail | pkg/util/parse.go:27 | the greedy `[\w-]*` takes the longest first-alternative match inside the run |
| ClusterParse.MatchAt | pkg/util/parse.go:27 | the match reported at a position is RE2's leftmost-first choice among the alternatives and is non-empty; none is reported only when no match starts there |
| ClusterParse.FindAllLeftmost | pkg/util/parse.go:36 | `FindAllString` finds nothing exactly when no match starts anywhere; otherwise it reports the leftmost match and resumes after its end |
| ClusterParse.FindAllTokens | pkg/util/parse.go:36 | every string found matches the pattern in full |
| ClusterParse.NormalizeStringSlice | pkg/util/parse.go:37 | the result normalises each element in order |
| ClusterParse.ParseClusterFromString | pkg/util/parse.go:30-44 | `ParseClusterFromString`; its contract is stated by `ParseClusterErrIffNoMatch`, `ParseClusterOk` and `ParseClusterTokens`: the error exactly when the pattern matches nowhere, otherwise the de-duplicated lower-cased matches in order |
| ClusterParse.ParseClusterErrIffNoMatch | pkg/util/parse.go:40-42 | parsing fails exactly when the pattern matches nowhere in the input |
| ClusterParse.ParseClusterOk | pkg/util/parse.go:36-44 | a successful result is non-empty and duplicate-free; it is the de-duplicated normalised matches and holds exactly their elements |
| ClusterParse.ParseClusterTokens | pkg/util/parse.go:27-37 | every cluster returned is lower-case and itself matches the pattern |
| ClusterParse.NormalizeToken | pkg/util/parse.go:37 | normalising a token only lower-cases it, and the result is still a token |
| ClusterFixtures.MatchHasMarker | pkg/util/parse.go:27 | every match of the pattern lies in a run of `[\w-]` characters and contains an adjacent pair `-` then a digit, `dm` or `ag` |
| ClusterFixtures.NoMatchInQuietSpan | pkg/util/parse.go:27 | no match starts inside a stretch free of those pairs that ends at a non-word character or at the end of the input |
| ClusterFixtures.SkipNoMatch | pkg/util/parse.go:36 | the find-all passes over such a stretch and reports nothing in it |
| ClusterFixtures.TokenStep | pkg/util/parse.go:36 | from the start of a `[\w-]` run that ends in `\w{2}-\w{2}-\d`, the find-all reports the whole run and resumes after it |
| ClusterFixtures.FindTwo | pkg/util/parse.go:36 | a string of pair-free pieces around two clusters, each cluster bounded by non-word characters, yields exactly those two clusters, in order |
| ClusterFixtures.OneClusterFound | pkg/util/parse.go:36 | an alert title `[severity] [cluster] text` with no marker pair in its severity or text yields exactly its cluster |
| ClusterFixtures.TwoClustersFound | pkg/util/parse.go:36 | when the text also names a second cluster between non-word characters, the title yields both, in order |
| ClusterFixtures.OneClusterParses | pkg/util/parse.go:30-44 | such a one-cluster title parses to its cluster in lower case |
| ClusterFixtures.TwoClustersParse | pkg/util/parse.go:30-44 | a title that names its cluster twice, in two cases, parses to the single lower-case cluster |
| ClusterFixtures.NodeAlertParses | pkg/util/parse_test.go:29 | `[CRITICAL - 2] [LA-BR-1] ManyPodsNotReadyOnNode - …` parses to `["la-br-1"]` |
| ClusterFixtures.NovaAlertParses | pkg/util/parse_test.go:30 | `[RESOLVED] [LA-BR-1] OpenstackNovaDatapathDown - …` parses to `["la-br-1"]` |
| ClusterFixtures.FederationAlertParses | pkg/util/parse_test.go:31 | `[CRITICAL] [S-LA-BR-1] … Prometheus s-la-br-1 is down` parses to `["s-la-br-1"]`: both hits are found and are merged once lower-cased |
| Slice.Select | pkg/util/slice.go:83-93 | selecting by a mask never gives more elements than the input has |
| Slice.SubsequenceSnoc | pkg/util/slice.go:89 | extending the input by one element keeps a subsequence a subsequence, whether or not that element is appended |
| Slice.SubsequenceElements | pkg/util/slice.go:83-93 | every element of a subsequence is an element of the sequence |
| Slice.Contains | pkg/util/slice.go:27-34 | true exactly when some element equals the search string |
| Slice.HasAnyPrefix | pkg/util/slice.go:37-44 | true exactly when some listed prefix is a prefix of the string, so an empty list gives false |
| Slice.TrimAnyPrefix | pkg/util/slice.go:47-52 | the result is a suffix of the input |
| Slice.TrimAnyPrefixSnoc | pkg/util/slice.go:48-50 | the prefixes are stripped sequentially: one more prefix trims the previous result once more |
| Slice.TrimAnyPrefixNoMatch | pkg/util/slice.go:47-52 | a string that starts with none of the prefixes comes back unchanged |
| Slice.IsSlicesEqual | pkg/util/slice.go:55-80 | the loop as written: true exactly when the lengths agree, the first slice has no repeated element, and each of its elements occurs in the second |
| Slice.SlicesEqualIsPermutation | pkg/util/slice.go:55-80 | when the second slice is duplicate-free, the as-written result holds exactly when the first slice is a permutation of it |
| Slice.RepeatedElementCounterexample | pkg/util/slice.go:54-70 | `["a","a"]` against itself has equal content but compares unequal as written |
| Slice.IsSlicesEqualCorrected | pkg/util/slice.go:54-80 | with the `break` the documentation calls for, the result holds exactly when the two slices are permutations of each other |
| Slice.FirstUnclaimed | pkg/util/slice.go:63-70 | the inner loop with `break` stops at the first unvisited slot holding the element, or at the end when there is none |
| Slice.RemoveDuplicates | pkg/util/slice.go:83-93 | the map-and-append loop computes `Dedup` of its input |
| Slice.DedupDistinctSameElements | pkg/util/slice.go:83-93 | the result has no repeated element and holds exactly the input's elements |
| Slice.DedupSubsequence | pkg/util/slice.go:83-93 | the result keeps the input's relative order, as a subsequence of it |
| Slice.DedupFirstOccurrenceOrder | pkg/util/slice.go:86-90 | the result lists elements in the order of their first occurrence in the input |
| Slice.DedupOfDistinct | pkg/util/slice.go:83-93 | a duplicate-free input comes back unchanged |
| Slice.DedupIdempotent | pkg/util/slice.go:83-93 | removing duplicates twice is removing them once |
| Filters.Where | pkg/clients/filter.go:50-74 | the selection is no longer than its input |
| Filters.KeepsOfParse | pkg/clients/filter.go:59-66 | for a summary that parses, the verdict is cluster membership when clusters are set, and equality with the normalised filter alertname when one is set |
| Filters.Filter.constructor | pkg/clients/filter.go:11-26 | a filter literal holds the given criteria and no limit, so its page size is 100 |
| Filters.Filter.ClusterFilterFromText | pkg/clients/filter.go:29-36 | on a parse error the error is returned and the filter is unchanged; otherwise the parsed clusters are stored and nothing else changes |
| Filters.Filter.AlertnameFilterFromText | pkg/clients/filter.go:39-47 | on a parse error the error is returned and the filter is unchanged; otherwise the parsed alertname, already normalised, is stored and nothing else changes |
| Filters.Filter.SetLimit | pkg/clients/filter.go:77-79 | the page size becomes the given limit and the criteria are unchanged |
| Filters.Filter.ToString | pkg/clients/filter.go:90-109 | the rendering is `alertname=…`, `, severity=…`, `, fingerprint=…` and `, clusters=` with the comma-joined clusters, in that order, each present exactly when its criterion is set; so it is empty exactly when no criterion is set, and starts with `, severity=` when the alertname is unset but the severity is set |
| Filters.Filter.FilterIncidents | pkg/clients/filter.go:50-74 | the loop returns exactly the incidents the filter keeps, in order |
| Filters.KeptSubsequence | pkg/clients/filter.go:50-74 | what is kept is an order-preserving subsequence of the input |
| Filters.KeptMembers | pkg/clients/filter.go:53-70 | an incident is kept exactly when it is in the input and the filter keeps its summary |
| Filters.KeptParses | pkg/clients/filter.go:54-66 | a kept incident parses, its region is in the clusters when they are set, and its alertname is the normalised filter alertname when one is set |
| Filters.UnparsableDropped | pkg/clients/filter.go:54-57 | an incident whose summary does not parse is always dropped |
| Filters.EmptyFilterKeepsParsable | pkg/clients/filter.go:53-70 | with no criteria, exactly the parsable incidents are kept |
| FilterFixtures.TestVerdict | pkg/clients/filter_test.go:28-31 | the test's filter keeps a parsed summary exactly when its region is `eu-de-2` and its alertname is the normalised `VVOLDatastoreNotAccessibleFromHost` |
| FilterFixtures.DatastoreParts | pkg/clients/filter_test.go:12 | the third summary parses to `eu-de-2` and the normalised filter alertname |
| FilterFixtures.FilterTestKeepsDatastore | pkg/clients/filter_test.go:16-35 | of the four fixtures, the test's filter keeps only the `[EU-DE-2]` incident |
| Pagerduty.ContainsUser | pkg/clients/util.go:67-74 | true exactly when some user in the list has the same ID |
| Pagerduty.FirstWithEmail | pkg/clients/pagerduty.go:86-90 | a user is found exactly when some listed user has exactly that e-mail address |
| Pagerduty.FirstWithEmailIsFirst | pkg/clients/pagerduty.go:86-90 | the user found is the first listed one with that address |
| Pagerduty.PagerdutyClient.GetUserByEmail | pkg/clients/pagerduty.go:80-93 | returns the listing error, or the first listed user whose address is exactly the query, or the not-found error |
| Pagerduty.PagerdutyClient.ListIncidents | pkg/clients/pagerduty.go:96-115 | asks only for triggered incidents with limit 100; returns an API error as it is; with no filter returns the list unchanged; otherwise returns what the filter keeps |
| Pagerduty.Acknowledged | pkg/clients/pagerduty.go:126-144 | status becomes `acknowledged`; exactly one acknowledgement and one assignment referencing the user are appended; existing entries and all other fields are untouched |
| Pagerduty.PagerdutyClient.AcknowledgeIncident | pkg/clients/pagerduty.go:118-148 | when fetching the incident fails, its error is returned and nothing is written; otherwise exactly one update, the acknowledged record on behalf of the user's address, is written and its outcome returned |
| Pagerduty.AcknowledgerNoteContent | pkg/clients/pagerduty.go:162 | the note's text names the actual acknowledger |
| Pagerduty.PagerdutyClient.AddActualAcknowledgerAsNote | pkg/clients/pagerduty.go:151-166 | exactly one note is written, authored by and sent on behalf of the default user, naming the actual acknowledger |
| Pagerduty.OnCallQuery | pkg/clients/pagerduty.go:170-179 | the request has limit 100, `earliest` set and the day's bounds; it includes schedules and names the schedule only when an ID is given |
| Pagerduty.PagerdutyClient.ListTodaysOnCallUsers | pkg/clients/pagerduty.go:169-201 | returns the listing error, or the users the dedup loop collects (`OnCallUsers`) |
| Pagerduty.OnCallUsers | pkg/clients/pagerduty.go:186-200 | there are never more users than on-call entries |
| Pagerduty.OnCallUsersDedup | pkg/clients/pagerduty.go:186-200 | with a lookup that returns the user asked for, the collected IDs are the successfully looked-up IDs, each once, in first-seen order |
| Pagerduty.OnCallUsersDistinct | pkg/clients/pagerduty.go:186-200 | the collected users have pairwise distinct IDs, and every ID whose lookup succeeds is among them |
| Pagerduty.OnCallUsersLookedUp | pkg/clients/pagerduty.go:190-196 | every collected user is the result of a successful lookup of some on-call entry, so users whose lookup fails are skipped |
| Pagerduty.HasUserIdIds | pkg/clients/util.go:67-74 | a user with the ID is in the list exactly when the ID is among the list's IDs |
| Pagerduty.FirstWhere | pkg/clients/pagerduty.go:214-218 | a found element sits at some index of the list, satisfies the test, and no element before that index does |
| Pagerduty.FirstScheduleNamed | pkg/clients/pagerduty.go:214-218 | a found schedule sits at some index of the list, its normalised name equals the normalised query, and no schedule before it has that normalised name |
| Pagerduty.FirstScheduleNamedNone | pkg/clients/pagerduty.go:214-220 | no schedule is found exactly when no listed schedule's normalised name equals the normalised query |
| Pagerduty.PagerdutyClient.GetSchedule | pkg/clients/pagerduty.go:204-221 | asks for 100 schedules matching the name; returns the listing error, or the first schedule whose normalised name matches, or `schedule not found` |
| Pagerduty.PagerdutyClient.constructor | pkg/clients/pagerduty.go:55-59 | the struct literal: the client wraps the given API, and its default user is the empty record until the lookup fills it in |
| Pagerduty.NewPagerdutyClient | pkg/clients/pagerduty.go:49-68 | fails with the wrapped lookup error when the default e-mail address has no user; otherwise the new client's default user is that user |
| Pagerduty.DefaultUserHasEmail | pkg/clients/pagerduty.go:61-65 | the default user carries the configured address |
| Pagerduty.PagerdutyApi.Manage | pkg/clients/pagerduty.go:147 | appends exactly one incident update to the write log and returns that write's outcome |
| Pagerduty.PagerdutyApi.CreateNote | pkg/clients/pagerduty.go:165 | appends exactly one note to the write log and returns that write's outcome |
| SlackApi.Posted | pkg/api/incident_syncer.go:148-158 | a post is appended to the call log, leaves every reaction as it was, and fails exactly as the workspace answers for that position of the log |
| SlackApi.Reacted | pkg/api/incident_syncer.go:161-171 | a reaction is appended to the call log; when it succeeds the emoji is on the message, when it fails nothing changes; no other message's reactions change and no reaction is ever lost |
| SlackApi.WithReactions | pkg/api/incident_syncer.go:59 | the history keeps the channel's messages one for one, in order, each carrying the reactions the workspace holds for it now |
| SlackApi.Workspace.constructor | pkg/clients/slack.go:39-51 | a new workspace client starts with the given reactions and an empty call log |
| SlackApi.Workspace.GetConversationHistory | pkg/api/incident_syncer.go:59-63 | the history read is the channel's listing with the current reactions, or its error |
| SlackApi.Workspace.PostMessage | pkg/clients/slack.go:71-73 | the new state and error are those of `Posted` on the old state |
| SlackApi.Workspace.AddReactionToMessage | pkg/api/incident_syncer.go:162-166 | the new state and error are those of `Reacted` on the old state |
| SyncSpec.ParseIntValue | pkg/api/incident_syncer.go:120-123 | the seconds read from a timestamp, with the parse error ignored, always lie in the 64-bit signed range |
| SyncSpec.TimeMatchWindow | pkg/api/incident_syncer.go:118-125 | a message is in the incident's time window exactly when the creation instant and the message's whole second differ by at most 60 s, either way |
| SyncSpec.TimeMatchIgnoresFraction | pkg/api/incident_syncer.go:120 | only the part of the timestamp before the first `.` counts: appending a fraction never changes the answer |
| SyncSpec.IndexOfFirst | pkg/api/incident_syncer.go:120 | the first dot of `secs.frac` is right after `secs` when `secs` has none, so the split's first part is `secs` |
| SyncSpec.LinkedEffect | pkg/api/incident_syncer.go:100-104 | the link step posts the `PD Incident (n): url` reply and adds the `pagerduty` reaction, both attempted, unless the message already had that reaction; it keeps every reaction and the reaction is there when its call succeeded |
| SyncSpec.MarkAcknowledgedEffect | pkg/api/incident_syncer.go:173-193 | the firefighter reaction comes first; its failure ends the step; after it, a missing acknowledgement panics, and otherwise exactly the note naming the first acknowledger follows |
| SyncSpec.HandleQualifies | pkg/api/incident_syncer.go:64-113 | a message is acted on exactly when it is in the time window, has an attachment, the incident summary parses, the alert is not resolved, it names the region and alertname, and it lacks one of the two reactions; otherwise nothing happens |
| SyncSpec.EffectsCalls | pkg/api/incident_syncer.go:99-110 | the calls made for a qualifying message, in order: the link reply and `pagerduty` reaction when missing; then, for an acknowledged incident without the firefighter reaction, that reaction and, only if it succeeded, the note; only a missing acknowledgement panics |
| SyncSpec.KeepsTrans | pkg/api/incident_syncer.go:47-49 | keeping every reaction and extending the log composes over consecutive steps |
| SyncSpec.EffectsKeeps | pkg/api/incident_syncer.go:99-110 | acting on a message never removes a reaction and only appends to the log |
| SyncSpec.AcknowledgedMatchMarked | pkg/api/incident_syncer.go:94-110 | when no write fails, acting on a message about an acknowledged incident with an acknowledgement, whose reactions as read are still on it, leaves both reactions on it without a panic |
| SyncSpec.ListingErrorNoCalls | pkg/api/incident_syncer.go:43-46 | an error listing the incidents ends the run with that error and no call |
| SyncSpec.HistoryErrorSkipsChannel | pkg/api/incident_syncer.go:59-63 | a channel whose history cannot be read is skipped without a call |
| SyncSpec.OnlyParsableIncidents | pkg/api/incident_syncer.go:41-43 | the empty filter of limit 100 keeps exactly the listed incidents whose summary parses |
| SyncSpec.MessagesUntouched | pkg/api/incident_syncer.go:88-92 | a history whose every message carries both reactions causes no call and no panic |
| SyncSpec.EnrichUntouched | pkg/api/incident_syncer.go:57-115 | when every message of every configured channel carries both reactions, enriching with an incident changes nothing |
| SyncSpec.IncidentsUntouched | pkg/api/incident_syncer.go:47-49 | the same holds over any list of incidents |
| SyncSpec.MarkedRunIsQuiet | pkg/api/incident_syncer.go:38-52 | once every message carries both reactions a run makes no call and ends with the listing error or normally |
| SyncSpec.HandleKeeps | pkg/api/incident_syncer.go:64-113 | handling one message never removes a reaction and only appends to the log |
| SyncSpec.MessagesKeeps | pkg/api/incident_syncer.go:64-114 | the same over a channel's whole history |
| SyncSpec.EnrichKeeps | pkg/api/incident_syncer.go:54-116 | the same over every configured channel |
| SyncSpec.IncidentsKeeps | pkg/api/incident_syncer.go:47-49 | the same over every listed incident |
| SyncSpec.SyncKeeps | pkg/api/incident_syncer.go:38-52 | a whole synchronisation run never removes a reaction and only appends to the call log |
| SyncSpec.ChannelKeeps | pkg/api/incident_syncer.go:57-114 | reading a channel and handling its history never removes a reaction and only appends to the log |
| SyncSpec.HandleNoPanic | pkg/api/incident_syncer.go:99-110 | when no write fails, handling a message panics only for an acknowledged incident without an acknowledgement |
| SyncSpec.MessagesNoPanic | pkg/api/incident_syncer.go:64-114 | the same over a channel's whole history |
| SyncSpec.EnrichNoPanic | pkg/api/incident_syncer.go:54-116 | the same over every configured channel |
| SyncSpec.IncidentsNoPanic | pkg/api/incident_syncer.go:47-49 | the same over every incident, when each acknowledged one has an acknowledgement |
| SyncSpec.HandleMarks | pkg/api/incident_syncer.go:64-113 | when no write fails, a message about an acknowledged incident that has an acknowledgement carries both reactions once handled: either it had both when read, or handling adds them |
| SyncSpec.MessagesLast | pkg/api/incident_syncer.go:64-113 | the last message of a history keeps every earlier reaction and, when it is about the acknowledged incident, ends up with both reactions |
| SyncSpec.MessagesMark | pkg/api/incident_syncer.go:64-114 | every message of a history read from the state that is about the acknowledged incident carries both reactions after the whole history is handled |
| SyncSpec.ChannelMarks | pkg/api/incident_syncer.go:57-114 | every message of a readable channel that is about the acknowledged incident carries both reactions after the channel is handled |
| SyncSpec.EnrichMarks | pkg/api/incident_syncer.go:54-116 | the same for every readable configured channel after enriching with the incident |
| SyncSpec.IncidentsLast | pkg/api/incident_syncer.go:47-49 | enriching with the last incident keeps every reaction and, when that incident is acknowledged, marks its messages |
| SyncSpec.IncidentsMark | pkg/api/incident_syncer.go:47-49 | after every incident is enriched, each message about any acknowledged one among them carries both reactions |
| SyncSpec.SyncMarksAcknowledged | pkg/api/incident_syncer.go:38-52 | when no write fails and every acknowledged incident looked at has an acknowledgement, a run ends normally and every message of a readable configured channel about an acknowledged listed incident carries both the firefighter and the `pagerduty` reaction |
| Api.AcknowledgeSlackCalls | pkg/api/acknowledge.go:36-52 | an acknowledgement always posts the `Acknowledged by <@user>` reply first and attempts the firefighter reaction only when the reply went through; when both succeed the reaction is on the alert |
| Api.AcknowledgeWritesOnce | pkg/api/acknowledge.go:54-82 | PagerDuty is written at most once, only after both Slack writes succeeded, the Slack user was found, the alert has text and its clusters and alertname parse, and the incident was found and fetched; the write acknowledges that incident as the acting user and its outcome is the result |
| Api.ActingUserFallback | pkg/api/acknowledge.go:60-65 | the acting user is the PagerDuty user with the Slack user's address, or the default user exactly when that lookup fails |
| Api.MissingAlertRefused | pkg/api/acknowledge.go:67-69 | an alert without attachment text is refused with the structure error and PagerDuty is not written |
| Api.InteractionGuards | pkg/api/core.go:103-152 | the endpoint answers only 200, 401, 405 or 500; a 401 or 405 changes nothing; any write came from a POST with the verification token, from an authorized user, whose callback asked for an acknowledgement |
| Api.ForeignTokenRefused | pkg/api/core.go:133-137 | a decoded callback whose token is not the verification token is answered 401 and changes nothing |
| Api.Api.constructor | pkg/api/core.go:59-77 | the service keeps the given clients, authorizer, channel list and verification token |
| Api.Api.Acknowledge | pkg/api/acknowledge.go:35-83 | the new Slack state, PagerDuty write log and error are those of `AckEffect` |
| Api.Api.AcknowledgeInPagerduty | pkg/api/acknowledge.go:54-82 | the PagerDuty write log and error are those of `AckPagerduty` |
| Api.Api.FindIncident | pkg/api/acknowledge.go:71-80 | a parse failure of the clusters or the alertname gives the parsing error; otherwise the incident found for the parsed clusters and alertname |
| Api.Api.HandleInteractionCallback | pkg/api/core.go:154-169 | acknowledges when some action is the acknowledge button, and otherwise changes nothing and succeeds |
| Api.Api.HandleInteraction | pkg/api/core.go:103-152 | the new state and status are those of `Interaction`, whose guards `InteractionGuards` states |
| Api.Api.CheckReactions | pkg/api/incident_syncer.go:127-145 | each flag is true exactly when the message carries that reaction |
| Api.Api.AddPdLink | pkg/api/incident_syncer.go:148-158 | posts the incident link reply in the message's thread, as `Posted` |
| Api.Api.AddReactionHandled | pkg/api/incident_syncer.go:161-171 | adds the `pagerduty` reaction, as `Reacted` |
| Api.Api.AddReactionAcknowledged | pkg/api/incident_syncer.go:173-193 | the new state and panic are those of `MarkAcknowledged`; the error is the reaction's, or else the note's |
| Api.Api.ProcessMessage | pkg/api/incident_syncer.go:64-113 | the new state and panic are those of `Handle` for the message |
| Api.Api.EnrichChannel | pkg/api/incident_syncer.go:57-115 | the new state and panic are those of `Channel`: the history read, then each message in order, stopping at a panic |
| Api.Api.EnrichSlackChannelWithIncident | pkg/api/incident_syncer.go:54-116 | the new state and panic are those of `Enrich` over the configured channels |
| Api.Api.PdSlackIncidentsSync | pkg/api/incident_syncer.go:38-52 | the new state and outcome are those of `Sync` on the listing of triggered incidents |
| Api.MessagesStep | pkg/api/incident_syncer.go:64 | one more message is handled unless an earlier one panicked |
| Api.IncidentsStep | pkg/api/incident_syncer.go:47 | one more incident is enriched unless an earlier one panicked |
| Api.MessagesPanicSticks | pkg/api/incident_syncer.go:64 | after a panic the remaining messages change nothing |
| Api.EnrichPanicSticks | pkg/api/incident_syncer.go:57 | after a panic the remaining channels change nothing |
| Api.IncidentsPanicSticks | pkg/api/incident_syncer.go:47 | after a panic the remaining incidents change nothing |
| Auth.GroupUsersMembers | pkg/auth/authorizer.go:107-119 | a user is collected for a role exactly when some listed group whose name is configured for that role has them as a member |
| Auth.Authorizer.constructor | pkg/auth/authorizer.go:52-57 | a new authorizer keeps the configured group names and starts with empty ID lists |
| Auth.Authorizer.IsUserAuthorized | pkg/auth/authorizer.go:67-77 | a user is authorized exactly when the required role is Base, KubernetesUser or KubernetesAdmin and the user is in that role's list; any other role authorizes no one |
| Auth.Authorizer.Refresh | pkg/auth/authorizer.go:101-127 | a listing error is wrapped as `failed to list user groups: …` and changes no list; otherwise each list gets the members of its groups appended, in listing order, and the refresh fails exactly when no user is authorized at all |
| Auth.NewAuthorizer | pkg/auth/authorizer.go:46-64 | a new authorizer fails exactly when the first listing fails or yields no authorized user; otherwise its lists are the members of the configured groups |
| Bot.InitMask | pkg/bot/bot.go:62-70 | one flag per available command, set exactly when its initialisation succeeded |
| Bot.RegisteredSubsequence | pkg/bot/bot.go:62-70 | the registered commands are exactly the available ones selected by the mask of successful initialisations: each succeeded command once, in its original order, and no other |
| Bot.NormalizedShape | pkg/bot/bot.go:117-123 | the normalised command text has no upper-case ASCII letter and no white space at either end |
| Bot.RespondOptionsShape | pkg/bot/bot.go:159-175 | a reply always sends the bot name, as-user and the text first; blocks exactly when there are some; attachments exactly when they are not nil |
| Bot.UnmentionedIgnored | pkg/bot/bot.go:108-114 | a message that does not open with the bot's mention is left as it is, answered by nobody, and gives no error |
| Bot.OnlyTextRewritten | pkg/bot/bot.go:122-123 | handling a mentioned message changes its text to the normalised text and nothing else about it |
| Bot.EveryMatchAnswers | pkg/bot/bot.go:126-145 | when the sender may run every matching command, every run succeeds and no post fails, each matching command answers once, in registration order, nothing else is posted, and the loop reports whether any matched |
| Bot.UnauthorizedStops | pkg/bot/bot.go:129-133 | the first matching command whose role the sender lacks ends the loop with the `You are not authorized :x:` reply and no error; no later command runs |
| Bot.NoMatchIsQuiet | pkg/bot/bot.go:126-127 | when no command matches, the loop posts nothing |
| Bot.HelpFallback | pkg/bot/bot.go:147-156 | when no command matches a mentioned message, only the help reply is posted, or the help command's error is returned with nothing posted |
| Bot.Bot.constructor | pkg/bot/bot.go:62-73 | the bot's commands are the registered ones followed by the help command, which lists exactly the registered ones |
| Bot.Bot.Respond | pkg/bot/bot.go:159-175 | the new state and error are those of posting `RespondOptions` to the original message's channel |
| Bot.Bot.HandleMessageEvent | pkg/bot/bot.go:108-157 | the new state, the message as left and the error are those of `HandleMessage`, whose cases the lemmas above state |
| Config.Atoi | pkg/config/slack.go:81-83 | a value is read exactly when the text is a decimal integer that fits in 64 bits, and it is that integer |
| Config.IntSetting | pkg/config/slack.go:80-93 | an integer setting is the variable's value when it parses, and the default otherwise |
| Config.ListSetting | pkg/config/slack.go:100-104 | a list setting has at least one element, and joining it with commas gives the variable back |
| Config.ValidateSlack | pkg/config/slack.go:111-131 | as written: validation passes exactly when both tokens, the bot ID, the access token, the verification token, the authorized group list and the channel list are all present |
| Config.ValidateSlackCorrected | pkg/config/slack.go:127-129 | passes on exactly the same configurations; a configuration missing only its channel list is reported under `SLACK_CHANNELS_ID_LIST`; every other report is unchanged |
| Config.EmptyChannelListMessage | pkg/config/slack.go:127-129 | as written, a configuration whose only fault is its empty channel list is reported as `missing or empty SLACK_VERIFICATION_TOKEN` |
| Config.NewSlackConfigFromEnv | pkg/config/slack.go:79-109 | the configuration is returned together with its validation error, which is absent exactly when the bot token, bot ID, access token and verification token variables are all set |
| Config.SlackConfigDefaults | pkg/config/slack.go:80-104 | the port defaults to 8080 and the scan count to 20 unless their variables parse, the host to `0.0.0.0` unless set, and every list setting has at least one element |
| Config.EmptyListVariable | pkg/config/slack.go:100-104 | an unset list variable yields one empty name, not an empty list |
| Config.ValidatePagerduty | pkg/config/pagerduty.go:52-61 | validation passes exactly when the token and the default address are set; a missing token is reported first |
| Config.NewPagerdutyConfigFromEnv | pkg/config/pagerduty.go:42-50 | the configuration holds the token and default address as set, and a service list that joins back to its variable; the error is absent exactly when both are set |
| Models.NewUser | pkg/slack/models/user.go:47-52 | the role and display name are kept as given |
| Models.UserString | pkg/slack/models/user.go:54-64 | a label starts with the role's emoji, a space, the role's name, a colon and a space, and ends with the display name |
| Models.UserStringInjective | pkg/slack/models/user.go:54-64 | two people with different roles or display names never get the same label |
| Models.AppendTextSectionBlock | pkg/slack/models/util.go:26-39 | exactly one section block is appended, with no text and one markdown field per segment, in order; the earlier blocks are unchanged |
| Models.AppendActionSectionBlock | pkg/slack/models/util.go:41-48 | exactly one actions block with an empty ID is appended, with one plain-text button per action, in order; the earlier blocks are unchanged |
| Models.AppendText | pkg/slack/models/util.go:26-39 | one segment appends one single-field section |
| Models.AppendTexts | pkg/slack/models/incident.go:94-105 | successive single-segment appends add one section per line, in order, after the unchanged blocks |
| Models.ActionBlock | pkg/slack/models/incident.go:110-114 | the footer holds the Close, Edit and Page on-call buttons, in that order, with their IDs and values |
| Models.IncidentBlocks | pkg/slack/models/incident.go:80-117 | the title, reporter and lead sections come first, then a divider, one text section per detail line in order, a divider and the buttons |
| Models.Incident.constructor | pkg/slack/models/incident.go:54-62 | a new incident is open, started now, with no description, status emoji, end or duration |
| Models.Incident.SetLead | pkg/slack/models/incident.go:64-66 | only the lead changes |
| Models.Incident.SetDescription | pkg/slack/models/incident.go:68-70 | only the description changes |
| Models.Incident.Close | pkg/slack/models/incident.go:72-77 | the incident is closed now, its duration is the saturated time since its start, its status emoji is the green check mark, and nothing else changes |
| Models.Incident.DetailLines | pkg/slack/models/incident.go:89-105 | the status line, the severity and the humanized start time come first, in that order; the humanized close time and duration follow only once closed; the description line comes last and only when there is a description |
| Models.Incident.ToSlackMessage | pkg/slack/models/incident.go:79-118 | a block message with no text and no attachments: title, reporter and lead sections, a divider, one text section per detail line in order, a divider and the close, edit and page buttons |
| Models.MessageDetails | pkg/slack/models/incident.go:89-105 | the message has 9 blocks, plus two once closed and one more with a description; after the first divider come the status, severity and start sections, then the close and duration sections once closed; the description section is third from last |
| Models.StatusOpenIffNotClosed | pkg/slack/models/incident.go:90-94 | the status line says `open` exactly while the incident is not closed |
| SlackTable.ToSlackTable | pkg/util/slack.go:30-41 | the message carries exactly one section whose fields are the cells, and no text |
| SlackTable.FlattenLength | pkg/util/slack.go:32-36 | there is one field per cell |
| SlackTable.FlattenRowMajor | pkg/util/slack.go:32-36 | cell `j` of row `i` is the field after all cells of the earlier rows and the `j` before it, as plain text |
| SlackTable.FlattenFields | pkg/util/slack.go:34 | every field is plain text with emoji rendering on and not verbatim, and holds some cell |
| TimeUtil.Clamp64 | pkg/api/incident_syncer.go:124 | the result lies in the 64-bit range and equals its input when that is already in range |
| TimeUtil.Sub | pkg/slack/models/incident.go:75 | the difference of two instants is a 64-bit duration |
| TimeUtil.Abs | pkg/api/incident_syncer.go:124 | the absolute value is non-negative and in range, and is the duration or its negation except for the most negative duration |
| TimeUtil.Quo | pkg/util/time.go:36-38 | Go's division by a positive divisor truncates toward zero: Euclid's quotient for a non-negative dividend, the negated quotient of the negation otherwise |
| TimeUtil.Pad2 | pkg/util/time.go:39 | a `%02d` field is at least two characters wide |
| TimeUtil.DivModUnique | pkg/util/time.go:36-38 | a quotient and remainder in range are the ones division gives |
| TimeUtil.QuoRest | pkg/util/time.go:36-38 | for a non-negative duration the truncating quotient leaves exactly the Euclidean remainder |
| TimeUtil.UnitsBelow | pkg/util/time.go:38 | fewer than 60 minutes' worth of nanoseconds holds fewer than 60 whole minutes |
| TimeUtil.FieldsNonNegative | pkg/util/time.go:36-38 | for a non-negative duration the fields are the whole hours and the whole minutes within the hour, which is below 60 |
| TimeUtil.HumanizeNonNegative | pkg/util/time.go:35-40 | a non-negative duration renders as its hours and its minutes within the hour, each padded to two digits |
| TimeUtil.WithinUnit | pkg/util/time.go:36-38 | adding less than a minute to a whole number of minutes changes neither the hours nor the minutes |
| TimeUtil.DropsBelowUnit | pkg/util/time.go:36-38 | the fields of a whole number of minutes plus less than a minute are those of the whole minutes |
| TimeUtil.HumanizeDropsSeconds | pkg/util/time.go:35-40 | durations that differ only below the minute render the same |
| TimeUtil.Pad2RoundTrip | pkg/util/time.go:39 | a padded non-negative field parses back to its number, is two wide below 10 and as wide as the number otherwise, and has no `:` |
| TimeUtil.SplitOnce | pkg/util/time.go:39 | text with exactly one `:` splits into the two sides |
| TimeUtil.HumanizeDuration | pkg/util/time.go:35-40 | `HumanizeDuration`; its contract is stated by `HumanizeDurationRoundTrip`, `HumanizeDropsSeconds` and `NegativeDurationRendering`: the whole hours and the minutes within the hour, each padded to two digits and joined by `:` |
| TimeUtil.HumanizeDurationRoundTrip | pkg/util/time.go:35-40 | the rendering of a non-negative duration splits at `:` into exactly two numbers, the whole hours and the minutes within the hour |
| TimeUtil.FieldsRoundTrip | pkg/util/time.go:39 | `HH:MM` built from two non-negative fields splits and parses back to those fields |
| TimeUtil.NegativeDurationRendering | pkg/util/time.go:35-40 | a negative duration keeps the sign on each field: minus ninety seconds renders as `00:-1` |
| Commands.Rows | pkg/slack/pagerduty_list.go:84-86 | there is one row per incident |
| Commands.RowAt | pkg/slack/pagerduty_list.go:85 | row `k` is incident `k`'s summary and when it started |
| Commands.ListErrorReturned | pkg/slack/pagerduty_list.go:68-71 | a listing error is the command's error |
| Commands.NothingOpenReply | pkg/slack/pagerduty_list.go:73-81 | when nothing is open in the named clusters the reply is a text saying so |
| Commands.NoIncidentsNamesClusters | pkg/slack/pagerduty_list.go:74-78 | that text names the clusters, joined with `, `, exactly when the message named some |
| Commands.PairCells | pkg/slack/pagerduty_list.go:83-86 | a table of two-cell rows has twice as many cells as rows |
| Commands.PairFields | pkg/slack/pagerduty_list.go:83-88 | in such a table row `i` is fields `2i` and `2i + 1` |
| Commands.TableFields | pkg/slack/pagerduty_list.go:83-88 | the header cells `Summary` and `Started` come first, then each incident's summary and start, in order |
| Commands.ListTable | pkg/slack/pagerduty_list.go:63-89 | a non-empty listing, narrowed to the clusters the message names, is one section whose fields are the header then each kept incident's summary and start, in listing order |
| Commands.PagerdutyList.constructor | pkg/slack/pagerduty_list.go:42-49 | the command keeps the given PagerDuty client and date rendering |
| Commands.PagerdutyList.Run | pkg/slack/pagerduty_list.go:63-89 | the reply is `ListReply` for the triggered incidents and the clusters parsed from the message |
| Commands.PagerdutyList.Reply | pkg/slack/pagerduty_list.go:68-88 | the listing error, the no-incidents text, or the table, as `IncidentsReply` |
| Commands.PagerdutyList.Table | pkg/slack/pagerduty_list.go:83-88 | the table is the header row followed by one row per incident, in order |
| Commands.MentionsFound | pkg/slack/pagerduty_list_oncall.go:92-97 | there are at most as many mentions as on-call users, each names the Slack user found for some on-call user's address, and when every lookup succeeds there is one per user, in order |
| Commands.OnCallTextShape | pkg/slack/pagerduty_list_oncall.go:88-99 | the reply says nobody is on call exactly when nobody is, and otherwise starts with `Currently on call: ` |
| Commands.OnCallReplyCases | pkg/slack/pagerduty_list_oncall.go:77-99 | the command answers only after finding the schedule by name and listing today's on-call entries of that schedule alone; either failure is its error |
| Commands.PagerdutyListOnCall.constructor | pkg/slack/pagerduty_list_oncall.go:45-59 | the command keeps the given PagerDuty and Slack clients |
| Commands.PagerdutyListOnCall.Run | pkg/slack/pagerduty_list_oncall.go:77-100 | the reply is `OnCallReply` for what PagerDuty and Slack answer |
| Commands.PagerdutyListOnCall.MentionUsers | pkg/slack/pagerduty_list_oncall.go:92-97 | the mentions are `Mentions` of the on-call users, in order |

## Left out

- RFC 3339 parsing of incident creation dates is a function parameter (`parseTime`, and `started` in the incident list). The calendar formatting of `HumanizeTimestamp` is one too (`humanizeTimestamp`). Calendar arithmetic is not modelled.
- The clock is a parameter. `now` is taken where the source calls `time.Now`, and `since` and `until` where `ListTodaysOnCallUsers` computes today's bounds.
- `time.Unix` of a seconds value whose nanoseconds overflow 64 bits is not modelled: the message time is the exact product. The float `Minutes() <= 1` test is stated as the equivalent integer test |Δ| ≤ 60 s.
- Network I/O is not modelled: the Slack real-time loop, the HTTP listener and router, the authorizer's ten-minute ticker, and logging.
- The Slack and PagerDuty libraries are oracles. Reads are fixed functions; writes are appended to a log whose outcome is given per log position.
- SlackApi.Workspace.GetUserByID and SlackApi.Workspace.GetUserByEmail only return the oracle's answer and have no row.
- The bot's two Slack clients (`slackClient` and `slackBotClient`) are one workspace.
- A threaded reply is not added to the channel history that later reads return. Only the reaction map changes what a read sees.
- Reading the request body, `url.QueryUnescape` and the JSON decoding of the interaction payload are function parameters (`Request.body`, `unescape`, `decode`).
- Api.Api.Acknowledge: `acknowledge` returns a listing response next to its error. The response is always nil or the result of a call that returns only an error, so only the error is modelled.
- `GetIncident` and `GetDefaultUser` are called but not defined in the PagerDuty client. They are the oracle `incidentFor` and the client's `defaultUser`.
- `IncidentFilter` in the incident-list command is the same type as `Filter`. The command's missing `RequiredUserRole` is taken as the Base role.
- `emojiPagerDuty` is used but not defined. It is fixed as `pagerduty`; any name other than `male-firefighter` gives the same results.
- Each command's `Init`, which builds clients from the environment, is reduced to its outcome (`initError`). The help table's layout (`uitable`) is the parameter `layout`.
- Only the incident-list, on-call and help commands are modelled. `cat`, `hello`, `list nodes`, `open incident` and the acknowledge stub are not, and neither is the Kubernetes and shell-out configuration.
- Case mapping is ASCII only. `strings.ToLower` also maps non-ASCII upper-case letters.
- Commands.PagerdutyList.Run: the command's code is split into `Run`, `Reply` and `Table`, which together follow the source line by line.
- Strings.ParseInt: only base 10 without underscores, the only form the source asks for.
- Models.Incident.ToSlackMessage: `slack.NewBlockMessage` is taken to set only the blocks; every other field of the message is its zero value.
- The user-role constants of `pkg/auth/roles.go` are modelled as strings.

## Findings

| source | as written | input that shows it | evidently intended | confidence | as-written member | corrected member |
|---|---|---|---|---|---|---|
| pkg/util/slice.go:63-70 | the inner loop marks every unvisited slot equal to the element, not just the first, so a repeated element uses up all its copies at once | `IsSlicesEqual(["a","a"], ["a","a"])` returns false | the documented comparison: true exactly when the two slices hold the same elements with the same multiplicities (a `break` after the first claim) | not executed | Slice.RepeatedElementCounterexample | Slice.IsSlicesEqualCorrected |
| pkg/config/slack.go:127-129 | an empty channel list is reported with the name of the verification token variable | a configuration with every setting but an empty `ChannelIdsListForPdSync` is rejected with `missing or empty SLACK_VERIFICATION_TOKEN` | the error names `SLACK_CHANNELS_ID_LIST` | not executed | Config.EmptyChannelListMessage | Config.ValidateSlackCorrected |

`Config.NewSlackConfigFromEnv` validates with `Config.ValidateSlack`, as written. Its contract proves that the verdict equals `Config.ValidateSlackCorrected`'s: the faulty check cannot fire there, because `strings.Split` never returns an empty list, so a list read from the environment is never empty.

The chat-layout fixtures of `pkg/clients/util_test.go` (`*[REGION]*`) cannot parse under the pattern as written, because no white space precedes their `[`. The test expects regions from them. `ChatFixtures` proves that each of them fails to parse. This is a mismatch between the test and the code, so it has no row above.
