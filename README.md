# c9s, modelled in Dafny

c9s is a terminal dashboard for the sessions of the Claude command-line
assistant. It discovers sessions from the assistant's JSONL logs under
`~/.claude/projects`, folds each log into statistics (tokens, messages,
model, branch, status, cost tier), and shows them in a list that can be
filtered, sorted and inspected. A detail view gives a session's
configuration overview: instruction, rule, agent, command and memory files
with token estimates. Sessions can be attached in embedded terminals kept
in a tab registry, where a per-session notifier rings the bell when a
session waits for the user. Remote implementations from the Tervezo service
appear beside local sessions, with their REST answers and server-sent event
stream regrouped for display. A usage panel shows the account's rate-limit
windows, a quick switcher lists the open tabs in fixed-width columns, and a
log panel keeps the newest entries.

The model has one module per core source file, plus shared helpers:

- `Session`, `Discovery`: session records, log folding, status, discovery and ordering.
- `Config`, `Paths`: the configuration overview over a file system given as maps.
- `App`, `SessionList`, `Sorting`: list state, filter, sort, cursor, view modes, mouse selection and its OSC 52 copy.
- `InputHandler`, `Utf8`: key and mouse events to actions, and keys to terminal bytes.
- `Terminal`, `PosixShell`: an embedded terminal (class) and the shell-word splitting of its launch command.
- `TerminalManager`: the tab registry (class `Manager`) owning terminals and notifiers.
- `Notifier`: the bell notifier state machine (class `JsonlNotifier`).
- `TervezoModels`, `TervezoApi`, `TervezoSse`: the remote-service records, the client's request and answer handling, and the event stream.
- `Usage`: the usage panel's windows and its caching fetcher (class).
- `QSwitcher`: column fitting of the quick switcher.
- `Log`: the bounded in-memory log (class `LogBuffer`).
- `Text`, `Wrappers`: decimal text, substrings, case mapping, `Option`.

Methods that change state are proved against functions of the old state
(`Contents()`, `Entries()` and the like), and the lemmas about those
functions carry the properties the dashboard relies on: the tab registry
keeps one terminal per session and an active tab that exists, the log never
holds more than 500 entries and keeps the newest, sorting is a stable
permutation, filters keep exactly the matching sessions, the encodings
(UTF-8, base64, percent encoding, quoted shell words, process listings) read back, and the notifier rings
only on the transitions the source names.

`Session.DurationDisplay` and `Session.LastActivityDisplay` are plain
formatting functions; their arithmetic is what `Session.DurationPartsReadBack`
and `Text.AgePartsFloor` state.

## Model

| member | source | states |
|---|---|---|
| Session.StatusLabelInjective | src/session/mod.rs:22-29 | every status has its own label |
| Session.TotalTokensCountsEachKind | src/session/mod.rs:77-79 | the total bounds each of the four token counts and is zero exactly when all four are |
| Session.DurationPartsReadBack | src/session/mod.rs:81-90 | for a forward duration, the hours and the minutes past the hour give back its whole minutes with minutes below 60; a negative one has no positive hours |
| Session.DurationDisplay | src/session/mod.rs:81-90 | under an hour the duration is its whole minutes and "m"; from an hour on it is its whole hours, "h ", the remaining minutes and "m" |
| Session.LastActivityDisplay | src/session/mod.rs:92-105 | a past activity is shown by the largest fitting unit with the whole count of it that fits in the elapsed seconds, then " ago"; a future one as minus the seconds and "s ago" |
| Session.CostUnits | src/session/mod.rs:64-75 | the cost is zero exactly when no token was used, and at most the highest (opus output) rate per token |
| Session.Tier | src/session/mod.rs:108-116 | the opus tier exactly when the model contains "opus", the haiku tier exactly when it contains "haiku" but not "opus" |
| Session.TierCostOrder | src/session/mod.rs:64-116 | for the same non-zero usage, haiku costs less than the default tier and the default less than opus |
| Session.DefaultCostExample | src/session/mod.rs:156-161 | a million input and a hundred thousand output tokens at the default tier cost 4.50 USD |
| Session.SonnetIsDefaultTier | src/session/mod.rs:158 | the sonnet model of the test is priced at the default tier |
| Discovery.DecodeProjectPath | src/session/discovery.rs:404-406 | the fallback directory has the name's length, no '-' left, and a '/' wherever the name had a '-' |
| Discovery.DecodeProjectPathExample | src/session/discovery.rs:422-428 | the two decoding examples of the tests |
| Discovery.ProjectNameShape | src/session/discovery.rs:408-415 | the project name ends with the last component of the trimmed path and holds one '/' exactly when that path has more than one component, otherwise it is the trimmed path itself |
| Discovery.ProjectNameIsSuffix | src/session/discovery.rs:408-415 | the project name is a suffix of the directory with its trailing '/' removed |
| Discovery.ProjectNameOfDeepPath | src/session/discovery.rs:413 | "/Users/foo/bar" is shown as "foo/bar" |
| Discovery.ProjectNameIgnoresTrailingSlash | src/session/discovery.rs:409 | a trailing '/' does not change the project name |
| Discovery.ParseJsonl | src/session/discovery.rs:287-401 | the loop computes the line-by-line statistics of the log, and none for an unreadable file |
| Discovery.Counters | src/session/discovery.rs:354-396 | the message count is the number of user and assistant lines, the tool-call count the number of progress lines with data |
| Discovery.StepTokens | src/session/discovery.rs:371-388 | one line adds its assistant usage, a missing count as zero, to each of the four token totals |
| Discovery.TokenTotals | src/session/discovery.rs:371-388 | each token total is the sum of that count over the assistant lines |
| Discovery.LastSeen | src/session/discovery.rs:301-317 | the session id, branch and version are the last ones any line carries |
| Discovery.StepIds | src/session/discovery.rs:301-317 | a line that carries a session id, branch or version overrides the one held, others keep it |
| Discovery.LastModel | src/session/discovery.rs:367-369 | the model is the last one named by an assistant message |
| Discovery.FirstSeen | src/session/discovery.rs:305-323 | the working directory and the permission mode are the first ones any line carries |
| Discovery.Timestamps | src/session/discovery.rs:343-350 | the first and last timestamps are the first and last that parsed, and one is present exactly when the other is |
| Discovery.StepSlugs | src/session/discovery.rs:325-329 | a line appends its slug exactly when it is not yet listed |
| Discovery.PlanSlugs | src/session/discovery.rs:325-329 | the plan slugs are exactly the slugs seen, each listed once |
| Discovery.TwoLineLog | src/session/discovery.rs:430-447 | the two-line log of the test gives its session id, directory, tokens, message count, model and last message |
| Discovery.StatusCases | src/session/discovery.rs:124-150 | Dead exactly without a process; Idle when hung for over five minutes or after an end_turn reply; Thinking after a user message; Active otherwise |
| Discovery.DeriveStatus | src/session/discovery.rs:124-150 | Dead exactly without a process; a live session hung for over five minutes is Idle; Thinking only after a user message |
| Discovery.LiveCwds | src/session/discovery.rs:61-64 | every live process's directory is a key, and every key maps to the pid of a process in that directory |
| Discovery.SessionOf | src/session/discovery.rs:109-177 | a log with neither session id nor messages is skipped; otherwise the session takes the logged directory or the fallback, the logged id or the file stem, and a pid exactly when a process runs in its directory |
| Discovery.Keep | src/session/discovery.rs:179-187 | a session replaces the one kept for its directory only when it is strictly more recent; other directories are untouched; one session per directory is kept |
| Discovery.KeepMonotone | src/session/discovery.rs:179-187 | keeping a session never makes the session held for a directory older |
| Discovery.Values | src/session/discovery.rs:193 | the kept sessions, one per key |
| Discovery.ValuesDistinct | src/session/discovery.rs:71-193 | no two listed sessions share a working directory |
| Discovery.CacheAfter | src/session/discovery.rs:266-285 | a cache hit leaves the cache alone; a file with a modification time is stored with its fresh statistics; one without is never cached |
| Discovery.ScanFiles | src/session/discovery.rs:93-188 | scanning a directory's files keeps one session per working directory |
| Discovery.ScanDir | src/session/discovery.rs:75-91 | scanning a project directory keeps one session per working directory |
| Discovery.ScanDirs | src/session/discovery.rs:73-191 | scanning all project directories keeps one session per working directory |
| Discovery.ByActivity | src/session/discovery.rs:194 | a permutation of the sessions, most recently active first; sessions active at the same moment keep the order they came in (stable) |
| Discovery.DiscoveredShape | src/session/discovery.rs:57-197 | the discovered sessions are newest first and are exactly the kept sessions, one per working directory |
| Discovery.Discovered | src/session/discovery.rs:57-197 | no projects directory gives no sessions and leaves the cache as it was; the sessions are newest first |
| Discovery.ParseLsof | src/session/discovery.rs:230-247 | the loop computes the processes the lsof output lists, line by line |
| Discovery.LsofReadTwo | src/session/discovery.rs:234-245 | two more lines are read by two more steps |
| Discovery.LsofPair | src/session/discovery.rs:235-243 | a 'p' line and an 'n' line append that process and make its pid current |
| Discovery.LsofRoundTrip | src/session/discovery.rs:225-247 | the lsof lines of a list of processes with 32-bit pids parse back to that list |
| Discovery.SessionDiscovery.constructor | src/session/discovery.rs:47-55 | the statistics cache starts empty |
| Discovery.SessionDiscovery.ParseJsonlCached | src/session/discovery.rs:266-285 | returns the cached statistics on a hit and fresh ones otherwise, and updates the cache as CacheAfter says |
| Discovery.SessionDiscovery.DiscoverAll | src/session/discovery.rs:57-197 | returns the discovered sessions and leaves the cache as the scan leaves it |
| Config.EstimateFileTokens | src/session/config.rs:29-58 | a missing file has no estimate; otherwise a quarter of its size in 32 bits, and it is conditional exactly when its head starts with "---" and mentions a paths key or alwaysApply false |
| Config.PlainFileEstimate | src/session/config.rs:492-500 | a 400-byte file without frontmatter costs 100 tokens and is always loaded |
| Config.PathsFrontmatterEstimate | src/session/config.rs:502-515 | a rule whose frontmatter lists paths is conditional |
| Config.MakeItem | src/session/config.rs:60-79 | an item keeps its caption, path and kind, and has an estimate exactly when it is an existing or memory file with a path that exists |
| Config.Accumulate | src/session/config.rs:345-352 | an item adds its tokens to the total, and to the always-loaded total unless it is known to be conditional |
| Config.TallySums | src/session/config.rs:345-352 | accumulating a list adds the sum of its tokens and the sum of its always-loaded tokens, never more of the second than of the first |
| Config.TallyConcat | src/session/config.rs:345-352 | accumulating two lists one after the other is accumulating their concatenation |
| Config.FormatTotal | src/session/config.rs:354-365 | the total line starts with the section's total, and has nothing after it exactly when everything is always loaded or nothing is |
| Config.FormatTokens | src/session/config.rs:367-373 | below a thousand the plain decimal that reads back as the count, otherwise ending in 'K' |
| Config.EntryItem | src/session/config.rs:133-141 | the file line of an entry is indented and has the path base/category/name |
| Config.EntryLines | src/session/config.rs:124-144 | an entry gives a category line first exactly when its category differs from the current one, then its file line |
| Config.CountKindConcat | src/session/config.rs:91-343 | counting items of a kind adds up over a concatenation |
| Config.CategorizedShape | src/session/config.rs:123-144 | categorised entries give one file line each and one category line per change of category |
| Config.OneCategoryOneHeader | src/session/config.rs:123-132 | entries of one category are listed under a single category line |
| Config.SameCategoryNoChange | src/session/config.rs:125 | entries of the current category need no category line |
| Config.FlatItems | src/session/config.rs:259-310 | one item per name, for the path base/name |
| Config.Assemble | src/session/config.rs:91-343 | the overview holds the three sections and ten fixed lines, starts with the global header and ends with the grand total |
| Config.GrandTotal | src/session/config.rs:321-340 | the last line is the grand total of the three sections, and the always-loaded part never exceeds the total |
| Config.ConfigItems | src/session/config.rs:81-340 | the list opens with the global section header, holds every line of the three sections plus ten lines of its own (a header, a total and a blank line per section, and the grand total), and ends on a total line |
| Config.SectionTotals | src/session/config.rs:196-265 | the global and project totals add up the tokens of the files they list, and their always-loaded parts never exceed them |
| Config.SettingsNotCounted | src/session/config.rs:238-251 | whether the settings file exists changes no total |
| Config.EntryLinesTally | src/session/config.rs:127-143 | only the file line of an entry adds to a total |
| Config.CategorizedUnroll | src/session/config.rs:124-144 | one loop iteration: the lines of one entry followed by those of the rest |
| Config.AddCategorized | src/session/config.rs:123-144 | the loop appends the lines of the categorised entries and tallies them |
| Config.AddFlat | src/session/config.rs:259-310 | the loop appends the file lines of the names and tallies them |
| Config.BuildGlobal | src/session/config.rs:95-170 | builds the global section and its tally |
| Config.BuildProject | src/session/config.rs:188-265 | builds the project section and its tally, without the settings file |
| Config.BuildMemory | src/session/config.rs:283-311 | builds the memory lines, or the line saying there are none, and sums their tokens |
| Config.BuildConfigItems | src/session/config.rs:81-343 | builds the whole overview |
| Config.VisibleNames | src/session/config.rs:473-482 | a name is kept exactly when an entry of the wanted kind has it and it does not start with '.' |
| Config.NameLePreorder | src/session/config.rs:469-483 | the name order is total and transitive |
| Config.SortedNames | src/session/config.rs:459-485 | the visible names in sorted order, a permutation of them; none for an unreadable directory |
| Config.ScanFlatFiles | src/session/config.rs:473-485 | visible file names, sorted |
| Config.ScanFlatFilesMembers | src/session/config.rs:473-485 | a name is listed exactly when the directory has a visible file by that name |
| Config.ScanDirNames | src/session/config.rs:459-471 | visible directory names, sorted |
| Config.ScanDirNamesMembers | src/session/config.rs:459-471 | a name is listed exactly when the directory has a visible sub-directory by that name |
| Config.EntryNameLePreorder | src/session/config.rs:431 | the order on category entries is total and transitive |
| Config.Subdirs | src/session/config.rs:430 | exactly the directory entries |
| Config.CategoryBlock | src/session/config.rs:433-453 | the entries of one category carry its name, and neither it nor the file names are hidden |
| Config.CategoryEntries | src/session/config.rs:433-454 | no listed category or file is hidden |
| Config.EntriesAtLeast | src/session/config.rs:431-454 | every listed entry's category is at least the smallest category name |
| Config.CategoryEntriesOrdered | src/session/config.rs:431-454 | the categories of the listed entries are in order |
| Config.ScanCategorizedDir | src/session/config.rs:424-457 | nothing for an unreadable directory; no hidden categories or files; categories in order |
| Config.ScanCategorizedDirMembers | src/session/config.rs:424-457 | an entry is listed exactly when the directory is readable and holds a visible category directory that holds a visible file of that name: nothing is dropped and nothing is invented |
| Config.ScanCategorizedDirSorted | src/session/config.rs:430-447 | for uniquely named categories, the entries are ordered by category and, within a category, by file name |
| Config.CategoryBlockMembers | src/session/config.rs:434-452 | the entries of one category are exactly its visible files |
| Config.CategoryEntriesMembers | src/session/config.rs:433-454 | the entries of the categories are exactly the files listed in one of them |
| Config.BlockSorted | src/session/config.rs:447 | the files of one category are in name order |
| Config.SubdirsDistinct | src/session/config.rs:430-431 | keeping the directories of a listing keeps their names distinct |
| Config.OtherCategories | src/session/config.rs:433-454 | with distinct category names, no entry of a later category carries the first category's name |
| Config.SortedWithinJoin | src/session/config.rs:433-454 | one category's ordered block followed by entries of other categories, each ordered, is ordered within every category |
| Config.CategoryEntriesSorted | src/session/config.rs:433-454 | with distinct category names, the entries are in name order within every category |
| Config.ScanSessionConfig | src/session/config.rs:389-422 | each CLAUDE.md and settings flag is set exactly when that file exists; memories and commands are visible and sorted; global rules are visible |
| App.SortCycle | src/app.rs:43-51 | cycling the sort column returns to the start after exactly five steps and visits every column once |
| App.SortLabelInjective | src/app.rs:53-61 | the column labels tell the columns apart |
| App.StatusRank | src/app.rs:149-156 | a status rank is at most 3 |
| App.StatusRankOrder | src/app.rs:147-158 | the Status sort puts thinking before active before idle before dead, one rank per status |
| App.SortLe | src/app.rs:132-164 | every column's order is total and transitive, so the stable sort is well defined |
| App.ApplySort | src/app.rs:132-164 | the sorted sessions are a permutation of the input |
| App.ApplySortOrdered | src/app.rs:132-164 | the sorted sessions are in the order of the column |
| App.ApplySortStable | src/app.rs:132-164 | sessions that tie on the column keep their input order (the sort is stable) |
| App.FilterIndicesOrdered | src/app.rs:166-191 | every kept index is in range and the kept indices increase |
| App.FilterIndices | src/app.rs:166-191 | no more indices than sessions, each in range |
| App.FilterIndicesExact | src/app.rs:172-190 | an index is kept exactly when its session passes the query |
| App.Filtered | src/app.rs:166-191 | the filter lists, in order, exactly the indices of the sessions whose project, directory, branch, model or status label contains the lower-cased query, ignoring case |
| App.AllIndices | src/app.rs:173-175 | the indices 0 to n-1 in order |
| App.EmptyQueryKeepsAll | src/app.rs:173-175 | the empty query keeps every index, in order |
| App.NoFilterListsAll | src/app.rs:173-175 | without a filter every session is listed in order |
| App.NormalizeSelection | src/app.rs:535-542 | the returned ends are the two ends of the selection, the earlier one in row-then-column order first |
| App.NormalizeSwap | src/app.rs:535-542 | dragging from either end selects the same range |
| App.NormalizeIdempotent | src/app.rs:535-542 | normalizing a normalized selection changes nothing |
| App.Cleared | src/app.rs:461-469 | a cleared selection is inactive, empty and at the origin, and keeps the content area |
| App.SextetValue | src/app.rs:553 | a character has a six-bit value exactly when it is in the base64 alphabet |
| App.CharsTable | src/app.rs:553 | the alphabet has 64 characters and each one decodes to its own position, so they are distinct |
| App.Sextets | src/app.rs:556-571 | the four six-bit groups of three bytes are each below 64 |
| App.TripleSextets | src/app.rs:559-571 | the shifts and masks of the 24-bit group give the four six-bit values |
| App.Digit64 | src/app.rs:553-568 | the character of a six-bit value is an alphabet character that decodes back to that value |
| App.EncodeGroup | src/app.rs:555-572 | a group always yields four characters |
| App.EncodeChunk | src/app.rs:555-572 | a chunk of one to three bytes yields four characters |
| App.Base64Length | src/app.rs:552-574 | the output has four characters per started chunk of three bytes |
| App.PadCount | src/app.rs:562-571 | at most two '=' pad the output |
| App.Base64Shape | src/app.rs:552-574 | the output is alphabet characters followed by exactly two '=' after one trailing byte, one after two, and none otherwise |
| App.ShapeCons | src/app.rs:555-572 | an unpadded group in front of a well-shaped text keeps the shape |
| App.GroupShape | src/app.rs:562-571 | a one- or two-byte chunk is padded with two or one '=', a three-byte chunk not at all |
| App.BytesOfSextets | src/app.rs:556-559 | the three bytes can be read back from their six-bit groups |
| App.DecodeGroup | src/app.rs:552-574 | a decoded group holds one to three bytes |
| App.DecodeEncodeGroup | src/app.rs:556-571 | decoding a group gives back the bytes of its chunk |
| App.Base64RoundTrip | src/app.rs:552-574 | decoding the encoding of any bytes gives the bytes back |
| App.Digit64Table | src/app.rs:553 | each value maps to the character Table 1 of RFC 4648 lists for it |
| App.Base64OneByteVector | src/app.rs:552-574 | "f" encodes as "Zg==", as section 10 of RFC 4648 gives |
| App.Base64TwoByteVector | src/app.rs:552-574 | "fo" encodes as "Zm8=" |
| App.Base64ThreeByteVector | src/app.rs:552-574 | "foo" encodes as "Zm9v" |
| App.Base64BarVector | src/app.rs:552-574 | "bar" encodes as "YmFy" |
| App.Base64FoobarVector | src/app.rs:552-574 | "foobar" encodes as "Zm9vYmFy" |
| App.Base64Encode | src/app.rs:552-574 | the chunk loop computes the base64 of the bytes |
| App.Base64 | src/app.rs:552-574 | the encoding has a length divisible by four, and is empty exactly when the data is |
| App.Osc52 | src/app.rs:544-550 | the clipboard sequence is ESC ] 52;c; then the base64 of the text's UTF-8 bytes, which decodes back to the text, then BEL |
| App.EncodeTriple | src/app.rs:556-571 | one loop step appends the four characters of its chunk |
| App.ChunkStep | src/app.rs:555-558 | the encoding of a suffix is its first chunk's group followed by the encoding of the rest |
| App.FilterIndicesCount | src/app.rs:166-191 | the filter lists one index per passing session |
| App.MatchCountConcat | src/app.rs:166-191 | the number of passing sessions adds up over a concatenation |
| App.MatchCountPermutation | src/app.rs:166-191 | reordering the sessions does not change how many pass |
| App.RemoveOne | src/app.rs:132-164 | removing an element from both sides of a permutation leaves a permutation |
| App.SplitCount | src/app.rs:166-191 | one session in the middle counts once |
| App.SortKeepsFilteredCount | src/app.rs:278-282 | changing the sort column does not change how many sessions are listed |
| App.MatchesLonger | src/app.rs:176-188 | a session that passes a query passes every query it starts with |
| App.FilterNarrows | src/app.rs:339-343 | typing one more filter character can only drop sessions from the list |
| App.Pick | src/app.rs:194-199 | the sessions at the indices, skipping indices past the end |
| App.BusyAttachedNames | src/app.rs:384-393 | the j-th name is the project of the j-th active or thinking session with an attached terminal, in list order, so every such session is named once and nothing else is; nothing when none is attached |
| App.BusyIndicesExact | src/app.rs:384-393 | the positions of exactly the active or thinking sessions with an attached terminal, increasing, and none when there is no such session |
| App.BusyNames | src/app.rs:384-393 | one project name per busy attached position, in order |
| App.BusyAttachedNamesExact | src/app.rs:384-393 | a name is listed exactly when an active or thinking session with an attached terminal has that project name |
| App.WithPid | src/app.rs:416-421 | exactly the sessions that have a process |
| App.CellText | src/app.rs:518-526 | every cell contributes some text, a space standing in for an empty or missing cell |
| App.ScreenRow | src/app.rs:490-496 | an absolute row is on screen exactly when it lies in the content area, at its offset from the top |
| App.LineOf | src/app.rs:503-528 | a row gives one line exactly when it is in the content area, and that line has no trailing whitespace |
| App.SelectionLinesCount | src/app.rs:503-529 | one line per selected row inside the content area |
| App.SelectionLinesTrimmed | src/app.rs:528 | no selected line ends in whitespace |
| App.SelectionLinesStep | src/app.rs:503 | one more row adds that row's line |
| App.OverlapStep | src/app.rs:503-507 | the rows counted up to b are those up to b-1 and b-1 when it is inside |
| App.OutsideContentSelectsNothing | src/app.rs:490-507 | a selection whose rows all lie outside the content area selects no text |
| App.PreviewContent | src/app.rs:261-262 | the preview is the file's text, or the read error in its fixed wording |
| App.App.constructor | src/app.rs:85-111 | the dashboard starts in the list view, unfiltered, sorted by last activity, with the cursor on the first session and no selection or preview |
| App.App.Refresh | src/app.rs:113-130 | the sessions are the discovered ones (none on failure) in the current sort order, the filter is re-applied, and a cursor past the end moves to the last listed session |
| App.App.FilteredSessions | src/app.rs:194-199 | the listed sessions in filter order, each passing the filter, and every passing session is listed |
| App.App.SelectedSession | src/app.rs:201-205 | the session under the cursor, present exactly when the cursor is on a listed session |
| App.App.SetViewMode | src/app.rs:215-237 | the mode is set; the tab pickers pull the cursor onto one of the first nine; Detail on a selected session stores that session's scanned configuration (ScanSessionConfig of its cwd) and the overview built from it (ConfigItems), with cursor and preview reset; any other view drops configuration, overview and preview |
| App.App.ClampToPicker | src/app.rs:216-221 | opening Harpoon or TerminalHarpoon moves a cursor at or past the ninth listed session to the last of the first nine (or of the list, if shorter); other modes leave it; a cursor on a listed session stays on one |
| App.App.SyncDetail | src/app.rs:222-235 | Detail on a session stores its scanned configuration and the overview built from it with cursor and preview reset; Detail with no session changes nothing; any other view drops configuration, overview and preview but keeps cursor and scroll |
| App.App.OpenDetail | src/app.rs:224-229 | the stored configuration is ScanSessionConfig of the session's cwd and the overview is ConfigItems of that configuration; the cursor is on the first item, with no preview and scroll at the top |
| App.ScanDetail | src/app.rs:224-225 | the configuration returned is the scan of the cwd and the items are the overview built from it (BuildConfigItems agrees with ConfigItems) |
| App.App.LoadDetail | src/app.rs:225-229 | the given configuration and overview are stored, with the cursor on the first item and no preview |
| App.App.DetailOpenPreview | src/app.rs:255-267 | a file item opens its preview named by the file name and scrolled to the top; other items change nothing |
| App.App.DetailClosePreview | src/app.rs:269-272 | the preview is closed and its scroll reset |
| App.App.CycleSort | src/app.rs:278-282 | the next column is chosen, the sessions are reordered by it and the filter re-run; the number listed stays the same |
| App.App.Limit | src/app.rs:307-311 | the cursor bound is the number listed, and at most nine in the tab pickers |
| App.App.MoveUp | src/app.rs:284-296 | in Detail it scrolls the preview or moves the item cursor up, stopping at 0; elsewhere it moves the session cursor up, stopping at 0 |
| App.App.MoveDown | src/app.rs:298-315 | in Detail it scrolls the preview or moves the item cursor down within the items; elsewhere it moves the session cursor down within the limit |
| App.App.MoveToTop | src/app.rs:317-319 | the cursor goes to the first session |
| App.App.MoveToBottom | src/app.rs:321-325 | the cursor goes to the last listed session, if any |
| App.App.FilterPush | src/app.rs:339-343 | the character is appended to the query, the list can only shrink, and the cursor goes to the top |
| App.App.FilterPop | src/app.rs:345-349 | the last query character is removed, the list can only grow, and the cursor goes to the top |
| App.App.ClearFilter | src/app.rs:351-354 | the query is empty and every session is listed |
| App.App.Quit | src/app.rs:360-362 | the dashboard is marked to quit |
| App.App.ActiveAttachedSessions | src/app.rs:384-393 | the names are exactly the projects of the active or thinking sessions with an attached terminal, one per such session, in list order; every such session is named, and none when nothing is attached |
| App.App.LiveSessions | src/app.rs:416-421 | exactly the sessions with a process |
| App.App.CommandPush | src/app.rs:399-401 | the character is appended to the command line |
| App.App.CommandPop | src/app.rs:403-405 | the last command character is removed |
| App.App.CommandTake | src/app.rs:407-409 | returns the typed command and leaves the command line empty |
| App.App.UpdateSelectionArea | src/app.rs:427-432 | only the content area of the selection changes |
| App.App.StartSelection | src/app.rs:434-439 | an active, empty selection anchored at the mouse position |
| App.App.ExtendSelection | src/app.rs:441-446 | an active selection moves its end, and has content exactly when the end differs from the start; an inactive one stays |
| App.App.ClearSelection | src/app.rs:461-469 | the selection is cleared, keeping the content area |
| App.App.FinalizeSelection | src/app.rs:448-459 | an empty selection is cleared with nothing copied; otherwise it becomes inactive and its text, when not empty, is sent as an OSC 52 copy |
| App.App.ExtractSelectionText | src/app.rs:476-532 | the selected text of the shown screen, and nothing without a terminal |
| App.SelectedText | src/app.rs:486-531 | the selected lines joined by newlines |
| App.SelectedLines | src/app.rs:503-529 | the row loop collects the lines of the selected rows |
| App.SelectedLine | src/app.rs:504-528 | one row's trimmed text, or nothing when the row is off the content area |
| App.RowCells | src/app.rs:516-527 | the cell loop collects the cells of a row |
| InputHandler.AsciiBytes | src/input/handler.rs:201-215 | the bytes of an ASCII text are its character codes |
| InputHandler.DigitIndex | src/input/handler.rs:104-151 | a digit key picks one of the first nine positions |
| InputHandler.BaseBytes | src/input/handler.rs:191-219 | a key is sent as at most seven bytes before any Alt prefix |
| InputHandler.KeyEventToBytes | src/input/handler.rs:186-228 | a key is sent as at most eight bytes |
| InputHandler.FKeyBytes | src/input/handler.rs:230-246 | a function key is sent as at most five bytes |
| InputHandler.CtrlCQuits | src/input/handler.rs:66-74 | Ctrl+c quits exactly in the modes that do not pass keys to a terminal; an attached terminal receives byte 3, the terminal tab picker ignores it |
| InputHandler.DigitKeys | src/input/handler.rs:87-184 | a digit picks position digit-1 in the list, detail, help and both pickers; it is typed in the filter and command lines, sent to an attached terminal, and ignored when confirming quit |
| InputHandler.TerminalModePassesKeys | src/input/handler.rs:130-144 | in a terminal a key is sent as its bytes exactly when it is not one of the six Ctrl chords, each of which steers the dashboard |
| InputHandler.CtrlLetters | src/input/handler.rs:192-195 | Ctrl with a lower-case letter sends that letter's control code, 1 to 26 |
| InputHandler.TypedCharRoundTrip | src/input/handler.rs:196-200 | a typed character is sent as its one to four UTF-8 bytes, which decode back to it |
| InputHandler.AltPrefix | src/input/handler.rs:221-227 | Alt puts an ESC in front of any non-empty key sequence |
| InputHandler.FKeySequences | src/input/handler.rs:230-246 | F1 to F4 send ESC O P to ESC O S, F5 to F12 send ESC [ n ~ with n from 15, 17, 18, 19, 20, 21, 23, 24, other numbers nothing |
| InputHandler.TwoDigits | src/input/handler.rs:236-243 | a two-digit parameter is written as its tens and units digits |
| InputHandler.WheelActions | src/input/handler.rs:50-64 | the wheel scrolls a terminal by three lines, moves the cursor of the list, filter, picker and detail views, and does nothing elsewhere; other mouse events do nothing |
| InputHandler.ConfirmQuitAnswers | src/input/handler.rs:166-174 | Enter and 'y' confirm, Esc, 'q' and 'n' cancel, every other key does nothing |
| InputHandler.HandleEvent | src/input/handler.rs:42-48 | terminal input only from a key in a terminal, scrolling only in a terminal, quitting never from a terminal, and nothing for other events |
| InputHandler.HandleMouse | src/input/handler.rs:50-64 | nothing happens exactly for other mouse events and in the help, command and quit-confirmation modes; the wheel only ever scrolls by three lines, moves the selection or does nothing, and it scrolls exactly in a terminal |
| InputHandler.HandleKey | src/input/handler.rs:66-85 | Ctrl+c quits outside a terminal, quitting never happens inside one, terminal input and scrolling happen only in a terminal, and a picked index is below nine |
| InputHandler.NormalKey | src/input/handler.rs:87-106 | a digit 1-9 picks the session at digit-1 and nothing else picks one; 'q' quits; the list never emits filter, terminal or command input or scrolling |
| Log.LevelLabelInjective | src/log.rs:17-23 | the three level labels are distinct |
| Log.Newest | src/log.rs:83-86 | the trimmed buffer has min(len, 500) entries and is the suffix of the untrimmed one |
| Log.NewestBelowCap | src/log.rs:83 | a buffer of at most 500 entries is not trimmed |
| Log.NewestDropsOldest | src/log.rs:78-86 | pushing onto a full buffer drops exactly the oldest entry and keeps the new one last |
| Log.LogBuffer.constructor | src/log.rs:41-44 | the buffer starts empty and clean |
| Log.LogBuffer.Push | src/log.rs:77-87 | the entries become the newest 500 of the old entries plus the new one, the new one is last, nothing is dropped below the cap, and the buffer is dirty |
| Log.LogBuffer.TakeDirty | src/log.rs:90-95 | returns the previous flag and leaves it false |
| Log.LogBuffer.Entries | src/log.rs:97-99 | the copy never holds more than 500 entries |
| Log.LogBuffer.Clear | src/log.rs:101-105 | the buffer is empty and dirty |
| Log.LogBuffer.EntryCount | src/log.rs:107-109 | the count is the length of the entries and at most 500 |
| Notifier.Newest | src/terminal/notifier.rs:225-238 | the entry found is a jsonl entry whose modification time could be read |
| Notifier.NewestIsNewest | src/terminal/notifier.rs:225-238 | the entry found is the first of the most recently modified jsonl entries, and there is none exactly when no entry qualifies |
| Notifier.DiscoveredLogIsJsonl | src/terminal/notifier.rs:228-243 | the discovered log path has the extension jsonl |
| Notifier.EndTurnRingsOnlyWhenBusy | src/terminal/notifier.rs:166-182 | the end of a turn makes the session idle and stops the timer, and rings exactly when the state was UserSent, Working or ToolWait |
| Notifier.QuietLines | src/terminal/notifier.rs:129-148 | a compact summary rings and stops the timer without touching the state; blank and malformed lines change nothing |
| Notifier.RingingLines | src/terminal/notifier.rs:143-182 | a line rings on its own exactly when it is a compact summary or the end of a turn from a busy state |
| Notifier.FoldIgnoresNotify | src/terminal/notifier.rs:125-205 | whether the bell is to ring never influences the state machine |
| Notifier.StepNotify | src/terminal/notifier.rs:125-205 | a line turns the bell on when it rings on its own and never turns it off |
| Notifier.FoldRingsIffSomeLineRings | src/terminal/notifier.rs:125-208 | a batch rings exactly when some line of it rings from the state the lines before it leave |
| Notifier.RingingLineExists | src/terminal/notifier.rs:125-208 | a batch that rings has a line that rings |
| Notifier.RingingLineRings | src/terminal/notifier.rs:125-208 | a line that rings makes the batch ring |
| Notifier.FoldKeepsTimerInToolWait | src/terminal/notifier.rs:152-202 | the tool timer runs only in ToolWait, after any sequence of lines |
| Notifier.NoLogNoChange | src/terminal/notifier.rs:74-82 | with no log known and none to discover, a check is silent and changes nothing |
| Notifier.UnchangedSizeRingsOnTimer | src/terminal/notifier.rs:98-108 | a log that did not grow rings exactly when the tool timer has run for five seconds, and then stops the timer |
| Notifier.ShrunkLogResetsWatermark | src/terminal/notifier.rs:110-113 | a log that shrank moves the watermark down, changes nothing else and is silent |
| Notifier.GrownLogAdvancesWatermark | src/terminal/notifier.rs:115-208 | a log that grew moves the watermark to its new size and rings exactly when some appended line rings |
| Notifier.CheckKeepsTimerInToolWait | src/terminal/notifier.rs:74-209 | a check keeps the timer confined to ToolWait |
| Notifier.Initial | src/terminal/notifier.rs:44-72 | a new notifier is in the Unknown state with no timer; it knows the log exactly when it exists, with the watermark at its size |
| Notifier.FindNewest | src/terminal/notifier.rs:225-238 | the directory loop finds the newest log |
| Notifier.JsonlNotifier.constructor | src/terminal/notifier.rs:44-72 | the notifier starts in its initial state under the session's project directory |
| Notifier.JsonlNotifier.TryDiscoverPath | src/terminal/notifier.rs:215-244 | adopts the newest log with the watermark at its size, and changes nothing when there is none |
| Notifier.JsonlNotifier.Check | src/terminal/notifier.rs:74-209 | the new state and the answer are those of one check, and the timer stays confined to ToolWait |
| Terminal.ReadsTaken | src/terminal/mod.rs:135-155 | the reader never takes more reads than are delivered |
| Terminal.ReadsTakenIsFirstEnd | src/terminal/mod.rs:137-154 | the reader stops at the first read that is end of file or an error, and at no earlier one |
| Terminal.FedInArrivalOrder | src/terminal/mod.rs:144-147 | chunks that arrive before any end are fed to the parser in arrival order |
| Terminal.NothingFedAfterEnd | src/terminal/mod.rs:139-152 | once a read has ended the reader, nothing delivered after it is fed or taken |
| Terminal.ReaderStep | src/terminal/mod.rs:138-153 | one read: an ending read feeds nothing and stops, any other feeds its bytes and goes on |
| Terminal.WriteResetsView | src/terminal/mod.rs:179-189 | writing clears both bell flags, returns to the live screen and marks it dirty, keeps what was fed, and appends to what was sent all the bytes, or only a prefix of them when the write itself failed part-way; it succeeds exactly when both writing and flushing do |
| Terminal.ScrollRoundTrip | src/terminal/mod.rs:191-205 | scrolling down undoes scrolling up; scrolling down stops at the live screen and never scrolls up |
| Terminal.BellFlagsOnly | src/terminal/mod.rs:237-245 | setting and clearing the bell touch only the two bell flags, and clearing undoes setting |
| Terminal.ExitedStaysExited | src/terminal/mod.rs:139-152 | an exited terminal stays exited whatever follows |
| Terminal.EmbeddedTerminal.constructor | src/terminal/mod.rs:125-168 | the terminal keeps its session, name and launch; it has the requested size, is not exited, has no bell, is dirty and has fed and sent nothing |
| Terminal.EmbeddedTerminal.TakeDirty | src/terminal/mod.rs:175-177 | returns the dirty flag and clears it, leaving everything else |
| Terminal.EmbeddedTerminal.WriteInput | src/terminal/mod.rs:179-189 | the state after a write, and Ok exactly when the write and the flush succeeded |
| Terminal.EmbeddedTerminal.ScrollUp | src/terminal/mod.rs:191-196 | the view moves the given lines into the scrollback and is dirty |
| Terminal.EmbeddedTerminal.ScrollDown | src/terminal/mod.rs:198-205 | the view moves towards the live screen, stopping there, and is dirty |
| Terminal.EmbeddedTerminal.Resize | src/terminal/mod.rs:207-223 | a refused resize returns the error and changes nothing; otherwise the size changes and the terminal is dirty |
| Terminal.EmbeddedTerminal.SetBell | src/terminal/mod.rs:237-240 | both bell flags are set |
| Terminal.EmbeddedTerminal.ClearBell | src/terminal/mod.rs:242-245 | both bell flags are cleared |
| Terminal.EmbeddedTerminal.RunReader | src/terminal/mod.rs:135-155 | the reader loop takes reads up to the first end, feeds their bytes in order, and marks the terminal exited when a read ends it |
| Terminal.EmbeddedTerminal.ReadOnce | src/terminal/mod.rs:138-153 | one read: feeds its bytes unless it ends the reader, marks exit on an end, and always marks the terminal dirty |
| Terminal.QuoteAll | src/terminal/mod.rs:99-102 | every argument is single-quoted |
| Terminal.LaunchScript | src/terminal/mod.rs:96-107 | the shell script exports GPG_TTY and then execs the command line |
| Terminal.Argv | src/terminal/mod.rs:105-107 | bash is given "-c" and the script |
| Terminal.NewProjectName | src/terminal/mod.rs:65-68 | a new session is named after the last component of its directory, or the whole directory when there is none |
| Terminal.NewProjectNameOfChild | src/terminal/mod.rs:65-68 | a directory parent/name is named name |
| Terminal.EscapedQuoteStep | src/terminal/mod.rs:101 | the escape of a quote ends the quoted text, adds a literal quote and reopens it |
| Terminal.QuotedCharStep | src/terminal/mod.rs:101 | any other character stays literal inside the quotes |
| Terminal.EscapedReadsBack | src/terminal/mod.rs:101 | an escaped argument followed by the closing quote reads back as exactly the argument |
| Terminal.EscapedHeadStep | src/terminal/mod.rs:101 | the first character of the argument, escaped, moves into the word being read |
| Terminal.QuoteArgReadsBack | src/terminal/mod.rs:101 | a quoted argument is one whole shell word whatever characters it holds |
| Terminal.QuotedArgsReadBack | src/terminal/mod.rs:99-103 | the quoted arguments, space-separated, split back into exactly the arguments |
| Terminal.InnerCommandReadsBack | src/terminal/mod.rs:96-104 | the command line splits back into the command and exactly its arguments |
| Terminal.ResumeLaunchWords | src/terminal/mod.rs:28-44 | resuming hands the shell the CLI, --resume and the session id as three words, for any session id |
| Terminal.SshLaunchWords | src/terminal/mod.rs:46-62 | an SSH session starts in /tmp and hands the shell the words bash, -c and the SSH command intact |
| Terminal.EscapeQuotes | src/terminal/mod.rs:101 | escaping never shortens the argument and leaves one without a quote unchanged |
| Terminal.QuoteArg | src/terminal/mod.rs:101 | the quoted argument is wrapped in single quotes, and an argument without a quote is just wrapped |
| TerminalManager.Without | src/terminal/manager.rs:180-188 | removing ids from the tab order keeps exactly the other ids and never lengthens it |
| TerminalManager.WithoutNoDuplicates | src/terminal/manager.rs:180-188 | removing ids from an order without duplicates leaves one without duplicates |
| TerminalManager.WithoutAbsent | src/terminal/manager.rs:180-188 | removing ids that are not in the order leaves it as it was |
| TerminalManager.WithoutTwice | src/terminal/manager.rs:177-181 | removing one set of ids and then another is removing both at once, so the one-at-a-time loop over the dead ids removes all of them |
| TerminalManager.Position | src/terminal/manager.rs:143-158 | the search finds an index holding the shown id, and finds none exactly when the id is not in the order |
| TerminalManager.PositionOfDistinct | src/terminal/manager.rs:140-144 | in an order without duplicates the search finds an element at its own index |
| TerminalManager.ClearActive | src/terminal/manager.rs:238-242 | acknowledging the shown bell changes no tab, notifier, shown id or counter |
| TerminalManager.ClearActiveEffect | src/terminal/manager.rs:238-242 | exactly the shown terminal loses its bell flags, every other terminal is unchanged, and the manager stays coherent |
| TerminalManager.ShownSlot | src/terminal/manager.rs:106-110 | there is a shown terminal exactly when a shown id is set and attached, and it is the terminal stored under that id |
| TerminalManager.NextIndexIsRemainder | src/terminal/manager.rs:145 | stepping forward is the remainder (i + 1) mod the number of tabs |
| TerminalManager.SwitchedTo | src/terminal/manager.rs:139-147 | showing a tab changes no tab order, notifier or set of attached ids, and shows that tab |
| TerminalManager.AttachKeepsCoherent | src/terminal/manager.rs:45-69 | attaching keeps the order duplicate-free and equal to the attached ids, every notifier attached, and the shown id attached |
| TerminalManager.AddTabKeepsCoherent | src/terminal/manager.rs:61-95 | storing a terminal under a new id on the last tab keeps the manager coherent, shown or not |
| TerminalManager.AttachOutcome | src/terminal/manager.rs:45-69 | attaching fails only when the session is new and spawning fails, and then only the shown bell is acknowledged; on success the session is shown with its bell acknowledged; an attached session keeps its terminal, tab and notifier; a new one gets a resumed terminal on the last tab and a fresh notifier |
| TerminalManager.AttachIdempotent | src/terminal/manager.rs:54-67 | attaching a session a second time changes nothing and succeeds, whatever the spawn would do |
| TerminalManager.AttachNewOutcome | src/terminal/manager.rs:71-81 | starting a new session fails exactly when spawning fails, changing only the shown bell; on success it returns the new id, shows it on the last tab, named after its directory, with a fresh notifier |
| TerminalManager.AttachNewKeepsCoherent | src/terminal/manager.rs:71-81 | starting a new session under a fresh id keeps the manager coherent |
| TerminalManager.AttachSshOutcome | src/terminal/manager.rs:83-100 | attaching over ssh keeps the manager coherent and adds no notifier; it fails only when the tab is new and spawning fails; on success the remote session is shown, a new one on the last tab with an ssh launch |
| TerminalManager.WriteTouchesOnlyActive | src/terminal/manager.rs:121-126 | keystrokes reach the shown terminal and no other, with the terminal's own result; with no terminal shown nothing changes and the result is Ok |
| TerminalManager.ResizeTouchesOnlyActive | src/terminal/manager.rs:128-133 | a resize touches only the shown terminal and fails exactly when one is shown and its PTY refuses |
| TerminalManager.CycleKeepsCoherent | src/terminal/manager.rs:135-167 | cycling keeps the manager coherent, the order and the notifiers, and the tab it lands on has its bell acknowledged |
| TerminalManager.SwitchKeepsCoherent | src/terminal/manager.rs:139-147 | showing an attached tab keeps the manager coherent and acknowledges that tab's bell |
| TerminalManager.CycleNextFrom | src/terminal/manager.rs:140-146 | from the tab at index p, stepping forward shows the tab at the next index, wrapping to the first |
| TerminalManager.CyclePrevFrom | src/terminal/manager.rs:155-165 | from the tab at index p, stepping back shows the tab at the previous index, wrapping to the last |
| TerminalManager.CycleWithoutActive | src/terminal/manager.rs:136-165 | with no tabs cycling does nothing; with no tab shown the search falls back to index 0, so forward shows the second tab (the first when there is one) and back the last |
| TerminalManager.CycleRoundTrip | src/terminal/manager.rs:135-167 | stepping forward then back, or back then forward, returns to the tab that was shown |
| TerminalManager.CycleNextNSteps | src/terminal/manager.rs:135-148 | k steps forward from index p show the tab at (p + k) mod the number of tabs |
| TerminalManager.ReachesTab | src/terminal/manager.rs:135-148 | every tab is reached in fewer forward steps than there are tabs |
| TerminalManager.CycleVisitsEveryTab | src/terminal/manager.rs:135-148 | as many forward steps as there are tabs return to the shown tab, and every tab is shown on the way |
| TerminalManager.CleanupOutcome | src/terminal/manager.rs:169-182 | cleanup keeps exactly the terminals that are running or shown, unchanged, with their notifiers, keeps the shown id and stays coherent |
| TerminalManager.CleanupIdempotent | src/terminal/manager.rs:169-182 | a second cleanup drops nothing more |
| TerminalManager.RemoveActiveOutcome | src/terminal/manager.rs:184-190 | removing the shown terminal drops exactly it, its notifier and its one tab, and leaves none shown; with none shown nothing changes |
| TerminalManager.TabsForAttached | src/terminal/manager.rs:207-221 | for attached ids, the tab bar has one entry per id in order, with its name, whether it is shown, and its bell flags only when it is not shown |
| TerminalManager.TabInfoShape | src/terminal/manager.rs:207-222 | the tab bar lists the tab order, one entry per tab with its name, marks at most one tab shown, and shows a bell only on tabs not shown |
| TerminalManager.CheckFromOutcome | src/terminal/manager.rs:226-235 | a round of checks keeps the manager coherent, changes only notifier states, and rings at most one terminal; a terminal that rings was checked in the round |
| TerminalManager.FirstFiring | src/terminal/manager.rs:226-235 | the position of the first notifier in the round whose check fires, and none exactly when no check fires |
| TerminalManager.FirstFiringFrame | src/terminal/manager.rs:226-235 | the first firing notifier depends only on which checks fire |
| TerminalManager.CheckFromRingsFirst | src/terminal/manager.rs:226-235 | a round rings exactly the first notifier whose check fires, and nothing when none fires |
| TerminalManager.CheckAndForwardRingsFirst | src/terminal/manager.rs:224-236 | the periodic check rings exactly the first notifier, in visiting order, whose check fires |
| TerminalManager.CheckStepKeepsCoherent | src/terminal/manager.rs:227 | one notifier's check keeps the manager coherent |
| TerminalManager.RingKeepsCoherent | src/terminal/manager.rs:229-231 | setting a bell keeps the manager coherent |
| TerminalManager.CheckAndForwardOutcome | src/terminal/manager.rs:224-236 | the periodic check counts itself once, keeps the manager coherent, and rings at most the terminal of one notifier in the round |
| TerminalManager.EmptyCoherent | src/terminal/manager.rs:35-43 | a manager with no terminals is coherent |
| TerminalManager.Manager.constructor | src/terminal/manager.rs:35-43 | a new manager holds no terminal, notifier or tab, shows none, has counted no check, and is coherent |
| TerminalManager.Manager.ActiveTerminal | src/terminal/manager.rs:106-110 | the shown terminal exists exactly when the shown id is attached, and is the one stored under it |
| TerminalManager.Manager.ActiveIsExited | src/terminal/manager.rs:192-194 | true exactly when a terminal is shown and it has exited |
| TerminalManager.Manager.IsAttached | src/terminal/manager.rs:196-198 | true exactly when a terminal is stored under the id |
| TerminalManager.Manager.HasBellFor | src/terminal/manager.rs:200-205 | true exactly when the session is attached and its bell is set |
| TerminalManager.Manager.TabInfo | src/terminal/manager.rs:207-222 | the tab bar of the contents, whose shape TabInfoShape gives |
| TerminalManager.Manager.ClearActiveBells | src/terminal/manager.rs:238-242 | the shown terminal's bell flags are cleared and the manager stays coherent |
| TerminalManager.Manager.Detach | src/terminal/manager.rs:102-104 | no tab is shown afterwards and nothing else changes |
| TerminalManager.Manager.WriteToActive | src/terminal/manager.rs:121-126 | the keystrokes go to the shown terminal, as WriteTouchesOnlyActive describes |
| TerminalManager.Manager.ResizeActive | src/terminal/manager.rs:128-133 | the new size goes to the shown terminal, as ResizeTouchesOnlyActive describes |
| TerminalManager.Manager.SetActive | src/terminal/manager.rs:66 | the id is shown and nothing else changes |
| TerminalManager.Manager.Activate | src/terminal/manager.rs:66-67 | the id is shown and its bell acknowledged |
| TerminalManager.Manager.SwitchTo | src/terminal/manager.rs:139-147 | the bells of the tab shown before and of the new one are acknowledged, and the new one is shown |
| TerminalManager.Manager.ActiveIndex | src/terminal/manager.rs:140-144 | the search returns the shown tab's index, or 0 when none is shown or found |
| TerminalManager.Manager.CycleNext | src/terminal/manager.rs:135-148 | shows the next tab, wrapping, as CycleNextFrom and CycleVisitsEveryTab describe |
| TerminalManager.Manager.CyclePrev | src/terminal/manager.rs:150-167 | shows the previous tab, wrapping, as CyclePrevFrom describes |
| TerminalManager.Manager.InsertTab | src/terminal/manager.rs:61-64 | the id goes last in the order, the terminal and the notifier are stored under it, and nothing else changes |
| TerminalManager.Manager.AddTab | src/terminal/manager.rs:61-95 | storing a tab keeps the manager coherent and adds exactly that tab |
| TerminalManager.Manager.OpenTab | src/terminal/manager.rs:61-67 | a stored tab is shown with its bell acknowledged |
| TerminalManager.Manager.Spawn | src/terminal/manager.rs:60-93 | a new terminal for the session, just spawned, and the manager unchanged |
| TerminalManager.Manager.Watcher | src/terminal/manager.rs:63-76 | a new notifier for the session's log directory in its initial state, and the manager unchanged |
| TerminalManager.Manager.Attach | src/terminal/manager.rs:45-69 | the contents and result after attaching, as AttachOutcome describes |
| TerminalManager.Manager.Resume | src/terminal/manager.rs:55-67 | a session not yet attached is resumed on a new last tab with a notifier and shown, or the spawn error is returned |
| TerminalManager.Manager.AttachNew | src/terminal/manager.rs:71-81 | the contents and result after starting a new session, as AttachNewOutcome describes |
| TerminalManager.Manager.StartNew | src/terminal/manager.rs:73-80 | a new session gets the last tab, a notifier, and is shown, or the spawn error is returned |
| TerminalManager.Manager.AttachSsh | src/terminal/manager.rs:83-100 | the contents and result after attaching over ssh, as AttachSshOutcome describes |
| TerminalManager.Manager.DropTabs | src/terminal/manager.rs:177-181 | the ids leave the terminals, the notifiers and the order, which keeps its other ids in order |
| TerminalManager.Manager.RemoveActive | src/terminal/manager.rs:184-190 | the contents after removing the shown terminal, as RemoveActiveOutcome describes |
| TerminalManager.Manager.CleanupInactiveExited | src/terminal/manager.rs:169-182 | the contents after cleanup, as CleanupOutcome describes |
| TerminalManager.Manager.DropAll | src/terminal/manager.rs:177-181 | the dead ids leave the terminals, the notifiers and the order, and the stored objects do not change |
| TerminalManager.Manager.DropEach | src/terminal/manager.rs:177-181 | removing the dead ids one at a time removes exactly them, whatever the order |
| TerminalManager.Manager.CheckOne | src/terminal/manager.rs:227 | one notifier's check, with only that notifier changed |
| TerminalManager.Manager.CheckNotifier | src/terminal/manager.rs:227 | the notifier's check follows the notifier's specification and the other notifiers keep their state |
| TerminalManager.Manager.RingBell | src/terminal/manager.rs:229-231 | the bell of the terminal is set and the manager stays coherent |
| TerminalManager.Manager.SetBellOf | src/terminal/manager.rs:229-231 | the bell of exactly that terminal is set |
| TerminalManager.Manager.CheckAndRing | src/terminal/manager.rs:226-231 | one notifier's check, and its terminal's bell when the check fires |
| TerminalManager.Manager.CountCheck | src/terminal/manager.rs:225 | the check counter goes up by one and nothing else changes |
| TerminalManager.Manager.CheckAndForwardNotifications | src/terminal/manager.rs:224-236 | the periodic check, as CheckAndForwardOutcome describes |
| TervezoModels.Label | src/tervezo/models.rs:18-29 | every status has a non-empty label |
| TervezoModels.LabelInjective | src/tervezo/models.rs:18-29 | two statuses have the same label exactly when they are the same status, and a completed implementation reads "Done" |
| TervezoModels.StatusClasses | src/tervezo/models.rs:31-41 | no status is both running and terminal, and exactly Pending and Queued are neither |
| TervezoModels.DisplayName | src/tervezo/models.rs:83-85 | the title, or "(untitled)" when there is none |
| TervezoModels.ImplementationActivity | src/tervezo/models.rs:92-111 | "-" exactly when neither time is known; otherwise the age since the last update, or since creation when there was no update, in whole seconds truncated toward zero |
| TervezoModels.RepoShort | src/tervezo/models.rs:114-119 | "-" without a repository; otherwise the text after the URL's last '/', which contains no '/' and is preceded by a '/' when the URL has one |
| TervezoModels.RepoShortExample | src/tervezo/models.rs:114-119 | a GitHub URL gives the repository's name |
| TervezoModels.TextFields | src/tervezo/models.rs:162-171 | a message has six candidate text fields |
| TervezoModels.FirstPresent | src/tervezo/models.rs:163-170 | the first present field, and none exactly when every field is absent |
| TervezoModels.DisplayTextIsFirstPresent | src/tervezo/models.rs:162-171 | the shown text is the first present of reason, text, message, content, output and details, so a reason always wins, and it is empty when none is present |
| TervezoModels.DisplayText | src/tervezo/models.rs:162-171 | the text shown is one of the six candidate fields, or empty, and empty when none is present |
| TervezoModels.EffectiveStatus | src/tervezo/models.rs:174-176 | the status a message moved to, else its own status |
| TervezoModels.DisplayPath | src/tervezo/models.rs:199-201 | the path, or "(unknown)" when there is none |
| TervezoApi.HexDigit | src/tervezo/api.rs:19 | a digit below 16 is written as an upper-case hexadecimal digit |
| TervezoApi.HexDigitValue | src/tervezo/api.rs:19 | the hexadecimal digit written for d reads back as d |
| TervezoApi.EncodeByte | src/tervezo/api.rs:14-20 | an unreserved byte is written as its character; any other as '%' followed by two digits |
| TervezoApi.ReservedCount | src/tervezo/api.rs:13-22 | no more bytes need escaping than there are bytes |
| TervezoApi.PercentEncoded | src/tervezo/api.rs:11-24 | each byte takes one character and each escaped byte two more |
| TervezoApi.PercentEncodedAppend | src/tervezo/api.rs:13-22 | the encoding is byte by byte: encoding a concatenation concatenates the encodings |
| TervezoApi.PercentEncodedAlphabet | src/tervezo/api.rs:14-20 | the encoding uses only unreserved characters, '%' and upper-case hexadecimal digits |
| TervezoApi.AsChars | src/tervezo/api.rs:16 | bytes shown as the characters with the same codes, one for one |
| TervezoApi.PercentEncodedUnreserved | src/tervezo/api.rs:15-17 | bytes that need no escaping are written as they are |
| TervezoApi.PercentRoundTrip | src/tervezo/api.rs:11-24 | decoding the encoding of any bytes gives back exactly those bytes |
| TervezoApi.PercentDecode | src/tervezo/api.rs:11-24 | decoding never lengthens the text, and text without '%' keeps its length |
| TervezoApi.SimplePercentEncode | src/tervezo/api.rs:11-24 | the loop encodes the UTF-8 bytes of its input, and the result decodes back to the input |
| TervezoApi.EncodeBytes | src/tervezo/api.rs:12-23 | the loop over the bytes yields their encoding |
| TervezoApi.PercentEncodedSnoc | src/tervezo/api.rs:13-22 | one more byte appends its own encoding |
| TervezoApi.EncodedStringDecodes | src/tervezo/api.rs:11-24 | the encoding of a string decodes to its UTF-8 bytes, and those to the string |
| TervezoApi.AsciiEncoding | src/tervezo/api.rs:13 | an ASCII string's bytes are its character codes |
| TervezoApi.UnreservedStringUnchanged | src/tervezo/api.rs:15-17 | a string of unreserved ASCII characters is encoded as itself |
| TervezoApi.EncodeExample | src/tervezo/api.rs:14-20 | "a", a space and a slash are written "a%20%2F" |
| TervezoApi.NewClient | src/tervezo/api.rs:42-54 | the client keeps the key and the base URL less exactly its trailing slashes |
| TervezoApi.NewClientIdempotent | src/tervezo/api.rs:51 | trimming the trailing slashes again changes nothing |
| TervezoApi.ListUrl | src/tervezo/api.rs:60-63 | the collection URL, with the status filter percent-encoded as the status query, which decodes back to the filter |
| TervezoApi.OperationUrl | src/tervezo/api.rs:134-254 | every request about one implementation goes to a URL under /implementations/ and its id |
| TervezoApi.OperationsDistinct | src/tervezo/api.rs:71-254 | no two operations send the same verb to the same path |
| TervezoApi.OperationUrlNotList | src/tervezo/api.rs:60-72 | a request about one implementation never goes to the collection URL |
| TervezoApi.TimelineUrl | src/tervezo/api.rs:82-85 | the timeline URL, with the cursor appended unencoded as the after query when there is one |
| TervezoApi.Outcome | src/tervezo/api.rs:256-327 | a request succeeds exactly when it was sent, its status is accepted and its body reads, and then gives the body; otherwise the transport error with its prefix, the status error, or the body error |
| TervezoApi.PostAcceptsMore | src/tervezo/api.rs:273-310 | a POST succeeds whenever a GET would, and also on 201, which is an error for a GET |
| TervezoApi.StatusErrorNamesStatus | src/tervezo/api.rs:270-316 | the status error starts "HTTP ", then the status in decimal, which reads back as the status, then a space, then the status's reason phrase, then ": " |
| TervezoApi.StatusError | src/tervezo/api.rs:270-280 | the error starts with "HTTP " and ends with ": " and the response body, or "(unreadable body)" when it cannot be read |
| TervezoApi.ReasonPhrase | src/tervezo/api.rs:270-279 | a status prints with its registered reason phrase, or "<unknown status code>" when none is registered |
| TervezoApi.ReasonFromFinds | src/tervezo/api.rs:270-279 | the phrase lookup finds a phrase exactly when the status is one of the registered codes |
| TervezoApi.NotFoundPhrase | src/tervezo/api.rs:270-279 | 404 prints as "Not Found" |
| TervezoApi.UnregisteredPhrase | src/tervezo/api.rs:270-279 | 599, which has no registered phrase, prints as "<unknown status code>" |
| TervezoApi.StatusErrorExample | src/tervezo/api.rs:270-279 | a 404 answered with "nope" gives "HTTP 404 Not Found: nope" |
| TervezoApi.DecodedOnly | src/tervezo/api.rs:102-115 | the kept messages are no more than the entries |
| TervezoApi.MalformedCount | src/tervezo/api.rs:108-113 | no more entries are skipped than there are |
| TervezoApi.EntriesAccounted | src/tervezo/api.rs:102-115 | every entry is kept, skipped or is a null, and each is counted once |
| TervezoApi.DecodedOnlyAppend | src/tervezo/api.rs:102-115 | the messages and skips of a concatenation are those of its parts |
| TervezoApi.DecodedOnlySingle | src/tervezo/api.rs:103-113 | one entry is kept when it decodes and skipped when it is malformed; a null is neither |
| TervezoApi.TimelineMessages | src/tervezo/api.rs:99-115 | the loop keeps exactly the decoded messages, in order, and counts exactly the malformed ones |
| TervezoApi.PresentChanges | src/tervezo/api.rs:154 | the changes kept are exactly the present ones, never more than the list |
| TervezoApi.PresentChangesCounts | src/tervezo/api.rs:154 | every change is kept as often as it occurs in the list |
| TervezoApi.PresentChangesAppend | src/tervezo/api.rs:154 | the changes kept from two lists are those of the first followed by those of the second, so their order is kept |
| TervezoApi.PresentChangesSingle | src/tervezo/api.rs:154 | a present change is kept and a null entry is dropped |
| TervezoSse.StopFlag.constructor | src/tervezo/sse.rs:34 | a new flag is down |
| TervezoSse.StopFlag.Load | src/tervezo/sse.rs:86-92 | a load reads true exactly when no quiet load is left, and then the flag stays up; otherwise one quiet load is used |
| TervezoSse.StopFlag.Store | src/tervezo/sse.rs:223-226 | dropping the stream raises the flag for good |
| TervezoSse.LastIdIsLast | src/tervezo/sse.rs:151-179 | there is a last id exactly when some message has an id, and it is the id of a message after which no message has one |
| TervezoSse.LastIdSnoc | src/tervezo/sse.rs:177-179 | a message with an id makes it the cursor; one without leaves the cursor as it was |
| TervezoSse.LastId | src/tervezo/sse.rs:177-179 | the last id, when there is one, is the id of one of the messages |
| TervezoSse.Events | src/tervezo/sse.rs:180 | every decoded message is sent as an event, one for one and in order |
| TervezoSse.EventsSnoc | src/tervezo/sse.rs:180 | one more message sends one more event, last |
| TervezoSse.Dispatch | src/tervezo/sse.rs:147-210 | a payload that is not JSON sends nothing and keeps the cursor; a cursor once set is never cleared |
| TervezoSse.LineStepCases | src/tervezo/sse.rs:138-218 | a blank line with nothing gathered does nothing; with a payload it dispatches it and resets the buffer and the event id; an "id: " line sets the pending event id; other lines are ignored; nothing sent is ever taken back (the panic of a log preview that splits a character is not modelled, see Left out) |
| TervezoSse.LineStep | src/tervezo/sse.rs:138-218 | a line never clears the cursor, and either keeps the sent events or empties the gathered payload |
| TervezoSse.DataLines | src/tervezo/sse.rs:214-215 | the payload lines of the given parts, each behind "data: " |
| TervezoSse.DataLinesConcatenate | src/tervezo/sse.rs:214-215 | consecutive "data: " lines append their text to the gathered payload and change nothing else |
| TervezoSse.FoldLines | src/tervezo/sse.rs:128-219 | reading lines only ever adds messages, and once set the cursor stays set |
| TervezoSse.FoldLinesSplit | src/tervezo/sse.rs:128-219 | reading two runs of lines one after the other is reading them together |
| TervezoSse.ReadRun | src/tervezo/sse.rs:128-136 | reading never uses more loads of the flag than were quiet |
| TervezoSse.ReadRunFolds | src/tervezo/sse.rs:128-136 | while the flag stays down and reads succeed, every line is read in order, with one load each |
| TervezoSse.ReadRunStopped | src/tervezo/sse.rs:129-131 | once the flag is up no line is read and nothing more is sent |
| TervezoSse.ReadRunError | src/tervezo/sse.rs:133-136 | a read error ends the reading: the lines after it are never looked at |
| TervezoSse.LinesOf | src/tervezo/sse.rs:128 | successful reads of the given lines, one for one |
| TervezoSse.ReadRunPrefix | src/tervezo/sse.rs:128-136 | reading some successful lines and then the rest is reading the rest from the state the first lines left |
| TervezoSse.ExampleStream | src/tervezo/sse.rs:138-218 | an id line, two data lines and a blank line holding a null and one message send exactly that message and move the cursor to its id |
| TervezoSse.ExampleIdLine | src/tervezo/sse.rs:216-217 | "id: e1" sets the pending event id to "e1" |
| TervezoSse.ExampleParts | src/tervezo/sse.rs:215 | the parts "a" and "b" gather to "ab" |
| TervezoSse.ExampleBlankLine | src/tervezo/sse.rs:138-213 | the blank line dispatches the gathered example payload |
| TervezoSse.SendMessages | src/tervezo/sse.rs:151-186 | the loop sends each decoded message in order and leaves the cursor at the last id among them, or where it was |
| TervezoSse.SendStep | src/tervezo/sse.rs:152-185 | one entry: a null or malformed one changes nothing, a decoded one is sent and its id, if any, becomes the cursor |
| TervezoSse.DispatchPayload | src/tervezo/sse.rs:139-213 | what a blank line does with the payload, as Dispatch says |
| TervezoSse.Preview | src/tervezo/sse.rs:143 | where the byte cut falls between characters, a payload within the limit is shown whole and a longer one as exactly its first bytes up to the limit |
| TervezoSse.PreviewAtBoundary | src/tervezo/sse.rs:143 | the preview is the longest prefix within the byte limit: a prefix of the text, whose UTF-8 bytes begin the text's bytes, which the next character would push over the limit, and the whole text when it fits |
| TervezoSse.PreviewAtBoundaryAgrees | src/tervezo/sse.rs:143 | wherever the byte cut falls between characters, cutting at the last boundary gives the same preview |
| TervezoSse.PreviewPanicsOnSplitChar | src/tervezo/sse.rs:143 | 299 ASCII bytes and an 'é' in one data line gather to a 301-byte payload whose byte 300 falls inside the 'é', so the preview of the blank line after it panics |
| TervezoSse.ReadEvents | src/tervezo/sse.rs:119-220 | the reader's cursor, the messages it sends and the loads of the flag it uses are those of ReadRun from an empty buffer |
| TervezoSse.ReadLine | src/tervezo/sse.rs:133-218 | one line changes the reader's state as LineStep says |
| TervezoSse.StreamUrl | src/tervezo/sse.rs:67-70 | the stream URL of the implementation, with the cursor as the after query when there is one |
| TervezoSse.StreamUrlResumes | src/tervezo/sse.rs:67-70 | the URL is longer than the plain one exactly when a cursor is given, and then it is the plain one followed by "?after=" and the cursor |
| TervezoSse.NextBackoff | src/tervezo/sse.rs:97 | the next backoff never exceeds 30 seconds and never shrinks below the current one |
| TervezoSse.AttemptRound | src/tervezo/sse.rs:73-84 | a failed connection sends its error and keeps the cursor and the backoff; a successful one resets the backoff to one second |
| TervezoSse.LoopTurn | src/tervezo/sse.rs:73-97 | a turn waits at most once, and when the flag is still down after it the backoff has grown from that wait |
| TervezoSse.StreamRun | src/tervezo/sse.rs:51-99 | the loop never uses more loads of the flag than were quiet |
| TervezoSse.StreamRunStep | src/tervezo/sse.rs:62-98 | the loop is one turn on the URL for the current cursor, then the loop from where the turn left off |
| TervezoSse.FailureBackoff | src/tervezo/sse.rs:60-97 | every wait in a run of failures is between 1 and 30 seconds |
| TervezoSse.BackoffSchedule | src/tervezo/sse.rs:60-97 | the waits after failures are 1, 2, 4, 8, 16 and then 30 seconds |
| TervezoSse.BackoffCapped | src/tervezo/sse.rs:97 | from the sixth failure on the wait stays at 30 seconds |
| TervezoSse.FailureWaits | src/tervezo/sse.rs:90-97 | one wait per failure |
| TervezoSse.FailureReports | src/tervezo/sse.rs:80-83 | one error message per failure |
| TervezoSse.FailureWaitsCons | src/tervezo/sse.rs:90-97 | the waits of a run of failures are the first wait followed by those of the rest |
| TervezoSse.FailureWaitsIndex | src/tervezo/sse.rs:90-97 | the k-th wait of a run of failures is the k-th of the schedule |
| TervezoSse.FailureReportsCons | src/tervezo/sse.rs:80-83 | the errors of a run of failures are the first error followed by those of the rest |
| TervezoSse.FailuresBackOff | src/tervezo/sse.rs:62-98 | a run of failures waits by the schedule, sends each error in order and keeps the cursor |
| TervezoSse.FailureSchedule | src/tervezo/sse.rs:59-98 | from the start, the k-th failure sends its error and waits the k-th backoff, 30 seconds from the sixth on, and the cursor does not move |
| TervezoSse.ConnectResetsBackoff | src/tervezo/sse.rs:74-90 | a successful connection is followed by a wait of one second, whatever the backoff was |
| TervezoSse.ReadRunQuiet | src/tervezo/sse.rs:128-131 | reading lines uses at most one load of the flag per line |
| TervezoSse.StreamRunStopped | src/tervezo/sse.rs:63-65 | once the flag is up the loop connects nowhere and sends nothing |
| TervezoSse.ReconnectUsesCursor | src/tervezo/sse.rs:67-77 | after a connection the next attempt resumes after the cursor the reading left |
| TervezoSse.AttemptOnce | src/tervezo/sse.rs:73-84 | one attempt, as AttemptRound says |
| TervezoSse.WaitBackoff | src/tervezo/sse.rs:90-95 | the wait reads the flag once per tenth of a second and stops exactly when it comes up before the backoff has passed |
| TervezoSse.RunTurn | src/tervezo/sse.rs:67-97 | one turn of the loop, as LoopTurn says |
| TervezoSse.StreamTurn | src/tervezo/sse.rs:62-98 | one pass of the loop body: a raised flag at the top ends the loop with exactly what was gathered; otherwise the turn keeps the loop invariant that what was gathered plus the StreamRun of the remaining attempts is the whole run |
| TervezoSse.StreamLoop | src/tervezo/sse.rs:37-99 | the loop's messages, the URLs it connects to and its waits are those of StreamRun from the trimmed base URL, the initial cursor and a backoff of one second |
| Usage.PlanFromSubscription | src/usage.rs:133-148 | with no known plan keyword, there is no plan exactly when the type is empty or mentions "api"; a plan name is never empty |
| Usage.PlanOrder | src/usage.rs:134-140 | the plan is Max exactly when the lower-cased type contains "max", Pro when it contains "pro" but not "max", Team when it contains "team" but neither |
| Usage.PlanFallback | src/usage.rs:141-147 | any other non-empty type is shown as itself with its first character upper-cased, equal to it up to case |
| Usage.CapitalisedLower | src/usage.rs:144-146 | upper-casing the first character leaves the text the same up to case |
| Usage.PlanIdempotent | src/usage.rs:133-148 | the name of a plan names that same plan |
| Usage.PlanExampleMax | src/usage.rs:167 | "max_5x" is the Max plan |
| Usage.PlanExamplePro | src/usage.rs:168 | "pro" is the Pro plan |
| Usage.PlanExampleTeam | src/usage.rs:169-172 | "team_enterprise" is the Team plan |
| Usage.PlanExampleEmpty | src/usage.rs:173 | an empty type has no plan |
| Usage.PlanExampleApiKey | src/usage.rs:174 | "api_key" has no plan |
| Usage.ReadCredentials | src/usage.rs:111-131 | credentials are usable exactly when the file has OAuth data with a token that has not expired; they give that token and the subscription type, empty when missing |
| Usage.ExpiryMonotone | src/usage.rs:119-127 | credentials usable at some time were usable, and the same, at every earlier time |
| Usage.ParseUtilization | src/usage.rs:150-153 | a finite value becomes a whole percentage: 0 at or below 0, 100 at or above 100, and its integer part in between; no value, NaN or an infinity gives none |
| Usage.ParseUtilizationExamples | src/usage.rs:178-185 | 50, 0, 100 and 150 give 50, 0, 100 and 100; NaN and no value give none |
| Usage.FetchUsage | src/usage.rs:73-109 | the plan comes from the credentials; without a plan the data is the default; the API counts as available exactly when there is a plan and the API answers; without an answer only the plan is set |
| Usage.FetchUsageWindows | src/usage.rs:73-131 | an available answer implies an unexpired token of a known plan, and its windows are shown as the answer gave them, converted |
| Usage.ShouldFetchAfterTtl | src/usage.rs:59-62 | the cache is stale exactly from 60 seconds after the last fetch on |
| Usage.UsageFetcher.constructor | src/usage.rs:51-56 | a new fetcher holds the default data and has never fetched |
| Usage.UsageFetcher.Get | src/usage.rs:58-70 | when the cache is stale or empty it fetches afresh and records the time the fetch returned; otherwise the cached data is returned untouched |
| Usage.GetTwice | src/usage.rs:58-70 | after a fetch that returned at some time, a second call within a minute of that time returns the same data and a call a minute or more later fetches again |
| Text.NatToStringRoundTrip | src/ui/session_list.rs:323 | the decimal text of a count reads back as that count |
| Text.NatToStringInjective | src/ui/session_list.rs:323 | distinct counts are written as distinct texts |
| Text.ParseU32 | src/session/discovery.rs:236 | a parsed process id always fits in 32 bits |
| Text.ParseU32OfString | src/session/discovery.rs:234-237 | a 32-bit process id written in decimal parses back to itself |
| Text.TrimEndSpace | src/app.rs:528 | the result is the longest prefix of the row that does not end in whitespace: what is cut is all whitespace |
| Text.TrimEnd | src/session/discovery.rs:409 | the result is a prefix of the path, does not end in the character, and everything cut is that character |
| Text.AfterLastIsSuffix | src/session/discovery.rs:409-412 | the last segment is a suffix without the separator, preceded by the separator unless it is the whole text |
| Text.LexLeTotal | src/app.rs:138 | any two project names are ordered one way or the other |
| Text.LexLeTrans | src/app.rs:138 | the name order is transitive |
| Text.AgePartsFloor | src/session/mod.rs:92-105 | a non-negative age is shown as the whole number of the chosen unit it contains, and a unit above seconds is never shown as zero |
| Paths.FileName | src/session/discovery.rs:78-84 | a file name, when there is one, is non-empty, holds no '/' and is neither "." nor ".." |
| Paths.FileNameIgnoresCurDir | src/session/discovery.rs:78-84 | a trailing "/." component does not change the file name |
| Paths.FileNameOfCurDir | src/session/discovery.rs:78-84 | "." and "/." have no file name |
| Paths.FileNameOfPlainName | src/session/discovery.rs:78-84 | a non-empty name with no '/' that is neither "." nor ".." is its own file name, also with a trailing "/." |
| Paths.FileNameAfterCurDir | src/session/discovery.rs:78-84 | "x/." has the file name "x" |
| Paths.LastDot | src/session/discovery.rs:95 | the index found holds the last '.' of the name; None exactly when the name has no '.' |
| Paths.SplitName | src/session/discovery.rs:95-103 | stem, '.' and extension put back together give the name, the stem is non-empty and the extension has no '.'; without an extension the stem is the name |
| Paths.ExtensionShape | src/session/discovery.rs:95-103 | a path with an extension has a non-empty file stem, and stem, '.' and extension make its file name |
| Paths.JoinFileName | src/session/config.rs:133-136 | joining a plain name to a directory puts one '/' between them, and the name is the final component of the result |
| Paths.HasExtensionIff | src/terminal/notifier.rs:228 | a name ends in '.', then the extension, after a non-empty stem, exactly when the path's extension is that extension |
| PosixShell.SplitPlain | src/terminal/mod.rs:96-108 | a plain word at the front of a command line only lengthens the word being read |
| Utf8.EncodeChar | src/input/handler.rs:196-200 | a character takes one to four bytes, one exactly when it is ASCII |
| Utf8.DecodeEncode | src/input/handler.rs:196-200 | decoding the UTF-8 bytes of a text gives the text back |
| Sorting.Insert | src/app.rs:133-162 | inserting adds exactly that one element |
| Sorting.Sort | src/app.rs:133-162 | the sorted sequence is a permutation of the input |
| Sorting.SortSorted | src/app.rs:133-162 | under a total preorder the result is in order |
| Sorting.InsertSorted | src/app.rs:133-162 | inserting into an ordered sequence keeps it ordered |
| Sorting.InsertAtEnd | src/app.rs:133-162 | an element that may follow every element goes last |
| Sorting.SortKeepsSorted | src/app.rs:133-162 | an already ordered sequence is left exactly as it is |
| Sorting.Equivalents | src/app.rs:133-162 | the elements that tie with a given one, in order: exactly those of the sequence that tie with it |
| Sorting.EquivalentsAppend | src/app.rs:133-162 | the ties of two sequences joined are the ties of the first followed by those of the second |
| Sorting.EquivalentsSnoc | src/app.rs:133-162 | one more element adds itself to the ties exactly when it ties |
| Sorting.NoEquivalents | src/app.rs:133-162 | a sequence with nothing tying has no ties |
| Sorting.InsertEquivalents | src/app.rs:133-162 | inserting into an ordered sequence puts the element after everything it ties with |
| Sorting.SortStable | src/app.rs:133-162 | under a total preorder, sorting keeps the order of any elements that tie (stability) |
| Sorting.InsertDistinct | src/app.rs:133-162 | inserting an element of a new key keeps the keys distinct |
| Sorting.SortDistinct | src/app.rs:133-162 | sorting keeps distinct keys distinct |
| QSwitcher.Truncate | src/ui/qswitcher.rs:15-21 | a text of at most max bytes is padded with spaces to max characters and kept as its prefix; a longer one becomes its first max-1 bytes and '~', max bytes in all |
| QSwitcher.TruncateAscii | src/ui/qswitcher.rs:15-21 | for ASCII text every cut is on a character boundary, and the cell is always max characters led by the text's first min(len, max-1) characters |
| QSwitcher.TruncatePanicsOnSplitChar | src/ui/qswitcher.rs:11-19 | ten 'é' and an 'a' are longer than the 20-byte name cell, and byte 19 is not a character boundary |
| QSwitcher.TruncateAtBoundary | src/ui/qswitcher.rs:15-21 | the corrected cut: the longest character prefix within max-1 bytes and '~', between max-3 and max bytes, for every text |
| QSwitcher.TruncateAtBoundaryAgrees | src/ui/qswitcher.rs:15-21 | wherever the original does not panic, the corrected form gives the same text |
| Utf8.CharsWithin | src/ui/qswitcher.rs:19 | the number of whole leading characters that fit in n bytes: they fit, and one more would not |
| Utf8.ByteLenAtLeastChars | src/ui/qswitcher.rs:16 | the byte length is at least the character count, and equal to it for ASCII |
| SessionList.ShortenModel | src/ui/session_list.rs:305-315 | a name containing "opus", "sonnet" or "haiku" shortens to that family, checked in that order |
| SessionList.ShortenModelSegment | src/ui/session_list.rs:313 | a name of no family shortens to its last '-'-separated segment: a '-'-free suffix, preceded by '-' when the name has one, and the whole name when it has none |
| SessionList.ShortenModelIdempotent | src/ui/session_list.rs:305-315 | a short name shortens to itself |
| SessionList.NoFamily | src/ui/session_list.rs:306-310 | the dated GPT name contains none of the three families |
| SessionList.ShortenModelExample | src/ui/session_list.rs:313 | "gpt-4o-20240513" shows as "20240513" |
| SessionList.ModelShort | src/ui/session_list.rs:181-188 | remote entries show "tervezo", local ones without a model "-", others their short model name |
| SessionList.Marker | src/ui/session_list.rs:190-196 | a remote entry is marked "[T]" |
| SessionList.MarkerReadsBack | src/ui/session_list.rs:197-203 | a local marker starts with ">>" exactly when attached, ends in '*' exactly when the bell rang, and is never "[T]" |
| SessionList.MarkerTable | src/ui/session_list.rs:198-203 | the four local markers |
| SessionList.OneDecimal | src/ui/session_list.rs:319-329 | the text starts with the whole units of the half-up rounded tenths and a '.', and ends in the suffix |
| SessionList.FormatTokens | src/ui/session_list.rs:317-325 | below a thousand the plain decimal that reads back as n; a 'K' below a million and an 'M' from a million on |
| SessionList.FormatCount | src/ui/session_list.rs:327-333 | below a thousand the plain decimal that reads back as n, otherwise ending in 'K' |
| SessionList.FormatsAgreeBelowMillion | src/ui/session_list.rs:317-333 | the token and message formats agree exactly below a million |
| SessionList.FormatTokensExample | src/ui/session_list.rs:317-325 | 1260 tokens read "1.3K" and 999 read "999" |
| SessionList.TokenColumns | src/ui/session_list.rs:218-224 | a remote row shows "-" twice; a local one shows input plus cache reads, and output, each reading back as its count below a thousand |

## Left out

- The pseudo-terminal and the vt100 parser: the screen an embedded terminal shows is a parameter, and vt100's clamping of the scrollback offset to the lines it holds is not modelled (the offset is unbounded).
- Threads and atomics are modelled sequentially: the PTY reader thread is a sequence of reads, the SSE stop flag is the class `StopFlag` that turns true after a given number of quiet polls, and the SSE reconnect loop runs over a finite sequence of connection attempts.
- The network (the HTTP client, `call_api`, `open_sse`): every answer of the remote service is a parameter.
- JSON decoding: records arrive already parsed; lenient decoding is the `Raw<T>` wrapper of `TervezoModels`.
- `get_test_output`'s own tolerant loop is not modelled separately: the decoded-only rule of `TervezoModels` applies to its items, and a null item counts as malformed there.
- The killing of an existing process (`kill_process` of `existing_pid`) when a session is attached: the process table is not modelled.
- The random uuid of a new session: its freshness is a precondition of the members that start one.
- The SQLite store read when the remote list is refreshed.
- The file system, the process table, the clocks and the home directory are parameters of the members that read them.
- Writes to the debug log file (`tlog`, `debug_log`): only the in-memory buffer of `Log` is modelled.
- The BEL byte written to standard error: it stands as the `rung` result of the notifier checks.
- HashMap iteration order: the order in which `check_and_forward_notifications` visits notifiers is a parameter, and the model claims only what holds for every order.
- Discovery.Discovered: the source collects the kept sessions from a HashMap (`into_values`, src/session/discovery.rs:193), in an arbitrary order, before the stable sort by activity; the model keeps them in the order their files were first seen, so sessions active at the same moment come out in that order, where the source's order among them is unspecified. `Discovery.DiscoveredShape` states only what holds for every such order.
- Floating point: the K and M counts round the decimal half up where the source formats a floating-point quotient, and this differs on more than exact ties: 1150 / 1000.0 is stored just below 1.15, so the source prints "1.1K" where the model prints "1.2K"; cost is computed exactly in integer units of 5e-10 USD, and the Cost sort compares those integers, so float rounding in the comparison is not modelled.
- `format_reset_time`: the RFC 3339 parse and the local time zone are a parameter function.
- The truncation of `now_ms` to `u64`, the u16/u32 overflow of layout sums such as `content_y + content_h`, the u32 token tallies of the configuration overview (`accumulate`, src/session/config.rs:345-352), which would overflow past 4294967295 tokens, and the u32 session counters `message_count`, `tool_call_count`, `compaction_count`, `hook_run_count` and `hook_error_count` (src/session/mod.rs:53-60), incremented once per log line: integers are unbounded here.
- Case mapping is ASCII only: `to_lowercase` on non-ASCII letters, and the `to_uppercase` of the first character of a subscription type (src/usage.rs:145), which for some non-ASCII letters yields more than one character, are not modelled.
- `src/tervezo/fetcher.rs` and `src/tervezo/config.rs` are not part of this model, and neither are `src/main.rs` and the rendering files under `src/ui/` beyond the computed columns of the list and of the quick switcher.
- TervezoApi.CanonicalReason: the reason phrases are a table of the 60 codes the `http` crate registers in the release this model follows; a status the table lacks prints as "<unknown status code>", which is what that crate prints for it, but a later release that registers more codes (103 Early Hints, for instance) would print a phrase where the model prints the stand-in.
- TervezoSse.ReadEvents: the log previews the reader builds (src/tervezo/sse.rs:143, 167, 174, 207) are byte slices of the text, which panic, ending the reader thread, when the cut falls inside a multi-byte character (see the finding below). The reader's state is modelled as it is when every preview cuts cleanly, `TervezoSse.PreviewsCutCleanly` states that condition for one payload, and `TervezoSse.PreviewPanicsOnSplitChar` exhibits a payload that breaks it; the panic itself is not threaded through the state.
- TervezoSse.LineStep: a blank line whose payload breaks `TervezoSse.PreviewsCutCleanly` would panic in the source; the model goes on as if it had not.
- TervezoSse.LineStepCases: states the effect of a line under the same assumption, that the previews of the dispatched payload cut cleanly.
- TervezoSse.Dispatch: the same assumption holds for each payload it dispatches; the preview of a decoded message's JSON re-serialisation (`raw_str`, src/tervezo/sse.rs:167) is not modelled, since JSON serialisation is not.
- TervezoSse.SendMessages: the 100-byte preview of each message's text (src/tervezo/sse.rs:174) is covered by `TervezoSse.PreviewsCutCleanly` and not threaded through the loop.
- The 8-byte slices of session ids in debug log lines (src/terminal/manager.rs:228 and similar) are not modelled, since the debug log is not; for the ASCII ids the dashboard handles (session uuids) the cut falls between characters.
- QSwitcher.Truncate: its precondition, that the cut falls between two characters, is the condition under which the source does not panic; the finding below corrects it.

## Findings

| source | as written | input that shows it | evidently intended | confidence | as-written member | corrected member |
|---|---|---|---|---|---|---|
| src/ui/qswitcher.rs:19 | a cell text longer than the column is sliced at byte `max - 1`, which panics when that byte is inside a multi-byte character | a project name of ten 'é' and an 'a' (21 bytes) in the 20-column name cell: byte 19 is inside the tenth 'é' | cut at the last character boundary at or before byte `max - 1` | not executed | `QSwitcher.Truncate`, `QSwitcher.TruncatePanicsOnSplitChar` | `QSwitcher.TruncateAtBoundary`, `QSwitcher.TruncateAtBoundaryAgrees` |
| src/tervezo/sse.rs:143 | a gathered payload longer than 300 bytes is logged through the byte slice `&data_buf[..300]`, which panics, ending the reader thread, when byte 300 is inside a multi-byte character; the 300-byte preview of the re-serialised JSON of a message with no display text at line 167 and the 100- and 200-byte previews at lines 174 and 207 are cut the same way | one data line of 299 'a' and an 'é' (301 bytes), then a blank line: byte 300 is inside the 'é' | cut the preview at the last character boundary at or before the byte limit | not executed | `TervezoSse.Preview`, `TervezoSse.PreviewPanicsOnSplitChar` | `TervezoSse.PreviewAtBoundary`, `TervezoSse.PreviewAtBoundaryAgrees` |
