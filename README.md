# Help-PB-Hero-Live dashboard, modelled in Dafny

This project models the React dashboard of Help-PB-Hero-Live. The dashboard is the browser side of a live-stream co-pilot. It has these parts:

- configuration editors for moderation, settings, the ignore list, the AI orchestrator topology, personalities, the UPI gateway and Streamer.bot;
- the chat and alert overlays that OBS shows over the stream;
- the viewers leaderboard and the loyalty page;
- the OBS address page and the testing console;
- the public payment page.

The model mirrors the shape of the source:

- The configuration document is a JSON tree (`ConfigDoc.Json`). The top level is a map from section name to value (`ConfigDoc.Doc`).
- Pages that compute views or new configurations from their inputs are pure functions over these values.
- `updateNested` walks a dotted path and rebuilds the objects along it. It is the imperative method `ConfigDoc.SetAt`, proved against the specification function `ConfigDoc.SetIn`.
- Two editors change their state step by step: the orchestrator's topology editor and the personalities page with its shared `ai_topology` object. Both are classes whose methods state the new state.
- Log frames from the backend socket are `Frames.Frame` values. The App keeps the newest 50 of them, newest first.
- Browser and backend effects are parameters of the operations: clock readings, random numbers, the answers of `/api` requests, confirmation dialogs and the page's host.
- A JavaScript TypeError (reading through a missing object, pushing onto a non-array) is a failed result. The state is then left unchanged.
- `parseInt`, `String.prototype.trim` (with the full ECMAScript white space and line terminator set), `split`/`join` and `encodeURIComponent` are modelled concretely, over integers and `seq<char>`, a sequence of Unicode scalar values (module `Strings` and module `Encoding`; lone UTF-16 surrogates are listed under Left out). `toLowerCase` is modelled on ASCII letters. `Number` on the payment page's amount is modelled by the sign of its result, which is all the amount check compares.

## Model

| member | source | states |
|---|---|---|
| App.Newest | src/App.jsx:84 | `slice(0, 50)` keeps the first 50 frames, or all of them when there are fewer, as a prefix |
| App.PushLog | src/App.jsx:82-85 | an arriving frame goes first, the previous frames follow in order, and the buffer never exceeds 50, dropping the oldest |
| App.PushLogsNewestFirst | src/App.jsx:82-85 | after any run of arrivals the buffer is the newest 50 frames of everything seen, newest first |
| App.FetchConfig | src/App.jsx:58-72 | a received object with a truthy `youtube` replaces the configuration and clears the error; an invalid reply sets the "Invalid configuration received (Not JSON)" error and a failed request sets its own message, both keeping the configuration |
| App.FetchKeepsValidity | src/App.jsx:58-72 | a fetch never replaces a valid configuration with an invalid one |
| App.SaveConfig | src/App.jsx:89-97 | the configuration changes only after the post succeeds, with the "Configuration Saved!" or "Save Failed: <message>" alert text |
| App.SectionSaveKeepsValidity | src/App.jsx:89-102 | saving the configuration with any section other than `youtube` replaced keeps it valid |
| App.Route | src/App.jsx:26-28 | the payment page is shown whenever the query holds `mode=pay`; otherwise an invalid configuration shows the error when its text is not empty, the spinner otherwise; then the audio, chat and alert overlays in that order; otherwise the dashboard. Each screen's condition is stated in both directions |
| App.EmptyFailureShowsSpinner | src/App.jsx:104-106 | a failed request with an empty message leaves the spinner on screen, and any other message is shown as the connection error |
| App.DashboardWhenNoMode | src/App.jsx:99-129 | the dashboard is shown exactly when the configuration is valid and the query asks for no mode |
| App.ChatAddressRoutes | src/App.jsx:126 | the query `?mode=chat` routes to the chat overlay alone |
| App.NewestOfNewest | src/App.jsx:84 | cutting the older frames to 50 before more arrive does not change which 50 newest are kept |
| Dashboard.CategoryCount | src/pages/Dashboard.jsx:7-9 | a category's count (MOD, CHAT, AI_RESPONSE) is at most the number of buffered frames, and 0 exactly when no buffered frame has that category |
| Dashboard.CountsWithinLogs | src/pages/Dashboard.jsx:7-9 | the three counts never count a frame twice: their sum is the number of frames in any of the three categories, and so at most the buffer's length |
| Dashboard.BadgeFor | src/pages/Dashboard.jsx:81-86 | each of CHAT, AI_RESPONSE, MOD and ERROR gets its own badge exactly when the frame has that category, and every other frame gets the plain badge |
| Dashboard.CountsMatchBadges | src/pages/Dashboard.jsx:7-9 | each stat card counts exactly the frames the log list shows with the matching badge |
| Testing.BlankIffAllSpace | src/pages/Testing.jsx:46 | `!s.trim()` holds exactly when the text is white space only, white space being what `trim` strips: tab, vertical tab, form feed, space, no-break space, byte-order mark, the Unicode space separators and the four line terminators |
| Testing.UnicodeSpaceIsBlank | src/pages/Testing.jsx:46 | a prompt of any number of no-break spaces followed by a byte-order mark and an ideographic space is blank |
| Testing.Record | src/pages/Testing.jsx:17-20 | a recorded line goes in front of the history and nothing else changes |
| Testing.SystemCheck | src/pages/Testing.jsx:13-27 | on success the diagnostics are kept and "Diagnostics Complete" is recorded; on failure "System Check Failed: <message>" is recorded and the diagnostics stay as they were; the rest of the history is unchanged |
| Testing.SendTestChat | src/pages/Testing.jsx:29-42 | records `Test Message Sent: "<message>"`, or "Chat Test Failed: <message>", in front of the history |
| Testing.AiTestPending | src/pages/Testing.jsx:46-48 | the spinner starts only for a prompt that is not blank |
| Testing.AiTest | src/pages/Testing.jsx:44-65 | a blank prompt changes nothing; otherwise the answer (with its prompt) or "AI Error: <message>" goes in front of the history, the prompt is cleared only on success, and the spinner stops |
| Testing.AiTestGuard | src/pages/Testing.jsx:46 | the AI test changes the page exactly when the prompt is not blank |
| Testing.AiTestRetry | src/pages/Testing.jsx:56-60 | after a failure the prompt is still there and can be sent again |
| Testing.TtsTest | src/pages/Testing.jsx:67-86 | a blank text changes nothing; otherwise `Sent to <channel>: "<text>"` or "TTS Error: <message>" is recorded, and the text is cleared only on success |
| Testing.TtsTestGuard | src/pages/Testing.jsx:68 | the speech test changes the page exactly when the text is not blank |
| Testing.TriggerAlert | src/pages/Testing.jsx:88-101 | records "Simulated <type> alert triggered." or "Alert Error: <message>" in front of the history |
| Testing.ClearHistory | src/pages/Testing.jsx:116 | empties the history and changes nothing else |
| Testing.ApplyKeepsHistory | src/pages/Testing.jsx:13-101 | every action either leaves the history alone or puts exactly one line in front of it |
| Testing.HistoryGrowsAtFront | src/pages/Testing.jsx:13-101 | after any run of actions, the earlier history is the tail of the new one, in the same order |
| Testing.StatusBadge | src/pages/Testing.jsx:303-310 | green exactly for Connected, Monitoring, Active and Tracking; yellow exactly for Degraded and Inactive; red otherwise; the tick only when green |
| Testing.GoodAndDegradedDisjoint | src/pages/Testing.jsx:304-305 | no status is both good and degraded |
| IgnoreList.CurrentList | src/pages/IgnoreList.jsx:11 | a truthy stored list is used as it is; a missing or falsy one reads as the empty array |
| IgnoreList.WithIgnoreList | src/pages/IgnoreList.jsx:13-19 | the new configuration changes `moderation.ignore_list` alone: every other section and every other moderation key reads as before |
| IgnoreList.AddItem | src/pages/IgnoreList.jsx:9-23 | a configuration is produced exactly when the value is not empty, the stored list is an array, and the user is not on it yet; that configuration has the list with the user appended |
| IgnoreList.RemoveItem | src/pages/IgnoreList.jsx:25-36 | with an array stored, the entry at the index is dropped, and an index outside the list drops nothing; with anything else stored, nothing is produced |
| IgnoreList.FilteredIndices | src/pages/IgnoreList.jsx:38-40 | the positions of exactly the users matching the search, in increasing order |
| IgnoreList.FilteredList | src/pages/IgnoreList.jsx:38-40 | the matching users in list order, each the user at the matching position |
| IgnoreList.EmptyTermIndices | src/pages/IgnoreList.jsx:38-40 | an empty search shows every user at their own position |
| IgnoreList.EmptyTermShowsAll | src/pages/IgnoreList.jsx:38-40 | an empty search shows the whole list |
| IgnoreList.Names | src/pages/IgnoreList.jsx:38-39 | the names are read exactly when every entry is a string, each name being its entry's text |
| IgnoreList.RemoveShownAsWrittenRemovesWrongUser | src/pages/IgnoreList.jsx:99-111 | as written, with "alice" and "bob" ignored and the search "bob" showing only "bob", the button beside "bob" removes "alice" |
| IgnoreList.SearchBobShowsBob | src/pages/IgnoreList.jsx:38-40 | searching "bob" in ["alice", "bob"] shows ["bob"] |
| IgnoreList.RemoveShown | src/pages/IgnoreList.jsx:99-111 | the corrected button maps the shown position back to the position in the whole list before removing, and removes nothing for a position the search does not show |
| IgnoreList.RemoveShownRemovesShownUser | src/pages/IgnoreList.jsx:99-111 | the corrected button removes exactly the user shown beside it, and keeps the others in order |
| IgnoreList.RemoveShownAgreesOnEmptyTerm | src/pages/IgnoreList.jsx:99-111 | with no search, the as-written button and the corrected one do the same |
| Moderation.WithItem | src/pages/Moderation.jsx:27-28 | the value is on the list afterwards; a value already there (exact, case-sensitive match) leaves the list as it was, any other is appended after the unchanged entries; a list without duplicates stays without |
| Moderation.WithoutIndex | src/pages/Moderation.jsx:41 | an index inside the list drops exactly that entry and keeps the others in order; an index outside the list drops nothing |
| Moderation.WithoutIndexNoDuplicates | src/pages/Moderation.jsx:41 | removing an entry never brings a duplicate into a list without one |
| Moderation.BlacklistWords | src/pages/Moderation.jsx:294 | the text area stores an array of at least one string, none holding a line break |
| Moderation.BlacklistRoundTrip | src/pages/Moderation.jsx:293-294 | a non-empty word list without line breaks, shown and read back, is the same list |
| Moderation.BlacklistEmptyRoundTrip | src/pages/Moderation.jsx:293-294 | an empty word list, shown and read back, becomes a list of one empty word |
| Moderation.BlacklistTextRoundTrip | src/pages/Moderation.jsx:293-294 | any text, read as words and shown again, is the same text |
| Moderation.ParsedNumber | src/pages/Moderation.jsx:205-206 | a number box stores the leading integer of its text, and NaN (carried as null) when the text has none |
| Moderation.LocalConfig.constructor | src/pages/Moderation.jsx:6 | the local copy starts as the configuration passed in |
| Moderation.LocalConfig.UpdateNested | src/pages/Moderation.jsx:8-17 | succeeds exactly when every step of the path before the last reaches an object; then the path reads the new value, every path neither above nor below it reads as before, and the result is the document-level set; on failure nothing changes |
| Moderation.LocalConfig.AddItem | src/pages/Moderation.jsx:19-31 | succeeds exactly when the path leads to a list; the list becomes the list with the item added, nothing off the path changes, and a value already listed changes nothing |
| Moderation.LocalConfig.RemoveItem | src/pages/Moderation.jsx:33-43 | succeeds exactly when the path leads to a list; the list loses the entry at the index and nothing off the path changes |
| Moderation.LocalConfig.Store | src/pages/Moderation.jsx:26-28 | writing a list where a list is stored puts it at the path and leaves every unrelated path as it was |
| Moderation.ParentOfPresent | src/pages/Moderation.jsx:23-27 | a path that reads a value passes through an object just before its last key, so the walk cannot throw there |
| ConfigDoc.OrElse | src/pages/OBS.jsx:10 | `x || d`: a present truthy value is kept, a missing or falsy one gives the default |
| ConfigDoc.ReplaceSection | src/pages/OBS.jsx:32-38 | `{...config, key: v}`: the key holds the new value and every other section is kept |
| ConfigDoc.JoinItemsOfStrings | src/pages/Moderation.jsx:293 | `join` of an array of strings is the strings joined by the separator |
| ConfigDoc.SetAt | src/pages/Moderation.jsx:8-17 | the walk-and-assign of `updateNested` gives exactly the path-set specification, including its failure |
| ConfigDoc.Walk | src/pages/Moderation.jsx:11-14 | the walk either fails, and then the set fails, or yields the chain of objects along the path, each the field of the one before |
| ConfigDoc.Rebuild | src/pages/Moderation.jsx:10-15 | assigning into the innermost object of a walked chain gives the document the path-set specification describes |
| ConfigDoc.SetInDefined | src/pages/Moderation.jsx:12-15 | the set succeeds exactly when every step before the last key reaches an object |
| ConfigDoc.SetInGet | src/pages/Moderation.jsx:15 | after the set the path reads the value written |
| ConfigDoc.SetInOther | src/pages/Moderation.jsx:8-17 | after the set every path neither a prefix nor an extension of the written one reads as before |
| ConfigDoc.SetInBelow | src/pages/Moderation.jsx:15 | after the set the paths below the written one read inside the value written |
| ConfigDoc.SetInSame | src/pages/Moderation.jsx:8-17 | writing back the value a path reads leaves the document unchanged |
| Settings.TrimmedNonEmpty | src/pages/Settings.jsx:166 | `.map(s => s.trim()).filter(Boolean)` keeps at most as many entries, each non-empty and trimmed |
| Settings.ParseList | src/pages/Settings.jsx:166 | every stored trigger is non-empty, trimmed and free of commas |
| Settings.ParseShowList | src/pages/Settings.jsx:165-166 | a list of clean entries, shown joined by ", " and parsed back, is the same list |
| Settings.ShowTriggers | src/pages/Settings.jsx:165 | a missing trigger list shows as empty text and a list of strings shows joined by ", " |
| Settings.ParsedOr | src/pages/Settings.jsx:71 | `parseInt(text) || d`: a non-zero leading integer is stored, NaN and 0 both store the fallback |
| Settings.StoredBotPort | src/pages/Settings.jsx:71 | the Streamer.bot port is never stored as 0: NaN and 0 store 8080 |
| Settings.StoredCooldown | src/pages/Settings.jsx:194 | a cooldown box stores its leading integer, and 0 when there is none |
| Settings.ShownCooldown | src/pages/Settings.jsx:193 | a stored truthy cooldown is shown, a missing or falsy one (0 included) shows the fallback |
| Settings.StoredZeroShowsFallback | src/pages/Settings.jsx:193-194 | typing 0 or a non-number into the global cooldown box stores 0, which the box then shows as 15 |
| Settings.ZeroShowsFallback | src/pages/Settings.jsx:193 | once 0 is stored as the global cooldown, the box shows 15 |
| ConfigDoc.SectionOrEmpty | src/pages/OBS.jsx:9 | a section read with an empty-object default, the audio section here and the Streamer.bot section at src/pages/StreamerBot.jsx:17: a section that is an object is read as it is; any other, missing included, reads as the empty object |
| Obs.GamingPcIp | src/pages/OBS.jsx:10 | the address is always truthy: a saved truthy address is used as it is, and anything else (missing or falsy) gives 127.0.0.1 |
| Obs.UdpPort | src/pages/OBS.jsx:20-21 | the port shown is always truthy: a truthy stored `udp_ports.<key>` is used as it is, and a missing section, a missing key or a falsy (zero) port gives the fallback |
| Obs.ChatOverlayUrl | src/pages/OBS.jsx:16 | the chat overlay address ends in the query `?mode=chat` |
| Obs.ChatOverlayUrlRoutes | src/pages/OBS.jsx:16 | that query, opened against the app with a valid configuration, shows the chat overlay |
| Obs.DefaultFeeds | src/pages/OBS.jsx:9-21 | without an audio section the feeds are udp://127.0.0.1:1234 and udp://127.0.0.1:1235 |
| Obs.ZeroPortFallsBack | src/pages/OBS.jsx:20-21 | stored ports of 0 show as 1234 and 1235 |
| Obs.InitialPage | src/pages/OBS.jsx:6-11 | the address box starts at the saved address and no button is marked copied |
| Obs.EditIp | src/pages/OBS.jsx:57 | typing changes the address box and leaves the copied marks alone |
| Obs.UpdateIp | src/pages/OBS.jsx:31-40 | the saved configuration has `audio.gaming_pc_ip` set to the box, every other audio key and every other section kept |
| Obs.FeedsFollowSavedIp | src/pages/OBS.jsx:20-40 | once a non-empty address is saved, both feeds use it on the ports they had before |
| Obs.EmptyIpFallsBack | src/pages/OBS.jsx:10-40 | saving an emptied address box makes the feeds fall back to 127.0.0.1 |
| Obs.Copy | src/pages/OBS.jsx:25 | copying marks that button and keeps every other mark and the address box |
| Obs.CopyExpired | src/pages/OBS.jsx:26-28 | the reset two seconds later unmarks that button and keeps every other mark |
| Obs.CopyMarksOnlyItsButton | src/pages/OBS.jsx:23-29 | a copy marks its own button only, and its expiry leaves the marks as before with that button unmarked |
| Loyalty.ReturningToday | src/pages/Loyalty.jsx:27 | the viewers seen today are counted, never more than all viewers, and 0 exactly when no viewer's last date is today |
| Loyalty.Streaks | src/pages/Loyalty.jsx:28 | the viewers on a streak of two days or more are counted, never more than all viewers, and 0 exactly when nobody is on a streak |
| Loyalty.ReturningTodayStep | src/pages/Loyalty.jsx:27 | one more viewer raises the count by one exactly when that viewer's last date is today |
| Loyalty.StreaksStep | src/pages/Loyalty.jsx:28 | one more viewer raises the count by one exactly when that viewer is on a streak of two days or more |
| Loyalty.SortedStreaks | src/pages/Loyalty.jsx:30 | the table holds the first ten viewers (all of them when fewer) by streak length, longest first, drawn from the viewers without repeats, and no viewer left out has a longer streak than one listed |
| Loyalty.StatusOf | src/pages/Loyalty.jsx:81-84 | a row is LOYAL exactly when the viewer has a streak of two days or more |
| Loyalty.DaysShown | src/pages/Loyalty.jsx:74 | a missing or zero day count shows as 1, any other as it is |
| Loyalty.LastVisitShown | src/pages/Loyalty.jsx:78 | the last visit column is never empty: a stored non-empty date is shown as it is, and a missing or empty one shows N/A |
| Loyalty.StatusMatchesDays | src/pages/Loyalty.jsx:74-84 | a LOYAL row shows two days or more and an EXPLORER row at most one |
| Loyalty.LoyalRowsFirst | src/pages/Loyalty.jsx:30-84 | in the streak table every LOYAL row comes before every EXPLORER row |
| Loyalty.StreakersListed | src/pages/Loyalty.jsx:28-30 | when at most ten viewers are on a streak, every one of them is in the table |
| Loyalty.StreakersCounted | src/pages/Loyalty.jsx:28-30 | ten listed streakers and one more left out make more than ten on a streak |
| Loyalty.CountOfSub | src/pages/Loyalty.jsx:28 | the streak count of part of the viewers never exceeds that of all of them |
| Viewers.RankOf | src/pages/Viewers.jsx:29-35 | the rank is the highest whose threshold (10, 50, 200, 500, 1000) the count reaches, Noob below 10 |
| Viewers.RankMonotone | src/pages/Viewers.jsx:29-35 | a larger count never earns a lower rank |
| Viewers.ThresholdEarnsRank | src/pages/Viewers.jsx:29-35 | each rank is earned at its threshold and not one message below it |
| Viewers.EmojiBytes | src/pages/Viewers.jsx:30-35 | each rank's emoji is four UTF-8 bytes |
| Viewers.EmojiAsWrittenIsMisread | src/pages/Viewers.jsx:30-35 | each emoji literal as written is the intended emoji's UTF-8 bytes read as Mac OS Roman: four characters where one is meant |
| Viewers.Info | src/pages/Viewers.jsx:29-35 | the rank shown is GOD exactly from 1000 messages, Noob exactly below 10; the name, the one-character emoji and the colour are those of the rank the count earns |
| Viewers.InfoBands | src/pages/Viewers.jsx:29-35 | each band of message counts gets its name and colour: GOD in amber from 1000, Diamond in blue from 500, Gold in yellow from 200, Silver from 50, Bronze in orange from 10, Noob in grey below |
| Viewers.InfoAsWritten | src/pages/Viewers.jsx:29-35 | the page as written shows the same rank name and colour as the intended one |
| Viewers.RankEmojiAsWritten | src/pages/Viewers.jsx:29-35 | for every count the page as written shows the misread form of the intended emoji, which differs from it |
| Viewers.SortedViewers | src/pages/Viewers.jsx:24-27 | the leaderboard holds exactly the viewers whose lower-cased name contains the lower-cased search, each as often as in the data, by message count, most first |
| Viewers.Rows | src/pages/Viewers.jsx:87-91 | the rows show the viewers in list order, numbered from 1 |
| Viewers.MoreMessagesRankHigher | src/pages/Viewers.jsx:27-91 | on the leaderboard a viewer with more messages always has a smaller number |
| Viewers.RanksDescend | src/pages/Viewers.jsx:27-88 | down the leaderboard the ranks never go up |
| ChatOverlay.Author | src/pages/ChatOverlay.jsx:19 | the author shown is never empty: the frame's own author when it has one, otherwise Kobe Bot for an AI reply and System for anything else |
| ChatOverlay.Text | src/pages/ChatOverlay.jsx:20 | a message holding ": " shows everything after its first ": ", later ones included; any other message shows whole |
| ChatOverlay.PrefixAndText | src/pages/ChatOverlay.jsx:20 | a message holding ": " is its first piece, which holds no ": ", then ": ", then the text shown |
| ChatOverlay.TextAfterSpeaker | src/pages/ChatOverlay.jsx:20 | a speaker name without ": " put before a text gives back exactly that text, whatever the text holds |
| ChatOverlay.Push | src/pages/ChatOverlay.jsx:23 | the new line goes last after the newest 15 earlier lines (all of them when fewer), so at most 16 are shown |
| ChatOverlay.OnFrame | src/pages/ChatOverlay.jsx:16-24 | a log frame of category CHAT, AI_RESPONSE or ALERT adds its line; every other frame leaves the overlay unchanged |
| ChatOverlay.Last | src/pages/ChatOverlay.jsx:23 | the newest lines of a list number at most 16 |
| ChatOverlay.PushAllKeepsNewest | src/pages/ChatOverlay.jsx:23 | after any run of lines the overlay shows the 16 newest of everything it started with and received, oldest first |
| ChatOverlay.PushOfLast | src/pages/ChatOverlay.jsx:23 | pushing onto the newest lines of a list gives the newest lines of the list with the new line added |
| AlertOverlay.FirstAt | src/pages/AlertOverlay.jsx:18 | the position of the first occurrence of a character, or the length when there is none |
| AlertOverlay.ReplaceFirst | src/pages/AlertOverlay.jsx:18 | `replace` with a text pattern changes only the first occurrence, keeps the length, and leaves a text without the character as it is |
| AlertOverlay.CategoryTitle | src/pages/AlertOverlay.jsx:18 | the title is never empty: a missing or empty category gives New Alert, any other the category with its first underscore a space |
| AlertOverlay.TitleWithoutUnderscore | src/pages/AlertOverlay.jsx:18 | a category without an underscore is its own title |
| AlertOverlay.TitleOfTwoWords | src/pages/AlertOverlay.jsx:18 | a category whose first underscore joins two parts is titled with a space there, later underscores kept |
| AlertOverlay.CategoryTitles | src/pages/AlertOverlay.jsx:17-18 | a RANK_UP alert is titled RANK UP and a LOYALTY alert LOYALTY |
| AlertOverlay.AsWrittenEmojiAreMisread | src/pages/AlertOverlay.jsx:19-29 | each emoji literal as written is its intended emoji's UTF-8 bytes read as Windows-1252, and so not that emoji |
| AlertOverlay.MisreadOne | src/pages/AlertOverlay.jsx:19-29 | four characters that are a one-character emoji's four UTF-8 bytes read as Windows-1252 are that misreading and differ from the emoji |
| AlertOverlay.AlertWith | src/pages/AlertOverlay.jsx:16-40 | an alert is raised exactly for an alert frame or one of the four alert categories; it carries the frame's message and metadata; UPI frames give UPI RECEIVED in the money style, ALERT frames STREAM ALERT, the rest their category title and their own emoji or the fire default |
| AlertOverlay.DonationEmoji | src/pages/AlertOverlay.jsx:22-25 | a donation alert as written shows four characters where the intended alert shows one emoji, whose UTF-8 bytes the four misread |
| AlertOverlay.Speech | src/pages/AlertOverlay.jsx:52-58 | an alert is read aloud exactly when it is in the money style; other alerts are silent |
| AlertOverlay.OnlyDonationsSpoken | src/pages/AlertOverlay.jsx:22-58 | of the alerts raised, exactly those from UPI frames are read aloud |
| AlertOverlay.DonationWithoutMeta | src/pages/AlertOverlay.jsx:53 | a donation without metadata is read with the stock words some and someone |
| Orchestrator.Swap | src/pages/Orchestrator.jsx:53 | the destructuring swap exchanges the two entries, keeps every other, and keeps the same entries overall |
| Orchestrator.MoveAt | src/pages/Orchestrator.jsx:50-58 | direction -1 swaps an entry with the one before it and +1 with the one after it; a move up from the top, down from the bottom or in any other direction keeps the order; the entries are always the same; an index off the list with a legal move is refused |
| Orchestrator.MoveUpThenDown | src/pages/Orchestrator.jsx:50-58 | moving an entry up and then back down restores the list |
| Orchestrator.MoveDownThenUp | src/pages/Orchestrator.jsx:50-58 | moving an entry down and then back up restores the list |
| Orchestrator.SpliceStart | src/pages/Orchestrator.jsx:46 | `splice`'s start: an index inside the list as it is, a negative one counted from the end, always within the list's length |
| Orchestrator.SpliceOne | src/pages/Orchestrator.jsx:46 | `splice(index, 1)` drops the one entry at the start position and keeps the rest in order; an index past the end drops nothing |
| Orchestrator.Renumbered | src/pages/Orchestrator.jsx:84 | renumbering succeeds exactly when every model is an object; then each model's priority is its 1-based position and every other field is kept |
| Orchestrator.RenumberModels | src/pages/Orchestrator.jsx:84 | the `forEach` loop gives exactly the renumbering specification |
| Orchestrator.AddModelKeepsPositions | src/pages/Orchestrator.jsx:60-68 | appending a model numbered length + 1 keeps every priority equal to its position |
| Orchestrator.RemoveModelLeavesGap | src/pages/Orchestrator.jsx:70-74 | removing any model but the last from a list numbered by position leaves a gap: the model now at that position carries the number after it |
| Orchestrator.NewProvider | src/pages/Orchestrator.jsx:33-40 | a new provider gets the id new_provider_ and the clock reading, the name New Provider, type openai, an empty key, enabled, and no models, and no other key |
| Orchestrator.NewModel | src/pages/Orchestrator.jsx:62-66 | a new model is new-model, enabled, numbered one past the models already there |
| Orchestrator.InitialTopology | src/pages/Orchestrator.jsx:9 | a truthy saved topology is edited as it is; otherwise editing starts from an empty provider list |
| Orchestrator.WithProviders | src/pages/Orchestrator.jsx:29 | `{...localConfig, providers}` holds the new provider list and every other key as before |
| Orchestrator.WithModels | src/pages/Orchestrator.jsx:61-67 | the provider's model list is replaced, the other providers and the keys beside the provider list kept |
| Orchestrator.TopologyEditor.constructor | src/pages/Orchestrator.jsx:9 | the editor starts from the configuration and its topology or the empty one |
| Orchestrator.TopologyEditor.Sync | src/pages/Orchestrator.jsx:14-18 | a new configuration with a truthy topology replaces the edited copy; without one the copy is kept |
| Orchestrator.TopologyEditor.Save | src/pages/Orchestrator.jsx:20-24 | the saved configuration is the current one with only ai_topology replaced by the edited copy |
| Orchestrator.TopologyEditor.SetSystemPrompt | src/pages/Orchestrator.jsx:124 | the system prompt takes the text and every other key of the topology is kept |
| Orchestrator.TopologyEditor.UpdateProvider | src/pages/Orchestrator.jsx:26-30 | succeeds exactly when the index names a provider that is an object; then that provider's field is set and nothing else changes; otherwise nothing changes |
| Orchestrator.TopologyEditor.AddProvider | src/pages/Orchestrator.jsx:32-42 | with a provider list, the new provider is appended after the unchanged providers; without one nothing changes |
| Orchestrator.TopologyEditor.RemoveProvider | src/pages/Orchestrator.jsx:44-48 | with a provider list, the list loses the entry `splice` removes; without one nothing changes |
| Orchestrator.TopologyEditor.MoveProvider | src/pages/Orchestrator.jsx:50-58 | the provider list is reordered as the move specifies and nothing else changes |
| Orchestrator.TopologyEditor.AddModel | src/pages/Orchestrator.jsx:60-68 | with a model list at that provider, the new model is appended numbered one past the list, and the other providers are kept |
| Orchestrator.TopologyEditor.RemoveModel | src/pages/Orchestrator.jsx:70-74 | with a model list at that provider, it loses the entry `splice` removes, without renumbering, and the other providers are kept |
| Orchestrator.TopologyEditor.MoveModel | src/pages/Orchestrator.jsx:76-86 | the models are reordered as the move specifies and then numbered by position; the other providers are kept |
| Orchestrator.TopologyEditor.UpdateModel | src/pages/Orchestrator.jsx:193-205 | succeeds exactly when the indices name a model that is an object; then that model's field is set, and the other models and providers are kept |
| Orchestrator.MultisetAllObjects | src/pages/Orchestrator.jsx:79-84 | two lists with the same entries are all objects together, so a swap cannot change whether renumbering succeeds |
| Personalities.Assign | src/pages/Personalities.jsx:81 | after `obj[key] = v` the key reads v, an undefined v leaving it out of the saved JSON, and every other key reads as before |
| Personalities.ReplacePreset | src/pages/Personalities.jsx:99 | the presets keep their number and order; every preset whose id equals the remembered one (a missing id equalling a remembered `undefined`) becomes the form, every other stays as it was |
| Personalities.IdlessPresetsAllReplaced | src/pages/Personalities.jsx:87-107 | after editing a preset without an id, saving replaces every preset without an id, and the prompt looked up is the first such preset's |
| Personalities.FoundPrompt | src/pages/Personalities.jsx:107 | `find(...)?.prompt` is the prompt of the first preset with the id, and undefined when no preset has it |
| Personalities.InitialPresets | src/pages/Personalities.jsx:73 | a truthy stored preset list is used; without a topology, or with a missing or falsy stored list such as null, the four built-in presets are |
| Personalities.Topology.constructor | src/pages/Personalities.jsx:71-73 | the shared `ai_topology` object holds the fields given |
| Personalities.PersonalitiesPage.constructor | src/pages/Personalities.jsx:70-75 | the page starts from the configuration, its presets as stored or the built-in ones, and no preset being edited |
| Personalities.PersonalitiesPage.HandleApply | src/pages/Personalities.jsx:77-83 | while a preset is being edited nothing happens; otherwise the preset's prompt becomes the system prompt, in the shared topology object or a new one, the configuration is saved, and the preset is then the active one |
| Personalities.PersonalitiesPage.StartEdit | src/pages/Personalities.jsx:85-89 | editing remembers the preset's id (`undefined` when it has none) and copies the preset into the form, nothing else changed |
| Personalities.PersonalitiesPage.EditField | src/pages/Personalities.jsx:154-168 | typing into a form box sets that field of the form and nothing else |
| Personalities.PersonalitiesPage.CancelEdit | src/pages/Personalities.jsx:91-95 | cancelling ends editing and empties the form without saving |
| Personalities.PersonalitiesPage.SaveEdit | src/pages/Personalities.jsx:97-112 | the edited preset is replaced by the form and the list saved in `ai_topology.presets`; when the system prompt was the edited preset's old prompt, the form's prompt becomes the system prompt; editing ends and the form is kept |
| Personalities.PersonalitiesPage.ResetToDefaults | src/pages/Personalities.jsx:114-122 | without confirmation nothing changes; with it the presets go back to the built-in four, in the page and in the saved configuration |
| Personalities.DefaultPromptsDistinct | src/pages/Personalities.jsx:5-61 | the built-in presets have pairwise distinct prompts, so at most one of them shows as active |
| UpiControl.InitialGateway | src/pages/UPIControl.jsx:9-13 | the settings start disabled, with an empty secret key and a minimum amount of 10 |
| UpiControl.InitialPayload | src/pages/UPIControl.jsx:15-20 | the test payload starts as Test User sending 100 with the message Hype! Great stream! and an empty secret |
| UpiControl.InitialPage | src/pages/UPIControl.jsx:9-22 | the page starts from those settings and that payload with an empty status |
| UpiControl.Loaded | src/pages/UPIControl.jsx:24-28 | a configuration with an object `upi_gateway` section replaces the settings by a copy of it; without a truthy section the page is unchanged; the payload and status are never touched |
| UpiControl.HandleChange | src/pages/UPIControl.jsx:30-36 | a checkbox stores its checked state and any other input its text under the input's name; the other settings, the payload and the status are kept |
| UpiControl.HandleSave | src/pages/UPIControl.jsx:38-44 | the saved configuration holds the page's settings as `upi_gateway` and every other section as it was |
| UpiControl.SaveThenLoad | src/pages/UPIControl.jsx:24-44 | saving and then receiving the saved configuration leaves the page as it was |
| UpiControl.HandleTestChange | src/pages/UPIControl.jsx:46-48 | only the named payload field takes the input's text; the settings and status are kept |
| UpiControl.SentPayload | src/pages/UPIControl.jsx:54-57 | the posted payload is the test payload, except that a falsy secret is filled from a truthy secret key; a truthy secret, or no truthy key, sends the payload as it is |
| UpiControl.Simulate | src/pages/UPIControl.jsx:50-64 | the payload posted is the filled copy; the status reads Success: and the response body, or Error: and the message; the settings and the stored payload are kept |
| UpiControl.StatusTellsOutcome | src/pages/UPIControl.jsx:60-62 | two outcomes that leave the same status line are the same outcome |
| UpiControl.OwnSecretKept | src/pages/UPIControl.jsx:55-57 | a payload with a secret of its own is sent unchanged |
| UpiControl.SentPayloadIdempotent | src/pages/UPIControl.jsx:54-57 | filling the secret into an already filled payload changes nothing more |
| StreamerBot.SbEvents | src/pages/StreamerBot.jsx:9 | the events are exactly the buffered frames of category ALERT or mentioning Streamer.bot, in buffer order (the k-th event is the frame at the k-th matching position), never more than the buffer |
| StreamerBot.ConnectedFromLogs | src/pages/StreamerBot.jsx:14-15 | without a reported status the bot shows connected exactly when some frame reports the connection and no disconnect frame is newer than the first connect frame |
| StreamerBot.IsConnected | src/pages/StreamerBot.jsx:12-15 | a reported status decides; without one the logs do |
| StreamerBot.ConnectOnlyIsConnected | src/pages/StreamerBot.jsx:14-15 | a buffer with a connect frame and no disconnect frame shows the bot connected |
| StreamerBot.NewerDisconnectWins | src/pages/StreamerBot.jsx:14-15 | a disconnect newer than the first connect frame shows the bot disconnected, whatever follows |
| StreamerBot.EventCount | src/pages/StreamerBot.jsx:110-113 | each stat card (Subscribers, Members, Super Chats, WS Alerts) counts at most the events, and shows 0 exactly when no event meets its condition |
| StreamerBot.WsAlertsCountsAllAlerts | src/pages/StreamerBot.jsx:9-113 | since every ALERT frame is an event, WS Alerts counts every ALERT frame of the buffer |
| StreamerBot.FormFor | src/pages/StreamerBot.jsx:18-24 | without a Streamer.bot section the boxes hold 127.0.0.1 and 8080 |
| StreamerBot.HandleUpdate | src/pages/StreamerBot.jsx:41-52 | the saved section has the boxes' host and parsed port, its other keys, `enabled` included, kept; the other sections are kept |
| StreamerBot.HandleToggle | src/pages/StreamerBot.jsx:27-39 | as the update, with `enabled` set to the negation of its truthiness |
| StreamerBot.ButtonLabel | src/pages/StreamerBot.jsx:104 | the button reads DISCONNECT exactly when the integration is enabled |
| StreamerBot.ToggleFlipsLabel | src/pages/StreamerBot.jsx:27-104 | pressing the button always flips its label |
| StreamerBot.ToggleTwice | src/pages/StreamerBot.jsx:27-39 | toggling twice restores whether the integration is enabled |
| StreamerBot.UpdateThenForm | src/pages/StreamerBot.jsx:18-52 | saving a non-empty host and a non-zero port and reading the result back fills the boxes with the same host and port |
| StreamerBot.ShownServerPort | src/pages/StreamerBot.jsx:195 | a truthy stored port is shown as it is; a missing or falsy one shows 8000; the port shown is always truthy |
| StreamerBot.SaveServerPort | src/pages/StreamerBot.jsx:196-205 | the saved configuration has `server.port` set to the parsed text or 8000, the other server keys and other sections kept |
| StreamerBot.SavedPortShown | src/pages/StreamerBot.jsx:195-205 | the port a save stores is the port shown afterwards, and it is never 0 |
| StreamerBot.UnparsablePortShows8000 | src/pages/StreamerBot.jsx:195-205 | a text with no number, or with 0, saves and shows 8000 |
| StreamerBot.Endpoint | src/pages/StreamerBot.jsx:167 | the chat endpoint uses the page's host name and the port shown, 8000 when none is stored |
| PaymentPage.TypedNumberAccepted | src/pages/PaymentPage.jsx:17 | a typed whole number passes the amount check exactly when it is positive |
| PaymentPage.DigitsNumber | src/pages/PaymentPage.jsx:17 | `Number` of a run of digits is 0 when their decimal value is 0 and positive otherwise |
| PaymentPage.DigitsZeroIff | src/pages/PaymentPage.jsx:17 | a run of digits has the value 0 exactly when every digit is 0 |
| PaymentPage.UnsignedPointed | src/pages/PaymentPage.jsx:17 | an unsigned decimal with a point is read as 0 when all its digits are 0 and as positive otherwise |
| PaymentPage.DecimalNumber | src/pages/PaymentPage.jsx:17 | `Number` of a decimal with a point is 0 or positive as its digits are, and a minus in front makes a positive value negative |
| PaymentPage.PointedAmountAccepted | src/pages/PaymentPage.jsx:17 | a decimal with a point passes the amount check exactly when one of its digits is not 0, and never with a minus in front |
| PaymentPage.MinusRejected | src/pages/PaymentPage.jsx:17 | any text that starts with a minus and reads as a number is rejected, `-0` included |
| PaymentPage.HexZeroRejected | src/pages/PaymentPage.jsx:17 | `0x0` reads as the number 0 and is rejected |
| PaymentPage.PresetsAccepted | src/pages/PaymentPage.jsx:17-72 | every preset button's amount (20, 50, 100, 500) passes the check |
| PaymentPage.TrimDigits | src/pages/PaymentPage.jsx:17 | a run of digits has no white space to trim |
| PaymentPage.OrderId | src/pages/PaymentPage.jsx:20 | the order id starts with ORD- and holds no & |
| PaymentPage.OrderIdReadsBack | src/pages/PaymentPage.jsx:20 | the order id splits on - into ORD, the clock reading and the random draw, each readable back |
| PaymentPage.Note | src/pages/PaymentPage.jsx:24 | the note is never empty: the message when there is one, otherwise Donation |
| PaymentPage.PayLinkIsJoin | src/pages/PaymentPage.jsx:24 | the link is upi://pay? followed by its six fields joined by & |
| PaymentPage.EncodedHasNoAmpersand | src/pages/PaymentPage.jsx:24 | `encodeURIComponent` never writes & |
| PaymentPage.PayLinkFields | src/pages/PaymentPage.jsx:24 | whatever the name and the note hold, with no & in the payee, amount and order id the link's query splits on & into exactly the six fields in order, and the note decodes to its own UTF-8 bytes |
| PaymentPage.FieldsHaveNoAmpersand | src/pages/PaymentPage.jsx:24 | none of the six fields holds & |
| PaymentPage.LinkFields | src/pages/PaymentPage.jsx:20-24 | whatever message the donor writes, the page's link splits into its six fields and the note carries the message byte for byte |
| PaymentPage.QrCarriesLink | src/pages/PaymentPage.jsx:26 | the QR address carries two query fields, size=300x300 and the encoded link, which decodes to the link's UTF-8 bytes |
| PaymentPage.GenerateQr | src/pages/PaymentPage.jsx:16-28 | a rejected amount only raises the alert Please enter a valid amount; any other stores a new order id, sets the QR address of the link and shows the QR, the form kept |
| PaymentPage.NameNotSent | src/pages/PaymentPage.jsx:10-28 | the donor's name changes neither the link nor the order |
| PaymentPage.Paid | src/pages/PaymentPage.jsx:30-37 | I Have Paid shows the thanks alert, hides the QR and clears the amount and message, keeping the name |
| PaymentPage.Cancel | src/pages/PaymentPage.jsx:128 | Cancel hides the QR and keeps everything else |
| PaymentPage.PaidThenGenerateRefused | src/pages/PaymentPage.jsx:16-37 | after I Have Paid a new link is refused until an amount is entered again |
| PaymentPage.CancelThenGenerateAgain | src/pages/PaymentPage.jsx:16-128 | after Cancel the same amount and message make a link with a fresh order id |
| Strings.Split | src/pages/Moderation.jsx:294 | `split` on a character gives at least one piece, none holding the separator |
| Strings.JoinSplit | src/pages/Moderation.jsx:293-294 | joining the pieces of a split with the separator gives the text back |
| Strings.SplitJoin | src/pages/Moderation.jsx:293-294 | splitting a join of pieces without the separator gives the pieces back |
| Strings.SplitOn | src/pages/ChatOverlay.jsx:20 | `split` on a text gives at least one piece: the whole text when the separator is absent, otherwise first the text before its first occurrence |
| Strings.JoinSplitOn | src/pages/ChatOverlay.jsx:20 | joining the pieces of a split on a text with that text gives the original back |
| Splitting.AfterFirstSep | src/pages/ChatOverlay.jsx:20 | `split(sep).slice(1).join(sep)` is the text after the first separator |
| Splitting.SplitOnTail | src/pages/ChatOverlay.jsx:20 | the pieces after the first are the pieces of the text after the first separator |
| Strings.IndexOf | src/pages/ChatOverlay.jsx:20 | the position of the first occurrence of a text, or -1 when it occurs nowhere |
| Strings.TrimIsTrimmed | src/pages/Settings.jsx:166 | `trim` leaves no white space at either end, for the full ECMAScript white space and line terminator set |
| Strings.TrimEmptyIff | src/pages/Settings.jsx:166 | a text trims to nothing exactly when it is all white space, for the full ECMAScript white space and line terminator set |
| Strings.NatToString | src/pages/PaymentPage.jsx:20 | a whole number prints as at least one digit, without a leading zero |
| Strings.ParseIntOfIntToString | src/pages/Moderation.jsx:205-206 | `parseInt` reads back every integer as printed, negative ones included |
| Encoding.Utf8Char | src/pages/PaymentPage.jsx:24 | a character's UTF-8 form is one to four bytes, one byte equal to the code exactly below 0x80, the continuation bytes in 0x80..0xBF |
| Encoding.EncodeUriComponent | src/pages/PaymentPage.jsx:24 | the encoded text holds only unreserved characters and % escapes, and a text of unreserved characters is left as it is |
| Encoding.EncodeThenReadBytes | src/pages/PaymentPage.jsx:24 | decoding the escapes of an encoded text gives exactly the text's UTF-8 bytes |
| Encoding.Cp1252Text | src/pages/AlertOverlay.jsx:19 | bytes read as Windows-1252 give one character per byte |
| Encoding.MacRomanText | src/pages/Viewers.jsx:30 | bytes read as Mac OS Roman give one character per byte |
| Encoding.MisreadChangesText | src/pages/AlertOverlay.jsx:19 | a character outside ASCII never survives its UTF-8 bytes being read back as either single-byte encoding |
| Sequences.Indices | src/pages/IgnoreList.jsx:38-40 | the positions of exactly the elements that pass, in increasing order |
| Sequences.Filter | src/pages/Loyalty.jsx:27 | `filter` keeps the elements that pass, in order |
| Sequences.FilterMembers | src/pages/Loyalty.jsx:27 | an element is kept exactly when it is in the list and passes |
| Sequences.SortDesc | src/pages/Viewers.jsx:27 | `sort((a, b) => key(b) - key(a))` orders by the key, largest first, with the same elements |
| Sequences.SortKeepsOrderedList | src/pages/Viewers.jsx:27 | sorting a list already in order leaves it as it is |
| Sequences.TakeSorted | src/pages/Loyalty.jsx:30 | `slice(0, k)` of a sorted list is sorted, drawn from the list, and no element left out has a larger key than one kept |
| Sequences.FindIndex | src/pages/StreamerBot.jsx:15 | `find`: the first position whose element passes, or none when no element passes |
| Sequences.CountDisjoint | src/pages/Dashboard.jsx:7-9 | the counts of two conditions no element meets together add up to the count of either |
| Encoding.Utf8 | src/pages/PaymentPage.jsx:24 | a text's UTF-8 form has at least one byte per character |
| Encoding.PercentBytesOfEscapes | src/pages/PaymentPage.jsx:24 | reading back the % escapes of some bytes gives those bytes, followed by whatever the rest reads as |
| Frames.TextOr | src/pages/AlertOverlay.jsx:19 | `x || d` on a text: a non-empty text is kept, a missing or empty one gives the default |
| Sequences.Count | src/pages/Loyalty.jsx:27-28 | `filter(...).length` never exceeds the length of the list |
| Sequences.CountZeroIff | src/pages/Dashboard.jsx:7-9 | `filter(p).length` is 0 exactly when no element satisfies `p` |

## Left out

- The backend behind `/api`: moderation decisions, cooldowns, provider failover, audio queues and streak bookkeeping. Its answers are parameters.
- Rendering, styling and the sidebar navigation. Icons and class names are modelled only where they carry a decision (status badges, rank colours).
- Sockets, reconnection and polling. Each arriving frame or polled status is one call.
- Timers. The 5-second clear of an alert and the 8-second fade of a chat message are left out. The 2-second reset of a copied mark is the explicit step `Obs.CopyExpired`, not elapsed time.
- src/components/AudioEngine.jsx and src/pages/AudioOverlay.jsx are not part of this model. They play audio through browser APIs.
- The AudioStats cards of src/pages/Dashboard.jsx:109-152 show polled audio metrics as floating-point latencies. This includes the dropped-count highlight, a single comparison against zero. The audio status endpoint is not part of this model.
- Browser APIs become parameters: speech synthesis (only whether something is read aloud, and what), the clipboard, and `alert`/`confirm` (a boolean answer).
- `Date.now`, `new Date` and `Math.random` become parameters.
- Floating-point numbers. JavaScript numbers are integers here, and a `NaN` that would be stored is stored as `null`.
- `parseInt` handles white space, a sign, decimal digits and a `0x` prefix; it is not given a radix anywhere in the pages.
- PaymentPage.NumberSign: a positive decimal so small that it rounds to 0 in floating point (`1e-400`) counts as positive, so `PaymentPage.Rejected` lets it through where the page would reject it. Otherwise the sign is that of the exact decimal value, as in JavaScript.
- `toLowerCase` is limited to ASCII letters.
- Sort stability and comparators over `NaN`. The sorted results are stated as ordered permutations, not as one particular order among equal keys.
- Aliasing and in-place mutation of nested configuration objects. `updateNested` and `addItem` mutate shared nested objects, and `moveModel` swaps in place before a possible throw. The model produces new values instead. The exception is the Personalities page's shared `ai_topology`, which is a class.
- Arrays inside a dotted path. The model treats them as a failed walk.
- Spreads of sections that are not objects, and the `{name, ...data}` override when a stored viewer carries its own `name` field (Loyalty, Viewers).
- A string stored as `ignore_list`. The source would test it as a substring and spread it into characters; the model treats any non-array as a failed update.
- Frame ids, which only key the rendering. Timestamps are integers, compared numerically; StreamerBot.ConnectedFromLogs uses them to decide the connection (src/pages/StreamerBot.jsx:15).
- api/paytm.js and api/config.js are not part of this model. The default configuration document appears only as the zero-port fixture of `Obs.ZeroPortFallsBack`.
- The missing `DollarSign` import at src/App.jsx:148 and the misencoded emoji on the alert buttons at src/pages/Testing.jsx:242-247 affect rendering only.
- ChatOverlay.OnFrame: a frame without a message is not modelled. The source assumes the message is a string.
- Frames.Frame: every frame carries a message text. A frame without one is not modelled anywhere. The alert overlay would copy the missing message into the alert (src/pages/AlertOverlay.jsx:32-39) and speak "undefined" at the end of a donation (src/pages/AlertOverlay.jsx:53).
- Personalities.Topology: the shared `ai_topology` is always an object or absent. A truthy `ai_topology` that is not an object is not modelled; the page would throw a TypeError when it assigns into it (src/pages/Personalities.jsx:81, 105, 108).
- UpiControl.Simulate: the "Sending..." status shown while the webhook request is on its way (src/pages/UPIControl.jsx:51) is not modelled. The outcome's status replaces it once the request ends, and that final status is what the model states.
- StreamerBot.IsConnected: a truthy backend status without a `bot` field is not modelled. The source would throw.
- Personalities.PersonalitiesPage.SaveEdit requires that the stored presets are an array. The source throws on anything else.
- The orchestrator's provider test request (`testProvider`): it posts the provider to the backend and shows the answer as a status line beside that provider's Test button ("Connected", or the error message). The request and that status line are not modelled.
- Texts are sequences of Unicode scalar values, while JavaScript strings are UTF-16, so a lone surrogate cannot be represented. The `URIError` that `encodeURIComponent` throws on one, which at src/pages/PaymentPage.jsx:24 aborts `generateQR` with no link made, is therefore not modelled; `PaymentPage.LinkFields` and `Encoding.EncodeUriComponent` hold for every text the model can represent.

## Findings

| source | as written | input that shows it | evidently intended | confidence | as-written member | corrected member |
|---|---|---|---|---|---|---|
| src/pages/IgnoreList.jsx:99-111 | the remove button passes the user's position in the filtered list to `removeItem`, which indexes the whole list | ignore list ["alice", "bob"], search "bob": the button beside "bob" removes "alice" | remove the user shown beside the button | not executed | IgnoreList.RemoveShownAsWrittenRemovesWrongUser | IgnoreList.RemoveShownRemovesShownUser |
| src/pages/AlertOverlay.jsx:19-29 | the fire, money and bell emoji are written as UTF-8 bytes read back as Windows-1252 text | any donation alert: its emoji (U+1F4B8) shows as four characters | show the emoji itself | not executed | AlertOverlay.AsWrittenEmojiAreMisread | AlertOverlay.DonationEmoji |
| src/pages/Viewers.jsx:30-35 | the rank emoji are written as UTF-8 bytes read back as Mac OS Roman text | a count of 1000: the crown shows as U+F8FF U+00FC U+00EB U+00EB | show the rank's emoji | not executed | Viewers.EmojiAsWrittenIsMisread | Viewers.Info |
