# Sentinel issue tracker: a Dafny model of its core

The service in `app/main.py` listens to CRM webhooks and tracks customer
issues in SQLite:
- An inbound SMS from a customer opens or updates an OPEN SMS issue.
  Texts on the same conversation, or otherwise from the same phone, share one issue.
- A missed call routed to `tech_sentinel` opens a CALL issue, unless the phone is on the spam list.

Every issue is due two business hours after it was created. Business hours
are Monday to Friday, 09:00 to 18:00. A poll job resolves an SMS issue once an
outbound message comes after the customer's first text. Managers text
commands (List, More, Open, Note, Resolve, Spam) to page through OPEN issues
and close them. A summary job lists OPEN issues and flags those still open
24 business hours after they started.

The model covers:
- the business-hours clock;
- the issue table and spam list, as a class whose methods perform the
  same statements as the code;
- the command handler, including its tokeniser, id parser, pager and
  per-manager offsets;
- the phone helpers and the payload extractors;
- the per-issue decision of the poll resolver;
- the pure helpers of the summary.

Files and modules:
- `base.dfy` (`Base`): `Option`, whitespace, digits, strip, lower, join.
- `clock.dfy` (`BusinessClock`): `_is_business_time`, `_roll_to_next_business_open`, `add_business_hours`.
- `issues.dfy` (`Issues`): the row record, the UPDATE row selection, the inbound dedup lookups, and `list_open_issues` ordering and paging.
- `phones.dfy` (`Phones`): `_normalize_phone`, `_mask_phone`, `_short_phone`, `_looks_like_contact_id`.
- `poll.dfy` (`PollResolver`): the message loop of `poll_resolver`.
- `store.dfy` (`Store`): class `IssueStore`. It holds the `issues` and `spam_phones` tables and the statements run against them.
- `summary.dfy` (`Summary`): `_is_escalated`, `_display_name`, `_build_section_lines`, and the 1450-character body cap.
- `commands.dfy` (`Commands`): `handle_command` and class `CommandDesk`. The class holds the in-memory List/More offsets.
- `payload.dfy` (`Payload`): the `_extract_*` helpers over a JSON datatype, and the `voicemail_route` check.
- `webhooks.dfy` (`Webhooks`): `inbound_sms` and `unanswered_call` from parsed payload to store.

How values are represented:
- **Instants** are integer seconds from a Monday 00:00 local epoch. Weekday and time of day come from floor division, which is Dafny's `/` and `%` for a positive divisor.
- **Timestamp columns.** The nullable inbound timestamps are `Stamp` values: `NoStamp` (NULL or empty), `BadStamp` (text `fromisoformat` rejects) or `At(t)`.
- **`meta`** is the JSON column, reduced to the three fields the logic reads: contact name, last text and notes.

## Model

| member | source | states |
|---|---|---|
| BusinessClock.NextBusinessDay | app/main.py:148-150 | the next day index after `d` that is Monday-Friday; every day strictly between is a weekend day |
| BusinessClock.RollForward | app/main.py:139-151 | the result is inside a business window and not before `t`; an instant already inside a window is kept |
| BusinessClock.RollToNextBusinessOpen | app/main.py:139-151 | the loop returns exactly `RollForward(t)` |
| BusinessClock.RollForwardIsEarliest | app/main.py:139-151 | no instant between `t` and the rolled result is inside a business window, so the roll is to the earliest opening |
| BusinessClock.RollForwardIdempotent | app/main.py:139-151 | rolling twice equals rolling once |
| BusinessClock.RollForwardCases | app/main.py:142-151 | weekday before 9: 09:00 that day; weekday 9-18: unchanged; weekend or from 18:00: 09:00 of the next business day |
| BusinessClock.SixPmIsOpenButRolled | app/main.py:131-151 | 18:00 on a weekday is business time by the inclusive check, yet the roll moves it to 09:00 of the next business day |
| BusinessClock.IsBusinessTime | app/main.py:131-137 | every instant of a Monday-Friday 09:00-18:00 window is business time, and the only business instant outside those windows is 18:00:00 itself |
| BusinessClock.Available | app/main.py:165-166 | the seconds left in the current window are positive and at most nine hours |
| BusinessClock.Consume | app/main.py:164-175 | the result is business time, is `cur` when nothing remains, and is otherwise at least `remaining` seconds later |
| BusinessClock.AddBusiness | app/main.py:153-175 | the result is business time and never before the start |
| BusinessClock.AddBusinessHours | app/main.py:153-175 | the loop returns exactly `AddBusiness(start, amount)` |
| BusinessClock.AddNothingIsRoll | app/main.py:161-164 | adding zero or a negative amount only rolls the start forward |
| BusinessClock.AddWithinDay | app/main.py:167-168 | an amount that fits in the rest of the rolled day is plain addition |
| BusinessClock.AddAcrossDays | app/main.py:169-173 | an amount that does not fit continues from 09:00 of the next business day with the rest |
| BusinessClock.AddEqualsWallClockIff | app/main.py:153-175 | the result is `start + amount` exactly when the start is in a window and the amount fits in that day |
| BusinessClock.ConsumeCompose | app/main.py:164-175 | consuming `a` and then adding `b` equals consuming `a + b` |
| BusinessClock.ConsumePastDay | app/main.py:169-173 | an amount past 18:00 continues at 09:00 of the next business day with the rest |
| BusinessClock.WeekdayReached | app/main.py:171-173 | the inner loop stops at the next business day |
| BusinessClock.AddBusinessCompose | app/main.py:153-175 | adding `a` then `b` business seconds equals adding `a + b` |
| BusinessClock.AddBusinessMonotone | app/main.py:153-175 | a larger amount never gives an earlier result |
| BusinessClock.FridayEveningPlusOneHour | app/main.py:153-175 | one business hour from Friday 19:00 is Monday 10:00 |
| Issues.Close | app/main.py:785-794 | a closed row has the given status and `resolved_ts = now`, and nothing else changes |
| Issues.CloseWhere | app/main.py:920-930 | the UPDATE closes exactly the OPEN rows the selector matches and keeps every other row |
| Issues.CountWhereZero | app/main.py:920-930 | the row count is 0 exactly when no OPEN row matches |
| Issues.CloseWhereNone | app/main.py:920-930 | an UPDATE with row count 0 leaves the table unchanged |
| Issues.EmptyNameSelectsNone | app/main.py:944-947 | an empty name selects no row, so the table is unchanged and the count is 0 |
| Issues.CountByIdAtMostOne | app/main.py:785-794 | with unique increasing ids, `resolve_by_id` changes at most one row, and one exactly when that id is OPEN |
| Issues.CloseWhereAddId | app/main.py:730-733 | closing one more id after a set of ids equals closing the enlarged set |
| Issues.CloseWhereOnlyCloses | app/main.py:920-942 | closing never touches a non-OPEN row, never leaves a matched row OPEN, and changes only status and `resolved_ts` |
| Issues.ReplaceKeepsInvariants | app/main.py:1254-1258 | rewriting one row with the same id and conversation keeps ids increasing and at most one OPEN SMS issue per conversation |
| Issues.CloseWhereKeepsInvariants | app/main.py:920-969 | closing rows keeps ids, row well-formedness, increasing ids and one OPEN SMS issue per conversation |
| Issues.SelectedIdsCloseSame | app/main.py:950-967 | with unique ids, the guarded close of the collected ids changes the same rows and counts the same as closing by the name match |
| Issues.SetWhereIds | app/main.py:962-966 | the unguarded `UPDATE ... WHERE id IN (...)`: every row whose id is listed is closed with the given status, whatever its status before; no other row changes |
| Issues.UnguardedIdsCloseSame | app/main.py:950-966 | with unique ids, the unguarded update of the ids of the rows a selector closes equals the guarded close by that selector |
| Issues.CloseWhereById | app/main.py:1261-1268 | closing by the id of row `k` changes row `k` only, and only if it is OPEN |
| Issues.LatestMatch | app/main.py:1066-1076 | the index of the matching OPEN SMS row with the highest position; no later row matches; absent when none matches |
| Issues.LatestMatchHasHighestId | app/main.py:1068-1069 | the chosen row has the highest id among the matches (`ORDER BY id DESC LIMIT 1`) |
| Issues.DedupTarget | app/main.py:1066-1076 | a chosen row is an OPEN SMS issue that matches the known conversation, or else the known phone; the conversation match wins over the phone match; absent only when neither the known conversation nor the known phone matches an OPEN SMS issue |
| Issues.DedupTargetIsNewest | app/main.py:1066-1076 | with ids increasing along the table, the chosen row has the highest id among the rows of the conversation, or, when no row has the conversation, among the rows of the phone (`ORDER BY id DESC LIMIT 1`) |
| Issues.FilterOpen | app/main.py:849-853 | exactly the OPEN rows |
| Issues.InsertByDue | app/main.py:855-861 | inserting keeps the rows (as a multiset) and keeps due order |
| Issues.SortByDue | app/main.py:855-861 | `ORDER BY due_ts ASC`: sorted and a permutation of the input |
| Issues.Page | app/main.py:860-861 | `LIMIT/OFFSET`: the size is clipped to the rows after the offset, and row `i` is row `offset + i` |
| Issues.PagesAdjoin | app/main.py:681-687 | two consecutive pages are one page of their combined size |
| Issues.PageOfOpenByDue | app/main.py:843-877 | a listed page has at most `limit` OPEN rows of the table, in due order |
| Phones.KeepDialChars | app/main.py:325 | keeps only digits and `+`, and is never longer than the input |
| Phones.KeepDialCharsNonEmpty | app/main.py:325 | the kept characters are empty exactly when the input has no digit and no `+` |
| Phones.StripDialChars | app/main.py:321-325 | stripping whitespace never removes the last digit or `+` of a text |
| Phones.DigitsOnly | app/main.py:328 | keeps only digits |
| Phones.ReplaceDoubleZero | app/main.py:326-327 | a leading "00" becomes "+", anything else is unchanged |
| Phones.NormalizePhone | app/main.py:321-330 | absent exactly for a falsy input; otherwise only digits and `+` |
| Phones.PhonePresentIff | app/main.py:321-330 | for a non-empty text, the normalised phone is truthy exactly when the text has a digit or `+` |
| Phones.TenDigitsGetCountryCode | app/main.py:326-329 | a bare ten-digit number becomes "+1" and the digits, unless it starts with "00", when the "00" rule gives "+" and the other eight digits |
| Phones.RewritesSettled | app/main.py:326-329 | after the "00" and "+1" rewrites neither rewrite applies again |
| Phones.NormalizeIdempotent | app/main.py:321-330 | normalising a truthy normalised phone changes nothing |
| Phones.MaskPhone | app/main.py:818-824 | never empty; a "+1" phone of twelve or more characters is "+1***" and its last four; any other phone of four or more characters is "***" and its last four; a shorter one is shown as is, or "Unknown" |
| Phones.LooksLikeContactId | app/main.py:971-972 | a text shaped like a contact id is non-empty and has no whitespace and no `+` |
| Phones.ShortPhone | app/main.py:1279-1285 | "-" for a falsy phone, "+1***" and the last four digits with ten or more digits, the phone itself otherwise |
| Phones.DigitsOnlyAppend | app/main.py:328 | digit extraction distributes over concatenation |
| Phones.MaskAndShortAgree | app/main.py:818-824 | for "+1" and ten digits, the list mask and the summary mask both give "+1***" and the last four |
| PollResolver.CountOutbound | app/main.py:1237-1240 | at most the number of messages |
| PollResolver.ScanMessage | app/main.py:1238-1252 | one message counts as outbound exactly when its direction is "outbound", and sets the flag exactly when the first inbound time parses and the message is outbound with a parseable, later time |
| PollResolver.ScanMessages | app/main.py:1237-1252 | the loop's count is the number of outbound messages, and its flag is whether an outbound message with a parseable time is later than the parsed first inbound time |
| PollResolver.HasReplyAfterStep | app/main.py:1237-1252 | one more message sets the flag exactly when it is itself a reply after the first inbound |
| PollResolver.ReplyImpliesOutbound | app/main.py:1237-1252 | a reply after the first inbound implies a positive outbound count |
| PollResolver.CountOutboundAppend | app/main.py:1237-1240 | counts add up over concatenated message lists |
| PollResolver.ReplyAfterEarlier | app/main.py:1242-1250 | a reply after a later first-inbound time is a reply after an earlier one |
| Store.NewMeta | app/main.py:1078-1084 | new meta has no notes and the given last text; it keeps the contact name only when it is truthy |
| Store.NewSms | app/main.py:1078-1093 | an OPEN, well-formed SMS issue with inbound count 1, outbound 0, first = last inbound = now, and due = 2 business hours after now |
| Store.Touched | app/main.py:1094-1119 | inbound count +1 and last inbound = now; due, first inbound, status and id unchanged; `COALESCE` keeps existing ids, phone and conversation; a truthy stored name is kept |
| Store.NewCall | app/main.py:1155-1171 | an OPEN, well-formed CALL issue due 2 business hours after now, with the given contact and phone |
| Store.Polled | app/main.py:1254-1269 | the outbound count is the counted one; the row is RESOLVED at `now` exactly when a reply came after the first inbound; otherwise it stays OPEN |
| Store.PolledRow | app/main.py:1254-1268 | the polled row is the row with its new count, closed as RESOLVED exactly when a reply came after the first inbound |
| Store.ContactIdWithDigitIsPhone | app/main.py:974-981 | a target shaped like a contact id that holds a digit is resolved by phone |
| Store.LetterContactIdIsContact | app/main.py:974-981 | an all-letter target of ten or more characters is resolved by contact id |
| Store.IsSpam | app/main.py:432-436 | a falsy phone is never spam; a spam phone is on the spam list |
| Store.PhoneOfTarget | app/main.py:974-977 | a target has a truthy normalised phone exactly when it holds a digit or `+`, blank targets included |
| Store.TargetSelector | app/main.py:974-981 | the target is resolved by phone, by contact id or by name; a contact-id selection is the stripped target itself, shaped like a contact id and without a digit |
| Store.IssueStore.constructor | app/main.py:51-104 | an empty table and spam list, next id 1 |
| Store.IssueStore.GetIssueById | app/main.py:779-783 | the row with that id when there is one, none otherwise |
| Store.IssueStore.ListOpenIssues | app/main.py:843-877 | the page is the OPEN rows in due order from position `offset`, `limit` of them or as many as remain, and the total is the OPEN count; the page is empty exactly when the offset reaches the total or the limit is 0 |
| Store.IssueStore.RecordCustomerSms | app/main.py:1064-1119 | updates the row the dedup lookup picks, or inserts a new SMS issue with the next id; the spam list is unchanged |
| Store.IssueStore.UnansweredCall | app/main.py:1133-1171 | an unrouted call or a spam phone changes nothing; otherwise one new CALL issue with the next id |
| Store.IssueStore.MarkSpam | app/main.py:438-445 | the phone joins the spam list (`INSERT OR IGNORE`); issues unchanged |
| Store.IssueStore.CloseOpen | app/main.py:920-930 | the table becomes `CloseWhere` and the count is `CountWhere` |
| Store.IssueStore.ResolveById | app/main.py:785-794 | closes that id if OPEN; the count is at most 1, and 1 exactly when the id was OPEN |
| Store.IssueStore.ResolveByPhone | app/main.py:920-930 | closes the OPEN rows with that phone and counts them |
| Store.IssueStore.ResolveByContactId | app/main.py:932-942 | closes the OPEN rows with that contact id and counts them |
| Store.IssueStore.MatchingNameIds | app/main.py:949-959 | the scan collects exactly the ids of the OPEN rows whose lower-cased name contains the needle |
| Store.IssueStore.UpdateIds | app/main.py:962-966 | the table becomes the unguarded `SetWhereIds` of the ids, which is the guarded close by the selector whose OPEN rows the ids are |
| Store.IssueStore.ResolveByName | app/main.py:944-969 | closes exactly the OPEN rows whose lower-cased contact name contains the stripped, lower-cased name; an empty name closes nothing |
| Store.IssueStore.ResolveTarget | app/main.py:974-981 | closes by phone, else by contact id, else by name, with status RESOLVED, and returns the count |
| Store.IssueStore.AddNote | app/main.py:796-812 | true exactly when the id exists, and then the note (cut to 500 characters) is appended to that row's notes only |
| Store.IssueStore.PollIssue | app/main.py:1217-1271 | an empty conversation id is skipped; otherwise the row becomes `Polled`, resolved is the reply flag, and the count write happens exactly when the count changed |
| Store.IssueStore.ResolveRowAt | app/main.py:1261-1268 | the OPEN row at `k` is closed as RESOLVED at `now`; no other row changes |
| Store.IssueStore.WriteOutboundCount | app/main.py:1256-1258 | only that row's outbound count changes |
| Summary.EscalationAnchor | app/main.py:1300 | the first inbound time for an SMS issue with a truthy one, the creation time otherwise |
| Summary.IsEscalated | app/main.py:1295-1307 | an escalated issue has a parsable anchor and `now` is not before it; its partner `EscalationMonotone` keeps it escalated as time passes |
| Summary.EscalationMonotone | app/main.py:1295-1307 | once escalated, an issue stays escalated as time passes |
| Summary.BadStampNeverEscalates | app/main.py:1301-1303 | an unparseable anchor never escalates |
| Summary.EscalatedIsOverdue | app/main.py:1295-1307 | an escalated issue written by this code is past its due time |
| Summary.DisplayName | app/main.py:1358-1364 | the stripped contact name if non-empty, else the short phone; never empty |
| Summary.MarkerOf | app/main.py:1340-1346 | a marker carries the id, display name and due time, and an inbound count exactly for SMS |
| Summary.Markers | app/main.py:1339-1350 | at most as many markers as rows |
| Summary.MarkersStep | app/main.py:1347-1350 | one more row adds its marker to the escalated list when it is escalated, and to the normal list otherwise |
| Summary.MarkersPartition | app/main.py:1347-1350 | every row is either normal or escalated, never both |
| Summary.BuildSectionLines | app/main.py:1332-1356 | the header counts all rows, and "none" when there are none; the loop's lists are the normal and escalated markers of the first `maxItems` rows |
| Summary.FirstRows | app/main.py:1339 | `rows[:n]` |
| Summary.SectionShowsFirstRows | app/main.py:1339-1350 | a section shows every one of its first `maxItems` rows exactly once |
| Summary.CapBody | app/main.py:1535-1536 | a body over 1450 characters is cut to 1450 and "\n…" is appended; a shorter one is unchanged |
| Summary.CapBodyBounds | app/main.py:1535-1536 | a capped body has at most 1452 characters, starts like the body, and capping again changes nothing |
| Commands.WordLength | app/main.py:640 | the leading run of non-whitespace ends at whitespace or at the end |
| Commands.Split | app/main.py:640 | `str.split()` as the maximal runs of non-whitespace; `SplitAreWords` and `SplitJoin` state its properties |
| Commands.SplitAreWords | app/main.py:640 | every token of `split()` is non-empty and holds no whitespace |
| Commands.SplitJoin | app/main.py:640 | splitting words joined by spaces gives the words back |
| Commands.Tokenize | app/main.py:630-650 | a blank text is `empty`; a command is one of the six known names, lower-cased, with whitespace-free arguments |
| Commands.Classify | app/main.py:637-650 | after commas become spaces and the text is split: no words is `empty`; a first word that is not a known command, lower-cased, is exactly the not-a-command case; otherwise the command is that word lower-cased and the arguments are the other words |
| Commands.JoinAvoids | app/main.py:637-640 | words without commas join into a text without commas |
| Commands.DropSentinel | app/main.py:634 | the text is either unchanged, or cut to a proper suffix at least nine characters shorter that does not start with whitespace |
| Commands.ClassifyWords | app/main.py:637-650 | command words joined by spaces classify as the lower-cased command and the other words |
| Commands.DropSentinelPrefix | app/main.py:634 | "sentinel" in any case followed by a space is dropped |
| Commands.TokenizeWords | app/main.py:630-650 | a command in any case, with or without the "Sentinel" prefix, gives the lower-cased command and its words |
| Commands.TokenizeWordsNotCommand | app/main.py:630-650 | words whose first word, lower-cased, is not a known command give `not_a_command`, with the "Sentinel" prefix or without it (when the first word is not itself "sentinel") |
| Commands.PlainWordsKept | app/main.py:634 | words whose first word is not "sentinel" in any case lose nothing to the prefix rule |
| Commands.FirstWordNotPrefix | app/main.py:634 | the prefix rule matches a text of words only when its first word is "sentinel" in some case |
| Commands.ClassifyWordsNotCommand | app/main.py:637-650 | words joined by spaces whose first word is not a command classify as not a command |
| Commands.PrefixedCommandText | app/main.py:630-634 | "sentinel" in any case, a space and words: the stripped text drops the prefix to the words |
| Commands.ParseIssueIdRoundTrip | app/main.py:773-777 | `str(n)` and `"#" + str(n)` both parse back to `n` |
| Commands.ParseIssueId | app/main.py:773-777 | a blank token or a lone "#" gives no id; a token that parses ends in a digit once stripped; its partner `ParseIssueIdRoundTrip` parses every printed id back |
| Commands.ParseBareId | app/main.py:773-777 | a non-empty digit string parses to its value |
| Commands.ParseHashedId | app/main.py:773-777 | a non-empty digit string after one "#" parses to its value |
| Commands.TokenIds | app/main.py:654-659 | at most one id per token |
| Commands.Dedup | app/main.py:660-666 | no repeats, and the same ids as the input |
| Commands.DedupOfDistinct | app/main.py:660-666 | a list without repeats is unchanged |
| Commands.DedupPrefix | app/main.py:660-666 | first occurrences keep their order as more ids arrive |
| Commands.ParseIds | app/main.py:652-667 | the ids of the tokens that parse, first occurrences only, in order |
| Commands.CollectIds | app/main.py:654-659 | the first loop collects the parsed ids in token order |
| Commands.DedupIds | app/main.py:660-666 | the second loop, with its `seen` set, keeps first occurrences |
| Commands.RangeMatchesPage | app/main.py:902-914 | for a non-empty page the header range is exactly the 1-based positions of its rows, and "Reply: More" appears exactly when the next page has rows |
| Commands.RangeStart | app/main.py:902 | the first shown position is 0 exactly when there are no OPEN issues |
| Commands.RangeEnd | app/main.py:903 | the last shown position is the smaller of `offset + limit` and the total |
| Commands.ListLine | app/main.py:885-897 | a list line starts with "#" |
| Commands.KindLines | app/main.py:885-899 | one "#" line per row of the kind |
| Commands.KindLinesPartition | app/main.py:885-899 | every row is a call line or a text line |
| Commands.RenderLines | app/main.py:879-918 | the header comes first; one line per row plus a heading per non-empty group; the last line is "Reply: More" exactly when rows remain past the page |
| Commands.ShownRowsArePrefix | app/main.py:669-698 | List and then `k` Mores show the first `5(k+1)` OPEN rows in due order, each once |
| Commands.OpenIds | app/main.py:730-733 | the ids that had an OPEN row, in order |
| Commands.ConversationLink | app/main.py:183-186 | a link exactly when the conversation id and the location id are both truthy |
| Commands.OpenText | app/main.py:711-712 | the display name and ": ", then the link, or `conversation_id=` and the id or "-" |
| Commands.CommandDesk.constructor | app/main.py:816 | no offsets stored |
| Commands.CommandDesk.List | app/main.py:669-681 | a missing manager is an error; otherwise the offset is reset to 0 and the reply is "No OPEN issues." or the first page; reply and offsets are `ListEffect` of the state before |
| Commands.CommandDesk.More | app/main.py:683-698 | advances the offset by 5; an empty page resets it to 0 with "No more OPEN issues. Reply: List"; otherwise the page at the new offset; reply and offsets are `MoreEffect` of the state before |
| Commands.CommandDesk.NextOffset | app/main.py:689 | the manager's stored offset, 0 when there is none, plus 5 |
| Commands.CommandDesk.MorePage | app/main.py:691-698 | the end-of-list reply exactly when the page at the offset is empty, and that page otherwise |
| Commands.CommandDesk.OpenCommand | app/main.py:700-712 | usage, invalid id (including 0) and unknown id errors; otherwise an OPEN reply that starts with the display name |
| Commands.CommandDesk.Note | app/main.py:714-722 | usage and invalid-id errors; otherwise `ok` is whether the id exists, and then the joined, stripped note is appended to that issue; reply and table are `NoteEffect` of the table before |
| Commands.CommandDesk.ResolveIds | app/main.py:730-733 | each id is resolved in turn; the table ends with exactly those ids closed; the changed list is the ids that were OPEN |
| Commands.CommandDesk.SpamOne | app/main.py:753-761 | one pass lists that id's phone, closes one more id as SPAM, and adds the id to the marked list exactly when it was OPEN |
| Commands.CommandDesk.SpamIds | app/main.py:753-761 | each id's truthy phone joins the spam list whatever the status; those ids are closed as SPAM; the marked list is the ids that were OPEN |
| Commands.CommandDesk.MarkIssuePhone | app/main.py:755-760 | the issue's truthy phone joins the spam list |
| Commands.CommandDesk.Resolve | app/main.py:724-745 | usage error; by ids, the ids are closed and the changed ids are listed; otherwise the whole target is resolved and counted; reply and table are `ResolveEffect` of the table before |
| Commands.CommandDesk.Spam | app/main.py:747-770 | usage error; by ids, phones listed and ids closed as SPAM; otherwise the normalised phone is listed and its OPEN rows closed as SPAM, or an invalid-phone error; reply, table and spam list are `SpamEffect` of the state before |
| Commands.CommandDesk.HandleCommand | app/main.py:614-770 | blank and unknown texts are ignored without a change; List, More and Open leave the table alone; Open, Note, Resolve and Spam leave the offsets alone; reply, table, spam list and offsets are `HandleEffect` of the state before |
| Commands.CommandDesk.RunCommand | app/main.py:669-770 | List, More and Open leave the table alone; Open, Note, Resolve and Spam leave the offsets alone; Open replies with `OpenCommand`; reply, table, spam list and offsets are `CommandEffect` of the state before |
| Commands.CommandDesk.StoreCommand | app/main.py:714-770 | Note, Resolve and Spam, each with the effect its own function states; the next id is unchanged |
| Commands.CommandDesk.ListEffect | app/main.py:669-681 | the reference definition of List: the reply and the new offsets |
| Commands.CommandDesk.MoreEffect | app/main.py:683-698 | the reference definition of More: the reply and the new offsets |
| Commands.CommandDesk.NoteEffect | app/main.py:714-722 | the reference definition of Note: the reply and the new table |
| Commands.CommandDesk.ResolveEffect | app/main.py:724-745 | the reference definition of Resolve: the reply and the new table |
| Commands.CommandDesk.SpamEffect | app/main.py:747-770 | the reference definition of Spam: the reply, the new table and the new spam list |
| Commands.CommandDesk.CommandEffect | app/main.py:669-770 | the reference definition of a known command, dispatched on its name |
| Commands.CommandDesk.HandleEffect | app/main.py:614-770 | the reference definition of `handle_command`: nothing changes for a blank or unknown text |
| Commands.CommandDesk.InboundSms | app/main.py:1034-1119 | outbound events are ignored; an internal sender's text has the effect `HandleEffect` states on the table, spam list and offsets, and yields a command reply exactly when that reply is ok, non-empty and has a contact; a non-command internal text changes nothing; a customer text updates the row the dedup lookup picks (`Touched`), or appends `NewSms` with the next id when it finds none |
| Commands.IdLoopStep | app/main.py:730-733 | each step of the id loop closes one more id, and it changes a row exactly when that id was OPEN before the loop |
| Commands.OpenIdUnchanged | app/main.py:730-733 | closing other ids does not change whether this id is OPEN |
| Commands.SpamPhonesStep | app/main.py:753-760 | each step adds the phone of that id's row, if it has one |
| Payload.Lookup | app/main.py:332-426 | the position of the key, with the last duplicate winning; absent only when no member has the key |
| Payload.NonBlank | app/main.py:334-336 | a non-blank string value, stripped |
| Payload.FirstNonBlank | app/main.py:333-336 | the first key with a non-blank string gives a stripped, non-empty result; absent exactly when no key has one |
| Payload.FirstNonBlankPriority | app/main.py:333-336 | the earliest key with a value wins |
| Payload.ExtractText | app/main.py:332-345 | the text is stripped, or "" |
| Payload.NestedText | app/main.py:338-344 | the text of the first container object that has any, stripped, or "" |
| Payload.TextPrefersDirect | app/main.py:333-336 | a direct text key is preferred to any nested object |
| Payload.TextFromData | app/main.py:338-344 | without a direct text key, a `data` object holding text supplies it |
| Payload.KeyedId | app/main.py:348-357 | a stripped, non-empty id from a string value or an `id` inside an object value |
| Payload.IdFromNestedObject | app/main.py:348-356 | an id nested in the object under the first key is found when that key has no string value, and then it is the nested one |
| Payload.IdWithData | app/main.py:347-374 | the same, searched again inside `data` |
| Payload.ExtractConversationId | app/main.py:347-360 | a stripped, non-empty conversation id, if any |
| Payload.ExtractContactId | app/main.py:362-374 | a stripped, non-empty contact id, if any |
| Payload.ExtractFromPhone | app/main.py:376-384 | a normalised phone holding only digits and `+` |
| Payload.FirstRawPhone | app/main.py:377-380 | the first phone key with a non-blank string, before normalising |
| Payload.ExtractDirection | app/main.py:386-394 | the direction is lower-case |
| Payload.ExtractContactType | app/main.py:396-408 | the contact type is non-empty and lower-case |
| Payload.ContactShadowsData | app/main.py:402-403 | a truthy `contact` that is not an object hides `data`, so no contact type is found there |
| Payload.ExtractContactName | app/main.py:410-426 | the name is stripped and non-empty |
| Webhooks.ContactNameOf | app/main.py:1144-1149 | the payload's name if truthy, else the fetched name |
| Payload.RoutedToSentinel | app/main.py:1134-1141 | a route of the string "tech_sentinel" or a list holding it is routed; a missing, null or empty-list route is not |
| Webhooks.UnansweredCallEvent | app/main.py:1126-1171 | without the `tech_sentinel` route or with a spam phone nothing changes; a routed call from a phone that is not spam appends one CALL issue with the next id and the extracted contact, phone and name |
| Webhooks.InboundSmsEvent | app/main.py:995-1119 | outbound events change nothing; an internal sender's text has the `HandleEffect` of the extracted text and contact id, and a non-command changes nothing; a customer text updates the row the dedup lookup picks or appends a new SMS issue with the payload's fields; a command reply needs an internal sender with a contact id |

## Left out

- HTTP calls to the CRM are not modelled. These are the contact name lookup, the conversation search, message listing and sending. Their results are parameters: `fetchedName`, `conversationId`, and the `msgs` of `PollIssue`. A failed call is modelled as an absent value.
- Routes, `_auth_or_401`, `_parse_request_payload`, `_log_raw_event`, `init_db` and the column migrations, the `kv_*` helpers and the `/health` route are left out. They are web and SQLite plumbing.
- The `send_summary` and `escalations` jobs are modelled only through their helpers: escalation, display name, section lines and the body cap. The outer loop of `poll_resolver` is modelled only as its per-issue step, `PollIssue`. The rest is query plumbing and message sending.
- Time zones, DST and `astimezone` are not modelled. Instants are local seconds. The hours argument of `add_business_hours` is a float in the code and integer seconds here.
- `strftime` rendering is not modelled. Times in list and summary lines are kept as instants or shown as "?". The list formatter `_fmt_hhmm_ampm` calls `datetime.fromisoformat`, but the module imports only `datetime as dt`, so the `NameError` is caught and it always yields "?". The model writes "?".
- The `meta` JSON encoding is reduced to contact name, last text and notes. The `source` and `updated_by` keys are not kept. Note timestamps are the `now` parameter.
- The code defines `_mask_phone`, `_render_list_like_summary` and `_MANAGER_LIST_OFFSETS` twice. Only the later definitions are modelled, since those are the ones in effect.
- The unused helpers `_format_issue_line_like_summary` and `_list_open_issues_compact` are left out, since nothing calls them.
- `_extract_conversation_id` is modelled, but `inbound_sms` never calls it. The conversation id comes from the CRM search.
- The extra reply fields `id`, `ids`, `resolved`, `target` and `phone` are not modelled. The `Reply` value keeps the command, `ok` and the text.
- Character classes are ASCII approximations:
  - `str.lower` and `re.IGNORECASE` fold ASCII letters only;
  - `isdigit` and `\d` accept ASCII digits only;
  - `\s` and `str.strip` use the Unicode whitespace set in `Base.IsSpace`.
- Commands.ParseIssueId: `str.isdigit` also accepts non-ASCII digits such as `'²'`, for which `int` raises `ValueError`. `_parse_issue_id` (app/main.py:777) and `_parse_ids` (app/main.py:658-659) therefore let a token such as "²" raise out of `handle_command` and `inbound_sms`. The model reads only ASCII digits: Open and Note answer "Invalid issue id" for such a token, Resolve resolves it as a target, and Spam answers "Invalid phone or IDs".
- `ORDER BY due_ts` leaves ties unordered in SQLite. The model breaks ties by id.
- A JSON object is a list of members, and a repeated key resolves to its last value, as `json.loads` does. JSON numbers are integers.
- Store.IssueStore.PollIssue: the caller must pick a candidate row (OPEN, SMS, conversation id not NULL), as the SELECT of `poll_resolver` does. Exceptions from the message fetch are not modelled.
- Summary.BuildSectionLines: the section size is a parameter, `maxItems`. The setting it comes from is not part of this model.

Behaviours of the code as written that the model keeps:
- Spam by ids lists the phone of every issue it finds, even one that is no longer OPEN.
- A resolve target shaped like a contact id but holding a digit is resolved as a phone number.
- `_normalize_phone` can return an empty string for text with no digits. `resolve_target` then falls through to the contact-id and name matches.
- A failed Note returns `ok` false, so `inbound_sms` reports it as `internal_non_command`.
- `resolve_by_name` runs its final UPDATE without a status guard. The model does the same (`UpdateIds`), and `UnguardedIdsCloseSame` proves that this closes exactly the OPEN rows the name matches, since the ids come from OPEN rows.
