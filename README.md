# wa-blast core, modelled in Dafny

wa-blast is a browser application for sending WhatsApp broadcast campaigns
through two providers: Fonnte (an HTTP API) and Baileys (a self-hosted
gateway). This project models its core and proves properties of the model:

- **The dispatch engine** (`services/campaignService.ts`): `sendCampaign`
  works on a deep copy of a campaign. It sets the copy to `Sending`, then
  walks the resolved recipients. It skips a recipient whose log is missing
  or already `Failed`. For every other recipient it:
  - marks the log `Sending` and publishes a snapshot;
  - renders the template ({{nama}}, {{group}}, then the custom fields);
  - chooses the attachment (the campaign's, or the contact's own file);
  - sends through the chosen provider;
  - records `Sent` with the provider's id or `Failed` with the error text;
  - stamps the log, publishes again, and pauses before the next recipient.

  At the end it publishes the copy as `Completed` and alerts the sent and
  failed counts.
- **The campaign form** (`components/CampaignCreator.tsx`):
  - matching files to contacts, and validating the draft;
  - building the campaign with one log per recipient;
  - the per-contact file map handed to the dispatch;
  - the formatting and variable-insertion edits of the message;
  - the custom-field keys offered as variables;
  - the handler's last step after a manual dispatch.
- **The campaign history** (`components/Campaigns.tsx`): adding or
  replacing a campaign, and re-reading delivery statuses. Also the history's
  counters and the sync and create buttons.
- **The application shell** (`App.tsx`): the scheduler tick, the progress
  callback, the configured-API predicate and view routing.
- **The contact directory** (`components/Contacts.tsx`):
  - the contact form, with custom-field edits and validation;
  - search, save, delete, bulk delete and move to group;
  - the header select-all checkbox;
  - the CSV importer.
- **The contact picker** (`components/ContactSelectionModal.tsx`).
- **The auto-reply rules** (`components/AutoReplyBot.tsx`).
- **The groups page** (`components/Groups.tsx`).
- **The settings page** (`components/Settings.tsx`).
- **The dashboard totals** (`components/Dashboard.tsx`).

## How the model is built

There is one module per source file, plus three shared modules:
- `Types` for the records of `types.ts`;
- `Strings` for the JavaScript string built-ins the code relies on
  (`includes`, `indexOf`, `substring`, `split`, `trim`, ASCII `toLowerCase`,
  `parseInt`, decimal rendering);
- `OrderedSets` for insertion-ordered `Set`s.

React state updates are functions from the old state to the new one.

Code that works step by step is imperative Dafny:
- the dispatch loop runs over a `CampaignCopy` class whose log list is an
  `array`;
- the rendering `forEach`, the file-match `forEach` and the file-map
  `reduce` are loops;
- so are the scheduler tick, the CSV row `forEach`, the custom-key
  collection and the custom-field key rename;
- the settings page is a class whose handlers update its fields.

Each such method is proved equal to a specification function, and the
properties are proved about that function.

The dispatch's specification is `Run(job, k)`, the copy's logs and the
events emitted after `k` iterations. `Dispatch(job)` is the complete trace.
Its events are:
- a published snapshot;
- a transport request;
- an anti-ban pause;
- the closing alert with the counts.

The outside world is a set of parameters:
- the network is an oracle from (iteration, request) to a response;
- the attachment store (IndexedDB) is a map from file id to payload;
- the clock gives the milliseconds and the ISO stamp of each iteration;
- `window.confirm` results, `Date.now()` values, the date parser and the
  status lookup of the sync are inputs.

The form's handler and the dispatch do not agree on a result:
`components/CampaignCreator.tsx:273` destructures `{ sentCount, failedCount }`
from `await sendCampaign(...)`, but `sendCampaign` returns nothing
(`services/campaignService.ts:84-164`). Its counts appear only in its
closing `alert`, modelled as the last event of the trace. See "## Findings".

## Model

| member | source | states |
|---|---|---|
| Types.Get | components/Contacts.tsx:27 | Reading `obj[key]` finds nothing exactly when the key is absent; a value found belongs to an entry with that key |
| Types.GetAt | components/Contacts.tsx:27 | With distinct keys, reading an entry's key gives that entry's value |
| Types.Put | components/Contacts.tsx:176 | `obj[key] = v`: an existing key keeps its place and every key stays where it was; a new key goes last; distinct keys stay distinct; other entries are unchanged |
| Types.PutGet | components/Contacts.tsx:21 | After writing a key, reading it gives the written value and reading any other key gives what it gave before |
| Types.Remove | components/Contacts.tsx:40-44 | `delete obj[key]` removes the key, keeps exactly the entries with other keys, never grows the object, and keeps keys distinct |
| Types.ContactsWithIds | components/CampaignCreator.tsx:220 | The filter keeps exactly the contacts whose id is in the list, never more than there were |
| Types.FindByKey | components/Campaigns.tsx:58 | `find` by id (also `components/Contacts.tsx:149`): a listed element with the id, or nothing exactly when no element has it |
| Types.FindByKeyFirst | components/Campaigns.tsx:58 | `find` gives the first element with the id |
| Types.WithoutKeys | components/Contacts.tsx:141 | The filter by id (also `components/Contacts.tsx:133`, `components/Groups.tsx:38`, `components/AutoReplyBot.tsx:117`) keeps exactly the elements whose id is not listed, never more than there were |
| Types.WithoutKeysAbsent | components/Contacts.tsx:141 | Removing ids no element has keeps the whole list, in order |
| Types.ContactIds | components/CampaignCreator.tsx:237 | One id per contact, in contact order |
| Types.CountStatus | services/campaignService.ts:161-162 | A status count never exceeds the number of logs |
| Types.CountStatusAppend | services/campaignService.ts:161-162 | Counting a status over two joined log lists adds the two counts |
| Types.CountTwoStatuses | services/campaignService.ts:161-162 | Counts of two different statuses add up to at most the number of logs, and to exactly that when every log has one of them |
| Strings.Contains | components/Contacts.tsx:113 | `includes` holds exactly when the text occurs at some position |
| Strings.IndexOf | components/Contacts.tsx:113 | `indexOf` finds the first occurrence at or after the start, and none only when there is none |
| Strings.Substring | components/CampaignCreator.tsx:117 | `substring(a, b)` is the slice when the bounds are in order and inside the text, and never longer than the text |
| Strings.SubstringFrom | components/CampaignCreator.tsx:132 | `substring(a)` is the suffix from `a`, or empty past the end |
| Strings.Split | App.tsx:85 | `split(sep)` gives at least one piece; the pieces joined by the separator are the text; no piece contains the separator |
| Strings.SplitAbsent | App.tsx:85 | A text without the separator is its own only piece |
| Strings.SplitAtChar | App.tsx:85 | Splitting on a character cuts at its first occurrence |
| Strings.ReplaceAbsent | services/campaignService.ts:112 | A global replace of a pattern that does not occur changes nothing |
| Strings.ReplaceWhole | services/campaignService.ts:112 | Replacing a pattern within the pattern alone gives the replacement |
| Strings.ReplaceAll | services/campaignService.ts:112 | A global replace (`.replace(/pat/g, rep)`) is the text split at every occurrence and joined with the replacement; replacing a pattern by itself gives the text back (with ReplaceAbsent and ReplaceWhole) |
| Strings.ToLower | components/Contacts.tsx:113 | `toLowerCase` keeps the length, leaves no ASCII capital, and keeps every other character |
| Strings.ParseInt | components/Settings.tsx:51 | `parseInt` without a radix: leading white space skipped, an optional sign, `0x`/`0X` for hexadecimal, the longest digit run read, NaN without a digit (proved by ParseIntNatToString, ParsePlain, ParseNegative, ParseIntNoDigits) |
| Strings.BlankIffAllSpace | components/Contacts.tsx:48 | `!s.trim()` holds exactly when every character is white space |
| Strings.ParseIntNatToString | components/Settings.tsx:51 | `parseInt` reads back the decimal text of `n` and of `-n` |
| Strings.ParsePlain | components/Settings.tsx:51 | Text starting with a digit parses to its unsigned reading |
| Strings.ParseNegative | components/Settings.tsx:51 | A leading minus negates the reading |
| Strings.ParseIntNoDigits | components/Settings.tsx:51 | Text without any digit, such as an emptied number field, parses to NaN |
| OrderedSets.AddAllSpec | components/CampaignCreator.tsx:284-292 | Adding elements to an insertion-ordered set keeps it duplicate-free, holds exactly the old and the added elements, and keeps the old ones first |
| OrderedSets.AddAllAppend | components/ContactSelectionModal.tsx:45 | Adding two lists in turn is adding their concatenation |
| OrderedSets.AddAllFresh | components/ContactSelectionModal.tsx:45 | Adding distinct new elements appends them all, in order |
| OrderedSets.AddAllPresent | components/ContactSelectionModal.tsx:45 | Adding elements already present changes nothing |
| OrderedSets.AddAll | components/CampaignCreator.tsx:288 | `keys.add` for each key in turn: a key already present is skipped, a new one goes last (proved by AddAllSpec, AddAllAppend, AddAllFresh, AddAllPresent) |
| CampaignService.BuiltInPlaceholders | services/campaignService.ts:112-113 | The built-in placeholders are `{{nama}}` and `{{group}}`, and their keys are brace-free |
| CampaignService.Personalize | services/campaignService.ts:111-119 | The rendering statements, with their `forEach` over the custom fields, compute `Render`: name, then group, then each custom field in entry order |
| CampaignService.PlaceholderStartsOpen | services/campaignService.ts:117 | Every placeholder starts with "{{" |
| CampaignService.NoOpenBraces | services/campaignService.ts:117 | Text without "{{" contains no placeholder |
| CampaignService.ApplyFieldsPlain | services/campaignService.ts:115-119 | Text without "{{" passes through every custom-field replacement unchanged |
| CampaignService.PlaceholderInPlaceholder | services/campaignService.ts:117 | The placeholder of a brace-free key contains the placeholder of exactly one key, its own |
| CampaignService.ApplyFieldsSkipOthers | services/campaignService.ts:116-118 | Custom fields with other keys leave a placeholder alone |
| CampaignService.RenderPlain | services/campaignService.ts:111-119 | A template without "{{" is sent as written |
| CampaignService.RenderNameWins | services/campaignService.ts:112 | `{{nama}}` renders as the contact's name, whatever the custom fields, one keyed "nama" included |
| CampaignService.RenderGroupWins | services/campaignService.ts:113 | `{{group}}` renders as the contact's group, whatever the custom fields |
| CampaignService.RenderCustomField | services/campaignService.ts:115-119 | A custom field's placeholder renders as that field's value |
| CampaignService.RenderUnknownPlaceholder | services/campaignService.ts:111-119 | A placeholder naming neither a built-in nor a custom field stays verbatim |
| CampaignService.Render | services/campaignService.ts:111-119 | The personalised message: `{{nama}}` replaced globally by the name, then `{{group}}` by the group, then each custom field's placeholder by its value in entry order (proved by RenderPlain, RenderNameWins, RenderGroupWins, RenderCustomField, RenderUnknownPlaceholder) |
| CampaignService.ApplyFields | services/campaignService.ts:115-119 | One global replacement per custom-field entry, in entry order (proved by ApplyFieldsPlain, ApplyFieldsSkipOthers) |
| CampaignService.ResolveAttachment | services/campaignService.ts:121-130 | Without a per-contact file the campaign's attachment is used; with one, that file's stored payload is used; an absent or empty payload is an error "File data not found in DB for <name>" |
| CampaignService.FonnteOutcome | services/campaignService.ts:28-34 | Fonnte: a non-OK status is an error with a non-empty message; an OK status yields a non-empty id; a throw is passed on |
| CampaignService.BaileysOutcome | services/campaignService.ts:74-80 | Baileys: success exactly when the body's status is "success", whatever the HTTP status; the id is non-empty; a failure carries a non-empty message |
| CampaignService.Transmit | services/campaignService.ts:132-141 | Baileys without a connected session, a URL and a key is refused before any request; a request goes to Baileys exactly when it is the provider, and to Fonnte for any other provider value; a well-formed refusal has a non-empty message |
| CampaignService.FonnteSend | services/campaignService.ts:12-35 | The Fonnte request carries the key as `Authorization`, the contact's number as `target`, the message and the attachment; its outcome is FonnteOutcome of the response (proved through Transmit and FonnteOutcome) |
| CampaignService.BaileysSend | services/campaignService.ts:37-81 | Without a server URL or key it fails "Baileys connection details are missing." before any request; otherwise it posts to `/messages/send-media` with an attachment and `/messages/send-text` without, with a `Bearer` key; its outcome is BaileysOutcome of the response |
| CampaignService.ThrownMessage | services/campaignService.ts:147 | The `catch` records an `Error`'s message, and "Unknown error" for any other thrown value (used by SettleSettles) |
| CampaignService.FindLogFrom | services/campaignService.ts:101 | The search from a position gives -1 or a later log for the contact id |
| CampaignService.FindLogIndex | services/campaignService.ts:101 | `findIndex` gives -1 or the position of a log for the contact id |
| CampaignService.FindLogFromFirst | services/campaignService.ts:101 | The search from a position finds the first matching log after it, and -1 only when there is none |
| CampaignService.FindLogIndexFirst | services/campaignService.ts:101 | `findIndex` finds the first log for the id, and -1 only when there is none |
| CampaignService.AttemptFor | services/campaignService.ts:110-141 | The `try` block: the rendered message, the attachment (a missing stored file fails "File data not found in DB for <name>" before any request), then the provider branch (proved by OfflineAttempt, AttemptReported, Deliver) |
| CampaignService.FinalContacts | services/campaignService.ts:95-97 | The single ad-hoc recipient comes from the logs; otherwise the directory filtered by the campaign's contact ids, in directory order (proved by RecipientsCoverLogs) |
| CampaignService.NewJob | services/campaignService.ts:84-98 | The job of one call: the campaign, FinalContacts, AttemptFor with the settings and contact files, the anti-ban delay and the clock (proved by NewJobAccountsForAll, OfflineDispatch, DispatchReports) |
| CampaignService.Settle | services/campaignService.ts:143-149 | The log after its send: `Sent` with the id or `Failed` with the error text, then stamped (proved by SettleSettles) |
| CampaignService.StepAt | services/campaignService.ts:100-155 | One iteration: skipped when no log has the contact id or the log has failed; otherwise the `Sending` snapshot, the request, the settled snapshot and the pause (proved by StepLogAt, StepEventAt, StepSleeps) |
| CampaignService.Run | services/campaignService.ts:91-156 | The copy's logs and the events after `k` iterations (proved by RunLogAt, RunUntouched, RunTargetAt, RunSleeps, RunEventAt and the lemmas beside them) |
| CampaignService.Dispatch | services/campaignService.ts:91-163 | The whole trace: the loop's events, the `Completed` snapshot with the final logs, and the alert with the counts (proved by DispatchShape, DispatchSleeps, DispatchAccountsForAll) |
| CampaignService.CampaignCopy.constructor | services/campaignService.ts:91 | The deep copy has the campaign's status and a fresh log array holding the campaign's logs |
| CampaignService.CampaignCopy.MarkSending | services/campaignService.ts:107 | Only log `j` changes, only in its status, to `Sending` |
| CampaignService.CampaignCopy.Record | services/campaignService.ts:143-149 | Only log `j` changes: `Sent` with the id, or `Failed` with the error text, then stamped |
| CampaignService.Deliver | services/campaignService.ts:111-141 | The `try` block (render, choose the attachment, send) makes the attempt `AttemptFor` describes |
| CampaignService.SendOne | services/campaignService.ts:100-155 | One loop iteration on the copy's array takes the logs and events from one step of `Run` to the next |
| CampaignService.Start | services/campaignService.ts:91-93 | The fresh copy is marked `Sending` and its first snapshot published, as `Run(job, 0)` describes |
| CampaignService.RunJob | services/campaignService.ts:91-163 | The copy, the loop and the close emit exactly `Dispatch(job)` |
| CampaignService.Complete | services/campaignService.ts:158-163 | After the loop: the `Completed` snapshot with the final logs, then the alert with the counts |
| CampaignService.SendCampaign | services/campaignService.ts:84-164 | A whole `sendCampaign` call emits exactly the trace `Dispatch` of its job; it returns nothing else |
| CampaignService.SettleSettles | services/campaignService.ts:143-149 | A settled log keeps its contact and is `Sent` with the provider id or `Failed` with the error, never left `Sending`, and carries the new stamp |
| CampaignService.StepLogAt | services/campaignService.ts:101-108 | An iteration keeps the number of logs and every log's contact; it settles only the first log for its recipient, and only if that log was not `Failed`; every other log is untouched |
| CampaignService.RunLength | services/campaignService.ts:99-156 | The log list never changes length during the run |
| CampaignService.RunDescendsAt | services/campaignService.ts:99-156 | Through the run, each log stays for the same contact and is either untouched or settled; a log `Failed` before the run is never touched |
| CampaignService.RunUntouched | services/campaignService.ts:99-105 | A log whose contact id none of the first `k` recipients has is never found by `findIndex`, so it is exactly as before |
| CampaignService.RunDuplicateUntouched | services/campaignService.ts:101 | A log with an earlier log for the same contact id is never found by `findIndex` (the earlier one is), so it is exactly as before |
| CampaignService.RunLogAt | services/campaignService.ts:99-156 | Each log stays for the same contact and is untouched or settled; it is exactly as before if it had failed, if no visited recipient has its contact id, or if an earlier log has that id |
| CampaignService.RunLogs | services/campaignService.ts:99-156 | The same, for every log of the copy at once |
| CampaignService.DispatchUntouched | services/campaignService.ts:95-156 | After the whole loop, every log whose contact id no recipient has, and every later duplicate of a contact id, is exactly as before |
| CampaignService.FailedStaysFailed | services/campaignService.ts:103-105 | A log that is `Failed` at some point of the run stays exactly as it is until the end |
| CampaignService.FindUnique | services/campaignService.ts:101 | When no two logs share a contact id, `findIndex` finds the one log with the id |
| CampaignService.DescendsDistinct | services/campaignService.ts:101 | The run keeps the contact ids of the logs distinct |
| CampaignService.RunTargetAt | services/campaignService.ts:99-150 | With distinct log ids, the log of every visited recipient ends `Sent` or `Failed` |
| CampaignService.RunTargetFound | services/campaignService.ts:101 | With distinct log ids, an iteration looks up the original log for its contact id |
| CampaignService.RunKeepsSettled | services/campaignService.ts:143-149 | A `Sent` or `Failed` log stays `Sent` or `Failed` through the next iteration |
| CampaignService.RunSettlesTarget | services/campaignService.ts:101-149 | The iteration whose recipient has a log's id leaves that log `Sent` or `Failed` |
| CampaignService.DispatchAccountsForAll | services/campaignService.ts:158-162 | When every log belongs to a recipient and no two logs share an id, every log ends `Sent` or `Failed`, so the two counts add up to the number of logs |
| CampaignService.RecipientsCoverLogs | services/campaignService.ts:95-97 | The resolved recipients name every log: the single number's logs, or, when the directory still holds a contact with each log's id (renamed or regrouped or not), the directory contacts chosen by id |
| CampaignService.NewJobAccountsForAll | services/campaignService.ts:84-162 | For a campaign with one log per contact id, each id chosen and still in the directory (or the single number), the final counts account for every log |
| CampaignService.SleepsAppend | services/campaignService.ts:152-155 | Pauses in a joined trace add up |
| CampaignService.SleepsNone | services/campaignService.ts:152-155 | A trace without pause events counts no pauses |
| CampaignService.StepSleeps | services/campaignService.ts:103-105 | An iteration pauses once if it is not skipped and not the last, and otherwise not at all: the `continue` also skips the pause |
| CampaignService.RunSleeps | services/campaignService.ts:152-155 | The run pauses at most once per iteration and at most `N - 1` times |
| CampaignService.RunSleepsExact | services/campaignService.ts:152-155 | When no recipient is skipped, exactly one pause separates consecutive recipients |
| CampaignService.DispatchSleeps | services/campaignService.ts:152-155 | A dispatch never pauses after its last recipient and pauses at most `N - 1` times |
| CampaignService.StepEventAt | services/campaignService.ts:107-155 | An iteration only appends to the trace: no alert, only `Sending` snapshots of the campaign, and only the request of its own attempt |
| CampaignService.RunStepEventAt | services/campaignService.ts:107-155 | The same, for the iteration that takes the run from `k - 1` to `k` recipients |
| CampaignService.RunPrefix | services/campaignService.ts:99-156 | An iteration never shortens the trace |
| CampaignService.RunFirstEvent | services/campaignService.ts:92-93 | The first event is always the campaign published as `Sending` |
| CampaignService.RunEventAt | services/campaignService.ts:99-156 | While the loop runs nothing is alerted, and every published snapshot is the campaign marked `Sending`, unchanged in every other field but its logs, and with as many logs |
| CampaignService.DispatchShape | services/campaignService.ts:91-163 | The status goes `Sending`, then `Completed`: first the `Sending` snapshot, only `Sending` snapshots during the run, then the `Completed` campaign with the final logs, then the alert with the counts of `Sent` and `Failed` logs |
| CampaignService.OfflineAttempt | services/campaignService.ts:133-138 | With Baileys selected but not ready, a send is refused before any request, with the not-connected message or, earlier, the missing-file message |
| CampaignService.OfflineLogAt | services/campaignService.ts:133-148 | When every send is refused, each log is untouched or failed by the refusal |
| CampaignService.OfflineLogStep | services/campaignService.ts:133-148 | One refused send keeps each log untouched or failed by the refusal |
| CampaignService.OfflineEventAt | services/campaignService.ts:133-138 | When every send is refused, the run makes no request |
| CampaignService.OfflineJob | services/campaignService.ts:133-163 | A job whose every send is refused keeps its log count, makes no request, and leaves each log untouched or failed by the refusal |
| CampaignService.OfflineDispatch | services/campaignService.ts:133-138 | With Baileys selected but no connected session, URL or key, the dispatch keeps the log count and makes no request, and each log is untouched or failed with the not-connected or missing-file message |
| CampaignService.AttemptReported | services/campaignService.ts:110-141 | Against a transport whose bodies are `JSON.stringify` text and whose thrown errors carry a message, a send yields a non-empty id or an error with a non-empty message |
| CampaignService.ReportedLogAt | services/campaignService.ts:99-156 | When every send reports a non-empty id or error text, each log is untouched or `Sent` with a non-empty id or `Failed` with a non-empty error |
| CampaignService.ReportedLogStep | services/campaignService.ts:143-149 | One such send keeps a log untouched or leaves it reporting a non-empty id or error |
| CampaignService.DispatchReports | services/campaignService.ts:84-163 | Against such a transport, every log the whole dispatch touches ends `Sent` with a non-empty id or `Failed` with a non-empty error |
| CampaignCreator.FirstMatch | components/CampaignCreator.tsx:100-102 | `find` picks the first file whose lower-cased name contains the lower-cased contact name; no earlier file matches |
| CampaignCreator.AutoMatch | components/CampaignCreator.tsx:94-109 | The effect's `forEach` pushes, for each chosen contact in order, one pair with its first matching file |
| CampaignCreator.MatchWithMembers | components/CampaignCreator.tsx:99-106 | A pair is pushed exactly for a chosen contact and the file its pick returns |
| CampaignCreator.MatchAllMembers | components/CampaignCreator.tsx:94-109 | Every pair names a chosen contact and its first matching file, and every chosen contact with a match has its pair |
| CampaignCreator.UnmatchedAbsent | components/CampaignCreator.tsx:103-105 | A contact without a matching file gets no pair |
| CampaignCreator.MatchWithDistinct | components/CampaignCreator.tsx:99-106 | Chosen contacts with distinct ids get at most one pair each |
| CampaignCreator.MatchAllDistinct | components/CampaignCreator.tsx:94-109 | The auto-match gives at most one pair per contact |
| CampaignCreator.NameMatches | components/CampaignCreator.tsx:100-102 | A file matches a contact when its lower-cased name contains the contact's lower-cased name (used by FirstMatch) |
| CampaignCreator.BestMatch | components/CampaignCreator.tsx:100-102 | `managedFiles.find(...)`: the first matching file, or none (proved by FirstMatch) |
| CampaignCreator.MatchAll | components/CampaignCreator.tsx:94-109 | One pair per chosen contact that has a matching file, in contact order, with its first matching file (proved by AutoMatch, MatchAllMembers, MatchAllDistinct) |
| CampaignCreator.FormErrors | components/CampaignCreator.tsx:196-211 | The error object holds an entry exactly for each failed check, no other entry, and distinct keys |
| CampaignCreator.EntriesDistinct | components/CampaignCreator.tsx:197-207 | Entries with different keys form an object with distinct keys |
| CampaignCreator.ValidateForm | components/CampaignCreator.tsx:196-211 | An error for a blank name, a blank message, a blank number in single mode, and an empty selection in bulk or file mode; no other error |
| CampaignCreator.FormValidIff | components/CampaignCreator.tsx:196-211 | The form is valid exactly when there is a name, a message, and a number (single mode) or a non-empty selection (the other modes) |
| CampaignCreator.Recipients | components/CampaignCreator.tsx:218-220 | Single mode sends to one ad-hoc "single" contact; the other modes to the chosen directory contacts |
| CampaignCreator.ScheduleOf | components/CampaignCreator.tsx:222-230 | A schedule only when scheduling with both a date and a time; an unparsable date and time is the error "Invalid schedule date or time." (proved through CreateCampaign and CreatedStatus) |
| CampaignCreator.InitialLog | components/CampaignCreator.tsx:235-247 | In file mode a contact without a matched file starts `Failed` with "No matching file found in File Manager"; every other log starts `Pending` (proved by CreatedLogStatus) |
| CampaignCreator.InitialLogs | components/CampaignCreator.tsx:238-246 | One log per recipient, in recipient order (proved by CreatedLogs) |
| CampaignCreator.CreateCampaign | components/CampaignCreator.tsx:213-256 | An invalid form is rejected with its errors; an invalid schedule is rejected with the schedule error; a campaign is created exactly when the form is valid and the schedule parses |
| CampaignCreator.CreatedLogs | components/CampaignCreator.tsx:235-247 | Exactly one log per recipient, in recipient order, with the recipients' ids as the campaign's contacts, each stamped and with no provider id |
| CampaignCreator.CreatedLogStatus | components/CampaignCreator.tsx:235-247 | In file mode a log is `Pending` exactly when its contact has a file, and otherwise `Failed` with "No matching file found in File Manager"; in the other modes every log is `Pending` with no error |
| CampaignCreator.CreatedStatus | components/CampaignCreator.tsx:222-256 | `Scheduled` exactly when a schedule exists, else `Draft`; a schedule exactly when scheduling with a date and a time; the attachment only outside file mode |
| CampaignCreator.ContactFilesMap | components/CampaignCreator.tsx:268-271 | The `reduce` builds the map entry by entry, a later pair overwriting an earlier one |
| CampaignCreator.FileMapKeys | components/CampaignCreator.tsx:268-271 | The map's keys are exactly the matched contacts' ids |
| CampaignCreator.FileMapLast | components/CampaignCreator.tsx:268-271 | A contact's file is the one in its last pair |
| CampaignCreator.FileMap | components/CampaignCreator.tsx:268-271 | The `reduce` into an object: a later pair for the same contact overwrites an earlier one (proved by FileMapKeys, FileMapLast, ContactFilesMap) |
| CampaignCreator.HandleFormat | components/CampaignCreator.tsx:119-122 | An empty selection leaves the message alone, and only an empty one does |
| CampaignCreator.FormatWraps | components/CampaignCreator.tsx:111-140 | A non-empty selection becomes prefix + marker + selection + marker + suffix; the text grows by two markers; the new selection covers the same text between the markers |
| CampaignCreator.WrapSlices | components/CampaignCreator.tsx:132 | The positions of the prefix, the markers and the selection in the wrapped text |
| CampaignCreator.InsertReplacesSelection | components/CampaignCreator.tsx:142-154 | The variable replaces `[start, end)`, the text around it is kept, and the cursor lands at `start + |variable|` |
| CampaignCreator.InsertVariable | components/CampaignCreator.tsx:142-154 | The selection is replaced by the variable and the cursor put right after it (proved by InsertReplacesSelection) |
| CampaignCreator.AllCustomFields | components/CampaignCreator.tsx:284-292 | The nested `forEach` adds every key of every contact to the set, in order of first appearance |
| CampaignCreator.AddAllSnoc | components/CampaignCreator.tsx:288 | Adding one more key at the end of what is added |
| CampaignCreator.CustomKeysUnion | components/CampaignCreator.tsx:284-292 | The offered variables are duplicate-free and are exactly the keys some contact has |
| CampaignCreator.CustomKeys | components/CampaignCreator.tsx:284-292 | Every custom-field key of every contact, once each, in order of first appearance (proved by CustomKeysUnion, AllCustomFields) |
| CampaignCreator.CreatedLeavesForm | components/CampaignCreator.tsx:258 | A created campaign is `Draft` or `Scheduled`, so handing it to `onAddCampaign` clears the draft and switches the page to the history before the dispatch starts |
| CampaignCreator.FinishAsWritten | components/CampaignCreator.tsx:273-279 | Destructuring the counts out of `undefined` throws: no completion notice is shown and the rejection goes uncaught; the `isSending` left set belongs to a form already replaced by the history |
| CampaignCreator.AsWrittenNeverReports | components/CampaignCreator.tsx:273 | With the dispatch as it is, the handler as written never reports the result |
| CampaignCreator.FinishWithCounts | components/CampaignCreator.tsx:273-279 | The intended step shows the completion notice with the counts and does not throw |
| CampaignCreator.FinishReportsDispatch | components/CampaignCreator.tsx:273-279 | The intended report carries the counts of the dispatch's closing alert, and is a warning exactly when some log failed |
| Campaigns.ReplaceById | components/Campaigns.tsx:40 | The list keeps its length; a campaign with the id is replaced, every other is kept |
| Campaigns.Upsert | components/Campaigns.tsx:36-43 | A known id is replaced in place, an unknown one appended |
| Campaigns.UpsertPlaces | components/Campaigns.tsx:36-43 | After an upsert the campaign is in the list and ids stay distinct; the list grows by one only for a new id; other campaigns keep their places |
| Campaigns.HandleAddCampaign | components/Campaigns.tsx:36-49 | The list is upserted; the draft is cleared and the view switched to the history exactly when the campaign is not `Sending` |
| Campaigns.RepublishKeepsOthers | components/Campaigns.tsx:36-43 | A snapshot of a listed campaign keeps the list's length and every other campaign |
| Campaigns.SyncLogs | components/Campaigns.tsx:64-75 | One synced log per log, in order |
| Campaigns.SyncLogChanges | components/Campaigns.tsx:65-74 | Only a log with a message id that is not `Failed` changes, and only in its status; a lookup that throws keeps the log |
| Campaigns.Syncable | components/Campaigns.tsx:65 | The sync asks about a log with a truthy provider id that has not failed |
| Campaigns.SyncLog | components/Campaigns.tsx:64-75 | A syncable log takes the status the lookup returns, and is kept when the lookup throws; any other log is kept (proved by SyncLogChanges) |
| Campaigns.SyncStatus | components/Campaigns.tsx:56-80 | An unknown id changes nothing; otherwise only the campaigns with the id get the synced logs, and every other campaign is unchanged |
| Campaigns.SyncTargetLogs | components/Campaigns.tsx:64-77 | A sync keeps the target's log count and its other fields, and changes only the statuses of logs with a message id that are not `Failed` |
| Campaigns.SentColumn | components/Campaigns.tsx:121 | The green counter never exceeds the number of logs |
| Campaigns.ColumnsCount | components/Campaigns.tsx:121 | The green counter adds up `Sent`, `Delivered` and `Read`; with the red `Failed` counter it never exceeds the logs |
| Campaigns.SyncEnabledIff | components/Campaigns.tsx:129 | Sync is enabled exactly for a `Sending` or `Completed` campaign that is not being synced |
| Campaigns.SyncEnabled | components/Campaigns.tsx:129 | The sync button is disabled while this campaign syncs and for a draft or scheduled campaign (proved by SyncEnabledIff) |
| Campaigns.CreateEnabledCases | components/Campaigns.tsx:172 | Creating is disabled exactly for Fonnte without a key and Baileys without a connected session |
| Campaigns.CreateEnabled | components/Campaigns.tsx:172 | "New campaign" is disabled for Fonnte without a key and for Baileys without a connected session (proved by CreateEnabledCases, ValidFonnteEnablesCreate) |
| App.SchedulerTick | App.tsx:28-38 | The tick's `forEach` makes one dispatch call for each due campaign, in list order |
| App.DueCallsSelect | App.tsx:30-36 | A call is made exactly for a listed campaign that is `Scheduled` with a schedule not after now; it uses the current directory and settings and no files; no other status is dispatched |
| App.DueCallsCount | App.tsx:30-37 | Never more calls than campaigns; one for each campaign when all are due; none when none is due |
| App.IsDue | App.tsx:31 | A campaign is due when it is `Scheduled`, has a schedule, and the schedule is not after now |
| App.DueCalls | App.tsx:30-37 | The tick calls `sendCampaign` once per due campaign, in list order, with no contact files (proved by DueCallsSelect, DueCallsCount, SchedulerTick) |
| App.ScheduledAttachment | App.tsx:36 | A scheduled dispatch always sends the campaign's own attachment |
| App.UpdateCampaign | App.tsx:33-35 | The callback replaces only the campaign with the snapshot's id |
| App.UpdateAbsent | App.tsx:34 | A snapshot of a campaign no longer listed changes nothing |
| App.NotDueAfterPublish | App.tsx:31-34 | Once its first snapshot is published, the campaign is no longer due; the other campaigns' due state is unchanged |
| App.ConfiguredProvider | App.tsx:106-111 | A configured API needs a Gemini key and one of the two providers; a configured Baileys also enables creation |
| App.IsApiConfigured | App.tsx:106-111 | A Gemini key, and Fonnte with a connected device or Baileys with a connected session (proved by ConfiguredProvider) |
| App.ScreenOf | App.tsx:86-103 | The blast page's sub-view defaults to "history"; an unknown main view shows the dashboard |
| App.RouteMain | App.tsx:85 | A view without '/' is its own main view, with no sub-view |
| App.RouteSub | App.tsx:85 | In `main/sub…`, the first two segments pick the screen |
| App.Route | App.tsx:85-103 | The view is split at "/", the first part picks the page and the second, when present, the sub-view (proved by RouteMain, RouteSub, ScreenOf) |
| Contacts.ChangeFieldKey | components/Contacts.tsx:24-31 | A non-empty new key that is not yet there takes the old key's value, the old key goes, the size is kept and other keys keep their values; an empty or taken new key changes nothing; keys stay distinct |
| Contacts.RemoveGet | components/Contacts.tsx:28 | Deleting a key leaves every other key's value as it was |
| Contacts.RemoveCount | components/Contacts.tsx:28 | Deleting a present key removes exactly one entry |
| Contacts.RemoveAbsent | components/Contacts.tsx:40-44 | Deleting an absent key changes nothing |
| Contacts.AddCustomField | components/Contacts.tsx:33-38 | The new field is `field_<n+1>`, n the number of fields, with an empty value; it is appended unless that key is taken, in which case nothing changes |
| Contacts.ValidateContact | components/Contacts.tsx:46-52 | An error for a blank name and one for a blank number; valid exactly when neither is blank |
| Contacts.SubmitContact | components/Contacts.tsx:54-58 | A contact is submitted exactly when valid, with the form's values, the edited contact's id or a new `contact_<now>` |
| Contacts.EmptyTermMatches | components/Contacts.tsx:113 | An empty search matches every contact |
| Contacts.MatchesSearch | components/Contacts.tsx:113 | The name contains the term case-insensitively, or the number contains it as it is (proved by EmptyTermMatches, FilterContacts) |
| Contacts.FilterContacts | components/Contacts.tsx:111-117 | A contact passes exactly when its name contains the term case-insensitively or its number contains it, and the group filter is "all" or its group |
| Contacts.SaveContact | components/Contacts.tsx:119-125 | Editing replaces only the contact with the same id; adding appends |
| Contacts.DeleteContact | components/Contacts.tsx:131-136 | A confirmed delete removes exactly the contacts with the id; otherwise nothing changes |
| Contacts.BulkDelete | components/Contacts.tsx:138-145 | Nothing happens without a selection or a confirmation; otherwise exactly the selected ids go and the selection clears |
| Contacts.MoveToGroup | components/Contacts.tsx:147-158 | Nothing changes without a selection, a target or a group with the id; otherwise exactly the selected contacts get the group's name |
| Contacts.MoveKeepsIdentity | components/Contacts.tsx:152-154 | A move changes nothing but contacts' groups |
| Contacts.ToggleSelectAllAsWritten | components/Contacts.tsx:202-208 | As written: clear when the sizes agree, otherwise select the shown ids |
| Contacts.ToggleSelectAllSizeOnly | components/Contacts.tsx:202-208 | A selection of the same size that misses the shown contact is cleared instead of selected |
| Contacts.ToggleSelectAll | components/Contacts.tsx:202-208 | The intended toggle clears when all shown contacts are selected, else selects the shown ones |
| Contacts.ToggleSelectAllSelectsShown | components/Contacts.tsx:202-208 | After the intended toggle either every shown contact is selected and nothing else is, or the selection is empty and something is shown; toggling again after a select clears it |
| Contacts.NonBlankLines | components/Contacts.tsx:167 | Exactly the non-blank lines are kept |
| Contacts.TrimAll | components/Contacts.tsx:172 | Every header cell is trimmed |
| Contacts.RowData | components/Contacts.tsx:175-176 | The row object has distinct keys |
| Contacts.BuildRow | components/Contacts.tsx:176 | The `forEach` over the header assigns each column's trimmed cell |
| Contacts.RowDataGet | components/Contacts.tsx:176 | A column holds the cell of the last header position with its name |
| Contacts.RowDataMissing | components/Contacts.tsx:176 | A name the header lacks is not in the row |
| Contacts.Cell | components/Contacts.tsx:176 | `values[i]?.trim()`: the trimmed cell, a missing cell read as "" (see "## Left out") |
| Contacts.ParsedRows | components/Contacts.tsx:173-183 | One parsed entry per data line, in order |
| Contacts.PresentSpec | components/Contacts.tsx:183 | The null filter keeps exactly the built contacts, in order |
| Contacts.Present | components/Contacts.tsx:183 | `.filter(c => c !== null)`: the contacts of the rows that became contacts, in row order (proved by PresentSpec) |
| Contacts.ImportCsv | components/Contacts.tsx:166-171 | Fewer than two non-blank lines is the "empty file" error, and only that is |
| Contacts.ApplyImport | components/Contacts.tsx:185 | Imported contacts are appended after the existing ones; a failed import adds none |
| Contacts.RowBecomesContact | components/Contacts.tsx:178-180 | A row becomes a contact exactly when its trimmed name and number cells are non-empty; it then has those name and number, the given id and a non-empty group; its custom-field keys are exactly the header's columns other than name, number and group |
| Contacts.RowGroup | components/Contacts.tsx:180 | The group is the row's trimmed group cell, or "Imported" when it is empty or missing |
| Contacts.RowWithoutColumn | components/Contacts.tsx:178 | Without a name or number column no row becomes a contact |
| Contacts.RowContact | components/Contacts.tsx:178-182 | A row with a truthy name and number becomes a contact with the rest of its columns as custom fields and "Imported" as the default group; any other row is dropped (proved by RowBecomesContact, RowGroup, RowWithoutColumn) |
| ContactSelection.Filtered | components/ContactSelectionModal.tsx:29-34 | A contact passes exactly when its name contains the term case-insensitively or its number contains it |
| ContactSelection.Without | components/ContactSelectionModal.tsx:42 | The filter keeps exactly the ids not listed, and keeps a duplicate-free selection duplicate-free |
| ContactSelection.ToggleId | components/ContactSelectionModal.tsx:49-55 | A selected id is removed, an unselected one appended |
| ContactSelection.ToggleTwice | components/ContactSelectionModal.tsx:49-55 | Toggling twice restores the selection's members, and restores the list exactly for an id not selected |
| ContactSelection.WithoutAbsent | components/ContactSelectionModal.tsx:42 | Filtering out an id the selection lacks keeps the selection |
| ContactSelection.WithoutAppendLast | components/ContactSelectionModal.tsx:42 | Filtering out an id that was just appended gives what filtering gave before |
| ContactSelection.EmptyNotAllSelected | components/ContactSelectionModal.tsx:63 | An empty filtered list is never "all selected" |
| ContactSelection.ToggleSelectAll | components/ContactSelectionModal.tsx:36-47 | When all shown ids are selected they are removed; otherwise the duplicate-free union of the selection and the shown ids is taken |
| ContactSelection.ToggleSelectAllEffect | components/ContactSelectionModal.tsx:36-47 | Deselecting removes exactly the shown ids, after which not all are selected; selecting gives a duplicate-free union of the old selection and the shown ids, a duplicate-free old selection kept first, after which every shown contact is selected |
| AutoReply.ValidateRule | components/AutoReplyBot.tsx:19-25 | Errors exactly for blank keywords and a blank reply |
| AutoReply.SubmitRule | components/AutoReplyBot.tsx:27-31 | Submitted exactly when valid; a new rule is enabled, an edited one keeps its flag |
| AutoReply.ToggleRule | components/AutoReplyBot.tsx:85-90 | Only rules with the id get the new flag |
| AutoReply.ToggleOnlyFlag | components/AutoReplyBot.tsx:85-90 | A toggle changes nothing but the flag, and only of that rule |
| AutoReply.SaveRule | components/AutoReplyBot.tsx:92-111 | Editing replaces only the rule with the edited id by the edited rule with the form's data; adding appends `rule_<now>` |
| AutoReply.SaveKeepsIds | components/AutoReplyBot.tsx:93-98 | Editing keeps every rule's id |
| AutoReply.DeleteRule | components/AutoReplyBot.tsx:113-121 | A confirmed delete keeps exactly the rules with other ids; otherwise nothing changes |
| AutoReply.DeleteAbsent | components/AutoReplyBot.tsx:113-121 | Deleting an id no rule has, confirmed or not, keeps the list |
| Groups.SaveGroup | components/Groups.tsx:15-30 | A blank name only sets the error; otherwise editing renames only the group with the id, adding appends one `group_<now>`, and the form closes |
| Groups.RenameKeepsIds | components/Groups.tsx:21-22 | Renaming keeps every group's id; a blank name keeps the list |
| Groups.DeleteGroup | components/Groups.tsx:32-40 | The "general" group is refused, and only it is; a confirmed delete removes exactly the groups with the id |
| Groups.GeneralSurvives | components/Groups.tsx:32-36 | The default group survives every delete |
| Settings.ValidateSettings | components/Settings.tsx:19-30 | The first failing check, in order: Fonnte key, Baileys URL and key, Gemini key; none when all pass |
| Settings.ValidFonnteEnablesCreate | components/Settings.tsx:19-30 | Valid Fonnte settings also enable creating a campaign |
| Settings.NumberOf | components/Settings.tsx:51 | A number input's value is NaN exactly when `parseInt` finds no number in the text |
| Settings.AntiBanChange | components/Settings.tsx:47-52 | `antiBan.<key>` changes only that anti-ban value, to the parsed number |
| Settings.TopLevelChange | components/Settings.tsx:53-55 | Any other name changes only its own top-level field |
| Settings.ApplyChange | components/Settings.tsx:45-56 | An `antiBan.` name sets the anti-ban field named by its second segment to the parsed number; any other name sets that top-level field to the text (proved by AntiBanChange, TopLevelChange) |
| Settings.SettingsPanel.constructor | components/Settings.tsx:12-17 | The page opens on a copy of the settings, with no error, no QR code and nothing in progress |
| Settings.SettingsPanel.Save | components/Settings.tsx:32-43 | A failed validation records its error and leaves the global settings and the saved flag alone; otherwise the global settings become the local ones, the errors clear and the saved flag is set; the global settings are only ever replaced by valid ones |
| Settings.SettingsPanel.Change | components/Settings.tsx:45-56 | Only the local copy changes, by `handleChange` |
| Settings.SettingsPanel.BaileysConnect | components/Settings.tsx:58-81 | "connected" sets the session connected, clears the stored QR code and publishes the settings; a "qr" with a code stores and shows it and sets the session connecting; a "qr" without one changes nothing; "error" or a throw sets the session in error with the reported or default message; the spinner always ends off and the global settings change only on "connected" |
| Settings.SettingsPanel.BaileysLogout | components/Settings.tsx:83-96 | Success sets the session disconnected, clears the stored QR code and publishes the settings; a throw keeps both settings and records the reported or default message; the spinner ends off |
| Settings.SessionText | components/Settings.tsx:98-104 | The badge reads "Disconnected" exactly for a missing or disconnected session, and "Connected" exactly for a connected one |
| Dashboard.CampaignData | components/Dashboard.tsx:25-29 | One bar per campaign, in order, with its own `Sent` and `Failed` counts |
| Dashboard.TotalsMatchBars | components/Dashboard.tsx:22-29 | Each card's total is the sum of its bars |
| Dashboard.DashboardVsHistory | components/Dashboard.tsx:22-23 | The dashboard counts only `Sent`, so the history's green counters exceed it by the `Delivered` and `Read` logs; the two cards never exceed the number of logs |
| Dashboard.Total | components/Dashboard.tsx:22-23 | The `reduce` over the campaigns adds each campaign's count of logs with the status (proved by TotalsMatchBars) |
| Dashboard.TotalSent | components/Dashboard.tsx:22 | The total of `Sent` logs over all campaigns (proved by TotalsMatchBars, DashboardVsHistory) |
| Dashboard.TotalFailed | components/Dashboard.tsx:23 | The total of `Failed` logs over all campaigns (proved by TotalsMatchBars) |

## Left out

- Network I/O: the `fetch` calls of both transports, `services/baileysService.ts` and `services/fonnteService.ts`. They are an oracle answering each request in each iteration. The request sent (endpoint, headers, number, text, attachment) is modelled. The multipart body and the data-URL conversion of `dataUrlToFile` are not.
- IndexedDB (`services/dbService.ts`): `getFile` is a map from file id to payload.
- Time and randomness: these are parameters, and nothing is proved about their values.
  - the anti-ban `setTimeout` and its `Math.random` jitter: a pause event carries the configured delay;
  - the scheduler's `setInterval`: one tick is modelled;
  - `Date.now()`, `new Date()` and `toISOString()`;
  - the random `fetchStatus`: an oracle that may also throw;
  - `Math.random()` in imported contact ids: an id function.
- Concurrency: overlapping scheduler ticks or a tick beside a manual send could dispatch a campaign twice. A sequential model cannot show this. `App.NotDueAfterPublish` states only that a published dispatch is no longer due.
- CampaignService.Render: the custom-field keys become a `RegExp`, and `$` patterns in replacement values are special. The model assumes literal keys and values, so the replacement is a literal global replace.
- The deep copy `JSON.parse(JSON.stringify(campaign))`: it is a fresh array of the same values. Date fields turning into strings is not modelled.
- `alert`, `addNotification`, `console` and `window.confirm` dialogs: the alert is the last trace event, and a confirmation is an input.
- CampaignService.Transmit: a JavaScript value in `provider` other than the two strings counts as Fonnte, as in the code. The union type of `types.ts` is not enforced.
- Settings.ApplyChange: an anti-ban key other than `delay` or `quota` is dropped rather than added, and text inputs named `antiBan.*` are not modelled (every anti-ban input of the page is a number input). An unknown top-level name is ignored rather than added as a new field.
- Settings.SettingsPanel.Save: the two-second `setTimeout` that resets the saved flag is not modelled.
- The auto-reply bot's on/off switch (`handleToggleBot`) is a one-field update with a notification. It is not modelled.
- The draft defaults of the campaign form's `useEffect`: they are a `DraftCampaign` with its defaults filled in.
- `updateDraft`'s clearing of one error entry: this is display state of the form and is not modelled.
- Contacts.ChangeFieldKey: renaming a key the object lacks copies `undefined`. The model writes "" there.
- Contacts.Cell: a missing CSV cell (`values[i]?.trim()` of `undefined`) is read as "". Both are falsy, and a missing name or number skips the row either way, but an absent group or custom cell stays `undefined` in the code.
- Types.Fields: object keys keep insertion order. JavaScript's ordering of integer-like keys first is not modelled.
- Strings.ToLower: only ASCII letters are folded. Unicode case mapping is not modelled.
- CampaignService.CampaignCopy.Snapshot: each snapshot handed to `updateCampaignCallback({...campaignCopy})` (`services/campaignService.ts:93, 108, 150, 159`) is a shallow spread, so in the code every snapshot shares the copy's log array and log objects, and a later in-place update of a log shows through snapshots published earlier. The model's snapshots (the `Published` events) are frozen values taken at the moment of publishing; the aliasing is not modelled.
- Strings.ParseInt: the result is an unbounded integer. JavaScript's `parseInt` yields a double, which loses precision above 2^53; that rounding is not modelled, and neither is it in Settings.NumberOf, which uses it.
- CampaignService.DispatchReports: it assumes a transport whose bodies are `JSON.stringify` text and whose thrown errors carry a message. A transport that throws `new Error("")` leaves a `Failed` log whose error is "" (the `catch` records `error.message` as it is), and the lemma says nothing about that log.
- The XLSX template download, the file upload's `FileReader`, and the pages for file management, logs, QR code and toasts: these are pure UI or browser I/O.
- The AI features (`services/geminiService.ts`, `components/SmartReply.tsx`): not modelled.

## Findings

| source | as written | input that shows it | evidently intended | confidence | as-written member | corrected member |
|---|---|---|---|---|---|---|
| components/CampaignCreator.tsx:273 | `const { sentCount, failedCount } = await sendCampaign(...)` destructures the result of a function that returns nothing | any manual, unscheduled campaign: the promise resolves to `undefined`, so destructuring throws a TypeError: no completion notice is shown and the promise rejection goes uncaught (the form itself was already replaced by the history at :258, and the dispatch's own `alert` still appears) | report the counts the dispatch computed in the completion notice | not executed | CampaignCreator.FinishAsWritten, CampaignCreator.AsWrittenNeverReports | CampaignCreator.FinishWithCounts, CampaignCreator.FinishReportsDispatch |
| components/Contacts.tsx:202-208 | the header checkbox compares `selectedContacts.length` with `filteredContacts.length` | select contact "a", then search so that only contact "b" is shown: the box shows checked, and a click clears the selection instead of selecting "b" | all shown contacts selected, as the picker's `isAllFilteredSelected` tests | not executed | Contacts.ToggleSelectAllAsWritten, Contacts.ToggleSelectAllSizeOnly | Contacts.ToggleSelectAll, Contacts.ToggleSelectAllSelectsShown |
