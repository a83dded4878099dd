/**
 * The campaign creation form (components/CampaignCreator.tsx): matching
 * files to the chosen contacts, validating the draft, building the new
 * campaign with one log per recipient, the map of per-contact files handed
 * to the dispatch, the formatting and variable-insertion edits of the
 * message text, the list of custom-field keys offered as variables, and
 * what happens once a manual dispatch returns.
 */
module CampaignCreator {
  import opened Wrappers
  import opened Strings
  import opened Types
  import opened OrderedSets
  import CampaignService
  import Campaigns

  // ------------------------------------------------------------------
  // File auto-match (components/CampaignCreator.tsx:94-109)
  // ------------------------------------------------------------------

  /** A contact paired with the file chosen for it. */
  datatype FileMatch = FileMatch(contactId: string, file: ManagedFile)

  /** The file's lower-cased name contains the contact's lower-cased name. */
  predicate NameMatches(file: ManagedFile, contact: Contact) {
    Contains(ToLower(file.name), ToLower(contact.name))
  }

  /** The position of the first matching file, `|files|` when none matches. */
  function FirstMatch(files: seq<ManagedFile>, contact: Contact): (k: nat)
    ensures k <= |files|
    ensures k < |files| ==> NameMatches(files[k], contact)
    ensures forall j :: 0 <= j < k ==> !NameMatches(files[j], contact)
    decreases |files|
  {
    if |files| == 0 then 0
    else if NameMatches(files[0], contact) then 0
    else
      var k := FirstMatch(files[1..], contact);
      assert forall j :: 1 <= j < k + 1 ==> files[j] == files[1..][j - 1];
      k + 1
  }

  /** `managedFiles.find(...)`. */
  function BestMatch(files: seq<ManagedFile>, contact: Contact): Option<ManagedFile> {
    var k := FirstMatch(files, contact);
    if k < |files| then Some(files[k]) else None
  }

  /**
   * The pairs the `forEach` pushes, in the order of the chosen contacts,
   * for a given way `best` of picking a contact's file.
   */
  function MatchWith(chosen: seq<Contact>, best: Contact -> Option<ManagedFile>): seq<FileMatch>
    decreases |chosen|
  {
    if |chosen| == 0 then []
    else
      var m := best(chosen[|chosen| - 1]);
      var prior := MatchWith(chosen[..|chosen| - 1], best);
      if m.Some? then prior + [FileMatch(chosen[|chosen| - 1].id, m.value)] else prior
  }

  /** The pairs of the auto-match, picking each contact's first matching file. */
  function MatchAll(chosen: seq<Contact>, files: seq<ManagedFile>): seq<FileMatch> {
    MatchWith(chosen, c => BestMatch(files, c))
  }

  /** The effect body in file mode: filter the chosen contacts, then push one pair per matched contact. */
  method AutoMatch(contacts: seq<Contact>, selected: seq<string>, files: seq<ManagedFile>)
    returns (matched: seq<FileMatch>)
    ensures matched == MatchAll(ContactsWithIds(contacts, selected), files)
  {
    var chosen := ContactsWithIds(contacts, selected);
    ghost var best := c => BestMatch(files, c);
    matched := [];
    var i := 0;
    while i < |chosen|
      invariant 0 <= i <= |chosen|
      invariant matched == MatchWith(chosen[..i], best)
    {
      assert chosen[..i + 1][..i] == chosen[..i];
      var file := BestMatch(files, chosen[i]);
      if file.Some? {
        matched := matched + [FileMatch(chosen[i].id, file.value)];
      }
      i := i + 1;
    }
    assert chosen[..i] == chosen;
  }

  /** The contact ids of a list of pairs. */
  function MatchedIds(matched: seq<FileMatch>): seq<string> {
    seq(|matched|, i requires 0 <= i < |matched| => matched[i].contactId)
  }

  lemma {:induction false} MatchWithMembers(chosen: seq<Contact>, best: Contact -> Option<ManagedFile>, m: FileMatch)
    ensures m in MatchWith(chosen, best) <==> exists c :: c in chosen && m.contactId == c.id && best(c) == Some(m.file)
    decreases |chosen|
  {
    if |chosen| > 0 {
      var last := chosen[|chosen| - 1];
      var init := chosen[..|chosen| - 1];
      MatchWithMembers(init, best, m);
      assert chosen == init + [last];
      assert forall c :: c in chosen <==> c in init || c == last;
    }
  }

  /**
   * Every pair names a chosen contact and that contact's first matching
   * file, and every chosen contact with a matching file has its pair.
   */
  lemma MatchAllMembers(chosen: seq<Contact>, files: seq<ManagedFile>, m: FileMatch)
    ensures m in MatchAll(chosen, files) <==>
              exists c :: c in chosen && m.contactId == c.id && BestMatch(files, c) == Some(m.file)
  {
    MatchWithMembers(chosen, c => BestMatch(files, c), m);
  }

  /** A chosen contact with no matching file has no pair (when no other chosen contact shares its id). */
  lemma UnmatchedAbsent(chosen: seq<Contact>, files: seq<ManagedFile>, c: Contact)
    requires c in chosen && BestMatch(files, c).None?
    requires forall d :: d in chosen && d.id == c.id ==> d == c
    ensures c.id !in MatchedIds(MatchAll(chosen, files))
  {
    var matched := MatchAll(chosen, files);
    if c.id in MatchedIds(matched) {
      var i :| 0 <= i < |matched| && MatchedIds(matched)[i] == c.id;
      MatchAllMembers(chosen, files, matched[i]);
    }
  }

  lemma {:induction false} MatchWithDistinct(chosen: seq<Contact>, best: Contact -> Option<ManagedFile>)
    requires forall i, j :: 0 <= i < j < |chosen| ==> chosen[i].id != chosen[j].id
    ensures NoDuplicates(MatchedIds(MatchWith(chosen, best)))
    decreases |chosen|
  {
    if |chosen| > 0 {
      var last := chosen[|chosen| - 1];
      var init := chosen[..|chosen| - 1];
      MatchWithDistinct(init, best);
      var prior := MatchWith(init, best);
      if best(last).Some? {
        forall i | 0 <= i < |prior|
          ensures prior[i].contactId != last.id
        {
          MatchWithMembers(init, best, prior[i]);
          var c :| c in init && prior[i].contactId == c.id && best(c) == Some(prior[i].file);
          var j :| 0 <= j < |init| && init[j] == c;
          assert chosen[j] == c;
        }
        var r := MatchWith(chosen, best);
        assert r == prior + [FileMatch(last.id, best(last).value)];
        assert forall i :: 0 <= i < |prior| ==> MatchedIds(r)[i] == MatchedIds(prior)[i];
      }
    }
  }

  /** Chosen contacts with distinct ids get at most one pair each. */
  lemma MatchAllDistinct(chosen: seq<Contact>, files: seq<ManagedFile>)
    requires forall i, j :: 0 <= i < j < |chosen| ==> chosen[i].id != chosen[j].id
    ensures NoDuplicates(MatchedIds(MatchAll(chosen, files)))
  {
    MatchWithDistinct(chosen, c => BestMatch(files, c));
  }

  // ------------------------------------------------------------------
  // Validation (components/CampaignCreator.tsx:196-211)
  // ------------------------------------------------------------------

  const NameRequired: string := "Campaign name is required."
  const MessageRequired: string := "Message cannot be empty."
  const NumberRequired: string := "Recipient number is required."
  const ContactsRequired: string := "Please select at least one contact."

  /** The error object for the four checks' outcomes, in the order `validateForm` makes them. */
  function FormErrors(nameBlank: bool, messageBlank: bool, numberMissing: bool, noContacts: bool): (errors: Fields)
    ensures ("name", NameRequired) in errors <==> nameBlank
    ensures ("message", MessageRequired) in errors <==> messageBlank
    ensures ("singleNumber", NumberRequired) in errors <==> numberMissing
    ensures ("selectedContacts", ContactsRequired) in errors <==> noContacts
    ensures forall e :: e in errors ==>
              e in [("name", NameRequired), ("message", MessageRequired), ("singleNumber", NumberRequired),
                    ("selectedContacts", ContactsRequired)]
    ensures DistinctKeys(errors)
  {
    var errors := Entry(nameBlank, ("name", NameRequired)) + Entry(messageBlank, ("message", MessageRequired)) +
                  Entry(numberMissing, ("singleNumber", NumberRequired)) +
                  Entry(noContacts, ("selectedContacts", ContactsRequired));
    EntriesDistinct(nameBlank, messageBlank, numberMissing, noContacts, ("name", NameRequired),
                    ("message", MessageRequired), ("singleNumber", NumberRequired),
                    ("selectedContacts", ContactsRequired));
    errors
  }

  /** The entry a check adds when it fails. */
  function Entry(failed: bool, entry: (string, string)): Fields {
    if failed then [entry] else []
  }

  lemma EntriesDistinct(b1: bool, b2: bool, b3: bool, b4: bool,
                        e1: (string, string), e2: (string, string), e3: (string, string), e4: (string, string))
    requires e1.0 != e2.0 && e1.0 != e3.0 && e1.0 != e4.0 && e2.0 != e3.0 && e2.0 != e4.0 && e3.0 != e4.0
    ensures DistinctKeys(Entry(b1, e1) + Entry(b2, e2) + Entry(b3, e3) + Entry(b4, e4))
  {
  }

  /**
   * `validateForm`: an error for a blank name, a blank message, and a blank
   * number (single mode) or an empty selection (the other modes), and no
   * other entry.
   */
  function ValidateForm(mode: SendMode, draft: DraftCampaign): (errors: Fields)
    ensures ("name", NameRequired) in errors <==> IsBlank(draft.name)
    ensures ("message", MessageRequired) in errors <==> IsBlank(draft.message)
    ensures ("singleNumber", NumberRequired) in errors <==> mode == Single && IsBlank(draft.singleNumber)
    ensures ("selectedContacts", ContactsRequired) in errors <==> mode != Single && |draft.selectedContacts| == 0
    ensures forall e :: e in errors ==>
              e in [("name", NameRequired), ("message", MessageRequired), ("singleNumber", NumberRequired),
                    ("selectedContacts", ContactsRequired)]
    ensures DistinctKeys(errors)
  {
    FormErrors(IsBlank(draft.name), IsBlank(draft.message), mode == Single && IsBlank(draft.singleNumber),
               mode != Single && |draft.selectedContacts| == 0)
  }

  /** The form is valid exactly when no check fails. */
  predicate FormValid(mode: SendMode, draft: DraftCampaign) {
    |ValidateForm(mode, draft)| == 0
  }

  /** Validity spelled out: a name, a message, and a number (single) or a non-empty selection (bulk, file). */
  lemma FormValidIff(mode: SendMode, draft: DraftCampaign)
    ensures FormValid(mode, draft) <==>
              !IsBlank(draft.name) && !IsBlank(draft.message) &&
              (mode == Single ==> !IsBlank(draft.singleNumber)) &&
              (mode != Single ==> |draft.selectedContacts| > 0)
  {
    var errors := ValidateForm(mode, draft);
    if |errors| > 0 {
      assert errors[0] in errors;
    }
  }

  // ------------------------------------------------------------------
  // Building the campaign (components/CampaignCreator.tsx:213-256)
  // ------------------------------------------------------------------

  const ScheduleInvalid: string := "Invalid schedule date or time."
  const NoMatchingFile: string := "No matching file found in File Manager"

  /**
   * What the form reads from the browser: `Date.now()`, the ISO stamp
   * `new Date().toISOString()` gives the log built `i`-th, and
   * `new Date(text).getTime()` (`None` for an invalid date).
   */
  datatype Clock = Clock(nowMs: nat, stamp: nat -> string, parseDate: string -> Option<int>)

  /** The recipients: the one ad-hoc number in single mode, the chosen directory contacts otherwise. */
  function Recipients(mode: SendMode, draft: DraftCampaign, contacts: seq<Contact>): (r: seq<Contact>)
    ensures mode == Single ==> r == [Contact("single", "Recipient", draft.singleNumber, "Single", [])]
    ensures mode != Single ==> r == ContactsWithIds(contacts, draft.selectedContacts)
  {
    if mode == Single then [Contact("single", "Recipient", draft.singleNumber, "Single", [])]
    else ContactsWithIds(contacts, draft.selectedContacts)
  }

  /** The schedule requested: set only when scheduling with both a date and a time. */
  function ScheduleOf(draft: DraftCampaign, clock: Clock): Result<Option<int>, string> {
    if draft.isScheduling && draft.scheduleDate != "" && draft.scheduleTime != "" then
      match clock.parseDate(draft.scheduleDate + "T" + draft.scheduleTime)
      case Some(ms) => Ok(Some(ms))
      case None => Err(ScheduleInvalid)
    else Ok(None)
  }

  /** The log of the `i`-th recipient; in file mode an unmatched contact is failed before any send. */
  function InitialLog(mode: SendMode, matchedIds: seq<string>, c: Contact, stamp: string): MessageLog {
    if mode == FilePerContact && c.id !in matchedIds then MessageLog(c, Failed, stamp, Some(NoMatchingFile), None)
    else MessageLog(c, Pending, stamp, None, None)
  }

  function InitialLogs(mode: SendMode, matchedIds: seq<string>, recipients: seq<Contact>, stamp: nat -> string)
    : seq<MessageLog>
  {
    seq(|recipients|, i requires 0 <= i < |recipients| => InitialLog(mode, matchedIds, recipients[i], stamp(i)))
  }

  /** The outcome of pressing "create": the form's errors, or the new campaign. */
  datatype Creation = Rejected(errors: Fields) | Created(campaign: Campaign)

  function CreateCampaign(mode: SendMode, draft: DraftCampaign, contacts: seq<Contact>,
                          matched: seq<FileMatch>, clock: Clock): (r: Creation)
    ensures !FormValid(mode, draft) ==> r == Rejected(ValidateForm(mode, draft))
    ensures FormValid(mode, draft) && ScheduleOf(draft, clock).Err? ==> r == Rejected([("schedule", ScheduleInvalid)])
    ensures r.Created? <==> FormValid(mode, draft) && ScheduleOf(draft, clock).Ok?
  {
    if !FormValid(mode, draft) then Rejected(ValidateForm(mode, draft))
    else
      match ScheduleOf(draft, clock)
      case Err(e) => Rejected([("schedule", e)])
      case Ok(schedule) =>
        var recipients := Recipients(mode, draft, contacts);
        Created(Campaign(
          "camp_" + NatToString(clock.nowMs),
          draft.name, draft.message, ContactIds(recipients), schedule, clock.nowMs,
          if schedule.Some? then Scheduled else Draft,
          InitialLogs(mode, MatchedIds(matched), recipients, clock.stamp),
          if mode != FilePerContact then draft.attachment else None))
  }

  /**
   * A created campaign has one log per recipient, in recipient order, the
   * recipients' ids as its contacts, and no send recorded yet.
   */
  lemma CreatedLogs(mode: SendMode, draft: DraftCampaign, contacts: seq<Contact>,
                    matched: seq<FileMatch>, clock: Clock, i: nat)
    requires CreateCampaign(mode, draft, contacts, matched, clock).Created?
    ensures var c := CreateCampaign(mode, draft, contacts, matched, clock).campaign;
            var recipients := Recipients(mode, draft, contacts);
            |c.logs| == |recipients| == |c.contacts| &&
            (i < |c.logs| ==> c.logs[i].contact == recipients[i] && c.contacts[i] == recipients[i].id &&
                              c.logs[i].apiMessageId.None? && c.logs[i].timestamp == clock.stamp(i))
  {
    var c := CreateCampaign(mode, draft, contacts, matched, clock).campaign;
    var recipients := Recipients(mode, draft, contacts);
    assert c.logs == InitialLogs(mode, MatchedIds(matched), recipients, clock.stamp);
    if i < |c.logs| {
      assert c.logs[i] == InitialLog(mode, MatchedIds(matched), recipients[i], clock.stamp(i));
    }
  }

  /**
   * In file mode a log is `Pending` exactly when its contact has a file and
   * is otherwise failed with the missing-file message; in the other modes
   * every log is `Pending` with no error.
   */
  lemma CreatedLogStatus(mode: SendMode, draft: DraftCampaign, contacts: seq<Contact>,
                         matched: seq<FileMatch>, clock: Clock, i: nat)
    requires CreateCampaign(mode, draft, contacts, matched, clock).Created?
    requires i < |CreateCampaign(mode, draft, contacts, matched, clock).campaign.logs|
    ensures var log := CreateCampaign(mode, draft, contacts, matched, clock).campaign.logs[i];
            var hasFile := log.contact.id in MatchedIds(matched);
            (mode == FilePerContact ==> (log.status == Pending <==> hasFile)) &&
            (mode == FilePerContact && !hasFile ==> log.status == Failed && log.error == Some(NoMatchingFile)) &&
            (mode != FilePerContact || hasFile ==> log.status == Pending && log.error.None?)
  {
    var c := CreateCampaign(mode, draft, contacts, matched, clock).campaign;
    var recipients := Recipients(mode, draft, contacts);
    assert c.logs == InitialLogs(mode, MatchedIds(matched), recipients, clock.stamp);
    assert c.logs[i] == InitialLog(mode, MatchedIds(matched), recipients[i], clock.stamp(i));
  }

  /**
   * A created campaign is `Scheduled` exactly when it has a schedule and a
   * `Draft` otherwise, and carries the draft's attachment only outside file
   * mode.
   */
  lemma CreatedStatus(mode: SendMode, draft: DraftCampaign, contacts: seq<Contact>,
                      matched: seq<FileMatch>, clock: Clock)
    requires CreateCampaign(mode, draft, contacts, matched, clock).Created?
    ensures var c := CreateCampaign(mode, draft, contacts, matched, clock).campaign;
            (c.status == Scheduled <==> c.schedule.Some?) && (c.status == Draft <==> c.schedule.None?) &&
            (c.schedule.Some? <==> draft.isScheduling && draft.scheduleDate != "" && draft.scheduleTime != "") &&
            c.attachment == (if mode == FilePerContact then None else draft.attachment) &&
            c.name == draft.name && c.message == draft.message
  {
  }

  // ------------------------------------------------------------------
  // The per-contact file map (components/CampaignCreator.tsx:268-271)
  // ------------------------------------------------------------------

  /** The map the `reduce` builds: a later pair for the same contact overwrites an earlier one. */
  function FileMap(matched: seq<FileMatch>): map<string, ManagedFile>
    decreases |matched|
  {
    if |matched| == 0 then map[]
    else FileMap(matched[..|matched| - 1])[matched[|matched| - 1].contactId := matched[|matched| - 1].file]
  }

  /** The `reduce` as the loop it is: the accumulator is updated entry by entry. */
  method ContactFilesMap(matched: seq<FileMatch>) returns (acc: map<string, ManagedFile>)
    ensures acc == FileMap(matched)
  {
    acc := map[];
    for i := 0 to |matched|
      invariant acc == FileMap(matched[..i])
    {
      assert matched[..i + 1][..i] == matched[..i];
      acc := acc[matched[i].contactId := matched[i].file];
    }
    assert matched[..|matched|] == matched;
  }

  /** The map holds exactly the matched contacts' ids. */
  lemma {:induction false} FileMapKeys(matched: seq<FileMatch>)
    ensures FileMap(matched).Keys == set i | 0 <= i < |matched| :: matched[i].contactId
    decreases |matched|
  {
    if |matched| > 0 {
      var init := matched[..|matched| - 1];
      FileMapKeys(init);
      assert forall i :: 0 <= i < |init| ==> init[i] == matched[i];
    }
  }

  /** A contact's file is the one of its last pair. */
  lemma {:induction false} FileMapLast(matched: seq<FileMatch>, k: nat)
    requires k < |matched|
    requires forall j :: k < j < |matched| ==> matched[j].contactId != matched[k].contactId
    ensures matched[k].contactId in FileMap(matched) && FileMap(matched)[matched[k].contactId] == matched[k].file
    decreases |matched|
  {
    if k < |matched| - 1 {
      var init := matched[..|matched| - 1];
      assert init[k] == matched[k];
      FileMapLast(init, k);
    }
  }

  // ------------------------------------------------------------------
  // Message editing (components/CampaignCreator.tsx:111-154)
  // ------------------------------------------------------------------

  datatype Format = Bold | Italic | Strike | Mono

  function FormatMarker(f: Format): string {
    match f
    case Bold => "*"
    case Italic => "_"
    case Strike => "~"
    case Mono => "```"
  }

  /** A new message text and the selection the textarea is given after it. */
  datatype Edit = Edit(message: string, selectionStart: nat, selectionEnd: nat)

  /** Wrap the selection in the format's marker; an empty selection changes nothing. */
  function HandleFormat(message: string, start: nat, end: nat, f: Format): (r: Option<Edit>)
    ensures r.None? <==> start == end
  {
    if start == end then None
    else
      var marker := FormatMarker(f);
      Some(Edit(Substring(message, 0, start) + marker + Substring(message, start, end) + marker +
                SubstringFrom(message, end),
                start + |marker|, end + |marker|))
  }

  /**
   * Within the text, formatting a non-empty selection puts one marker on
   * each side of it, keeps the text before and after, grows the text by two
   * markers, and leaves the new selection over the same selected text.
   */
  lemma FormatWraps(message: string, start: nat, end: nat, f: Format)
    requires start < end <= |message|
    ensures var e := HandleFormat(message, start, end, f).value;
            var marker := FormatMarker(f);
            e.message == message[..start] + marker + message[start..end] + marker + message[end..] &&
            |e.message| == |message| + 2 * |marker| &&
            e.selectionEnd <= |e.message| &&
            e.message[e.selectionStart..e.selectionEnd] == message[start..end] &&
            e.message[e.selectionStart - |marker|..e.selectionStart] == marker &&
            e.message[e.selectionEnd..e.selectionEnd + |marker|] == marker
  {
    var marker := FormatMarker(f);
    var before, sel, after := message[..start], message[start..end], message[end..];
    assert message == before + sel + after;
    WrapSlices(before, marker, sel, after);
  }

  /** The pieces of `before + marker + sel + marker + after`, by position. */
  lemma WrapSlices(before: string, marker: string, sel: string, after: string)
    ensures var w := before + marker + sel + marker + after;
            var a := |before| + |marker|;
            var b := a + |sel|;
            |w| == |before| + |sel| + |after| + 2 * |marker| &&
            w[a..b] == sel && w[a - |marker|..a] == marker && b + |marker| <= |w| && w[b..b + |marker|] == marker
  {
    var w := before + marker + sel + marker + after;
    var a := |before| + |marker|;
    var b := a + |sel|;
    assert w == (before + marker) + sel + (marker + after);
    assert w[a..b] == sel;
    assert w[a - |marker|..a] == marker;
    assert w == (before + marker + sel) + marker + after;
    assert w[b..b + |marker|] == marker;
  }

  /** Replace the selection by the variable and put the cursor right after it. */
  function InsertVariable(message: string, start: nat, end: nat, variable: string): Edit {
    Edit(Substring(message, 0, start) + variable + SubstringFrom(message, end),
         start + |variable|, start + |variable|)
  }

  /**
   * Within the text, the variable takes the place of the selection, the
   * text before and after is kept, and the cursor ends right after the
   * variable.
   */
  lemma InsertReplacesSelection(message: string, start: nat, end: nat, variable: string)
    requires start <= end <= |message|
    ensures var e := InsertVariable(message, start, end, variable);
            e.message == message[..start] + variable + message[end..] &&
            |e.message| == |message| - (end - start) + |variable| &&
            e.selectionStart == e.selectionEnd == start + |variable| &&
            e.message[..start] == message[..start] &&
            e.message[start..e.selectionEnd] == variable &&
            e.message[e.selectionEnd..] == message[end..]
  {
    var e := InsertVariable(message, start, end, variable);
    assert e.message == message[..start] + variable + message[end..];
  }

  // ------------------------------------------------------------------
  // Custom-field variables (components/CampaignCreator.tsx:284-292)
  // ------------------------------------------------------------------

  /** Every key of every contact, each once, in order of first appearance. */
  function CustomKeys(contacts: seq<Contact>): seq<string>
    decreases |contacts|
  {
    if |contacts| == 0 then []
    else AddAll(CustomKeys(contacts[..|contacts| - 1]), Keys(contacts[|contacts| - 1].customFields))
  }

  /** The `forEach` over the contacts and, inside it, over each contact's keys. */
  method AllCustomFields(contacts: seq<Contact>) returns (keys: seq<string>)
    ensures keys == CustomKeys(contacts)
  {
    keys := [];
    for i := 0 to |contacts|
      invariant keys == CustomKeys(contacts[..i])
    {
      assert contacts[..i + 1][..i] == contacts[..i];
      var fieldKeys := Keys(contacts[i].customFields);
      ghost var start := keys;
      for j := 0 to |fieldKeys|
        invariant keys == AddAll(start, fieldKeys[..j])
      {
        AddAllSnoc(start, fieldKeys[..j], fieldKeys[j]);
        assert fieldKeys[..j + 1] == fieldKeys[..j] + [fieldKeys[j]];
        keys := Add(keys, fieldKeys[j]);
      }
      assert fieldKeys[..|fieldKeys|] == fieldKeys;
    }
    assert contacts[..|contacts|] == contacts;
  }

  /** Adding one more element at the end of what is added. */
  lemma {:induction false} AddAllSnoc(xs: seq<string>, ys: seq<string>, y: string)
    ensures AddAll(xs, ys + [y]) == Add(AddAll(xs, ys), y)
    decreases |ys|
  {
    if |ys| == 0 {
      assert [y][1..] == [];
    } else {
      assert (ys + [y])[1..] == ys[1..] + [y];
      AddAllSnoc(Add(xs, ys[0]), ys[1..], y);
    }
  }

  /** The offered variables are duplicate-free and are exactly the keys some contact has. */
  lemma {:induction false} CustomKeysUnion(contacts: seq<Contact>, key: string)
    ensures NoDuplicates(CustomKeys(contacts))
    ensures key in CustomKeys(contacts) <==> exists i :: 0 <= i < |contacts| && key in Keys(contacts[i].customFields)
    decreases |contacts|
  {
    if |contacts| > 0 {
      var init := contacts[..|contacts| - 1];
      CustomKeysUnion(init, key);
      AddAllSpec(CustomKeys(init), Keys(contacts[|contacts| - 1].customFields));
      assert forall i :: 0 <= i < |init| ==> init[i] == contacts[i];
    }
  }

  // ------------------------------------------------------------------
  // After a manual dispatch (components/CampaignCreator.tsx:258-280)
  // ------------------------------------------------------------------

  /** A toast: its kind, title and text. */
  datatype Notification = Notification(kind: string, title: string, message: string)

  /** What `await sendCampaign(...)` evaluates to: the dispatch's promise resolves to `undefined`. */
  datatype Resolved = Undefined | Counts(sentCount: nat, failedCount: nat)

  /** `sendCampaign` returns nothing (services/campaignService.ts:163). */
  const SendCampaignResolves: Resolved := Undefined

  /** The form's state once the handler has run to its end or thrown. */
  datatype Finish = Finish(notification: Option<Notification>, isSending: bool, threw: bool)

  function CompletedNotice(name: string, sentCount: nat, failedCount: nat): Notification {
    Notification(if failedCount > 0 then "warning" else "success",
                 "Kampanye \"" + name + "\" Selesai",
                 "Hasil: " + NatToString(sentCount) + " terkirim, " + NatToString(failedCount) + " gagal.")
  }

  /**
   * `onAddCampaign(campaign)` runs before the dispatch: a created campaign
   * is `Draft` or `Scheduled`, so the page clears the draft and switches to
   * the history, and the form is no longer shown when the dispatch ends.
   */
  lemma CreatedLeavesForm(mode: SendMode, draft: DraftCampaign, contacts: seq<Contact>,
                          matched: seq<FileMatch>, clock: Clock, page: Campaigns.Page)
    requires CreateCampaign(mode, draft, contacts, matched, clock).Created?
    ensures var after := Campaigns.HandleAddCampaign(page, CreateCampaign(mode, draft, contacts, matched, clock).campaign);
            after.view == Campaigns.HistoryView && after.draft.None?
  {
    CreatedStatus(mode, draft, contacts, matched, clock);
  }

  /**
   * The handler's last step as written: destructuring `{sentCount,
   * failedCount}` out of the value `sendCampaign` resolved to. On
   * `undefined` this throws a TypeError: no completion notice is added and
   * the handler's promise rejects with nobody to catch it. The `isSending`
   * it leaves set is never seen, since by then the form has given way to
   * the history (`CreatedLeavesForm`); the dispatch's own alert still shows.
   */
  function FinishAsWritten(name: string, resolved: Resolved): (r: Finish)
    ensures resolved.Undefined? ==> r.threw && r.notification.None? && r.isSending
  {
    match resolved
    case Undefined => Finish(None, true, true)
    case Counts(sent, failed) => Finish(Some(CompletedNotice(name, sent, failed)), false, false)
  }

  /** With the dispatch as it is, the as-written handler always throws and never shows the completion notice. */
  lemma AsWrittenNeverReports(name: string)
    ensures FinishAsWritten(name, SendCampaignResolves) == Finish(None, true, true)
  {
  }

  /**
   * The intended last step: report the counts the dispatch computed from
   * its final logs without throwing (the reset of `isSending` that follows
   * is moot once the form is gone).
   */
  function FinishWithCounts(job: CampaignService.Job): (r: Finish)
    ensures !r.threw && !r.isSending && r.notification.Some?
  {
    var logs := CampaignService.FinalLogs(job);
    Finish(Some(CompletedNotice(job.campaign.name, CountStatus(logs, Sent), CountStatus(logs, Failed))), false, false)
  }

  /**
   * The corrected report carries the counts of the dispatch's closing
   * alert, and it is a warning exactly when some log failed.
   */
  lemma FinishReportsDispatch(job: CampaignService.Job)
    ensures var d := CampaignService.Dispatch(job);
            var alert := d[|d| - 1];
            var notice := FinishWithCounts(job).notification.value;
            notice == CompletedNotice(job.campaign.name, alert.sentCount, alert.failedCount) &&
            (notice.kind == "warning" <==> alert.failedCount > 0)
  {
    CampaignService.DispatchShape(job);
  }
}
