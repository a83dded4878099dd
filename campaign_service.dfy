/**
 * The campaign dispatch engine (services/campaignService.ts): template
 * rendering, attachment choice, provider gating, the two transports'
 * response classification and the sequential per-recipient loop of
 * `sendCampaign` over a copy of the campaign.
 *
 * The network, the attachment store and the clock are the `Env` oracle:
 * a transport answers a request (given the iteration it is made in), the
 * store maps a file id to its base64 payload, and the clock gives the
 * milliseconds and the ISO stamp of each iteration.
 */
module CampaignService {
  import opened Wrappers
  import opened Strings
  import opened Types

  // ------------------------------------------------------------------
  // Template rendering (services/campaignService.ts:111-119)
  // ------------------------------------------------------------------

  const NamePlaceholder: string := "{{nama}}"
  const GroupPlaceholder: string := "{{group}}"

  lemma BuiltInPlaceholders()
    ensures NamePlaceholder == Placeholder("nama") && GroupPlaceholder == Placeholder("group")
    ensures NoBraces("nama") && NoBraces("group")
  {
  }

  /** The placeholder a custom field `key` is substituted for. */
  function Placeholder(key: string): string {
    "{{" + key + "}}"
  }

  /** One global replacement per custom-field entry, in entry order. */
  function ApplyFields(message: string, fields: Fields): string
    decreases |fields|
  {
    if |fields| == 0 then message
    else ApplyFields(ReplaceAll(message, Placeholder(fields[0].0), fields[0].1), fields[1..])
  }

  /** The personalised message: name first, then group, then the custom fields. */
  function Render(template: string, contact: Contact): string {
    ApplyFields(ReplaceAll(ReplaceAll(template, NamePlaceholder, contact.name), GroupPlaceholder, contact.group),
                contact.customFields)
  }

  /** The rendering statement sequence, with its `forEach` over the custom fields. */
  method Personalize(template: string, contact: Contact) returns (message: string)
    ensures message == Render(template, contact)
  {
    message := ReplaceAll(template, NamePlaceholder, contact.name);
    message := ReplaceAll(message, GroupPlaceholder, contact.group);
    var fields := contact.customFields;
    var i := 0;
    while i < |fields|
      invariant 0 <= i <= |fields|
      invariant ApplyFields(message, fields[i..]) == Render(template, contact)
    {
      assert fields[i..][1..] == fields[i + 1..];
      message := ReplaceAll(message, Placeholder(fields[i].0), fields[i].1);
      i := i + 1;
    }
    assert fields[i..] == [];
  }

  /** A key with no brace characters. */
  predicate NoBraces(key: string) {
    forall i :: 0 <= i < |key| ==> key[i] != '{' && key[i] != '}'
  }

  lemma PlaceholderStartsOpen(key: string)
    ensures StartsWith(Placeholder(key), "{{")
  {
    assert Placeholder(key)[..2] == "{{";
  }

  /** Text without "{{" holds no placeholder of any key. */
  lemma NoOpenBraces(s: string, key: string)
    requires !Contains(s, "{{")
    ensures !Contains(s, Placeholder(key))
  {
    PlaceholderStartsOpen(key);
    if Contains(s, Placeholder(key)) {
      ContainsPrefix(s, Placeholder(key), "{{");
    }
  }

  /** Text without "{{" passes through every custom-field replacement. */
  lemma {:induction false} ApplyFieldsPlain(s: string, fields: Fields)
    requires !Contains(s, "{{")
    ensures ApplyFields(s, fields) == s
    decreases |fields|
  {
    if |fields| > 0 {
      NoOpenBraces(s, fields[0].0);
      ReplaceAbsent(s, Placeholder(fields[0].0), fields[0].1);
      ApplyFieldsPlain(s, fields[1..]);
    }
  }

  /**
   * The placeholder of a brace-free key contains the placeholder of
   * exactly one key: its own.
   */
  lemma PlaceholderInPlaceholder(key: string, other: string)
    requires NoBraces(key)
    ensures Contains(Placeholder(key), Placeholder(other)) <==> other == key
  {
    var p, q := Placeholder(key), Placeholder(other);
    if other == key {
      assert OccursAt(p, q, 0);
    }
    if Contains(p, q) {
      var i: nat :| OccursAt(p, q, i);
      assert p[i] == q[0] == '{' && p[i + 1] == q[1] == '{';
      assert forall t :: 2 <= t < |key| + 2 ==> p[t] == key[t - 2];
      assert i == 0;
      var n := |other|;
      assert p[n + 2] == q[n + 2] == '}';
      assert n >= |key|;
      assert n == |key|;
      assert forall t :: 0 <= t < n ==> other[t] == q[t + 2] == p[t + 2] == key[t];
      assert other == key;
    }
  }

  /** Fields whose keys differ from `key` leave the placeholder of `key` alone. */
  lemma {:induction false} ApplyFieldsSkipOthers(key: string, fields: Fields, j: nat)
    requires NoBraces(key) && j <= |fields|
    requires forall i :: 0 <= i < j ==> fields[i].0 != key
    ensures ApplyFields(Placeholder(key), fields) == ApplyFields(Placeholder(key), fields[j..])
    decreases j
  {
    if j > 0 {
      PlaceholderInPlaceholder(key, fields[0].0);
      ReplaceAbsent(Placeholder(key), Placeholder(fields[0].0), fields[0].1);
      assert fields[1..][j - 1..] == fields[j..];
      ApplyFieldsSkipOthers(key, fields[1..], j - 1);
    }
  }

  /** Text without "{{" survives both built-in replacements and every custom field. */
  lemma {:induction false} RenderPlain(template: string, contact: Contact)
    requires !Contains(template, "{{")
    ensures Render(template, contact) == template
  {
    BuiltInPlaceholders();
    NoOpenBraces(template, "nama");
    ReplaceAbsent(template, NamePlaceholder, contact.name);
    NoOpenBraces(template, "group");
    ReplaceAbsent(template, GroupPlaceholder, contact.group);
    ApplyFieldsPlain(template, contact.customFields);
  }

  /**
   * `{{nama}}` renders as the contact's name whatever the custom fields are,
   * a field keyed "nama" included (when the name itself holds no "{{").
   */
  lemma {:induction false} RenderNameWins(contact: Contact)
    requires !Contains(contact.name, "{{")
    ensures Render(NamePlaceholder, contact) == contact.name
  {
    BuiltInPlaceholders();
    ReplaceWhole(NamePlaceholder, contact.name);
    NoOpenBraces(contact.name, "group");
    ReplaceAbsent(contact.name, GroupPlaceholder, contact.group);
    ApplyFieldsPlain(contact.name, contact.customFields);
  }

  /** `{{group}}` renders as the contact's group, whatever the custom fields are. */
  lemma {:induction false} RenderGroupWins(contact: Contact)
    requires !Contains(contact.group, "{{")
    ensures Render(GroupPlaceholder, contact) == contact.group
  {
    BuiltInPlaceholders();
    PlaceholderInPlaceholder("group", "nama");
    ReplaceAbsent(GroupPlaceholder, NamePlaceholder, contact.name);
    ReplaceWhole(GroupPlaceholder, contact.group);
    ApplyFieldsPlain(contact.group, contact.customFields);
  }

  /** A custom placeholder renders as that field's value. */
  lemma {:induction false} RenderCustomField(contact: Contact, j: nat)
    requires j < |contact.customFields| && DistinctKeys(contact.customFields)
    requires NoBraces(contact.customFields[j].0)
    requires contact.customFields[j].0 != "nama" && contact.customFields[j].0 != "group"
    requires !Contains(contact.customFields[j].1, "{{")
    ensures Render(Placeholder(contact.customFields[j].0), contact) == contact.customFields[j].1
  {
    BuiltInPlaceholders();
    var fields := contact.customFields;
    var (key, value) := fields[j];
    PlaceholderInPlaceholder(key, "nama");
    ReplaceAbsent(Placeholder(key), NamePlaceholder, contact.name);
    PlaceholderInPlaceholder(key, "group");
    ReplaceAbsent(Placeholder(key), GroupPlaceholder, contact.group);
    ApplyFieldsSkipOthers(key, fields, j);
    ReplaceWhole(Placeholder(key), value);
    assert fields[j..][1..] == fields[j + 1..];
    ApplyFieldsPlain(value, fields[j + 1..]);
  }

  /** A placeholder that names neither a built-in nor a custom field stays verbatim. */
  lemma {:induction false} RenderUnknownPlaceholder(contact: Contact, key: string)
    requires NoBraces(key) && key != "nama" && key != "group"
    requires key !in Keys(contact.customFields)
    ensures Render(Placeholder(key), contact) == Placeholder(key)
  {
    BuiltInPlaceholders();
    var fields := contact.customFields;
    PlaceholderInPlaceholder(key, "nama");
    ReplaceAbsent(Placeholder(key), NamePlaceholder, contact.name);
    PlaceholderInPlaceholder(key, "group");
    ReplaceAbsent(Placeholder(key), GroupPlaceholder, contact.group);
    assert forall i :: 0 <= i < |fields| ==> fields[i].0 == Keys(fields)[i];
    ApplyFieldsSkipOthers(key, fields, |fields|);
    assert fields[|fields|..] == [];
  }

  // ------------------------------------------------------------------
  // Attachment choice (services/campaignService.ts:121-130)
  // ------------------------------------------------------------------

  const FileNotFoundPrefix: string := "File data not found in DB for "

  /**
   * The campaign attachment, unless the contact has a file of its own; that
   * file's payload comes from the store, and an absent or empty payload is
   * an error for this recipient.
   */
  function ResolveAttachment(campaign: Campaign, contact: Contact, contactFiles: map<string, ManagedFile>,
                             blobs: map<string, string>): (r: Result<Option<Attachment>, string>)
    ensures contact.id !in contactFiles ==> r == Ok(campaign.attachment)
    ensures r.Err? <==> contact.id in contactFiles &&
                        (contactFiles[contact.id].id !in blobs || blobs[contactFiles[contact.id].id] == "")
    ensures r.Err? ==> r.error == FileNotFoundPrefix + contactFiles[contact.id].name
    ensures r.Ok? && contact.id in contactFiles ==>
              r.value == Some(Attachment(contactFiles[contact.id].name, blobs[contactFiles[contact.id].id],
                                         contactFiles[contact.id].mimeType))
  {
    if contact.id in contactFiles then
      var file := contactFiles[contact.id];
      if file.id in blobs && blobs[file.id] != "" then Ok(Some(Attachment(file.name, blobs[file.id], file.mimeType)))
      else Err(FileNotFoundPrefix + file.name)
    else Ok(campaign.attachment)
  }

  // ------------------------------------------------------------------
  // Transports (services/campaignService.ts:12-81, 132-141)
  // ------------------------------------------------------------------

  /** What `fetch` is asked to send: the provider's endpoint, headers and body. */
  datatype Request =
    | FonnteRequest(authorization: string, target: string, message: string, file: Option<Attachment>)
    | BaileysRequest(endpoint: string, authorization: string, number: string, text: string, media: Option<Attachment>)

  /** A thrown value: an `Error` with its message, or anything else. */
  datatype Thrown = ErrorValue(message: string) | OtherValue

  /**
   * The fields of a parsed JSON body the classification reads ("" when
   * absent or falsy), with `json` its `JSON.stringify` text.
   */
  datatype ResponseBody = ResponseBody(
    json: string,
    detail: string,
    reason: string,
    idLog: string,
    firstId: string,
    status: string,
    message: string,
    dataId: string)

  /** `fetch` (and `response.json()`) either throws or yields a response. */
  datatype HttpResponse = Rejected(thrown: Thrown) | Response(ok: bool, body: ResponseBody)

  /** The control the dispatch has over the outside world. */
  datatype Env = Env(
    blobs: map<string, string>,
    transport: (nat, Request) -> HttpResponse,
    clockMs: nat -> nat,
    isoStamp: nat -> string)

  /** A body as `JSON.stringify` writes it is never the empty string. */
  predicate WellFormed(response: HttpResponse) {
    response.Response? ==> response.body.json != ""
  }

  /** The message the `catch` records. */
  function ThrownMessage(t: Thrown): string {
    match t
    case ErrorValue(m) => m
    case OtherValue => "Unknown error"
  }

  function Or(a: string, b: string): string {
    if a != "" then a else b
  }

  /** The `mock_${Date.now()}` id used when the provider returns none. */
  function MockId(nowMs: nat): string {
    "mock_" + NatToString(nowMs)
  }

  /** Fonnte: only the HTTP status decides; the body gives the error text or the id. */
  function FonnteOutcome(response: HttpResponse, nowMs: nat): (r: Result<string, Thrown>)
    ensures response.Response? && response.ok ==> r.Ok? && r.value != ""
    ensures response.Response? && !response.ok && WellFormed(response) ==>
              r.Err? && r.error.ErrorValue? && r.error.message != ""
    ensures response.Rejected? ==> r == Err(response.thrown)
  {
    match response
    case Rejected(t) => Err(t)
    case Response(ok, body) =>
      if !ok then Err(ErrorValue(Or(Or(body.detail, body.reason), body.json)))
      else Ok(Or(Or(body.idLog, body.firstId), MockId(nowMs)))
  }

  /** Baileys: only the body's `status` decides, whatever the HTTP status. */
  function BaileysOutcome(response: HttpResponse, nowMs: nat): (r: Result<string, Thrown>)
    ensures response.Response? ==> (r.Ok? <==> response.body.status == "success")
    ensures r.Ok? ==> r.value != ""
    ensures response.Response? && r.Err? && WellFormed(response) ==> r.error.ErrorValue? && r.error.message != ""
    ensures response.Rejected? ==> r == Err(response.thrown)
  {
    match response
    case Rejected(t) => Err(t)
    case Response(_, body) =>
      if body.status != "success" then Err(ErrorValue(Or(body.message, body.json)))
      else Ok(Or(body.dataId, MockId(nowMs)))
  }

  /** One send: the request made (if any) and what the send returned or threw. */
  datatype Attempt = Attempt(request: Option<Request>, outcome: Result<string, Thrown>)

  function FonnteSend(contact: Contact, message: string, apiKey: string, attachment: Option<Attachment>,
                      env: Env, i: nat): Attempt
  {
    var request := FonnteRequest(apiKey, contact.number, message, attachment);
    Attempt(Some(request), FonnteOutcome(env.transport(i, request), env.clockMs(i)))
  }

  const BaileysDetailsMissing: string := "Baileys connection details are missing."

  function BaileysSend(contact: Contact, message: string, serverUrl: string, apiKey: string,
                       attachment: Option<Attachment>, env: Env, i: nat): Attempt
  {
    if serverUrl == "" || apiKey == "" then Attempt(None, Err(ErrorValue(BaileysDetailsMissing)))
    else
      var endpoint := if attachment.Some? then serverUrl + "/messages/send-media" else serverUrl + "/messages/send-text";
      var request := BaileysRequest(endpoint, "Bearer " + apiKey, contact.number, message, attachment);
      Attempt(Some(request), BaileysOutcome(env.transport(i, request), env.clockMs(i)))
  }

  const BaileysNotConnected: string := "Baileys is not connected. Please connect in Settings."

  /** Baileys needs a connected session, a server URL and a key; any other provider string means Fonnte. */
  predicate BaileysReady(settings: ApiSettings) {
    settings.baileysSessionStatus == Some(Connected) && settings.baileysServerUrl != "" && settings.baileysApiKey != ""
  }

  /** The provider branch of the loop body. */
  function Transmit(settings: ApiSettings, contact: Contact, message: string, attachment: Option<Attachment>,
                    env: Env, i: nat): (a: Attempt)
    ensures settings.provider == "baileys" && !BaileysReady(settings) ==>
              a == Attempt(None, Err(ErrorValue(BaileysNotConnected)))
    ensures a.request.Some? ==> (a.request.value.BaileysRequest? <==> settings.provider == "baileys")
    ensures a.request.Some? ==> env.transport(i, a.request.value).Rejected? || a.outcome.Ok? ||
                                (WellFormed(env.transport(i, a.request.value)) ==> a.outcome.error.ErrorValue? && a.outcome.error.message != "")
  {
    if settings.provider == "baileys" then
      if BaileysReady(settings) then
        BaileysSend(contact, message, settings.baileysServerUrl, settings.baileysApiKey, attachment, env, i)
      else Attempt(None, Err(ErrorValue(BaileysNotConnected)))
    else FonnteSend(contact, message, settings.fonnteApiKey, attachment, env, i)
  }

  // ------------------------------------------------------------------
  // The dispatch loop (services/campaignService.ts:84-164)
  // ------------------------------------------------------------------

  /** What the body of the loop sends with: the campaign, the settings, the contact files, the world. */
  datatype Sender = Sender(
    campaign: Campaign,
    settings: ApiSettings,
    contactFiles: map<string, ManagedFile>,
    env: Env)

  /** Render, choose the attachment, send. */
  function AttemptFor(sender: Sender, contact: Contact, i: nat): Attempt {
    match ResolveAttachment(sender.campaign, contact, sender.contactFiles, sender.env.blobs)
    case Err(e) => Attempt(None, Err(ErrorValue(e)))
    case Ok(attachment) =>
      Transmit(sender.settings, contact, Render(sender.campaign.message, contact), attachment, sender.env, i)
  }

  /**
   * The loop as it runs: the campaign, its recipients in order, the send of
   * recipient `c` in iteration `i`, the anti-ban delay and the clock's ISO
   * stamp of each iteration.
   */
  datatype Job = Job(
    campaign: Campaign,
    recipients: seq<Contact>,
    attempt: (Contact, nat) -> Attempt,
    delay: JsNumber,
    stamp: nat -> string)

  /** The single ad-hoc recipient is taken from the logs; otherwise the directory is filtered. */
  function FinalContacts(campaign: Campaign, allContacts: seq<Contact>): seq<Contact> {
    if |campaign.contacts| == 1 && campaign.contacts[0] == "single" then
      seq(|campaign.logs|, i requires 0 <= i < |campaign.logs| => campaign.logs[i].contact)
    else ContactsWithIds(allContacts, campaign.contacts)
  }

  function NewJob(campaign: Campaign, allContacts: seq<Contact>, settings: ApiSettings,
                  contactFiles: map<string, ManagedFile>, env: Env): Job
  {
    var sender := Sender(campaign, settings, contactFiles, env);
    Job(campaign, FinalContacts(campaign, allContacts), (c: Contact, i: nat) => AttemptFor(sender, c, i),
        settings.antiBan.delay, env.isoStamp)
  }

  function FindLogFrom(logs: seq<MessageLog>, id: string, from: nat): (r: int)
    requires from <= |logs|
    ensures r == -1 || (from <= r < |logs| && logs[r].contact.id == id)
    decreases |logs| - from
  {
    if from == |logs| then -1
    else if logs[from].contact.id == id then from
    else FindLogFrom(logs, id, from + 1)
  }

  /** `logs.findIndex(l => l.contact.id === id)`. */
  function FindLogIndex(logs: seq<MessageLog>, id: string): (r: int)
    ensures -1 <= r < |logs|
    ensures r >= 0 ==> logs[r].contact.id == id
  {
    FindLogFrom(logs, id, 0)
  }

  lemma {:induction false} FindLogFromFirst(logs: seq<MessageLog>, id: string, from: nat)
    requires from <= |logs|
    ensures var r := FindLogFrom(logs, id, from);
            (r >= 0 ==> forall j :: from <= j < r ==> logs[j].contact.id != id) &&
            (r == -1 ==> forall j :: from <= j < |logs| ==> logs[j].contact.id != id)
    decreases |logs| - from
  {
    if from < |logs| && logs[from].contact.id != id {
      FindLogFromFirst(logs, id, from + 1);
    }
  }

  /** `findIndex` finds the first log for the id, and -1 only when there is none. */
  lemma FindLogIndexFirst(logs: seq<MessageLog>, id: string)
    ensures var r := FindLogIndex(logs, id);
            (r >= 0 ==> forall j :: 0 <= j < r ==> logs[j].contact.id != id) &&
            (r == -1 ==> forall j :: 0 <= j < |logs| ==> logs[j].contact.id != id)
  {
    FindLogFromFirst(logs, id, 0);
  }

  /**
   * What the dispatch emits: a snapshot to the callback, a transport
   * request, an anti-ban pause, and the closing alert with the counts.
   */
  datatype Event =
    | Published(snapshot: Campaign)
    | Requested(request: Request)
    | Slept(delaySeconds: JsNumber)
    | Alerted(name: string, sentCount: nat, failedCount: nat)

  /** The copy's logs and the events so far. */
  datatype Progress = Progress(logs: seq<MessageLog>, events: seq<Event>)

  /** The log after its send: `Sent` with the provider id, or `Failed` with the error text; stamped. */
  function Settle(log: MessageLog, outcome: Result<string, Thrown>, stamp: string): MessageLog {
    match outcome
    case Ok(id) => log.(status := Sent, apiMessageId := Some(id), timestamp := stamp)
    case Err(t) => log.(status := Failed, error := Some(ThrownMessage(t)), timestamp := stamp)
  }

  /** The log index iteration `i` works on, -1 if none. */
  function TargetOf(job: Job, p: Progress, i: nat): int
    requires i < |job.recipients|
  {
    FindLogIndex(p.logs, job.recipients[i].id)
  }

  /** Iteration `i` goes past the `continue`. */
  predicate Proceeds(job: Job, p: Progress, i: nat)
    requires i < |job.recipients|
  {
    var j := TargetOf(job, p, i);
    j != -1 && p.logs[j].status != Failed
  }

  function RequestEvents(request: Option<Request>): seq<Event> {
    if request.Some? then [Requested(request.value)] else []
  }

  function SleepEvents(job: Job, i: nat): seq<Event> {
    if i < |job.recipients| - 1 then [Slept(job.delay)] else []
  }

  /** The logs with the target marked `Sending`, as the first snapshot of the iteration shows them. */
  function SendingLogs(job: Job, p: Progress, i: nat): seq<MessageLog>
    requires i < |job.recipients| && Proceeds(job, p, i)
  {
    var j := TargetOf(job, p, i);
    p.logs[j := p.logs[j].(status := MessageStatus.Sending)]
  }

  /** The logs with the target settled by the send. */
  function SettledLogs(job: Job, p: Progress, i: nat): seq<MessageLog>
    requires i < |job.recipients| && Proceeds(job, p, i)
  {
    var j := TargetOf(job, p, i);
    var sending := SendingLogs(job, p, i);
    sending[j := Settle(sending[j], job.attempt(job.recipients[i], i).outcome, job.stamp(i))]
  }

  /** What an iteration that goes past the `continue` emits. */
  function StepEvents(job: Job, p: Progress, i: nat): seq<Event>
    requires i < |job.recipients| && Proceeds(job, p, i)
  {
    [Published(job.campaign.(status := CampaignStatus.Sending, logs := SendingLogs(job, p, i)))]
    + RequestEvents(job.attempt(job.recipients[i], i).request)
    + [Published(job.campaign.(status := CampaignStatus.Sending, logs := SettledLogs(job, p, i)))]
    + SleepEvents(job, i)
  }

  /** One iteration of the `for` loop. */
  function StepAt(job: Job, p: Progress, i: nat): Progress
    requires i < |job.recipients|
  {
    if !Proceeds(job, p, i) then p
    else Progress(SettledLogs(job, p, i), p.events + StepEvents(job, p, i))
  }

  /** The state after the first `k` iterations. */
  function Run(job: Job, k: nat): Progress
    requires k <= |job.recipients|
    decreases k
  {
    if k == 0 then Progress(job.campaign.logs, [Published(job.campaign.(status := CampaignStatus.Sending))])
    else StepAt(job, Run(job, k - 1), k - 1)
  }

  function FinalLogs(job: Job): seq<MessageLog> {
    Run(job, |job.recipients|).logs
  }

  /** The alert: the campaign name and how many logs ended `Sent` and `Failed`. */
  function Closing(job: Job): Event {
    Alerted(job.campaign.name, CountStatus(FinalLogs(job), Sent), CountStatus(FinalLogs(job), Failed))
  }

  /** Every event of one `sendCampaign` call, ending with the `Completed` snapshot and the alert. */
  function Dispatch(job: Job): seq<Event> {
    Run(job, |job.recipients|).events
    + [Published(job.campaign.(status := CampaignStatus.Completed, logs := FinalLogs(job))), Closing(job)]
  }

  /** The deep copy `sendCampaign` mutates: its status and its log array. */
  class CampaignCopy {
    const base: Campaign
    var status: CampaignStatus
    const logs: array<MessageLog>

    constructor (campaign: Campaign)
      ensures base == campaign && status == campaign.status && logs[..] == campaign.logs && fresh(logs)
    {
      base := campaign;
      status := campaign.status;
      logs := new MessageLog[|campaign.logs|](i requires 0 <= i < |campaign.logs| => campaign.logs[i]);
    }

    /** `campaignCopy.logs[j].status = 'Sending'`. */
    method MarkSending(j: nat)
      requires j < logs.Length
      modifies logs
      ensures logs[..] == old(logs[..])[j := old(logs[j]).(status := MessageStatus.Sending)]
    {
      logs[j] := logs[j].(status := MessageStatus.Sending);
    }

    /** The assignments after the `try`/`catch` and the timestamp. */
    method Record(j: nat, outcome: Result<string, Thrown>, stamp: string)
      requires j < logs.Length
      modifies logs
      ensures logs[..] == old(logs[..])[j := Settle(old(logs[j]), outcome, stamp)]
    {
      match outcome {
        case Ok(id) =>
          logs[j] := logs[j].(status := Sent, apiMessageId := Some(id));
        case Err(t) =>
          logs[j] := logs[j].(status := Failed, error := Some(ThrownMessage(t)));
      }
      logs[j] := logs[j].(timestamp := stamp);
    }

    /** `{...campaignCopy}` as the callback receives it. */
    function Snapshot(): Campaign
      reads this, logs
    {
      base.(status := status, logs := logs[..])
    }
  }

  /** The `try` block: personalise, choose the attachment, send. */
  method Deliver(sender: Sender, contact: Contact, i: nat) returns (attempt: Attempt)
    ensures attempt == AttemptFor(sender, contact, i)
  {
    var message := Personalize(sender.campaign.message, contact);
    var resolved := ResolveAttachment(sender.campaign, contact, sender.contactFiles, sender.env.blobs);
    if resolved.Err? {
      return Attempt(None, Err(ErrorValue(resolved.error)));
    }
    attempt := Transmit(sender.settings, contact, message, resolved.value, sender.env, i);
  }

  /** The body of the `for` loop for recipient `i`, on the copy's log array. */
  method SendOne(copy: CampaignCopy, sender: Sender, job: Job, i: nat, events: seq<Event>) returns (events': seq<Event>)
    requires i < |job.recipients| && job.campaign == sender.campaign
    requires forall c: Contact, n: nat {:trigger AttemptFor(sender, c, n)} :: job.attempt(c, n) == AttemptFor(sender, c, n)
    requires job.delay == sender.settings.antiBan.delay && job.stamp == sender.env.isoStamp
    requires copy.status == CampaignStatus.Sending && copy.base == job.campaign
    modifies copy.logs
    ensures Progress(copy.logs[..], events') == StepAt(job, Progress(old(copy.logs[..]), events), i)
  {
    ghost var p := Progress(copy.logs[..], events);
    var contact := job.recipients[i];
    var j := FindLogIndex(copy.logs[..], contact.id);
    if j == -1 || copy.logs[j].status == Failed {
      return events;
    }
    assert Proceeds(job, p, i) && j == TargetOf(job, p, i);
    copy.MarkSending(j);
    assert copy.logs[..] == SendingLogs(job, p, i);
    var first := Published(copy.Snapshot());
    assert first == Published(job.campaign.(status := CampaignStatus.Sending, logs := SendingLogs(job, p, i)));

    var attempt := Deliver(sender, contact, i);
    assert attempt == job.attempt(contact, i);
    var requested := if attempt.request.Some? then [Requested(attempt.request.value)] else [];
    copy.Record(j, attempt.outcome, sender.env.isoStamp(i));
    assert copy.logs[..] == SettledLogs(job, p, i);
    var second := Published(copy.Snapshot());

    assert second == Published(job.campaign.(status := CampaignStatus.Sending, logs := SettledLogs(job, p, i)));
    assert requested == RequestEvents(job.attempt(contact, i).request);

    var pause := if i < |job.recipients| - 1 then [Slept(sender.settings.antiBan.delay)] else [];
    assert pause == SleepEvents(job, i);
    events' := events + ([first] + requested + [second] + pause);
    assert StepAt(job, p, i) == Progress(SettledLogs(job, p, i), events + StepEvents(job, p, i));
  }

  /**
   * `sendCampaign`. Its promise resolves to nothing: its effects are the
   * events it emits.
   */
  method SendCampaign(campaign: Campaign, allContacts: seq<Contact>, settings: ApiSettings,
                      contactFiles: map<string, ManagedFile>, env: Env)
    returns (events: seq<Event>)
    ensures events == Dispatch(NewJob(campaign, allContacts, settings, contactFiles, env))
  {
    var sender := Sender(campaign, settings, contactFiles, env);
    var job := NewJob(campaign, allContacts, settings, contactFiles, env);
    events := RunJob(sender, job);
  }

  /** The body of `sendCampaign` once the recipients are resolved: the copy, the loop, the close. */
  method RunJob(sender: Sender, job: Job) returns (events: seq<Event>)
    requires job.campaign == sender.campaign
    requires forall c: Contact, n: nat {:trigger AttemptFor(sender, c, n)} :: job.attempt(c, n) == AttemptFor(sender, c, n)
    requires job.delay == sender.settings.antiBan.delay && job.stamp == sender.env.isoStamp
    ensures events == Dispatch(job)
  {
    var copy;
    copy, events := Start(job);
    for i := 0 to |job.recipients|
      invariant copy.status == CampaignStatus.Sending && copy.base == job.campaign
      invariant Progress(copy.logs[..], events) == Run(job, i)
    {
      events := SendOne(copy, sender, job, i, events);
    }
    events := Complete(copy, job, events);
  }

  /** The deep copy, marked `Sending` and published. */
  method Start(job: Job) returns (copy: CampaignCopy, events: seq<Event>)
    ensures fresh(copy) && fresh(copy.logs)
    ensures copy.status == CampaignStatus.Sending && copy.base == job.campaign
    ensures Progress(copy.logs[..], events) == Run(job, 0)
  {
    copy := new CampaignCopy(job.campaign);
    copy.status := CampaignStatus.Sending;
    events := [Published(copy.Snapshot())];
  }

  /** After the loop: the `Completed` snapshot, then the counts and the alert. */
  method Complete(copy: CampaignCopy, job: Job, events: seq<Event>) returns (events': seq<Event>)
    requires copy.base == job.campaign
    requires Progress(copy.logs[..], events) == Run(job, |job.recipients|)
    modifies copy
    ensures events' == Dispatch(job)
  {
    copy.status := CampaignStatus.Completed;
    events' := events + [Published(copy.Snapshot())];
    var sentCount := CountStatus(copy.logs[..], Sent);
    var failedCount := CountStatus(copy.logs[..], Failed);
    events' := events' + [Alerted(copy.base.name, sentCount, failedCount)];
  }

  // ------------------------------------------------------------------
  // What one dispatch guarantees
  // ------------------------------------------------------------------

  /** A log after its send: `Sent` with a provider id, or `Failed` with an error text. */
  predicate SettledLog(log: MessageLog) {
    (log.status == Sent && log.apiMessageId.Some?) || (log.status == Failed && log.error.Some?)
  }

  /** Settling keeps the contact and leaves the log `Sent` with an id or `Failed` with the error. */
  lemma SettleSettles(log: MessageLog, outcome: Result<string, Thrown>, stamp: string)
    ensures SettledLog(Settle(log, outcome, stamp)) && Settle(log, outcome, stamp).contact == log.contact
    ensures outcome.Ok? ==> Settle(log, outcome, stamp).apiMessageId == Some(outcome.value)
    ensures outcome.Err? ==> Settle(log, outcome, stamp).status == Failed &&
                             Settle(log, outcome, stamp).error == Some(ThrownMessage(outcome.error))
    ensures Settle(log, outcome, stamp).timestamp == stamp
  {
  }

  /** Iteration `i` changes the log of its target only, and settles it. */
  lemma StepLogAt(job: Job, p: Progress, i: nat, j: nat)
    requires i < |job.recipients| && j < |p.logs|
    ensures |StepAt(job, p, i).logs| == |p.logs|
    ensures StepAt(job, p, i).logs[j].contact == p.logs[j].contact
    ensures Proceeds(job, p, i) && j == TargetOf(job, p, i) ==>
              p.logs[j].status != Failed &&
              StepAt(job, p, i).logs[j] ==
                Settle(p.logs[j].(status := MessageStatus.Sending), job.attempt(job.recipients[i], i).outcome, job.stamp(i))
    ensures !(Proceeds(job, p, i) && j == TargetOf(job, p, i)) ==> StepAt(job, p, i).logs[j] == p.logs[j]
  {
  }

  lemma {:induction false} RunLength(job: Job, k: nat)
    requires k <= |job.recipients|
    ensures |Run(job, k).logs| == |job.campaign.logs|
    decreases k
  {
    if k > 0 {
      var p := Run(job, k - 1);
      RunLength(job, k - 1);
      assert Run(job, k) == StepAt(job, p, k - 1);
    }
  }

  /** How a log of the copy relates to the original log at the same position. */
  predicate DescendsAt(original: MessageLog, log: MessageLog) {
    log.contact == original.contact &&
    (log == original || SettledLog(log)) &&
    (original.status == Failed ==> log == original)
  }

  /** The log at position `j` stays for the same contact, untouched or settled, and untouched if it had failed. */
  lemma {:induction false} RunDescendsAt(job: Job, k: nat, j: nat)
    requires k <= |job.recipients| && j < |job.campaign.logs|
    ensures |Run(job, k).logs| == |job.campaign.logs|
    ensures DescendsAt(job.campaign.logs[j], Run(job, k).logs[j])
    decreases k
  {
    RunLength(job, k);
    if k > 0 {
      var p := Run(job, k - 1);
      RunDescendsAt(job, k - 1, j);
      StepLogAt(job, p, k - 1, j);
      if Proceeds(job, p, k - 1) && j == TargetOf(job, p, k - 1) {
        SettleSettles(p.logs[j].(status := MessageStatus.Sending), job.attempt(job.recipients[k - 1], k - 1).outcome,
                      job.stamp(k - 1));
      }
      assert Run(job, k) == StepAt(job, p, k - 1);
    }
  }

  /** A log whose contact id none of the first `k` recipients has is never looked up, so never touched. */
  lemma {:induction false} RunUntouched(job: Job, k: nat, j: nat)
    requires k <= |job.recipients| && j < |job.campaign.logs|
    requires job.campaign.logs[j].contact.id !in ContactIds(job.recipients[..k])
    ensures |Run(job, k).logs| == |job.campaign.logs|
    ensures Run(job, k).logs[j] == job.campaign.logs[j]
    decreases k
  {
    RunLength(job, k);
    if k > 0 {
      var id := job.campaign.logs[j].contact.id;
      var p := Run(job, k - 1);
      var before, visited := ContactIds(job.recipients[..k - 1]), ContactIds(job.recipients[..k]);
      forall m | 0 <= m < k - 1
        ensures before[m] != id
      {
        assert before[m] == job.recipients[m].id == visited[m];
      }
      assert visited[k - 1] == job.recipients[k - 1].id;
      RunUntouched(job, k - 1, j);
      StepLogAt(job, p, k - 1, j);
      assert Run(job, k) == StepAt(job, p, k - 1);
    }
  }

  /** A log with an earlier log for the same contact id is shadowed by it in `findIndex`, so never touched. */
  lemma {:induction false} RunDuplicateUntouched(job: Job, k: nat, i: nat, j: nat)
    requires k <= |job.recipients| && i < j < |job.campaign.logs|
    requires job.campaign.logs[i].contact.id == job.campaign.logs[j].contact.id
    ensures |Run(job, k).logs| == |job.campaign.logs|
    ensures Run(job, k).logs[j] == job.campaign.logs[j]
    decreases k
  {
    RunLength(job, k);
    if k > 0 {
      var p := Run(job, k - 1);
      RunDuplicateUntouched(job, k - 1, i, j);
      RunDescendsAt(job, k - 1, i);
      FindLogIndexFirst(p.logs, job.recipients[k - 1].id);
      StepLogAt(job, p, k - 1, j);
      assert Run(job, k) == StepAt(job, p, k - 1);
    }
  }

  /**
   * The log at position `j` stays for the same contact; it is untouched or
   * settled; it is untouched if it had failed before the run, if none of the
   * first `k` recipients has its contact id, or if an earlier log has that id.
   */
  lemma RunLogAt(job: Job, k: nat, j: nat)
    requires k <= |job.recipients| && j < |job.campaign.logs|
    ensures |Run(job, k).logs| == |job.campaign.logs|
    ensures DescendsAt(job.campaign.logs[j], Run(job, k).logs[j])
    ensures job.campaign.logs[j].contact.id !in ContactIds(job.recipients[..k]) ==>
              Run(job, k).logs[j] == job.campaign.logs[j]
    ensures forall i :: 0 <= i < j && job.campaign.logs[i].contact.id == job.campaign.logs[j].contact.id ==>
              Run(job, k).logs[j] == job.campaign.logs[j]
  {
    RunDescendsAt(job, k, j);
    if job.campaign.logs[j].contact.id !in ContactIds(job.recipients[..k]) {
      RunUntouched(job, k, j);
    }
    forall i | 0 <= i < j && job.campaign.logs[i].contact.id == job.campaign.logs[j].contact.id
      ensures Run(job, k).logs[j] == job.campaign.logs[j]
    {
      RunDuplicateUntouched(job, k, i, j);
    }
  }

  /** `logs` keeps the length of `original` and descends from it position by position. */
  predicate Descends(original: seq<MessageLog>, logs: seq<MessageLog>) {
    |logs| == |original| && forall j :: 0 <= j < |original| ==> DescendsAt(original[j], logs[j])
  }

  /**
   * The copy keeps one log per original log, for the same contact; a log
   * is either untouched or settled, and a log that failed before the run
   * is never touched.
   */
  lemma RunLogs(job: Job, k: nat)
    requires k <= |job.recipients|
    ensures Descends(job.campaign.logs, Run(job, k).logs)
  {
    RunLength(job, k);
    forall j | 0 <= j < |job.campaign.logs|
      ensures DescendsAt(job.campaign.logs[j], Run(job, k).logs[j])
    {
      RunDescendsAt(job, k, j);
    }
  }

  /**
   * After the dispatch, a log whose contact id no recipient has, and a log
   * shadowed by an earlier log for the same contact id, are as they were.
   */
  lemma DispatchUntouched(job: Job)
    ensures |FinalLogs(job)| == |job.campaign.logs|
    ensures forall j :: 0 <= j < |job.campaign.logs| && job.campaign.logs[j].contact.id !in ContactIds(job.recipients) ==>
              FinalLogs(job)[j] == job.campaign.logs[j]
    ensures forall i, j :: 0 <= i < j < |job.campaign.logs| && job.campaign.logs[i].contact.id == job.campaign.logs[j].contact.id ==>
              FinalLogs(job)[j] == job.campaign.logs[j]
  {
    var n := |job.recipients|;
    RunLength(job, n);
    assert job.recipients[..n] == job.recipients;
    forall j | 0 <= j < |job.campaign.logs| && job.campaign.logs[j].contact.id !in ContactIds(job.recipients)
      ensures FinalLogs(job)[j] == job.campaign.logs[j]
    {
      RunUntouched(job, n, j);
    }
    forall i, j | 0 <= i < j < |job.campaign.logs| && job.campaign.logs[i].contact.id == job.campaign.logs[j].contact.id
      ensures FinalLogs(job)[j] == job.campaign.logs[j]
    {
      RunDuplicateUntouched(job, n, i, j);
    }
  }

  /** A log that is `Failed` at some point of the run stays exactly as it is. */
  lemma {:induction false} FailedStaysFailed(job: Job, k: nat, m: nat, j: nat)
    requires k <= m <= |job.recipients|
    requires j < |Run(job, k).logs| && Run(job, k).logs[j].status == Failed
    ensures j < |Run(job, m).logs| && Run(job, m).logs[j] == Run(job, k).logs[j]
    decreases m - k
  {
    if k < m {
      StepLogAt(job, Run(job, k), k, j);
      assert Run(job, k + 1) == StepAt(job, Run(job, k), k);
      FailedStaysFailed(job, k + 1, m, j);
    }
  }

  /** No two logs are for the same contact id. */
  predicate DistinctLogIds(logs: seq<MessageLog>) {
    forall a, b :: 0 <= a < b < |logs| ==> logs[a].contact.id != logs[b].contact.id
  }

  /** With distinct ids, `findIndex` finds the one log with that id. */
  lemma FindUnique(logs: seq<MessageLog>, j: nat)
    requires DistinctLogIds(logs) && j < |logs|
    ensures FindLogIndex(logs, logs[j].contact.id) == j
  {
    FindLogIndexFirst(logs, logs[j].contact.id);
  }

  lemma DescendsDistinct(original: seq<MessageLog>, logs: seq<MessageLog>)
    requires Descends(original, logs) && DistinctLogIds(original)
    ensures DistinctLogIds(logs)
  {
    forall a, b | 0 <= a < b < |logs|
      ensures logs[a].contact.id != logs[b].contact.id
    {
      assert DescendsAt(original[a], logs[a]) && DescendsAt(original[b], logs[b]);
    }
  }

  /**
   * With one log per contact id, the log of every recipient the first `k`
   * iterations visited ends `Sent` or `Failed`.
   */
  lemma {:induction false} RunTargetAt(job: Job, k: nat, i: nat, j: nat)
    requires i < k <= |job.recipients| && j < |job.campaign.logs| && DistinctLogIds(job.campaign.logs)
    requires job.recipients[i].id == job.campaign.logs[j].contact.id
    ensures |Run(job, k).logs| == |job.campaign.logs|
    ensures Run(job, k).logs[j].status == Sent || Run(job, k).logs[j].status == Failed
    decreases k
  {
    if i < k - 1 {
      RunTargetAt(job, k - 1, i, j);
      RunKeepsSettled(job, k, j);
    } else {
      RunTargetFound(job, k - 1, j);
      RunSettlesTarget(job, k, j);
    }
  }

  /** With distinct ids, the log an iteration looks up for a contact id is the one original log with that id. */
  lemma RunTargetFound(job: Job, k: nat, j: nat)
    requires k <= |job.recipients| && j < |job.campaign.logs| && DistinctLogIds(job.campaign.logs)
    ensures |Run(job, k).logs| == |job.campaign.logs|
    ensures FindLogIndex(Run(job, k).logs, job.campaign.logs[j].contact.id) == j
  {
    var logs := Run(job, k).logs;
    RunLogs(job, k);
    DescendsDistinct(job.campaign.logs, logs);
    assert DescendsAt(job.campaign.logs[j], logs[j]);
    FindUnique(logs, j);
  }

  /** A `Sent` or `Failed` log stays `Sent` or `Failed` through the next iteration. */
  lemma RunKeepsSettled(job: Job, k: nat, j: nat)
    requires 0 < k <= |job.recipients| && j < |job.campaign.logs|
    requires |Run(job, k - 1).logs| == |job.campaign.logs|
    requires Run(job, k - 1).logs[j].status == Sent || Run(job, k - 1).logs[j].status == Failed
    ensures |Run(job, k).logs| == |job.campaign.logs|
    ensures Run(job, k).logs[j].status == Sent || Run(job, k).logs[j].status == Failed
  {
    var p := Run(job, k - 1);
    StepLogAt(job, p, k - 1, j);
    if Proceeds(job, p, k - 1) && j == TargetOf(job, p, k - 1) {
      SettleSettles(p.logs[j].(status := MessageStatus.Sending), job.attempt(job.recipients[k - 1], k - 1).outcome,
                    job.stamp(k - 1));
    }
    assert Run(job, k) == StepAt(job, p, k - 1);
  }

  /** The iteration whose recipient has the id of log `j` leaves that log `Sent` or `Failed`. */
  lemma RunSettlesTarget(job: Job, k: nat, j: nat)
    requires 0 < k <= |job.recipients| && j < |job.campaign.logs|
    requires |Run(job, k - 1).logs| == |job.campaign.logs|
    requires FindLogIndex(Run(job, k - 1).logs, job.recipients[k - 1].id) == j
    ensures |Run(job, k).logs| == |job.campaign.logs|
    ensures Run(job, k).logs[j].status == Sent || Run(job, k).logs[j].status == Failed
  {
    var p := Run(job, k - 1);
    StepLogAt(job, p, k - 1, j);
    if Proceeds(job, p, k - 1) {
      SettleSettles(p.logs[j].(status := MessageStatus.Sending), job.attempt(job.recipients[k - 1], k - 1).outcome,
                    job.stamp(k - 1));
    }
    assert Run(job, k) == StepAt(job, p, k - 1);
  }

  /** Every log's contact id is the id of some recipient. */
  predicate Covers(recipients: seq<Contact>, logs: seq<MessageLog>) {
    forall j :: 0 <= j < |logs| ==> logs[j].contact.id in ContactIds(recipients)
  }

  /**
   * When every log is named by some recipient and no two logs share a
   * contact id, every log ends `Sent` or `Failed`, so the two counts the
   * dispatch reports add up to the number of logs.
   */
  lemma DispatchAccountsForAll(job: Job)
    requires DistinctLogIds(job.campaign.logs)
    requires Covers(job.recipients, job.campaign.logs)
    ensures CountStatus(FinalLogs(job), Sent) + CountStatus(FinalLogs(job), Failed) == |FinalLogs(job)|
  {
    var n := |job.recipients|;
    RunLength(job, n);
    forall j | 0 <= j < |job.campaign.logs|
      ensures FinalLogs(job)[j].status == Sent || FinalLogs(job)[j].status == Failed
    {
      var ids := ContactIds(job.recipients);
      assert job.campaign.logs[j].contact.id in ids;
      var i :| 0 <= i < |ids| && ids[i] == job.campaign.logs[j].contact.id;
      RunTargetAt(job, n, i, j);
    }
    CountTwoStatuses(FinalLogs(job), Sent, Failed);
  }

  /**
   * For a campaign whose logs were built from its own recipients (the single
   * number, or directory contacts selected by id), every log is accounted for.
   */
  lemma NewJobAccountsForAll(campaign: Campaign, allContacts: seq<Contact>, settings: ApiSettings,
                             contactFiles: map<string, ManagedFile>, env: Env)
    requires DistinctLogIds(campaign.logs)
    requires campaign.contacts == ["single"] ||
             forall j :: 0 <= j < |campaign.logs| ==>
               campaign.logs[j].contact.id in ContactIds(allContacts) && campaign.logs[j].contact.id in campaign.contacts
    ensures var logs := FinalLogs(NewJob(campaign, allContacts, settings, contactFiles, env));
            CountStatus(logs, Sent) + CountStatus(logs, Failed) == |logs|
  {
    var job := NewJob(campaign, allContacts, settings, contactFiles, env);
    RecipientsCoverLogs(campaign, allContacts);
    DispatchAccountsForAll(job);
  }

  /**
   * Every log's contact id is the id of some resolved recipient; the
   * directory need only still hold a contact with that id, whatever its
   * current name or group.
   */
  lemma RecipientsCoverLogs(campaign: Campaign, allContacts: seq<Contact>)
    requires campaign.contacts == ["single"] ||
             forall j :: 0 <= j < |campaign.logs| ==>
               campaign.logs[j].contact.id in ContactIds(allContacts) && campaign.logs[j].contact.id in campaign.contacts
    ensures Covers(FinalContacts(campaign, allContacts), campaign.logs)
  {
    var recipients := FinalContacts(campaign, allContacts);
    assert (|campaign.contacts| == 1 && campaign.contacts[0] == "single") <==> campaign.contacts == ["single"];
    var ids := ContactIds(recipients);
    forall j | 0 <= j < |campaign.logs|
      ensures campaign.logs[j].contact.id in ids
    {
      if campaign.contacts == ["single"] {
        assert ids[j] == campaign.logs[j].contact.id;
      } else {
        var id := campaign.logs[j].contact.id;
        var n :| 0 <= n < |allContacts| && ContactIds(allContacts)[n] == id;
        var c := allContacts[n];
        assert c in recipients;
        var i :| 0 <= i < |recipients| && recipients[i] == c;
        assert ids[i] == id;
      }
    }
  }

  /** The number of anti-ban pauses in a trace. */
  function Sleeps(events: seq<Event>): nat
    decreases |events|
  {
    if |events| == 0 then 0 else (if events[|events| - 1].Slept? then 1 else 0) + Sleeps(events[..|events| - 1])
  }

  lemma {:induction false} SleepsAppend(a: seq<Event>, b: seq<Event>)
    ensures Sleeps(a + b) == Sleeps(a) + Sleeps(b)
    decreases |b|
  {
    if |b| == 0 {
      assert a + b == a;
    } else {
      assert (a + b)[..|a + b| - 1] == a + b[..|b| - 1];
      SleepsAppend(a, b[..|b| - 1]);
    }
  }

  lemma {:induction false} SleepsNone(events: seq<Event>)
    requires forall i :: 0 <= i < |events| ==> !events[i].Slept?
    ensures Sleeps(events) == 0
    decreases |events|
  {
    if |events| > 0 {
      SleepsNone(events[..|events| - 1]);
    }
  }

  /** An iteration pauses once if it sends and is not the last, and otherwise not at all. */
  lemma StepSleeps(job: Job, p: Progress, i: nat)
    requires i < |job.recipients|
    ensures Sleeps(StepAt(job, p, i).events) ==
              Sleeps(p.events) + (if Proceeds(job, p, i) && i < |job.recipients| - 1 then 1 else 0)
  {
    if Proceeds(job, p, i) {
      var attempt := job.attempt(job.recipients[i], i);
      var a := [Published(job.campaign.(status := CampaignStatus.Sending, logs := SendingLogs(job, p, i)))];
      var r := RequestEvents(attempt.request);
      var b := [Published(job.campaign.(status := CampaignStatus.Sending, logs := SettledLogs(job, p, i)))];
      var z := SleepEvents(job, i);
      assert StepAt(job, p, i).events == p.events + a + r + b + z;
      SleepsAppend(p.events, a);
      SleepsAppend(p.events + a, r);
      SleepsAppend(p.events + a + r, b);
      SleepsAppend(p.events + a + r + b, z);
      SleepsNone(a);
      SleepsNone(r);
      SleepsNone(b);
      if z != [] {
        assert z[..0] == [];
      }
    }
  }

  /** At most one pause per iteration, and none in the last one. */
  lemma {:induction false} RunSleeps(job: Job, k: nat)
    requires k <= |job.recipients|
    ensures Sleeps(Run(job, k).events) <= k
    ensures k > 0 ==> Sleeps(Run(job, k).events) <= |job.recipients| - 1
    decreases k
  {
    if k == 0 {
      var e := Run(job, 0).events;
      assert e[..0] == [];
    } else {
      var p := Run(job, k - 1);
      RunSleeps(job, k - 1);
      StepSleeps(job, p, k - 1);
      assert Run(job, k) == StepAt(job, p, k - 1);
    }
  }

  /** When no recipient is skipped, exactly one pause separates consecutive recipients. */
  lemma {:induction false} RunSleepsExact(job: Job, k: nat)
    requires k <= |job.recipients|
    requires forall i :: 0 <= i < k ==> Proceeds(job, Run(job, i), i)
    ensures Sleeps(Run(job, k).events) == if 0 < k == |job.recipients| then k - 1 else k
    decreases k
  {
    if k == 0 {
      var e := Run(job, 0).events;
      assert e[..0] == [];
    } else {
      var p := Run(job, k - 1);
      RunSleepsExact(job, k - 1);
      StepSleeps(job, p, k - 1);
      assert Run(job, k) == StepAt(job, p, k - 1);
    }
  }

  /** The closing snapshot and alert add no pause: a dispatch pauses at most `n - 1` times. */
  lemma DispatchSleeps(job: Job)
    ensures Sleeps(Dispatch(job)) <= if |job.recipients| == 0 then 0 else |job.recipients| - 1
  {
    RunSleeps(job, |job.recipients|);
    var last := [Published(job.campaign.(status := CampaignStatus.Completed, logs := FinalLogs(job))), Closing(job)];
    SleepsAppend(Run(job, |job.recipients|).events, last);
    SleepsNone(last);
    assert Dispatch(job) == Run(job, |job.recipients|).events + last;
  }

  /**
   * The snapshots published while sending are the campaign itself with
   * `status` `Sending` and a log list of the original length.
   */
  predicate SendingSnapshot(snapshot: Campaign, campaign: Campaign) {
    snapshot.id == campaign.id && snapshot.name == campaign.name && snapshot.message == campaign.message &&
    snapshot.contacts == campaign.contacts && snapshot.schedule == campaign.schedule &&
    snapshot.createdAt == campaign.createdAt && snapshot.attachment == campaign.attachment &&
    snapshot.status == CampaignStatus.Sending && |snapshot.logs| == |campaign.logs|
  }

  /** An iteration only appends to the trace, and what it appends are `Sending` snapshots, requests and pauses. */
  lemma StepEventAt(job: Job, p: Progress, i: nat, t: nat)
    requires i < |job.recipients| && |p.logs| == |job.campaign.logs| && t < |StepAt(job, p, i).events|
    ensures t < |p.events| ==> StepAt(job, p, i).events[t] == p.events[t]
    ensures t >= |p.events| ==> !StepAt(job, p, i).events[t].Alerted?
    ensures t >= |p.events| && StepAt(job, p, i).events[t].Published? ==>
              SendingSnapshot(StepAt(job, p, i).events[t].snapshot, job.campaign)
    ensures t >= |p.events| && StepAt(job, p, i).events[t].Requested? ==>
              job.attempt(job.recipients[i], i).request == Some(StepAt(job, p, i).events[t].request)
  {
    if Proceeds(job, p, i) {
      var a := [Published(job.campaign.(status := CampaignStatus.Sending, logs := SendingLogs(job, p, i)))];
      var r := RequestEvents(job.attempt(job.recipients[i], i).request);
      var b := [Published(job.campaign.(status := CampaignStatus.Sending, logs := SettledLogs(job, p, i)))];
      var z := SleepEvents(job, i);
      var q := StepAt(job, p, i).events;
      assert q == p.events + a + r + b + z;
      if t >= |p.events| + |a| + |r| + |b| {
        assert q[t] == z[t - |p.events| - |a| - |r| - |b|];
      } else if t >= |p.events| + |a| + |r| {
        assert q[t] == b[0];
      } else if t >= |p.events| + |a| {
        assert q[t] == r[t - |p.events| - |a|];
      } else if t >= |p.events| {
        assert q[t] == a[0];
      }
    }
  }

  /** `StepEventAt` for the iteration that takes the run from `k - 1` to `k` steps. */
  lemma RunStepEventAt(job: Job, k: nat, t: nat)
    requires 0 < k <= |job.recipients| && t < |Run(job, k).events|
    ensures t < |Run(job, k - 1).events| ==> Run(job, k).events[t] == Run(job, k - 1).events[t]
    ensures t >= |Run(job, k - 1).events| ==> !Run(job, k).events[t].Alerted?
    ensures t >= |Run(job, k - 1).events| && Run(job, k).events[t].Published? ==>
              SendingSnapshot(Run(job, k).events[t].snapshot, job.campaign)
    ensures t >= |Run(job, k - 1).events| && Run(job, k).events[t].Requested? ==>
              job.attempt(job.recipients[k - 1], k - 1).request == Some(Run(job, k).events[t].request)
  {
    var p := Run(job, k - 1);
    RunLength(job, k - 1);
    assert Run(job, k) == StepAt(job, p, k - 1);
    StepEventAt(job, p, k - 1, t);
  }

  /** The first event of every prefix of the run is the `Sending` snapshot of the campaign. */
  lemma {:induction false} RunFirstEvent(job: Job, k: nat)
    requires k <= |job.recipients|
    ensures |Run(job, k).events| > 0 && Run(job, k).events[0] == Published(job.campaign.(status := CampaignStatus.Sending))
    decreases k
  {
    if k > 0 {
      RunFirstEvent(job, k - 1);
      RunPrefix(job, k);
      RunStepEventAt(job, k, 0);
    }
  }

  /** An iteration only appends to the trace. */
  lemma RunPrefix(job: Job, k: nat)
    requires 0 < k <= |job.recipients|
    ensures |Run(job, k - 1).events| <= |Run(job, k).events|
  {
    var p := Run(job, k - 1);
    assert Run(job, k) == StepAt(job, p, k - 1);
  }

  /** Every snapshot the run publishes is a `Sending` snapshot of the campaign; it never alerts. */
  lemma {:induction false} RunEventAt(job: Job, k: nat, t: nat)
    requires k <= |job.recipients| && t < |Run(job, k).events|
    ensures !Run(job, k).events[t].Alerted?
    ensures Run(job, k).events[t].Published? ==> SendingSnapshot(Run(job, k).events[t].snapshot, job.campaign)
    decreases k
  {
    if k == 0 {
      assert Run(job, 0).events == [Published(job.campaign.(status := CampaignStatus.Sending))];
    } else {
      RunStepEventAt(job, k, t);
      if t < |Run(job, k - 1).events| {
        RunEventAt(job, k - 1, t);
      }
    }
  }

  /**
   * A dispatch first publishes the campaign as `Sending`, publishes only
   * `Sending` snapshots of it while it runs, ends with the `Completed`
   * campaign carrying the final logs, and then alerts the final counts.
   */
  lemma DispatchShape(job: Job)
    ensures |Dispatch(job)| >= 3
    ensures Dispatch(job)[0] == Published(job.campaign.(status := CampaignStatus.Sending))
    ensures Dispatch(job)[|Dispatch(job)| - 2] ==
              Published(job.campaign.(status := CampaignStatus.Completed, logs := FinalLogs(job)))
    ensures Dispatch(job)[|Dispatch(job)| - 1] ==
              Alerted(job.campaign.name, CountStatus(FinalLogs(job), Sent), CountStatus(FinalLogs(job), Failed))
    ensures forall t :: 0 <= t < |Dispatch(job)| - 2 ==> !Dispatch(job)[t].Alerted?
    ensures forall t :: 0 <= t < |Dispatch(job)| - 2 && Dispatch(job)[t].Published? ==>
              SendingSnapshot(Dispatch(job)[t].snapshot, job.campaign)
  {
    var n := |job.recipients|;
    RunFirstEvent(job, n);
    var events := Run(job, n).events;
    assert forall t :: 0 <= t < |events| ==> Dispatch(job)[t] == events[t];
    forall t | 0 <= t < |events|
      ensures !events[t].Alerted?
      ensures events[t].Published? ==> SendingSnapshot(events[t].snapshot, job.campaign)
    {
      RunEventAt(job, n, t);
    }
  }

  /** A log the offline guard rejected. */
  predicate OfflineFailure(log: MessageLog) {
    log.status == Failed && log.error.Some? &&
    (log.error.value == BaileysNotConnected || StartsWith(log.error.value, FileNotFoundPrefix))
  }

  /** An attempt the offline guard rejected before any request. */
  predicate OfflineAttemptOf(a: Attempt) {
    a.request.None? && a.outcome.Err? && a.outcome.error.ErrorValue? &&
    (a.outcome.error.message == BaileysNotConnected || StartsWith(a.outcome.error.message, FileNotFoundPrefix))
  }

  /** With Baileys selected but not ready, every send is refused before any request. */
  lemma OfflineAttempt(sender: Sender, contact: Contact, i: nat)
    requires sender.settings.provider == "baileys" && !BaileysReady(sender.settings)
    ensures OfflineAttemptOf(AttemptFor(sender, contact, i))
  {
    var r := ResolveAttachment(sender.campaign, contact, sender.contactFiles, sender.env.blobs);
    if r.Err? {
      assert r.error[..|FileNotFoundPrefix|] == FileNotFoundPrefix;
    }
  }

  /** Every send refused: each log is untouched or failed by the refusal. */
  lemma {:induction false} OfflineLogAt(job: Job, k: nat, j: nat)
    requires k <= |job.recipients| && j < |job.campaign.logs|
    requires forall i :: 0 <= i < |job.recipients| ==> OfflineAttemptOf(job.attempt(job.recipients[i], i))
    ensures |Run(job, k).logs| == |job.campaign.logs|
    ensures Run(job, k).logs[j] == job.campaign.logs[j] || OfflineFailure(Run(job, k).logs[j])
    decreases k
  {
    if k == 0 {
      RunLength(job, 0);
    } else {
      OfflineLogAt(job, k - 1, j);
      OfflineLogStep(job, k, j);
    }
  }

  /** One refused send keeps a log untouched or failed by the refusal. */
  lemma OfflineLogStep(job: Job, k: nat, j: nat)
    requires 0 < k <= |job.recipients| && j < |job.campaign.logs|
    requires OfflineAttemptOf(job.attempt(job.recipients[k - 1], k - 1))
    requires |Run(job, k - 1).logs| == |job.campaign.logs|
    requires Run(job, k - 1).logs[j] == job.campaign.logs[j] || OfflineFailure(Run(job, k - 1).logs[j])
    ensures |Run(job, k).logs| == |job.campaign.logs|
    ensures Run(job, k).logs[j] == job.campaign.logs[j] || OfflineFailure(Run(job, k).logs[j])
  {
    var p := Run(job, k - 1);
    StepLogAt(job, p, k - 1, j);
    var attempt := job.attempt(job.recipients[k - 1], k - 1);
    SettleSettles(p.logs[j].(status := MessageStatus.Sending), attempt.outcome, job.stamp(k - 1));
    assert Run(job, k) == StepAt(job, p, k - 1);
  }

  /** Every send refused: the run makes no request. */
  lemma {:induction false} OfflineEventAt(job: Job, k: nat, t: nat)
    requires k <= |job.recipients| && t < |Run(job, k).events|
    requires forall i :: 0 <= i < |job.recipients| ==> OfflineAttemptOf(job.attempt(job.recipients[i], i))
    ensures !Run(job, k).events[t].Requested?
    decreases k
  {
    if k == 0 {
      assert Run(job, 0).events == [Published(job.campaign.(status := CampaignStatus.Sending))];
    } else {
      RunStepEventAt(job, k, t);
      if t < |Run(job, k - 1).events| {
        OfflineEventAt(job, k - 1, t);
      } else {
        assert OfflineAttemptOf(job.attempt(job.recipients[k - 1], k - 1));
      }
    }
  }

  /**
   * With Baileys selected but not connected, nothing is sent: no request is
   * made, and every log touched fails with the not-connected message or the
   * missing-file message.
   */
  lemma OfflineDispatch(campaign: Campaign, allContacts: seq<Contact>, settings: ApiSettings,
                        contactFiles: map<string, ManagedFile>, env: Env)
    requires settings.provider == "baileys" && !BaileysReady(settings)
    ensures var job := NewJob(campaign, allContacts, settings, contactFiles, env);
            |FinalLogs(job)| == |campaign.logs| &&
            (forall t :: 0 <= t < |Dispatch(job)| ==> !Dispatch(job)[t].Requested?) &&
            forall j :: 0 <= j < |campaign.logs| ==>
              FinalLogs(job)[j] == campaign.logs[j] || OfflineFailure(FinalLogs(job)[j])
  {
    var job := NewJob(campaign, allContacts, settings, contactFiles, env);
    var sender := Sender(campaign, settings, contactFiles, env);
    forall i | 0 <= i < |job.recipients|
      ensures OfflineAttemptOf(job.attempt(job.recipients[i], i))
    {
      OfflineAttempt(sender, job.recipients[i], i);
    }
    OfflineJob(job);
  }

  /** A job whose every send is refused makes no request and fails only by the refusal. */
  lemma OfflineJob(job: Job)
    requires forall i :: 0 <= i < |job.recipients| ==> OfflineAttemptOf(job.attempt(job.recipients[i], i))
    ensures |FinalLogs(job)| == |job.campaign.logs|
    ensures forall t :: 0 <= t < |Dispatch(job)| ==> !Dispatch(job)[t].Requested?
    ensures forall j :: 0 <= j < |job.campaign.logs| ==>
              FinalLogs(job)[j] == job.campaign.logs[j] || OfflineFailure(FinalLogs(job)[j])
  {
    var n := |job.recipients|;
    RunLength(job, n);
    forall j | 0 <= j < |job.campaign.logs|
      ensures FinalLogs(job)[j] == job.campaign.logs[j] || OfflineFailure(FinalLogs(job)[j])
    {
      OfflineLogAt(job, n, j);
    }
    var events := Run(job, n).events;
    forall t | 0 <= t < |Dispatch(job)|
      ensures !Dispatch(job)[t].Requested?
    {
      if t < |events| {
        assert Dispatch(job)[t] == events[t];
        OfflineEventAt(job, n, t);
      }
    }
  }

  // What the logs report
  // ------------------------------------------------------------------

  /** An outcome with something to report: a non-empty provider id, or a non-empty error text. */
  predicate Reported(outcome: Result<string, Thrown>) {
    match outcome
    case Ok(id) => id != ""
    case Err(t) => ThrownMessage(t) != ""
  }

  /** A log `Sent` with a non-empty provider id, or `Failed` with a non-empty error text. */
  predicate ReportedLog(log: MessageLog) {
    (log.status == Sent && log.apiMessageId.Some? && log.apiMessageId.value != "") ||
    (log.status == Failed && log.error.Some? && log.error.value != "")
  }

  /** A transport whose response bodies are `JSON.stringify` text and whose thrown `Error`s carry a message. */
  ghost predicate HonestTransport(env: Env) {
    forall i, r :: WellFormed(env.transport(i, r)) &&
                   (env.transport(i, r).Rejected? ==> ThrownMessage(env.transport(i, r).thrown) != "")
  }

  /** Against such a transport every send reports a non-empty id or a non-empty error. */
  lemma AttemptReported(sender: Sender, contact: Contact, i: nat)
    requires HonestTransport(sender.env)
    ensures Reported(AttemptFor(sender, contact, i).outcome)
  {
    var r := ResolveAttachment(sender.campaign, contact, sender.contactFiles, sender.env.blobs);
    if r.Err? {
      assert r.error[0] == FileNotFoundPrefix[0];
    }
  }

  /** Sends that all report: each log is untouched or reports. */
  lemma {:induction false} ReportedLogAt(job: Job, k: nat, j: nat)
    requires k <= |job.recipients| && j < |job.campaign.logs|
    requires forall i :: 0 <= i < |job.recipients| ==> Reported(job.attempt(job.recipients[i], i).outcome)
    ensures |Run(job, k).logs| == |job.campaign.logs|
    ensures Run(job, k).logs[j] == job.campaign.logs[j] || ReportedLog(Run(job, k).logs[j])
    decreases k
  {
    if k == 0 {
      RunLength(job, 0);
    } else {
      ReportedLogAt(job, k - 1, j);
      ReportedLogStep(job, k, j);
    }
  }

  /** One send that reports keeps a log untouched or leaves it reporting. */
  lemma ReportedLogStep(job: Job, k: nat, j: nat)
    requires 0 < k <= |job.recipients| && j < |job.campaign.logs|
    requires Reported(job.attempt(job.recipients[k - 1], k - 1).outcome)
    requires |Run(job, k - 1).logs| == |job.campaign.logs|
    requires Run(job, k - 1).logs[j] == job.campaign.logs[j] || ReportedLog(Run(job, k - 1).logs[j])
    ensures |Run(job, k).logs| == |job.campaign.logs|
    ensures Run(job, k).logs[j] == job.campaign.logs[j] || ReportedLog(Run(job, k).logs[j])
  {
    var p := Run(job, k - 1);
    StepLogAt(job, p, k - 1, j);
    var attempt := job.attempt(job.recipients[k - 1], k - 1);
    SettleSettles(p.logs[j].(status := MessageStatus.Sending), attempt.outcome, job.stamp(k - 1));
    assert Run(job, k) == StepAt(job, p, k - 1);
  }

  /**
   * Against a transport whose bodies are well-formed and whose thrown
   * errors carry a message, every log the dispatch touches ends `Sent` with
   * a non-empty id or `Failed` with a non-empty error.
   */
  lemma DispatchReports(campaign: Campaign, allContacts: seq<Contact>, settings: ApiSettings,
                        contactFiles: map<string, ManagedFile>, env: Env)
    requires HonestTransport(env)
    ensures var job := NewJob(campaign, allContacts, settings, contactFiles, env);
            |FinalLogs(job)| == |campaign.logs| &&
            forall j :: 0 <= j < |campaign.logs| ==>
              FinalLogs(job)[j] == campaign.logs[j] || ReportedLog(FinalLogs(job)[j])
  {
    var job := NewJob(campaign, allContacts, settings, contactFiles, env);
    var sender := Sender(campaign, settings, contactFiles, env);
    var n := |job.recipients|;
    forall i | 0 <= i < n
      ensures Reported(job.attempt(job.recipients[i], i).outcome)
    {
      AttemptReported(sender, job.recipients[i], i);
    }
    RunLength(job, n);
    forall j | 0 <= j < |campaign.logs|
      ensures FinalLogs(job)[j] == campaign.logs[j] || ReportedLog(FinalLogs(job)[j])
    {
      ReportedLogAt(job, n, j);
    }
  }
}
