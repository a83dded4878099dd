/**
 * The campaign history (components/Campaigns.tsx): adding or replacing a
 * campaign in the list, re-reading the delivery status of the sent
 * messages, the sent and failed counters of the history table, and when
 * the sync and create buttons are enabled.
 */
module Campaigns {
  import opened Wrappers
  import opened Types

  // ------------------------------------------------------------------
  // Adding a campaign (components/Campaigns.tsx:36-49)
  // ------------------------------------------------------------------

  /** Some campaign of the list has the id. */
  predicate HasId(campaigns: seq<Campaign>, id: string) {
    exists i :: 0 <= i < |campaigns| && campaigns[i].id == id
  }

  /** `prev.map(c => c.id === x.id ? x : c)`. */
  function ReplaceById(campaigns: seq<Campaign>, x: Campaign): (r: seq<Campaign>)
    ensures |r| == |campaigns|
    ensures forall i :: 0 <= i < |r| ==> r[i] == if campaigns[i].id == x.id then x else campaigns[i]
  {
    seq(|campaigns|, i requires 0 <= i < |campaigns| => if campaigns[i].id == x.id then x else campaigns[i])
  }

  /** The state update of `handleAddCampaign`: replace the campaign with the same id, or append it. */
  function Upsert(campaigns: seq<Campaign>, x: Campaign): (r: seq<Campaign>)
    ensures HasId(campaigns, x.id) ==> r == ReplaceById(campaigns, x)
    ensures !HasId(campaigns, x.id) ==> r == campaigns + [x]
  {
    if exists i :: 0 <= i < |campaigns| && campaigns[i].id == x.id then ReplaceById(campaigns, x)
    else campaigns + [x]
  }

  /**
   * After an upsert the campaign is in the list, exactly once when ids were
   * distinct, every other campaign is kept in its place, and the list grows
   * only when the id was new.
   */
  lemma UpsertPlaces(campaigns: seq<Campaign>, x: Campaign)
    requires forall i, j :: 0 <= i < j < |campaigns| ==> campaigns[i].id != campaigns[j].id
    ensures var r := Upsert(campaigns, x);
            |r| == (if HasId(campaigns, x.id) then |campaigns| else |campaigns| + 1) &&
            x in r &&
            (forall i, j :: 0 <= i < j < |r| ==> r[i].id != r[j].id) &&
            (forall i :: 0 <= i < |campaigns| && campaigns[i].id != x.id ==> r[i] == campaigns[i])
  {
    var r := Upsert(campaigns, x);
    if HasId(campaigns, x.id) {
      var k :| 0 <= k < |campaigns| && campaigns[k].id == x.id;
      assert r[k] == x;
    } else {
      assert r[|campaigns|] == x;
    }
  }

  /** What the page does with its draft and its view once a campaign is handed to it. */
  datatype Page = Page(campaigns: seq<Campaign>, draft: Option<DraftCampaign>, view: string)

  const HistoryView: string := "blast/history"

  /** Upsert; then, unless the campaign is being sent, clear the draft and show the history. */
  function HandleAddCampaign(page: Page, x: Campaign): (r: Page)
    ensures r.campaigns == Upsert(page.campaigns, x)
    ensures x.status != CampaignStatus.Sending ==> r.draft.None? && r.view == HistoryView
    ensures x.status == CampaignStatus.Sending ==> r.draft == page.draft && r.view == page.view
  {
    if x.status != CampaignStatus.Sending then Page(Upsert(page.campaigns, x), None, HistoryView)
    else page.(campaigns := Upsert(page.campaigns, x))
  }

  /**
   * The snapshots a dispatch publishes for a campaign already in the list
   * leave the list's length and every other campaign as they were.
   */
  lemma RepublishKeepsOthers(page: Page, x: Campaign, i: nat)
    requires HasId(page.campaigns, x.id) && i < |page.campaigns| && page.campaigns[i].id != x.id
    ensures |HandleAddCampaign(page, x).campaigns| == |page.campaigns|
    ensures HandleAddCampaign(page, x).campaigns[i] == page.campaigns[i]
  {
  }

  // ------------------------------------------------------------------
  // Status sync (components/Campaigns.tsx:56-80)
  // ------------------------------------------------------------------

  /** A log the sync asks about: it has a (truthy) provider id and has not failed. */
  predicate Syncable(log: MessageLog) {
    log.apiMessageId.Some? && log.apiMessageId.value != "" && log.status != Failed
  }

  /**
   * `fetchStatus` as an oracle: the status it reports for the message id
   * of the `i`-th log, or `None` when it throws.
   */
  type StatusLookup = (nat, string) -> Option<MessageStatus>

  function SyncLog(log: MessageLog, i: nat, lookup: StatusLookup): MessageLog {
    if Syncable(log) then
      match lookup(i, log.apiMessageId.value)
      case Some(status) => log.(status := status)
      case None => log
    else log
  }

  /** The `Promise.all` over the logs, in log order. */
  function SyncLogs(logs: seq<MessageLog>, lookup: StatusLookup): (r: seq<MessageLog>)
    ensures |r| == |logs|
    ensures forall i :: 0 <= i < |logs| ==> r[i] == SyncLog(logs[i], i, lookup)
  {
    seq(|logs|, i requires 0 <= i < |logs| => SyncLog(logs[i], i, lookup))
  }

  /**
   * Only a syncable log can change, and only in its status: to what the
   * lookup reported, or not at all when the lookup threw.
   */
  lemma SyncLogChanges(log: MessageLog, i: nat, lookup: StatusLookup)
    ensures var s := SyncLog(log, i, lookup);
            s.(status := log.status) == log &&
            (!Syncable(log) ==> s == log) &&
            (Syncable(log) && lookup(i, log.apiMessageId.value).None? ==> s == log) &&
            (Syncable(log) && lookup(i, log.apiMessageId.value).Some? ==>
               s.status == lookup(i, log.apiMessageId.value).value)
  {
  }

  /**
   * `handleSyncStatus`: the logs are re-read from the campaign as the page
   * last rendered it (`rendered`), and put into the list as it is when the
   * update runs (`current`); an unknown id leaves the list alone.
   */
  function SyncStatus(rendered: seq<Campaign>, current: seq<Campaign>, id: string, lookup: StatusLookup)
    : (r: seq<Campaign>)
    ensures |r| == |current|
    ensures FindByKey(rendered, CampaignKey, id).None? ==> r == current
    ensures forall i :: 0 <= i < |current| && current[i].id != id ==> r[i] == current[i]
    ensures FindByKey(rendered, CampaignKey, id).Some? ==>
              forall i :: 0 <= i < |current| && current[i].id == id ==>
                r[i] == current[i].(logs := SyncLogs(FindByKey(rendered, CampaignKey, id).value.logs, lookup))
  {
    match FindByKey(rendered, CampaignKey, id)
    case None => current
    case Some(campaign) =>
      var logs := SyncLogs(campaign.logs, lookup);
      seq(|current|, i requires 0 <= i < |current| => if current[i].id == id then current[i].(logs := logs) else current[i])
  }

  /**
   * When the list has not changed since it was rendered, a sync keeps the
   * target's log count and changes only the statuses of its syncable logs.
   */
  lemma SyncTargetLogs(campaigns: seq<Campaign>, id: string, lookup: StatusLookup, k: nat, j: nat)
    requires k < |campaigns| && campaigns[k].id == id
    requires forall i :: 0 <= i < k ==> campaigns[i].id != id
    requires j < |campaigns[k].logs|
    ensures var r := SyncStatus(campaigns, campaigns, id, lookup);
            var log := campaigns[k].logs[j];
            |r[k].logs| == |campaigns[k].logs| &&
            r[k].(logs := campaigns[k].logs) == campaigns[k] &&
            r[k].logs[j].(status := log.status) == log &&
            (!Syncable(log) ==> r[k].logs[j] == log)
  {
    assert FindByKey(campaigns, CampaignKey, id) == Some(campaigns[k]) by {
      FindByKeyFirst(campaigns, CampaignKey, id, k);
    }
    SyncLogChanges(campaigns[k].logs[j], j, lookup);
  }

  // ------------------------------------------------------------------
  // History counters and buttons (components/Campaigns.tsx:121-129, 172)
  // ------------------------------------------------------------------

  /** A message the provider accepted: `Sent`, `Delivered` or `Read`. */
  predicate Accepted(status: MessageStatus) {
    status == Sent || status == Delivered || status == Read
  }

  /** The green counter. */
  function SentColumn(logs: seq<MessageLog>): (n: nat)
    ensures n <= |logs|
    decreases |logs|
  {
    if |logs| == 0 then 0 else (if Accepted(logs[0].status) then 1 else 0) + SentColumn(logs[1..])
  }

  /** The red counter. */
  function FailedColumn(logs: seq<MessageLog>): nat {
    CountStatus(logs, Failed)
  }

  /**
   * The green counter adds up the three accepted statuses, and the two
   * counters together never exceed the number of logs.
   */
  lemma {:induction false} ColumnsCount(logs: seq<MessageLog>)
    ensures SentColumn(logs) == CountStatus(logs, Sent) + CountStatus(logs, Delivered) + CountStatus(logs, Read)
    ensures SentColumn(logs) + FailedColumn(logs) <= |logs|
    decreases |logs|
  {
    if |logs| > 0 {
      ColumnsCount(logs[1..]);
    }
  }

  /** The sync button is enabled unless this campaign is syncing or is a draft or scheduled. */
  predicate SyncEnabled(campaign: Campaign, syncing: Option<string>) {
    !(syncing == Some(campaign.id) || campaign.status == Draft || campaign.status == Scheduled)
  }

  /** Only a campaign that has been sent (or is being sent) can be synced. */
  lemma SyncEnabledIff(campaign: Campaign, syncing: Option<string>)
    ensures SyncEnabled(campaign, syncing) <==>
              (campaign.status == CampaignStatus.Sending || campaign.status == Completed) && syncing != Some(campaign.id)
  {
  }

  /** "New campaign" is disabled for Fonnte without a key and for Baileys without a connected session. */
  predicate CreateEnabled(settings: ApiSettings) {
    !((settings.provider == "fonnte" && settings.fonnteApiKey == "") ||
      (settings.provider == "baileys" && settings.baileysSessionStatus != Some(Connected)))
  }

  /**
   * Creation is enabled for a configured Fonnte or a connected Baileys and
   * for any other provider value; a Baileys session that is connected
   * enables it even without a server URL or key, which the dispatch then
   * refuses.
   */
  lemma CreateEnabledCases(settings: ApiSettings)
    ensures settings.provider == "fonnte" ==> (CreateEnabled(settings) <==> settings.fonnteApiKey != "")
    ensures settings.provider == "baileys" ==>
              (CreateEnabled(settings) <==> settings.baileysSessionStatus == Some(Connected))
    ensures settings.provider != "fonnte" && settings.provider != "baileys" ==> CreateEnabled(settings)
  {
  }
}
