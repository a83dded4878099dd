/**
 * The application shell (App.tsx): the scheduler tick that dispatches due
 * campaigns, the callback through which a dispatch publishes its
 * snapshots, whether the API is configured, and which page a view string
 * shows.
 */
module App {
  import opened Wrappers
  import opened Strings
  import opened Types
  import Campaigns
  import CampaignService

  // ------------------------------------------------------------------
  // The scheduler tick (App.tsx:27-42)
  // ------------------------------------------------------------------

  /** Scheduled, with a schedule, and the schedule is not after `now`. */
  predicate IsDue(campaign: Campaign, nowMs: int) {
    campaign.status == Scheduled && campaign.schedule.Some? && campaign.schedule.value <= nowMs
  }

  /** The arguments of one `sendCampaign` call the tick makes. */
  datatype SendCall = SendCall(
    campaign: Campaign,
    contacts: seq<Contact>,
    settings: ApiSettings,
    contactFiles: map<string, ManagedFile>)

  /** The calls the tick makes, in list order. */
  function DueCalls(campaigns: seq<Campaign>, contacts: seq<Contact>, settings: ApiSettings, nowMs: int)
    : seq<SendCall>
    decreases |campaigns|
  {
    if |campaigns| == 0 then []
    else
      var prior := DueCalls(campaigns[..|campaigns| - 1], contacts, settings, nowMs);
      var c := campaigns[|campaigns| - 1];
      if IsDue(c, nowMs) then prior + [SendCall(c, contacts, settings, map[])] else prior
  }

  /** One tick: the `forEach` over the campaigns, starting a dispatch for each due one. */
  method SchedulerTick(campaigns: seq<Campaign>, contacts: seq<Contact>, settings: ApiSettings, nowMs: int)
    returns (calls: seq<SendCall>)
    ensures calls == DueCalls(campaigns, contacts, settings, nowMs)
  {
    calls := [];
    for i := 0 to |campaigns|
      invariant calls == DueCalls(campaigns[..i], contacts, settings, nowMs)
    {
      assert campaigns[..i + 1][..i] == campaigns[..i];
      if campaigns[i].status == Scheduled && campaigns[i].schedule.Some? && campaigns[i].schedule.value <= nowMs {
        calls := calls + [SendCall(campaigns[i], contacts, settings, map[])];
      }
    }
    assert campaigns[..|campaigns|] == campaigns;
  }

  /**
   * A tick dispatches exactly the due campaigns, no campaign of another
   * status, with the current directory and settings and no per-contact
   * files.
   */
  lemma {:induction false} DueCallsSelect(campaigns: seq<Campaign>, contacts: seq<Contact>, settings: ApiSettings,
                                          nowMs: int, call: SendCall)
    ensures call in DueCalls(campaigns, contacts, settings, nowMs) <==>
              call.campaign in campaigns && IsDue(call.campaign, nowMs) &&
              call == SendCall(call.campaign, contacts, settings, map[])
    ensures call in DueCalls(campaigns, contacts, settings, nowMs) ==> call.campaign.status == Scheduled
    decreases |campaigns|
  {
    if |campaigns| > 0 {
      var init := campaigns[..|campaigns| - 1];
      DueCallsSelect(init, contacts, settings, nowMs, call);
      assert campaigns == init + [campaigns[|campaigns| - 1]];
    }
  }

  /** The calls follow the order of the list, one per due campaign. */
  lemma {:induction false} DueCallsCount(campaigns: seq<Campaign>, contacts: seq<Contact>, settings: ApiSettings,
                                         nowMs: int)
    ensures |DueCalls(campaigns, contacts, settings, nowMs)| <= |campaigns|
    ensures (forall i :: 0 <= i < |campaigns| ==> IsDue(campaigns[i], nowMs)) ==>
              |DueCalls(campaigns, contacts, settings, nowMs)| == |campaigns|
    ensures (forall i :: 0 <= i < |campaigns| ==> !IsDue(campaigns[i], nowMs)) ==>
              DueCalls(campaigns, contacts, settings, nowMs) == []
    decreases |campaigns|
  {
    if |campaigns| > 0 {
      DueCallsCount(campaigns[..|campaigns| - 1], contacts, settings, nowMs);
    }
  }

  /** Without per-contact files, a scheduled dispatch always sends the campaign's own attachment. */
  lemma ScheduledAttachment(call: SendCall, contact: Contact, blobs: map<string, string>)
    requires call.contactFiles == map[]
    ensures CampaignService.ResolveAttachment(call.campaign, contact, call.contactFiles, blobs) ==
              Ok(call.campaign.attachment)
  {
  }

  /** The callback: replace the campaign with the snapshot's id; the list keeps its length. */
  function UpdateCampaign(campaigns: seq<Campaign>, updated: Campaign): (r: seq<Campaign>)
    ensures |r| == |campaigns|
    ensures forall i :: 0 <= i < |r| ==> r[i] == if campaigns[i].id == updated.id then updated else campaigns[i]
  {
    Campaigns.ReplaceById(campaigns, updated)
  }

  /** A snapshot of a campaign that is no longer in the list changes nothing. */
  lemma UpdateAbsent(campaigns: seq<Campaign>, updated: Campaign)
    requires forall i :: 0 <= i < |campaigns| ==> campaigns[i].id != updated.id
    ensures UpdateCampaign(campaigns, updated) == campaigns
  {
  }

  /**
   * Once a dispatch has published its first snapshot, the campaign is
   * `Sending` in the list, so a later tick no longer finds it due; the
   * other campaigns' due state is unchanged.
   */
  lemma NotDueAfterPublish(campaigns: seq<Campaign>, campaign: Campaign, nowMs: int, i: nat)
    requires i < |campaigns|
    ensures var r := UpdateCampaign(campaigns, campaign.(status := CampaignStatus.Sending));
            (campaigns[i].id == campaign.id ==> !IsDue(r[i], nowMs)) &&
            (campaigns[i].id != campaign.id ==> (IsDue(r[i], nowMs) <==> IsDue(campaigns[i], nowMs)))
  {
  }

  // ------------------------------------------------------------------
  // Configuration and routing (App.tsx:84-111)
  // ------------------------------------------------------------------

  /** A Gemini key, and the active provider's device (Fonnte) or session (Baileys) connected. */
  predicate IsApiConfigured(settings: ApiSettings) {
    settings.geminiApiKey != "" &&
    ((settings.provider == "fonnte" && settings.fonnteDeviceStatus == Some(DeviceConnected)) ||
     (settings.provider == "baileys" && settings.baileysSessionStatus == Some(Connected)))
  }

  /**
   * A configured API has one of the two providers; for Baileys it also
   * enables campaign creation, while for Fonnte a connected device does
   * not imply a key.
   */
  lemma ConfiguredProvider(settings: ApiSettings)
    ensures IsApiConfigured(settings) ==> settings.provider == "fonnte" || settings.provider == "baileys"
    ensures IsApiConfigured(settings) && settings.provider == "baileys" ==> Campaigns.CreateEnabled(settings)
    ensures settings.geminiApiKey == "" ==> !IsApiConfigured(settings)
  {
  }

  /** The pages `renderView` can show. */
  datatype Screen =
    | DashboardScreen
    | BlastScreen(subView: string)
    | ContactsScreen
    | GroupsScreen
    | FileManagerScreen
    | SmartReplyScreen
    | SettingsScreen

  /** The `switch` on the main view; the blast page defaults its sub-view to the history. */
  function ScreenOf(main: string, sub: string): (s: Screen)
    ensures main == "blast" ==> s == BlastScreen(if sub != "" then sub else "history")
    ensures s.BlastScreen? ==> main == "blast" && s.subView != ""
    ensures main !in ["dashboard", "blast", "contacts", "groups", "file-manager", "smart-reply", "settings"] ==>
              s == DashboardScreen
  {
    if main == "dashboard" then DashboardScreen
    else if main == "blast" then BlastScreen(if sub != "" then sub else "history")
    else if main == "contacts" then ContactsScreen
    else if main == "groups" then GroupsScreen
    else if main == "file-manager" then FileManagerScreen
    else if main == "smart-reply" then SmartReplyScreen
    else if main == "settings" then SettingsScreen
    else DashboardScreen
  }

  /** `const [mainView, subView] = view.split('/')`; a missing sub-view is `undefined`, read as "". */
  function Route(view: string): Screen {
    var parts := Split(view, "/");
    ScreenOf(parts[0], if |parts| > 1 then parts[1] else "")
  }

  predicate NoSlash(s: string) {
    forall i :: 0 <= i < |s| ==> s[i] != '/'
  }

  /** A view with no '/' is its own main view, with no sub-view. */
  lemma RouteMain(main: string)
    requires NoSlash(main)
    ensures Route(main) == ScreenOf(main, "")
  {
    CharAbsent(main, '/');
    SplitAbsent(main, "/");
  }

  /** `main/sub`, possibly followed by further segments: the first two segments pick the screen. */
  lemma RouteSub(main: string, sub: string, rest: string)
    requires NoSlash(main) && NoSlash(sub) && (rest == "" || rest[0] == '/')
    ensures Route(main + "/" + sub + rest) == ScreenOf(main, sub)
  {
    var v := main + "/" + sub + rest;
    assert v == main + ['/'] + (sub + rest);
    SplitAtChar(main, '/', sub + rest);
    if rest == "" {
      assert sub + rest == sub;
      CharAbsent(sub, '/');
      SplitAbsent(sub, "/");
    } else {
      assert sub + rest == sub + ['/'] + rest[1..];
      SplitAtChar(sub, '/', rest[1..]);
    }
  }
}
