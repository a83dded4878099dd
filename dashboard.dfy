/**
 * The dashboard (components/Dashboard.tsx): the sent and failed totals over
 * all campaigns and the per-campaign bars of the chart.
 */
module Dashboard {
  import opened Types
  import Campaigns

  /** `campaigns.reduce((acc, c) => acc + <logs of c with this status>, 0)`, folding from the left. */
  function Total(campaigns: seq<Campaign>, status: MessageStatus): nat
    decreases |campaigns|
  {
    if |campaigns| == 0 then 0
    else Total(campaigns[..|campaigns| - 1], status) + CountStatus(campaigns[|campaigns| - 1].logs, status)
  }

  /** The "Messages Sent" card: logs that are exactly `Sent`. */
  function TotalSent(campaigns: seq<Campaign>): nat {
    Total(campaigns, Sent)
  }

  /** The "Messages Failed" card. */
  function TotalFailed(campaigns: seq<Campaign>): nat {
    Total(campaigns, Failed)
  }

  /** One bar of the chart. */
  datatype Bar = Bar(name: string, sent: nat, failed: nat)

  /** `campaigns.map(...)`: one bar per campaign, in order, with its own counts. */
  function CampaignData(campaigns: seq<Campaign>): (bars: seq<Bar>)
    ensures |bars| == |campaigns|
    ensures forall i :: 0 <= i < |campaigns| ==>
              bars[i] == Bar(campaigns[i].name, CountStatus(campaigns[i].logs, Sent), CountStatus(campaigns[i].logs, Failed))
  {
    seq(|campaigns|, i requires 0 <= i < |campaigns| =>
          Bar(campaigns[i].name, CountStatus(campaigns[i].logs, Sent), CountStatus(campaigns[i].logs, Failed)))
  }

  function SumSent(bars: seq<Bar>): nat
    decreases |bars|
  {
    if |bars| == 0 then 0 else SumSent(bars[..|bars| - 1]) + bars[|bars| - 1].sent
  }

  function SumFailed(bars: seq<Bar>): nat
    decreases |bars|
  {
    if |bars| == 0 then 0 else SumFailed(bars[..|bars| - 1]) + bars[|bars| - 1].failed
  }

  /** The cards agree with the chart: each total is the sum of its bars. */
  lemma {:induction false} TotalsMatchBars(campaigns: seq<Campaign>)
    ensures TotalSent(campaigns) == SumSent(CampaignData(campaigns))
    ensures TotalFailed(campaigns) == SumFailed(CampaignData(campaigns))
    decreases |campaigns|
  {
    if |campaigns| > 0 {
      var init := campaigns[..|campaigns| - 1];
      TotalsMatchBars(init);
      assert CampaignData(campaigns)[..|campaigns| - 1] == CampaignData(init);
    }
  }

  /** The number of logs over all campaigns. */
  function TotalLogs(campaigns: seq<Campaign>): nat
    decreases |campaigns|
  {
    if |campaigns| == 0 then 0 else TotalLogs(campaigns[..|campaigns| - 1]) + |campaigns[|campaigns| - 1].logs|
  }

  /** The history table's green counters, summed. */
  function HistorySent(campaigns: seq<Campaign>): nat
    decreases |campaigns|
  {
    if |campaigns| == 0 then 0
    else HistorySent(campaigns[..|campaigns| - 1]) + Campaigns.SentColumn(campaigns[|campaigns| - 1].logs)
  }

  /**
   * The dashboard counts only `Sent`: the history's counters exceed it by
   * the delivered and read messages, and the two cards never exceed the
   * number of logs.
   */
  lemma {:induction false} DashboardVsHistory(campaigns: seq<Campaign>)
    ensures HistorySent(campaigns) == TotalSent(campaigns) + Total(campaigns, Delivered) + Total(campaigns, Read)
    ensures TotalSent(campaigns) + TotalFailed(campaigns) <= TotalLogs(campaigns)
    decreases |campaigns|
  {
    if |campaigns| > 0 {
      var last := campaigns[|campaigns| - 1];
      DashboardVsHistory(campaigns[..|campaigns| - 1]);
      Campaigns.ColumnsCount(last.logs);
      CountTwoStatuses(last.logs, Sent, Failed);
    }
  }
}
