/**
 * The keyword auto-reply rules (components/AutoReplyBot.tsx): the rule
 * form's validation and submission, and toggling, saving and deleting
 * rules in the settings' rule list.
 */
module AutoReply {
  import opened Wrappers
  import opened Strings
  import opened Types

  /** A keyword rule, as the rule form and list use it. */
  datatype AutoReplyRule = AutoReplyRule(id: string, keywords: string, replyMessage: string, enabled: bool)

  function RuleKey(rule: AutoReplyRule): string { rule.id }

  /** What the form hands to `onSave`: a rule without its id. */
  datatype RuleData = RuleData(keywords: string, replyMessage: string, enabled: bool)

  const KeywordsRequired: string := "Keywords are required."
  const ReplyRequired: string := "Reply message is required."

  /** The form's error object: blank keywords and a blank reply are each reported. */
  function ValidateRule(keywords: string, replyMessage: string): (errors: Fields)
    ensures ("keywords", KeywordsRequired) in errors <==> IsBlank(keywords)
    ensures ("replyMessage", ReplyRequired) in errors <==> IsBlank(replyMessage)
    ensures |errors| == 0 <==> !IsBlank(keywords) && !IsBlank(replyMessage)
  {
    (if IsBlank(keywords) then [("keywords", KeywordsRequired)] else []) +
    (if IsBlank(replyMessage) then [("replyMessage", ReplyRequired)] else [])
  }

  /** Submitting: nothing when invalid; a new rule is enabled, an edited one keeps its flag. */
  function SubmitRule(editing: Option<AutoReplyRule>, keywords: string, replyMessage: string): (r: Option<RuleData>)
    ensures r.Some? <==> !IsBlank(keywords) && !IsBlank(replyMessage)
    ensures r.Some? ==> r.value.keywords == keywords && r.value.replyMessage == replyMessage
    ensures r.Some? && editing.None? ==> r.value.enabled
    ensures r.Some? && editing.Some? ==> r.value.enabled == editing.value.enabled
  {
    if |ValidateRule(keywords, replyMessage)| != 0 then None
    else Some(RuleData(keywords, replyMessage, if editing.Some? then editing.value.enabled else true))
  }

  /** `prev.autoReplyRules || []`. */
  function RuleList(rules: Option<seq<AutoReplyRule>>): seq<AutoReplyRule> {
    rules.GetOr([])
  }

  /** Switching one rule on or off. */
  function ToggleRule(rules: Option<seq<AutoReplyRule>>, ruleId: string, enabled: bool): (r: seq<AutoReplyRule>)
    ensures |r| == |RuleList(rules)|
    ensures forall i :: 0 <= i < |r| ==>
              r[i] == if RuleList(rules)[i].id == ruleId then RuleList(rules)[i].(enabled := enabled) else RuleList(rules)[i]
  {
    var list := RuleList(rules);
    seq(|list|, i requires 0 <= i < |list| => if list[i].id == ruleId then list[i].(enabled := enabled) else list[i])
  }

  /** Toggling changes nothing but the flag, and only of that rule. */
  lemma ToggleOnlyFlag(rules: Option<seq<AutoReplyRule>>, ruleId: string, enabled: bool, i: nat)
    requires i < |RuleList(rules)|
    ensures var r := ToggleRule(rules, ruleId, enabled);
            var old_ := RuleList(rules)[i];
            r[i].(enabled := old_.enabled) == old_ &&
            (old_.id == ruleId ==> r[i].enabled == enabled) &&
            (old_.id != ruleId ==> r[i] == old_)
  {
  }

  /**
   * Saving: while editing, every rule with the edited rule's id becomes the
   * edited rule with the form's data; otherwise a rule `rule_<now>` is appended.
   */
  function SaveRule(rules: Option<seq<AutoReplyRule>>, editing: Option<AutoReplyRule>, data: RuleData, nowMs: nat)
    : (r: seq<AutoReplyRule>)
    ensures editing.None? ==>
              r == RuleList(rules) + [AutoReplyRule("rule_" + NatToString(nowMs), data.keywords, data.replyMessage, data.enabled)]
    ensures editing.Some? ==> |r| == |RuleList(rules)|
    ensures editing.Some? ==> forall i :: 0 <= i < |r| ==>
              r[i] == if RuleList(rules)[i].id == editing.value.id
                      then AutoReplyRule(editing.value.id, data.keywords, data.replyMessage, data.enabled)
                      else RuleList(rules)[i]
  {
    var list := RuleList(rules);
    match editing
    case None => list + [AutoReplyRule("rule_" + NatToString(nowMs), data.keywords, data.replyMessage, data.enabled)]
    case Some(e) =>
      seq(|list|, i requires 0 <= i < |list| =>
            if list[i].id == e.id then AutoReplyRule(e.id, data.keywords, data.replyMessage, data.enabled) else list[i])
  }

  /** Editing keeps every rule's id, so the set of ids does not change. */
  lemma SaveKeepsIds(rules: Option<seq<AutoReplyRule>>, editing: AutoReplyRule, data: RuleData, nowMs: nat, i: nat)
    requires i < |RuleList(rules)|
    ensures SaveRule(rules, Some(editing), data, nowMs)[i].id == RuleList(rules)[i].id
  {
  }

  /** Deleting, once confirmed, keeps exactly the rules with other ids, in order. */
  function DeleteRule(rules: Option<seq<AutoReplyRule>>, ruleId: string, confirmed: bool): (r: seq<AutoReplyRule>)
    ensures !confirmed ==> r == RuleList(rules)
    ensures confirmed ==> forall x :: x in r <==> x in RuleList(rules) && x.id != ruleId
    ensures |r| <= |RuleList(rules)|
  {
    if confirmed then WithoutKeys(RuleList(rules), RuleKey, [ruleId]) else RuleList(rules)
  }

  /** Deleting an id no rule has keeps the list as it is. */
  lemma DeleteAbsent(rules: Option<seq<AutoReplyRule>>, ruleId: string, confirmed: bool)
    requires forall i :: 0 <= i < |RuleList(rules)| ==> RuleList(rules)[i].id != ruleId
    ensures DeleteRule(rules, ruleId, confirmed) == RuleList(rules)
  {
    WithoutKeysAbsent(RuleList(rules), RuleKey, [ruleId]);
  }
}
