/**
 * The contact groups page (components/Groups.tsx): adding and renaming a
 * group, and deleting one, where the default group cannot be deleted.
 */
module Groups {
  import opened Wrappers
  import opened Strings
  import opened Types

  const EmptyName: string := "Group name cannot be empty."
  /** The id of the default group. */
  const GeneralId: string := "general"

  /** The page's state: the list, the group being edited, the name field, the add mode and the error text. */
  datatype GroupsPage = GroupsPage(groups: seq<Group>, editing: Option<Group>, groupName: string, isAdding: bool,
                                   error: string)

  /**
   * `handleSave`: a blank name only sets the error; otherwise the edited
   * group is renamed, or a group `group_<now>` is appended, and the form
   * closes.
   */
  function SaveGroup(page: GroupsPage, nowMs: nat): (r: GroupsPage)
    ensures IsBlank(page.groupName) ==> r == page.(error := EmptyName)
    ensures !IsBlank(page.groupName) ==> r.editing.None? && r.groupName == "" && !r.isAdding && r.error == ""
    ensures !IsBlank(page.groupName) && page.editing.None? ==>
              r.groups == page.groups + [Group("group_" + NatToString(nowMs), page.groupName)]
    ensures !IsBlank(page.groupName) && page.editing.Some? ==>
              |r.groups| == |page.groups| &&
              forall i :: 0 <= i < |page.groups| ==>
                r.groups[i] == if page.groups[i].id == page.editing.value.id
                               then page.groups[i].(name := page.groupName) else page.groups[i]
  {
    if IsBlank(page.groupName) then page.(error := EmptyName)
    else
      var groups :=
        match page.editing
        case Some(e) =>
          seq(|page.groups|, i requires 0 <= i < |page.groups| =>
                if page.groups[i].id == e.id then page.groups[i].(name := page.groupName) else page.groups[i])
        case None => page.groups + [Group("group_" + NatToString(nowMs), page.groupName)];
      GroupsPage(groups, None, "", false, "")
  }

  /** Renaming keeps every group's id. */
  lemma RenameKeepsIds(page: GroupsPage, nowMs: nat, i: nat)
    requires page.editing.Some? && i < |page.groups|
    ensures !IsBlank(page.groupName) ==> SaveGroup(page, nowMs).groups[i].id == page.groups[i].id
    ensures IsBlank(page.groupName) ==> SaveGroup(page, nowMs).groups == page.groups
  {
  }

  /** What a delete click does: refuse the default group, or (when confirmed) drop the group. */
  datatype Deletion = Refused | Deleted(groups: seq<Group>)

  function DeleteGroup(groups: seq<Group>, id: string, confirmed: bool): (r: Deletion)
    ensures id == GeneralId <==> r.Refused?
    ensures r.Deleted? && !confirmed ==> r.groups == groups
    ensures r.Deleted? && confirmed ==> forall g :: g in r.groups <==> g in groups && g.id != id
  {
    if id == GeneralId then Refused
    else if confirmed then Deleted(WithoutKeys(groups, GroupKey, [id]))
    else Deleted(groups)
  }

  /** The default group survives every delete. */
  lemma GeneralSurvives(groups: seq<Group>, id: string, confirmed: bool, g: Group)
    requires g in groups && g.id == GeneralId
    ensures match DeleteGroup(groups, id, confirmed)
            case Refused => true
            case Deleted(after) => g in after
  {
  }
}
