/**
 * The contact picker of the campaign form
 * (components/ContactSelectionModal.tsx): its search filter, single
 * toggles and the select-all checkbox over the filtered list.
 */
module ContactSelection {
  import opened Types
  import opened OrderedSets
  import Contacts

  /** The picker's filter: the same search as the directory, without a group filter. */
  function Filtered(contacts: seq<Contact>, term: string): (r: seq<Contact>)
    ensures |r| <= |contacts|
    ensures forall c :: c in r <==> c in contacts && Contacts.MatchesSearch(c, term)
    decreases |contacts|
  {
    if |contacts| == 0 then []
    else
      var rest := Filtered(contacts[1..], term);
      assert forall c :: c in contacts <==> c == contacts[0] || c in contacts[1..];
      if Contacts.MatchesSearch(contacts[0], term) then [contacts[0]] + rest else rest
  }

  /** `prev.filter(id => !ids.includes(id))`. */
  function Without(xs: seq<string>, ids: seq<string>): (r: seq<string>)
    ensures |r| <= |xs|
    ensures forall x :: x in r <==> x in xs && x !in ids
    ensures NoDuplicates(xs) ==> NoDuplicates(r)
    decreases |xs|
  {
    if |xs| == 0 then []
    else
      var rest := Without(xs[1..], ids);
      assert forall x :: x in xs <==> x == xs[0] || x in xs[1..];
      assert NoDuplicates(xs) ==> NoDuplicates(xs[1..]) && xs[0] !in xs[1..];
      if xs[0] !in ids then [xs[0]] + rest else rest
  }

  /** Ticking one contact: remove its id if selected, else append it. */
  function ToggleId(selected: seq<string>, id: string): (r: seq<string>)
    ensures id in selected ==> r == Without(selected, [id])
    ensures id !in selected ==> r == selected + [id]
  {
    if id in selected then Without(selected, [id]) else selected + [id]
  }

  /** Ticking twice restores a duplicate-free selection's members, and a fresh id's toggle is undone exactly. */
  lemma ToggleTwice(selected: seq<string>, id: string)
    ensures forall x :: x in ToggleId(ToggleId(selected, id), id) <==> x in selected
    ensures id !in selected ==> ToggleId(ToggleId(selected, id), id) == selected
  {
    if id !in selected {
      WithoutAbsent(selected, id);
      WithoutAppendLast(selected, id);
    }
  }

  lemma {:induction false} WithoutAbsent(xs: seq<string>, id: string)
    requires id !in xs
    ensures Without(xs, [id]) == xs
    decreases |xs|
  {
    if |xs| > 0 {
      WithoutAbsent(xs[1..], id);
    }
  }

  lemma {:induction false} WithoutAppendLast(xs: seq<string>, id: string)
    ensures Without(xs + [id], [id]) == Without(xs, [id])
    decreases |xs|
  {
    if |xs| > 0 {
      assert (xs + [id])[1..] == xs[1..] + [id];
      WithoutAppendLast(xs[1..], id);
    } else {
      assert Without([id], [id]) == Without([], [id]);
    }
  }

  /** The select-all checkbox: ticked when the filtered list is non-empty and all of it is selected. */
  predicate AllFilteredSelected(selected: seq<string>, filtered: seq<Contact>) {
    |filtered| > 0 && forall i :: 0 <= i < |filtered| ==> filtered[i].id in selected
  }

  lemma EmptyNotAllSelected(selected: seq<string>)
    ensures !AllFilteredSelected(selected, [])
  {
  }

  /**
   * `handleToggleSelectAll`: deselect the filtered ids when all are
   * selected, else `[...new Set([...prev, ...filteredIds])]`.
   */
  function ToggleSelectAll(selected: seq<string>, filtered: seq<Contact>): (r: seq<string>)
    ensures AllFilteredSelected(selected, filtered) ==> r == Without(selected, ContactIds(filtered))
    ensures !AllFilteredSelected(selected, filtered) ==> r == AddAll([], selected + ContactIds(filtered))
  {
    if AllFilteredSelected(selected, filtered) then Without(selected, ContactIds(filtered))
    else AddAll([], selected + ContactIds(filtered))
  }

  /**
   * Deselecting all removes exactly the filtered ids; selecting all gives
   * the duplicate-free union, with a duplicate-free selection kept first
   * and in place, after which every filtered contact is selected.
   */
  lemma ToggleSelectAllEffect(selected: seq<string>, filtered: seq<Contact>)
    ensures var r := ToggleSelectAll(selected, filtered);
            AllFilteredSelected(selected, filtered) ==>
              (forall x :: x in r <==> x in selected && x !in ContactIds(filtered)) &&
              (|filtered| > 0 ==> !AllFilteredSelected(r, filtered))
    ensures var r := ToggleSelectAll(selected, filtered);
            !AllFilteredSelected(selected, filtered) ==>
              NoDuplicates(r) &&
              (forall x :: x in r <==> x in selected || x in ContactIds(filtered)) &&
              (NoDuplicates(selected) ==> |selected| <= |r| && r[..|selected|] == selected) &&
              (|filtered| > 0 ==> AllFilteredSelected(r, filtered))
  {
    var ids := ContactIds(filtered);
    var r := ToggleSelectAll(selected, filtered);
    if AllFilteredSelected(selected, filtered) {
      assert filtered[0].id == ids[0];
    } else {
      assert NoDuplicates([]);
      AddAllSpec([], selected + ids);
      assert forall x :: x in selected + ids <==> x in selected || x in ids;
      forall i | 0 <= i < |filtered|
        ensures filtered[i].id in r
      {
        assert ids[i] in selected + ids;
      }
      if NoDuplicates(selected) {
        AddAllAppend([], selected, ids);
        AddAllFresh([], selected);
        assert [] + selected == selected;
        AddAllSpec(selected, ids);
      }
    }
  }
}
