/**
 * The contact directory (components/Contacts.tsx): the contact form with
 * its custom-field editing and validation, the search and group filter,
 * saving, deleting, bulk deleting and moving contacts, the header
 * select-all checkbox, and the CSV importer.
 */
module Contacts {
  import opened Wrappers
  import opened Strings
  import opened Types

  // ------------------------------------------------------------------
  // The contact form (components/Contacts.tsx:13-58)
  // ------------------------------------------------------------------

  /**
   * Renaming a field key: only to a non-empty key the object does not
   * have; the value moves to the new key, which goes last, and the old key
   * is deleted from the copy.
   */
  method ChangeFieldKey(fields: Fields, oldKey: string, newKey: string) returns (result: Fields)
    requires DistinctKeys(fields)
    ensures DistinctKeys(result)
    ensures newKey == "" || newKey in Keys(fields) ==> result == fields
    ensures newKey != "" && newKey !in Keys(fields) && Get(fields, oldKey).Some? ==>
              Get(result, newKey) == Get(fields, oldKey) && oldKey !in Keys(result) &&
              |result| == |fields| &&
              forall k :: k != oldKey && k != newKey ==> Get(result, k) == Get(fields, k)
  {
    result := fields;
    if newKey != "" && newKey !in Keys(fields) {
      var updated := fields;
      updated := Put(updated, newKey, Get(updated, oldKey).GetOr(""));
      ghost var moved := updated;
      updated := Remove(updated, oldKey);
      result := updated;
      if Get(fields, oldKey).Some? {
        var v := Get(fields, oldKey).value;
        PutGet(fields, newKey, v, oldKey);
        assert (newKey, v) in moved by {
          assert moved == fields + [(newKey, v)];
        }
        assert newKey != oldKey;
        assert (newKey, v) in result;
        assert newKey in Keys(result) by {
          var i :| 0 <= i < |result| && result[i] == (newKey, v);
          assert Keys(result)[i] == newKey;
        }
        GetOfMember(result, newKey, v);
        forall k | k != oldKey && k != newKey
          ensures Get(result, k) == Get(fields, k)
        {
          PutGet(fields, newKey, v, k);
          RemoveGet(moved, oldKey, k);
        }
        RemoveCount(moved, oldKey);
      }
    }
  }

  /** With distinct keys, an entry's value is what reading its key gives. */
  lemma GetOfMember(fields: Fields, key: string, value: string)
    requires DistinctKeys(fields) && (key, value) in fields
    ensures Get(fields, key) == Some(value)
  {
    var i :| 0 <= i < |fields| && fields[i] == (key, value);
    GetAt(fields, i);
  }

  /** Deleting a key leaves reading the others as it was. */
  lemma RemoveGet(fields: Fields, key: string, other: string)
    requires DistinctKeys(fields) && other != key
    ensures Get(Remove(fields, key), other) == Get(fields, other)
  {
    var r := Remove(fields, key);
    match Get(fields, other)
    case Some(w) =>
      GetOfMember(r, other, w);
    case None =>
      assert other !in Keys(r);
  }

  /** Deleting a key the object has removes exactly one entry (keys being distinct). */
  lemma {:induction false} RemoveCount(fields: Fields, key: string)
    requires DistinctKeys(fields) && key in Keys(fields)
    ensures |Remove(fields, key)| == |fields| - 1
    decreases |fields|
  {
    KeysCons(fields);
    if fields[0].0 != key {
      assert DistinctKeys(fields[1..]);
      RemoveCount(fields[1..], key);
    } else {
      assert DistinctKeys(fields[1..]);
      assert forall j :: 0 <= j < |fields| - 1 ==> Keys(fields[1..])[j] == fields[j + 1].0;
      assert key !in Keys(fields[1..]);
      RemoveAbsent(fields[1..], key);
    }
  }

  /** Deleting a key the object does not have changes nothing. */
  lemma {:induction false} RemoveAbsent(fields: Fields, key: string)
    requires key !in Keys(fields)
    ensures Remove(fields, key) == fields
    decreases |fields|
  {
    if |fields| > 0 {
      KeysCons(fields);
      RemoveAbsent(fields[1..], key);
    }
  }

  /** "+ Add Field": a key `field_<n+1>` with an empty value, unless that key is taken. */
  function AddCustomField(fields: Fields): (r: Fields)
    ensures var key := "field_" + NatToString(|fields| + 1);
            (key in Keys(fields) ==> r == fields) && (key !in Keys(fields) ==> r == fields + [(key, "")])
  {
    var key := "field_" + NatToString(|fields| + 1);
    if key in Keys(fields) then fields else Put(fields, key, "")
  }

  const NameIsRequired: string := "Name is required."
  const NumberIsRequired: string := "WhatsApp number is required."

  /** The form's error object: a blank name and a blank number are each reported. */
  function ValidateContact(name: string, number: string): (errors: Fields)
    ensures ("name", NameIsRequired) in errors <==> IsBlank(name)
    ensures ("number", NumberIsRequired) in errors <==> IsBlank(number)
    ensures |errors| == 0 <==> !IsBlank(name) && !IsBlank(number)
  {
    (if IsBlank(name) then [("name", NameIsRequired)] else []) +
    (if IsBlank(number) then [("number", NumberIsRequired)] else [])
  }

  /** Submitting: nothing when invalid; otherwise the edited contact's id, or a fresh `contact_<now>`. */
  function SubmitContact(editing: Option<Contact>, name: string, number: string, group: string,
                         customFields: Fields, nowMs: nat): (r: Option<Contact>)
    ensures r.Some? <==> !IsBlank(name) && !IsBlank(number)
    ensures r.Some? ==> r.value.name == name && r.value.number == number && r.value.group == group &&
                        r.value.customFields == customFields
    ensures r.Some? && editing.Some? && editing.value.id != "" ==> r.value.id == editing.value.id
    ensures r.Some? && (editing.None? || editing.value.id == "") ==> r.value.id == "contact_" + NatToString(nowMs)
  {
    if |ValidateContact(name, number)| != 0 then None
    else
      var id := if editing.Some? && editing.value.id != "" then editing.value.id else "contact_" + NatToString(nowMs);
      Some(Contact(id, name, number, group, customFields))
  }

  // ------------------------------------------------------------------
  // Searching and editing the list (components/Contacts.tsx:111-158)
  // ------------------------------------------------------------------

  /** The name contains the term case-insensitively, or the number contains it as it is. */
  predicate MatchesSearch(contact: Contact, term: string) {
    Contains(ToLower(contact.name), ToLower(term)) || Contains(contact.number, term)
  }

  /** An empty search term matches every contact. */
  lemma EmptyTermMatches(contact: Contact)
    ensures MatchesSearch(contact, "")
  {
    assert OccursAt(contact.number, "", 0);
  }

  /** The list filtered by the search term and by the group ('all' for any group). */
  function FilterContacts(contacts: seq<Contact>, term: string, group: string): (r: seq<Contact>)
    ensures |r| <= |contacts|
    ensures forall c :: c in r <==> c in contacts && MatchesSearch(c, term) && (group == "all" || c.group == group)
    decreases |contacts|
  {
    if |contacts| == 0 then []
    else
      var rest := FilterContacts(contacts[1..], term, group);
      assert forall c :: c in contacts <==> c == contacts[0] || c in contacts[1..];
      var c := contacts[0];
      if MatchesSearch(c, term) && (group == "all" || c.group == group) then [c] + rest else rest
  }

  /** Saving: while editing, replace the contact with the same id; otherwise append. */
  function SaveContact(contacts: seq<Contact>, contact: Contact, editing: bool): (r: seq<Contact>)
    ensures editing ==> |r| == |contacts| &&
                        forall i :: 0 <= i < |r| ==> r[i] == if contacts[i].id == contact.id then contact else contacts[i]
    ensures !editing ==> r == contacts + [contact]
  {
    if editing then seq(|contacts|, i requires 0 <= i < |contacts| => if contacts[i].id == contact.id then contact else contacts[i])
    else contacts + [contact]
  }

  /** Deleting one contact, once the user confirms. */
  function DeleteContact(contacts: seq<Contact>, id: string, confirmed: bool): (r: seq<Contact>)
    ensures !confirmed ==> r == contacts
    ensures confirmed ==> forall c :: c in r <==> c in contacts && c.id != id
  {
    if confirmed then WithoutKeys(contacts, ContactKey, [id]) else contacts
  }

  /** The directory's list and its selection of ids. */
  datatype Directory = Directory(contacts: seq<Contact>, selected: seq<string>)

  /** Bulk delete: nothing without a selection or a confirmation; otherwise the selected go and the selection clears. */
  function BulkDelete(d: Directory, confirmed: bool): (r: Directory)
    ensures |d.selected| == 0 || !confirmed ==> r == d
    ensures |d.selected| > 0 && confirmed ==>
              r.selected == [] && forall c :: c in r.contacts <==> c in d.contacts && c.id !in d.selected
  {
    if |d.selected| == 0 || !confirmed then d else Directory(WithoutKeys(d.contacts, ContactKey, d.selected), [])
  }

  /**
   * Moving the selection to a group: nothing without a selection, a target
   * or a group with that id; otherwise exactly the selected contacts get
   * the group's name, and the selection clears.
   */
  function MoveToGroup(d: Directory, targetGroupId: string, groups: seq<Group>): (r: Directory)
    ensures |d.selected| == 0 || targetGroupId == "" || FindByKey(groups, GroupKey, targetGroupId).None? ==> r == d
    ensures |d.selected| > 0 && targetGroupId != "" && FindByKey(groups, GroupKey, targetGroupId).Some? ==>
              r.selected == [] && |r.contacts| == |d.contacts| &&
              forall i :: 0 <= i < |d.contacts| ==>
                r.contacts[i] == if d.contacts[i].id in d.selected
                                 then d.contacts[i].(group := FindByKey(groups, GroupKey, targetGroupId).value.name)
                                 else d.contacts[i]
  {
    if |d.selected| == 0 || targetGroupId == "" then d
    else
      match FindByKey(groups, GroupKey, targetGroupId)
      case None => d
      case Some(g) =>
        Directory(seq(|d.contacts|, i requires 0 <= i < |d.contacts| =>
                        if d.contacts[i].id in d.selected then d.contacts[i].(group := g.name) else d.contacts[i]),
                  [])
  }

  /** A move changes only the group of a contact. */
  lemma MoveKeepsIdentity(d: Directory, targetGroupId: string, groups: seq<Group>, i: nat)
    requires i < |d.contacts|
    ensures var r := MoveToGroup(d, targetGroupId, groups);
            |r.contacts| == |d.contacts| && r.contacts[i].(group := d.contacts[i].group) == d.contacts[i]
  {
  }

  // ------------------------------------------------------------------
  // The header checkbox (components/Contacts.tsx:202-208, 259)
  // ------------------------------------------------------------------

  /** The header checkbox as written: compares the sizes of the selection and the filtered list. */
  predicate HeaderCheckedAsWritten(selected: seq<string>, filtered: seq<Contact>) {
    |selected| == |filtered| && |filtered| > 0
  }

  /** `toggleSelectAll` as written: clears when the sizes agree, else selects the filtered ids. */
  function ToggleSelectAllAsWritten(selected: seq<string>, filtered: seq<Contact>): (r: seq<string>)
    ensures |selected| == |filtered| ==> r == []
    ensures |selected| != |filtered| ==> r == ContactIds(filtered)
  {
    if |selected| == |filtered| then [] else ContactIds(filtered)
  }

  /**
   * A selection made under another search can have the filtered list's
   * size without containing it: the checkbox shows checked and a click
   * clears the selection instead of selecting the shown contact.
   */
  lemma ToggleSelectAllSizeOnly()
    ensures var shown := [Contact("b", "Budi", "62811", "General", [])];
            HeaderCheckedAsWritten(["a"], shown) && "b" !in ["a"] &&
            ToggleSelectAllAsWritten(["a"], shown) == []
  {
  }

  /** Every filtered contact is selected. */
  predicate AllFilteredSelected(selected: seq<string>, filtered: seq<Contact>) {
    forall i :: 0 <= i < |filtered| ==> filtered[i].id in selected
  }

  /** The intended checkbox: clear when every shown contact is selected, else select the shown ones. */
  function ToggleSelectAll(selected: seq<string>, filtered: seq<Contact>): (r: seq<string>)
    ensures AllFilteredSelected(selected, filtered) ==> r == []
    ensures !AllFilteredSelected(selected, filtered) ==> r == ContactIds(filtered)
  {
    if AllFilteredSelected(selected, filtered) then [] else ContactIds(filtered)
  }

  /**
   * After the intended toggle the shown contacts are either all selected
   * (and nothing else) or none is selected, and a second toggle of a
   * non-empty list clears what the first selected.
   */
  lemma ToggleSelectAllSelectsShown(selected: seq<string>, filtered: seq<Contact>)
    ensures var r := ToggleSelectAll(selected, filtered);
            (AllFilteredSelected(r, filtered) && forall id :: id in r ==> id in ContactIds(filtered)) ||
            (r == [] && |filtered| > 0)
    ensures var r := ToggleSelectAll(selected, filtered);
            |filtered| > 0 && !AllFilteredSelected(selected, filtered) ==> ToggleSelectAll(r, filtered) == []
  {
    var ids := ContactIds(filtered);
    assert forall i :: 0 <= i < |filtered| ==> ids[i] == filtered[i].id;
    if |filtered| == 0 {
      assert AllFilteredSelected(selected, filtered);
    }
  }

  // ------------------------------------------------------------------
  // CSV import (components/Contacts.tsx:160-190)
  // ------------------------------------------------------------------

  const ImportEmpty: string := "File CSV kosong atau hanya berisi header."
  const ImportedGroup: string := "Imported"

  /** The lines that are not blank, in order. */
  function NonBlankLines(lines: seq<string>): (r: seq<string>)
    ensures |r| <= |lines|
    ensures forall l :: l in r <==> l in lines && !IsBlank(l)
    decreases |lines|
  {
    if |lines| == 0 then []
    else
      var rest := NonBlankLines(lines[1..]);
      assert forall l :: l in lines <==> l == lines[0] || l in lines[1..];
      if !IsBlank(lines[0]) then [lines[0]] + rest else rest
  }

  function TrimAll(parts: seq<string>): (r: seq<string>)
    ensures |r| == |parts| && forall i :: 0 <= i < |parts| ==> r[i] == Trim(parts[i])
  {
    seq(|parts|, i requires 0 <= i < |parts| => Trim(parts[i]))
  }

  /** `values[i]?.trim()`, with a missing cell read as "". */
  function Cell(values: seq<string>, i: nat): string {
    if i < |values| then Trim(values[i]) else ""
  }

  /** The row object after the `forEach` has assigned the first `|header|` columns. */
  function RowData(header: seq<string>, values: seq<string>): (data: Fields)
    ensures DistinctKeys(data)
    decreases |header|
  {
    if |header| == 0 then []
    else Put(RowData(header[..|header| - 1], values), header[|header| - 1], Cell(values, |header| - 1))
  }

  /** The `forEach` over the header, assigning each column's cell to the row object. */
  method BuildRow(header: seq<string>, values: seq<string>) returns (data: Fields)
    ensures data == RowData(header, values)
  {
    data := [];
    for i := 0 to |header|
      invariant data == RowData(header[..i], values)
    {
      assert header[..i + 1][..i] == header[..i];
      data := Put(data, header[i], Cell(values, i));
    }
    assert header[..|header|] == header;
  }

  /** A column the header does not name is not in the row; a named one holds the cell of its last column. */
  lemma {:induction false} RowDataGet(header: seq<string>, values: seq<string>, key: string, i: nat)
    requires i < |header| && header[i] == key
    requires forall j :: i < j < |header| ==> header[j] != key
    ensures Get(RowData(header, values), key) == Some(Cell(values, i))
    decreases |header|
  {
    var init := header[..|header| - 1];
    var last := header[|header| - 1];
    PutGet(RowData(init, values), last, Cell(values, |header| - 1), key);
    if i < |header| - 1 {
      assert init[i] == key;
      RowDataGet(init, values, key, i);
    }
  }

  /** A key the header does not have is not in the row. */
  lemma {:induction false} RowDataMissing(header: seq<string>, values: seq<string>, key: string)
    requires key !in header
    ensures Get(RowData(header, values), key).None?
    decreases |header|
  {
    if |header| > 0 {
      var init := header[..|header| - 1];
      assert forall k :: k in init ==> k in header;
      RowDataMissing(init, values, key);
      PutGet(RowData(init, values), header[|header| - 1], Cell(values, |header| - 1), key);
    }
  }

  /** A truthy string. */
  predicate Truthy(v: Option<string>) {
    v.Some? && v.value != ""
  }

  /** Destructure the row: `name` and `number` must be truthy; `group` defaults; every other column is a custom field. */
  function RowContact(data: Fields, id: string): Option<Contact> {
    var name, number, group := Get(data, "name"), Get(data, "number"), Get(data, "group");
    if Truthy(name) && Truthy(number) then
      Some(Contact(id, name.value, number.value, if Truthy(group) then group.value else ImportedGroup,
                   Remove(Remove(Remove(data, "name"), "number"), "group")))
    else None
  }

  /** `lines.slice(1).map(...)`: each data row's contact or `null`; row `k` gets id `ids(k)`. */
  function ParsedRows(header: seq<string>, rows: seq<string>, ids: nat -> string): (r: seq<Option<Contact>>)
    ensures |r| == |rows|
    ensures forall k :: 0 <= k < |rows| ==> r[k] == RowContact(RowData(header, Split(rows[k], ",")), ids(k))
  {
    seq(|rows|, k requires 0 <= k < |rows| => RowContact(RowData(header, Split(rows[k], ",")), ids(k)))
  }

  /** `.filter(c => c !== null)`. */
  function Present(xs: seq<Option<Contact>>): seq<Contact>
    decreases |xs|
  {
    if |xs| == 0 then []
    else
      var prior := Present(xs[..|xs| - 1]);
      match xs[|xs| - 1]
      case Some(c) => prior + [c]
      case None => prior
  }

  /**
   * The filter keeps exactly the present entries, in order: every kept
   * contact was present, every present one is kept, and nothing is
   * dropped when all are present.
   */
  lemma {:induction false} PresentSpec(xs: seq<Option<Contact>>)
    ensures |Present(xs)| <= |xs|
    ensures forall c :: c in Present(xs) <==> Some(c) in xs
    ensures (forall k :: 0 <= k < |xs| ==> xs[k].Some?) ==> |Present(xs)| == |xs|
    decreases |xs|
  {
    if |xs| > 0 {
      var init := xs[..|xs| - 1];
      PresentSpec(init);
      assert xs == init + [xs[|xs| - 1]];
      assert forall k :: 0 <= k < |init| ==> init[k] == xs[k];
    }
  }

  /** The header and the contacts of the file's non-blank lines; fewer than two such lines is an error. */
  function ImportCsv(text: string, ids: nat -> string): (r: Result<seq<Contact>, string>)
    ensures r.Err? <==> |NonBlankLines(Split(text, "\n"))| < 2
    ensures r.Err? ==> r.error == ImportEmpty
  {
    var lines := NonBlankLines(Split(text, "\n"));
    if |lines| < 2 then Err(ImportEmpty)
    else Ok(Present(ParsedRows(TrimAll(Split(lines[0], ",")), lines[1..], ids)))
  }

  /** Imported contacts go after the existing ones. */
  function ApplyImport(contacts: seq<Contact>, text: string, ids: nat -> string): (r: seq<Contact>)
    ensures ImportCsv(text, ids).Err? ==> r == contacts
    ensures ImportCsv(text, ids).Ok? ==> r == contacts + ImportCsv(text, ids).value
  {
    match ImportCsv(text, ids)
    case Err(_) => contacts
    case Ok(imported) => contacts + imported
  }

  /**
   * A row becomes a contact exactly when its trimmed name and number cells
   * are non-empty; its group is its trimmed group cell or 'Imported', and
   * its custom fields are every other column.
   */
  lemma RowBecomesContact(header: seq<string>, values: seq<string>, id: string, iName: nat, iNumber: nat)
    requires iName < |header| && header[iName] == "name" && forall j :: iName < j < |header| ==> header[j] != "name"
    requires iNumber < |header| && header[iNumber] == "number" &&
             forall j :: iNumber < j < |header| ==> header[j] != "number"
    ensures var r := RowContact(RowData(header, values), id);
            (r.Some? <==> Cell(values, iName) != "" && Cell(values, iNumber) != "") &&
            (r.Some? ==> r.value.name == Cell(values, iName) && r.value.number == Cell(values, iNumber) &&
                         r.value.id == id && r.value.group != "" &&
                         (forall k :: k in Keys(r.value.customFields) <==>
                                        k in header && k != "name" && k != "number" && k != "group"))
  {
    var data := RowData(header, values);
    RowDataGet(header, values, "name", iName);
    RowDataGet(header, values, "number", iNumber);
    forall k | k in header
      ensures k in Keys(data)
    {
      var i :| 0 <= i < |header| && header[i] == k;
      var last := LastIndex(header, k, i);
      RowDataGet(header, values, k, last);
    }
    forall k | k !in header
      ensures k !in Keys(data)
    {
      RowDataMissing(header, values, k);
    }
  }

  /** The group is the row's trimmed group cell, or 'Imported' when that is empty or there is no group column. */
  lemma RowGroup(header: seq<string>, values: seq<string>, id: string)
    requires RowContact(RowData(header, values), id).Some?
    ensures var g := RowContact(RowData(header, values), id).value.group;
            ("group" !in header ==> g == ImportedGroup) &&
            (forall i :: 0 <= i < |header| && header[i] == "group" && (forall j :: i < j < |header| ==> header[j] != "group") ==>
               g == if Cell(values, i) != "" then Cell(values, i) else ImportedGroup)
  {
    if "group" !in header {
      RowDataMissing(header, values, "group");
    }
    forall i | 0 <= i < |header| && header[i] == "group" && (forall j :: i < j < |header| ==> header[j] != "group")
      ensures RowContact(RowData(header, values), id).value.group ==
              if Cell(values, i) != "" then Cell(values, i) else ImportedGroup
    {
      RowDataGet(header, values, "group", i);
    }
  }

  /** The last position of a value at or after a known one. */
  function LastIndex(xs: seq<string>, x: string, i: nat): (j: nat)
    requires i < |xs| && xs[i] == x
    ensures i <= j < |xs| && xs[j] == x
    ensures forall k :: j < k < |xs| ==> xs[k] != x
    decreases |xs| - i
  {
    if exists k :: i < k < |xs| && xs[k] == x then
      var k :| i < k < |xs| && xs[k] == x;
      LastIndex(xs, x, k)
    else i
  }

  /** A row without a name or number column is skipped. */
  lemma RowWithoutColumn(header: seq<string>, values: seq<string>, id: string)
    requires "name" !in header || "number" !in header
    ensures RowContact(RowData(header, values), id).None?
  {
    if "name" !in header {
      RowDataMissing(header, values, "name");
    } else {
      RowDataMissing(header, values, "number");
    }
  }
}
