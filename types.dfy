/**
 * The records of the application (types.ts). Optional strings that every use
 * site only tests for truthiness are plain strings with "" for "absent";
 * optional enumerations are `Option`s. Dates that the code compares are
 * milliseconds since the epoch; ISO timestamps the code only stores are
 * opaque strings.
 */
module Types {
  import opened Wrappers

  /** A custom-field object as its entries, in the object's key order. */
  type Fields = seq<(string, string)>

  function Keys(fields: Fields): seq<string> {
    seq(|fields|, i requires 0 <= i < |fields| => fields[i].0)
  }

  /** Object keys are distinct. */
  predicate DistinctKeys(fields: Fields) {
    forall i, j :: 0 <= i < j < |fields| ==> fields[i].0 != fields[j].0
  }

  /** `obj[key]`: the value of the first entry with the key. */
  function Get(fields: Fields, key: string): (r: Option<string>)
    ensures r.None? <==> key !in Keys(fields)
    ensures r.Some? ==> (key, r.value) in fields
    decreases |fields|
  {
    if |fields| == 0 then None
    else
      KeysCons(fields);
      if fields[0].0 == key then Some(fields[0].1) else Get(fields[1..], key)
  }

  /** With distinct keys, the value of an entry is the value of its key. */
  lemma {:induction false} GetAt(fields: Fields, i: nat)
    requires DistinctKeys(fields) && i < |fields|
    ensures Get(fields, fields[i].0) == Some(fields[i].1)
    decreases i
  {
    if i > 0 {
      assert fields[1..][i - 1] == fields[i];
      GetAt(fields[1..], i - 1);
    }
  }

  /** The keys of a non-empty object: its first key, then the keys of the rest. */
  lemma KeysCons(fields: Fields)
    requires |fields| > 0
    ensures Keys(fields) == [fields[0].0] + Keys(fields[1..])
  {
    assert forall i :: 1 <= i < |fields| ==> Keys(fields)[i] == Keys(fields[1..])[i - 1];
  }

  /** `obj[key] = value`: an existing key keeps its place, a new key goes last. */
  function Put(fields: Fields, key: string, value: string): (r: Fields)
    ensures key in Keys(fields) ==> |r| == |fields| && Keys(r) == Keys(fields)
    ensures key !in Keys(fields) ==> r == fields + [(key, value)]
    ensures DistinctKeys(fields) ==> DistinctKeys(r)
    ensures forall i :: 0 <= i < |fields| && fields[i].0 != key ==> r[i] == fields[i]
    ensures forall i :: 0 <= i < |fields| && fields[i].0 == key ==> r[i] == (key, value)
  {
    assert forall i :: 0 <= i < |fields| ==> Keys(fields)[i] == fields[i].0;
    if key in Keys(fields) then
      var r := seq(|fields|, i requires 0 <= i < |fields| => if fields[i].0 == key then (key, value) else fields[i]);
      assert forall i :: 0 <= i < |fields| ==> r[i].0 == fields[i].0;
      assert Keys(r) == Keys(fields);
      r
    else
      var r := fields + [(key, value)];
      assert DistinctKeys(fields) ==> DistinctKeys(r) by {
        if DistinctKeys(fields) {
          forall i, j | 0 <= i < j < |r| ensures r[i].0 != r[j].0 {
            if j == |fields| {
              assert r[i].0 == Keys(fields)[i];
            }
          }
        }
      }
      r
  }

  /** A non-empty object has distinct keys when its rest does and its first key is not among them. */
  lemma DistinctCons(fields: Fields)
    requires |fields| > 0
    ensures DistinctKeys(fields) <==> DistinctKeys(fields[1..]) && fields[0].0 !in Keys(fields[1..])
  {
    var rest := fields[1..];
    assert forall j :: 0 <= j < |rest| ==> Keys(rest)[j] == fields[j + 1].0;
    if DistinctKeys(rest) && fields[0].0 !in Keys(rest) {
      forall i, j | 0 <= i < j < |fields| ensures fields[i].0 != fields[j].0 {
        if i > 0 {
          assert fields[i] == rest[i - 1] && fields[j] == rest[j - 1];
        } else {
          assert fields[j].0 == Keys(rest)[j - 1];
        }
      }
    }
  }

  /** Two objects with distinct keys, none shared, joined. */
  lemma AppendDistinct(a: Fields, b: Fields)
    requires DistinctKeys(a) && DistinctKeys(b)
    requires forall i, j :: 0 <= i < |a| && 0 <= j < |b| ==> a[i].0 != b[j].0
    ensures DistinctKeys(a + b)
  {
    forall i, j | 0 <= i < j < |a + b| ensures (a + b)[i].0 != (a + b)[j].0 {
      if j < |a| {
        assert (a + b)[i] == a[i] && (a + b)[j] == a[j];
      } else if i < |a| {
        assert (a + b)[i] == a[i] && (a + b)[j] == b[j - |a|];
      } else {
        assert (a + b)[i] == b[i - |a|] && (a + b)[j] == b[j - |a|];
      }
    }
  }

  /** `delete obj[key]`: the other entries keep their order. */
  function Remove(fields: Fields, key: string): (r: Fields)
    ensures key !in Keys(r)
    ensures forall k :: k != key ==> (k in Keys(r) <==> k in Keys(fields))
    ensures forall e :: e in r <==> e in fields && e.0 != key
    ensures DistinctKeys(fields) ==> DistinctKeys(r)
    ensures |r| <= |fields|
    decreases |fields|
  {
    if |fields| == 0 then []
    else
      var rest := Remove(fields[1..], key);
      KeysCons(fields);
      DistinctCons(fields);
      assert forall e :: e in fields <==> e == fields[0] || e in fields[1..];
      if fields[0].0 == key then rest
      else
        var r := [fields[0]] + rest;
        assert r[1..] == rest;
        KeysCons(r);
        DistinctCons(r);
        r
  }

  /** Reading back what was just written, and reading any other key as before. */
  lemma PutGet(fields: Fields, key: string, value: string, other: string)
    requires DistinctKeys(fields)
    ensures Get(Put(fields, key, value), key) == Some(value)
    ensures other != key ==> Get(Put(fields, key, value), other) == Get(fields, other)
  {
    var r := Put(fields, key, value);
    assert forall i :: 0 <= i < |fields| ==> Keys(fields)[i] == fields[i].0;
    assert forall i :: 0 <= i < |r| ==> Keys(r)[i] == r[i].0;
    if key in Keys(fields) {
      var i :| 0 <= i < |fields| && Keys(fields)[i] == key;
      GetAt(r, i);
    } else {
      GetAt(r, |fields|);
    }
    if other != key {
      match Get(fields, other)
      case Some(w) =>
        var i :| 0 <= i < |fields| && fields[i] == (other, w);
        GetAt(r, i);
      case None =>
        assert other !in Keys(r);
    }
  }

  datatype Contact = Contact(id: string, name: string, number: string, group: string, customFields: Fields)

  datatype Group = Group(id: string, name: string)

  datatype MessageStatus = Pending | Sending | Sent | Delivered | Read | Failed

  datatype MessageLog = MessageLog(
    contact: Contact,
    status: MessageStatus,
    timestamp: string,
    error: Option<string>,
    apiMessageId: Option<string>)

  datatype CampaignStatus = Draft | Scheduled | Sending | Completed

  datatype Attachment = Attachment(name: string, data: string, mimeType: string)

  datatype Campaign = Campaign(
    id: string,
    name: string,
    message: string,
    contacts: seq<string>,
    schedule: Option<int>,
    createdAt: int,
    status: CampaignStatus,
    logs: seq<MessageLog>,
    attachment: Option<Attachment>)

  datatype DeviceStatus = DeviceConnected | DeviceDisconnected | DeviceChecking

  datatype SessionStatus = Disconnected | Connecting | Connected | SessionError

  /** A JavaScript number as `parseInt` produces it. */
  datatype JsNumber = Num(value: int) | NaN

  datatype AntiBan = AntiBan(delay: JsNumber, quota: JsNumber)

  /** `provider` is the raw string of the provider select ('fonnte' or 'baileys'). */
  datatype ApiSettings = ApiSettings(
    provider: string,
    fonnteApiKey: string,
    fonnteDeviceStatus: Option<DeviceStatus>,
    baileysServerUrl: string,
    baileysApiKey: string,
    baileysSessionStatus: Option<SessionStatus>,
    baileysQrCode: Option<string>,
    geminiApiKey: string,
    antiBan: AntiBan)

  datatype ManagedFile = ManagedFile(id: string, name: string, mimeType: string, createdAt: string)

  datatype SendMode = Single | Bulk | FilePerContact

  /** The campaign draft once the creator has filled in its defaults. */
  datatype DraftCampaign = DraftCampaign(
    name: string,
    message: string,
    singleNumber: string,
    selectedContacts: seq<string>,
    attachment: Option<Attachment>,
    isScheduling: bool,
    scheduleDate: string,
    scheduleTime: string)

  /** `contacts.filter(c => ids.includes(c.id))`. */
  function ContactsWithIds(contacts: seq<Contact>, ids: seq<string>): (r: seq<Contact>)
    ensures |r| <= |contacts|
    ensures forall c :: c in r <==> c in contacts && c.id in ids
    decreases |contacts|
  {
    if |contacts| == 0 then []
    else
      var rest := ContactsWithIds(contacts[1..], ids);
      assert forall c :: c in contacts <==> c == contacts[0] || c in contacts[1..];
      if contacts[0].id in ids then [contacts[0]] + rest else rest
  }

  /** The `id` of each kind of record, for the generic lookups below. */
  function ContactKey(c: Contact): string { c.id }
  function GroupKey(g: Group): string { g.id }
  function CampaignKey(c: Campaign): string { c.id }

  /** `xs.find(x => key(x) === id)`. */
  function FindByKey<T(==)>(xs: seq<T>, key: T -> string, id: string): (r: Option<T>)
    ensures r.Some? ==> r.value in xs && key(r.value) == id
    ensures r.None? ==> forall i :: 0 <= i < |xs| ==> key(xs[i]) != id
    decreases |xs|
  {
    if |xs| == 0 then None
    else if key(xs[0]) == id then Some(xs[0])
    else FindByKey(xs[1..], key, id)
  }

  /** `find` returns the first element with the key. */
  lemma {:induction false} FindByKeyFirst<T>(xs: seq<T>, key: T -> string, id: string, k: nat)
    requires k < |xs| && key(xs[k]) == id
    requires forall i :: 0 <= i < k ==> key(xs[i]) != id
    ensures FindByKey(xs, key, id) == Some(xs[k])
    decreases k
  {
    if k > 0 {
      assert xs[1..][k - 1] == xs[k];
      FindByKeyFirst(xs[1..], key, id, k - 1);
    }
  }

  /** `xs.filter(x => !ids.includes(key(x)))`. */
  function WithoutKeys<T(==,!new)>(xs: seq<T>, key: T -> string, ids: seq<string>): (r: seq<T>)
    ensures |r| <= |xs|
    ensures forall x :: x in r <==> x in xs && key(x) !in ids
    decreases |xs|
  {
    if |xs| == 0 then []
    else
      var rest := WithoutKeys(xs[1..], key, ids);
      assert forall x :: x in xs <==> x == xs[0] || x in xs[1..];
      if key(xs[0]) !in ids then [xs[0]] + rest else rest
  }

  /** Removing keys no element has keeps the whole list. */
  lemma {:induction false} WithoutKeysAbsent<T(!new)>(xs: seq<T>, key: T -> string, ids: seq<string>)
    requires forall i :: 0 <= i < |xs| ==> key(xs[i]) !in ids
    ensures WithoutKeys(xs, key, ids) == xs
    decreases |xs|
  {
    if |xs| > 0 {
      WithoutKeysAbsent(xs[1..], key, ids);
    }
  }

  /** `contacts.map(c => c.id)`. */
  function ContactIds(contacts: seq<Contact>): (ids: seq<string>)
    ensures |ids| == |contacts| && forall i :: 0 <= i < |contacts| ==> ids[i] == contacts[i].id
  {
    seq(|contacts|, i requires 0 <= i < |contacts| => contacts[i].id)
  }

  /** `logs.filter(l => l.status === status).length`. */
  function CountStatus(logs: seq<MessageLog>, status: MessageStatus): (n: nat)
    ensures n <= |logs|
    decreases |logs|
  {
    if |logs| == 0 then 0
    else (if logs[0].status == status then 1 else 0) + CountStatus(logs[1..], status)
  }

  /** Counting distributes over concatenation. */
  lemma {:induction false} CountStatusAppend(a: seq<MessageLog>, b: seq<MessageLog>, status: MessageStatus)
    ensures CountStatus(a + b, status) == CountStatus(a, status) + CountStatus(b, status)
    decreases |a|
  {
    if |a| > 0 {
      assert (a + b)[1..] == a[1..] + b;
      assert (a + b)[0] == a[0];
      CountStatusAppend(a[1..], b, status);
    } else {
      assert a + b == b;
    }
  }

  /** Two statuses that no log can hold at the same time never count more logs than there are. */
  lemma {:induction false} CountTwoStatuses(logs: seq<MessageLog>, s1: MessageStatus, s2: MessageStatus)
    requires s1 != s2
    ensures CountStatus(logs, s1) + CountStatus(logs, s2) <= |logs|
    ensures (forall i :: 0 <= i < |logs| ==> logs[i].status == s1 || logs[i].status == s2)
            ==> CountStatus(logs, s1) + CountStatus(logs, s2) == |logs|
    decreases |logs|
  {
    if |logs| > 0 {
      CountTwoStatuses(logs[1..], s1, s2);
      assert forall i :: 1 <= i < |logs| ==> logs[1..][i - 1] == logs[i];
    }
  }
}
