/**
 * The offline outbox: the `offlineData` object store of the client's IndexedDB
 * database (key path `id`), and the requests the offline storage service issues
 * against it. The store is modelled as its records in ascending key order, which
 * is the order a cursor or `getAll` visits them in.
 */
module Outbox {
  import opened Wrappers
  import Text
  import Seqs

  /** The JSON value a caller queued; the outbox never looks inside it. */
  datatype Payload = Payload(json: string)

  /**
   * One queued item. By convention `kind` is "sos", "location", "route" or
   * "incident", but the service stores whatever string it is given.
   */
  datatype Record = Record(id: string, kind: string, timestamp: int, data: Payload, synced: bool)

  predicate IdsIncreasing(s: seq<Record>) {
    forall i, j :: 0 <= i < j < |s| ==> Text.Less(s[i].id, s[j].id)
  }

  /** The store's contents in key order; since `id` is the key, no two records share one. */
  type Store = s: seq<Record> | IdsIncreasing(s) witness []

  /** The errors IndexedDB reports for the requests the outbox issues. */
  datatype StoreError =
    | ConstraintError  // `add` of a key the store already holds
    | DataError        // a key range built from a value that is not a valid key

  lemma IdsUnique(s: Store, i: int, j: int)
    requires 0 <= i < |s| && 0 <= j < |s| && s[i].id == s[j].id
    ensures i == j
  {
    if i < j {
      assert Text.Less(s[i].id, s[j].id);
      Text.LessOrder(s[i].id, s[i].id);
    } else if j < i {
      assert Text.Less(s[j].id, s[i].id);
      Text.LessOrder(s[j].id, s[j].id);
    }
  }

  /** `store.get(id)`. */
  function Get(s: seq<Record>, id: string): (r: Option<Record>)
    ensures r.Some? ==> r.value in s && r.value.id == id
    ensures r.None? ==> forall x :: x in s ==> x.id != id
  {
    if |s| == 0 then None
    else if s[0].id == id then Some(s[0])
    else Get(s[1..], id)
  }

  /** A record is in the store exactly when looking its id up finds it. */
  lemma GetFinds(s: Store, x: Record)
    ensures x in s <==> Get(s, x.id) == Some(x)
  {
    if x in s {
      var y := Get(s, x.id).value;
      var i :| 0 <= i < |s| && s[i] == x;
      var j :| 0 <= j < |s| && s[j] == y;
      IdsUnique(s, i, j);
    }
  }

  lemma PrependKeepsOrder(x: Record, s: Store)
    requires forall y :: y in s ==> Text.Less(x.id, y.id)
    ensures IdsIncreasing([x] + s)
  {
    var r := [x] + s;
    forall i, j | 0 <= i < j < |r|
      ensures Text.Less(r[i].id, r[j].id)
    {
      if i == 0 {
        assert r[j] == s[j - 1] && r[j] in s;
      } else {
        assert r[i] == s[i - 1] && r[j] == s[j - 1];
      }
    }
  }

  /** A record added behind the head of the store leaves the head in front. */
  lemma AddedBehind(head: Record, tail: Store, rec: Record, rest: Store)
    requires IdsIncreasing([head] + tail) && Text.Less(head.id, rec.id)
    requires forall x :: x in rest <==> x in tail || x == rec
    ensures IdsIncreasing([head] + rest)
    ensures forall x :: x in [head] + rest <==> x in [head] + tail || x == rec
  {
    forall y | y in rest
      ensures Text.Less(head.id, y.id)
    {
      if y != rec {
        var j :| 0 <= j < |tail| && tail[j] == y;
        assert ([head] + tail)[0] == head && ([head] + tail)[j + 1] == y;
      }
    }
    PrependKeepsOrder(head, rest);
  }

  /** `store.add(rec)`: inserts a new key, and fails rather than overwrite an existing one. */
  function Add(s: Store, rec: Record): (r: Result<Store, StoreError>)
    ensures r.Err? <==> Get(s, rec.id).Some?
    ensures r.Err? ==> r.error == ConstraintError
    ensures r.Ok? ==> |r.value| == |s| + 1
    ensures r.Ok? ==> forall x :: x in r.value <==> x in s || x == rec
  {
    if |s| == 0 then
      Ok([rec])
    else if s[0].id == rec.id then
      Err(ConstraintError)
    else if Text.Less(rec.id, s[0].id) then
      forall y | y in s
        ensures Text.Less(rec.id, y.id)
      {
        var j :| 0 <= j < |s| && s[j] == y;
        if j > 0 {
          Text.LessTransitive(rec.id, s[0].id, y.id);
        }
      }
      Text.LessOrder(rec.id, rec.id);
      PrependKeepsOrder(rec, s);
      Ok([rec] + s)
    else
      var tail: Store := s[1..];
      assert s == [s[0]] + tail;
      match Add(tail, rec)
      case Err(e) => Err(e)
      case Ok(rest) =>
        Text.LessOrder(rec.id, s[0].id);
        AddedBehind(s[0], tail, rec, rest);
        Ok([s[0]] + rest)
  }

  /**
   * The id `saveOffline` gives a record: the kind, the creation time in
   * milliseconds and a random base-36 suffix, joined by underscores. The clock
   * reading and the random suffix are parameters.
   */
  function MakeId(kind: string, now: nat, suffix: string): string {
    kind + "_" + Text.NatToString(now) + "_" + suffix
  }

  /** In `t + "_" + s` with `t` all digits, the first underscore sits right after `t`. */
  lemma DigitsThenUnderscore(t: string, s: string, k: nat)
    requires Text.AllDigits(t)
    ensures (t + "_" + s)[|t|] == '_'
    ensures k < |t| ==> (t + "_" + s)[k] != '_'
  {
    if k < |t| {
      assert (t + "_" + s)[k] == t[k];
      assert Text.IsDigit(t[k]);
    }
  }

  /** An id names its kind, and for a given kind it determines the time and the suffix it was made from. */
  lemma {:induction false} MakeIdDecodes(kind: string, n1: nat, s1: string, n2: nat, s2: string)
    requires MakeId(kind, n1, s1) == MakeId(kind, n2, s2)
    ensures Text.StartsWith(MakeId(kind, n1, s1), kind + "_")
    ensures n1 == n2 && s1 == s2
  {
    var t1, t2 := Text.NatToString(n1), Text.NatToString(n2);
    var a, b := t1 + "_" + s1, t2 + "_" + s2;
    var p := kind + "_";
    assert MakeId(kind, n1, s1) == p + a;
    assert MakeId(kind, n2, s2) == p + b;
    assert a == (p + a)[|p|..] == (p + b)[|p|..] == b;
    DigitsThenUnderscore(t1, s1, |t2|);
    DigitsThenUnderscore(t2, s2, |t1|);
    assert |t1| == |t2|;
    assert t1 == a[..|t1|] && t2 == b[..|t2|];
    assert s1 == a[|t1| + 1..] && s2 == b[|t2| + 1..];
    Text.DecimalRoundTrip(n1);
    Text.DecimalRoundTrip(n2);
  }

  /**
   * `saveOffline(type, data)`: adds an unsynced record and returns its id. The
   * clock is read twice: `idTime` goes into the id and `stamp` into the
   * record's timestamp, and the two may differ. The `add` request fails, and
   * the store is left as it was, when a record with that id already exists.
   */
  function SaveOffline(s: Store, kind: string, data: Payload, idTime: nat, stamp: nat, suffix: string): (r: Result<(Store, string), StoreError>)
    ensures r.Ok? <==> Get(s, MakeId(kind, idTime, suffix)).None?
    ensures r.Err? ==> r.error == ConstraintError
    ensures r.Ok? ==> r.value.1 == MakeId(kind, idTime, suffix)
    ensures r.Ok? ==> |r.value.0| == |s| + 1
    ensures r.Ok? ==> forall x :: x in r.value.0 <==> x in s || x == Record(r.value.1, kind, stamp, data, false)
  {
    var id := MakeId(kind, idTime, suffix);
    match Add(s, Record(id, kind, stamp, data, false))
    case Err(e) => Err(e)
    case Ok(s') => Ok((s', id))
  }

  /**
   * `markAsSynced(id)`: reads the record and writes it back with `synced` set;
   * an unknown id is not an error and changes nothing.
   */
  function MarkAsSynced(s: Store, id: string): (r: Store)
    ensures |r| == |s|
    ensures forall k :: 0 <= k < |r| ==> r[k].id == s[k].id
    ensures Get(r, id) == if Get(s, id).Some? then Some(Get(s, id).value.(synced := true)) else None
    ensures forall other :: other != id ==> Get(r, other) == Get(s, other)
  {
    if |s| == 0 then s
    else if s[0].id == id then
      var r := [s[0].(synced := true)] + s[1..];
      assert IdsIncreasing(r) by {
        forall i, j | 0 <= i < j < |r|
          ensures Text.Less(r[i].id, r[j].id)
        {
          assert r[i].id == s[i].id && r[j].id == s[j].id;
        }
      }
      r
    else
      var tail: Store := s[1..];
      var rest := MarkAsSynced(tail, id);
      var r := [s[0]] + rest;
      assert IdsIncreasing(r) by {
        forall i, j | 0 <= i < j < |r|
          ensures Text.Less(r[i].id, r[j].id)
        {
          assert r[i].id == s[i].id && r[j].id == s[j].id;
        }
      }
      r
  }

  /**
   * Marking changes no record but the one with that id, and that one only in its `synced`
   * flag; marking the same id twice is the same as marking it once.
   */
  lemma {:induction false} MarkAsSyncedMembers(s: Store, id: string, x: Record)
    ensures x in MarkAsSynced(s, id) <==>
      (x in s && x.id != id) || (x.id == id && x.synced && Get(s, id).Some? && x == Get(s, id).value.(synced := true))
    ensures MarkAsSynced(MarkAsSynced(s, id), id) == MarkAsSynced(s, id)
  {
    if |s| > 0 && s[0].id != id {
      var tail: Store := s[1..];
      MarkAsSyncedMembers(tail, id, x);
      var once := MarkAsSynced(s, id);
      assert once[1..] == MarkAsSynced(tail, id);
    }
    GetFinds(s, x);
    GetFinds(MarkAsSynced(s, id), x);
  }

  /**
   * The unsynced records, in key order: a scan of the object store itself,
   * keeping the records whose `synced` flag is false.
   */
  function GetUnsynced(s: Store): (r: seq<Record>)
    ensures forall x :: x in r <==> x in s && !x.synced
    ensures Seqs.IsSubseq(r, s)
  {
    Seqs.Filter(s, (x: Record) => !x.synced)
  }

  /** `getAllByType(type)`: the records of one kind, in key order. */
  function GetAllByType(s: Store, kind: string): (r: seq<Record>)
    ensures forall x :: x in r <==> x in s && x.kind == kind
    ensures Seqs.IsSubseq(r, s)
  {
    var entries := IndexEntries(s, KindPath);
    var r := Seqs.Filter(entries, (x: Record) => x.kind == kind);
    Seqs.SubseqTransitive(r, entries, s);
    r
  }

  /**
   * Deletes every synced record and nothing else. Deletion keeps the key order
   * of the records that stay.
   */
  function ClearSynced(s: Store): (r: Store)
    ensures forall x :: x in r <==> x in s && !x.synced
    ensures Seqs.IsSubseq(r, s)
  {
    var r := Seqs.Filter(s, (x: Record) => !x.synced);
    Seqs.SubseqKeepsPairwise(r, s, (a: Record, b: Record) => Text.Less(a.id, b.id));
    r
  }

  // ----- The `synced` and `type` indexes -----

  /** The key paths the store's indexes are built on. */
  datatype IndexPath = KindPath | SyncedPath | TimestampPath

  /** The value a record holds at a key path. */
  datatype FieldValue = Str(str: string) | Num(num: int) | Bool(flag: bool)

  function ValueAt(x: Record, path: IndexPath): FieldValue {
    match path
    case KindPath => Str(x.kind)
    case SyncedPath => Bool(x.synced)
    case TimestampPath => Num(x.timestamp)
  }

  /**
   * Whether IndexedDB accepts a value as a key: numbers and strings are keys,
   * booleans are not (section 2.5 "Keys" of the Indexed Database API).
   */
  predicate IsValidKey(v: FieldValue) {
    !v.Bool?
  }

  /**
   * The records an index references: a record whose value at the key path is
   * not a valid key is left out of the index. They are listed in key order,
   * which is the index's own order within one index key.
   */
  function IndexEntries(s: Store, path: IndexPath): (r: seq<Record>)
    ensures forall x :: x in r <==> x in s && IsValidKey(ValueAt(x, path))
    ensures Seqs.IsSubseq(r, s)
  {
    Seqs.Filter(s, (x: Record) => IsValidKey(ValueAt(x, path)))
  }

  /**
   * `getUnsynced()` as written: a cursor over the `synced` index, keeping the
   * entries whose flag is false. Since a boolean is never a key, the index has
   * no entries and the listing is always empty.
   */
  function GetUnsyncedAsWritten(s: Store): (r: seq<Record>)
    ensures r == []
  {
    Seqs.Filter(IndexEntries(s, SyncedPath), (x: Record) => !x.synced)
  }

  /**
   * `clearSynced()` as written: opens a cursor on `IDBKeyRange.only(true)`,
   * which throws a DataError because `true` is not a key; nothing is deleted.
   */
  function ClearSyncedAsWritten(s: Store): (r: Result<Store, StoreError>)
    ensures r == Err(DataError)
  {
    if IsValidKey(Bool(true)) then Ok(ClearSynced(s)) else Err(DataError)
  }

  /** A store holding one queued SOS alert. */
  const OnePendingSos: Store := [Record("sos_1700000000000_k3j9x2m1q", "sos", 1700000000000, Payload("{}"), false)]

  /** The queued alert is pending, yet the as-written listing does not report it. */
  lemma PendingRecordNotListedAsWritten()
    ensures GetUnsynced(OnePendingSos) == OnePendingSos
    ensures GetUnsyncedAsWritten(OnePendingSos) == []
  {
    var g := GetUnsynced(OnePendingSos);
    assert OnePendingSos[0] in g;
    assert |g| == 1;
    assert g[0] == OnePendingSos[0];
  }
}
