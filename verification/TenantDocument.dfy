/**
 A tenant document kept as objects: its records, one object each, and one
 header with its settings and version. What is written over any earlier
 contents of the model reads back exactly when the document is storable.
 */
module TenantDocument {
  import opened Prelude
  import opened Json
  import opened ObjectPort

  const HEADER := "tenant-document"

  /** A field whose records are objects of their own, told apart by the fields in `key`; a map has none. */
  datatype Part = Part(field: string, entity: string, key: seq<string>)

  /** A kind of document; `docId` is the id its type has in the model. */
  datatype Kind = Kind(typeId: string, docId: string, parts: seq<Part>)

  /**
   What the JSON library decides: how a value that is not a string is spelled
   inside a key, and in which order the keys of an object come.
   */
  datatype Spelling = Spelling(show: Json -> string, keys: set<string> -> seq<string>)

  ghost predicate Enumerates(sp: Spelling) {
    forall s :: Distinct(sp.keys(s)) && (forall k :: k in sp.keys(s) <==> k in s)
  }

  ghost predicate Distinct<T(!new)>(list: seq<T>) {
    forall i, j :: 0 <= i < j < |list| ==> list[i] != list[j]
  }

  predicate Plain(s: string) {
    ':' !in s
  }

  /** The parts of a kind have fields and entities of their own, and no entity is the header's. */
  ghost predicate WellFormed(kind: Kind) {
    && (forall i :: 0 <= i < |kind.parts| ==> Plain(kind.parts[i].entity) && kind.parts[i].entity != HEADER)
    && (forall i, j :: 0 <= i < j < |kind.parts| ==>
          kind.parts[i].field != kind.parts[j].field && kind.parts[i].entity != kind.parts[j].entity)
  }

  // ----- ids

  function ItemId(entity: string, tenant: string, key: string): string {
    entity + ":" + tenant + ":" + key
  }

  function HeaderId(tenant: string, kind: Kind): string {
    ItemId(HEADER, tenant, kind.docId)
  }

  lemma {:induction false} ColonSplit(a: string, b: string, x: string, y: string)
    requires Plain(a) && Plain(b) && a + ":" + x == b + ":" + y
    ensures a == b && x == y
  {
    var s := a + ":" + x;
    assert s[|a|] == ':' && s[|b|] == ':';
    assert s[..|a|] == a && s[..|b|] == b;
    assert forall i :: 0 <= i < |a| ==> s[i] == a[i];
    assert forall i :: 0 <= i < |b| ==> s[i] == b[i];
    assert !(|a| < |b|) && !(|b| < |a|);
    assert x == s[|a| + 1..] && y == s[|b| + 1..];
  }

  /** An id says of which entity and tenant it is, and its key. */
  lemma {:induction false} ItemIdInjective(e: string, t: string, k: string, e': string, t': string, k': string)
    requires Plain(e) && Plain(t) && Plain(e') && Plain(t')
    ensures ItemId(e, t, k) == ItemId(e', t', k') <==> e == e' && t == t' && k == k'
  {
    if ItemId(e, t, k) == ItemId(e', t', k') {
      assert ItemId(e, t, k) == e + ":" + (t + ":" + k);
      assert ItemId(e', t', k') == e' + ":" + (t' + ":" + k');
      ColonSplit(e, e', t + ":" + k, t' + ":" + k');
      ColonSplit(t, t', k, k');
    }
  }

  // ----- splitting a document

  /** A record with its key in its part. */
  type Record = (string, Json)

  function KeyField(sp: Spelling, record: Json, field: string): string {
    match Get(record, field)
    case Some(Str(s)) => s
    case Some(Null) => "-"
    case None => "-"
    case Some(other) => sp.show(other)
  }

  function Join(parts: seq<string>): string {
    if parts == [] then ""
    else if |parts| == 1 then parts[0]
    else parts[0] + "|" + Join(parts[1..])
  }

  /** What tells a record from the others of its list: its key fields, or its position without them. */
  function KeyOf(sp: Spelling, record: Json, part: Part, position: nat): string {
    var parts := seq(|part.key|, i requires 0 <= i < |part.key| => KeyField(sp, record, part.key[i]));
    if forall p | p in parts :: p == "-" then Decimal(position) else Join(parts)
  }

  /** The records of one part: a list's elements, a map's entries, nothing of anything else. */
  function Records(sp: Spelling, part: Part, v: Option<Json>): seq<Record> {
    match v
    case Some(Arr(items)) =>
      seq(|items|, i requires 0 <= i < |items| => (KeyOf(sp, items[i], part, i), items[i]))
    case Some(Obj(fields)) =>
      var keys := sp.keys(fields.Keys);
      seq(|keys|, i requires 0 <= i < |keys| => (keys[i], if keys[i] in fields then fields[keys[i]] else Null))
    case _ => []
  }

  function PartFields(kind: Kind): set<string> {
    set p | p in kind.parts :: p.field
  }

  function Settings(kind: Kind, value: Json): map<string, Json> {
    Fields(value) - PartFields(kind)
  }

  function RecordsOf(sp: Spelling, kind: Kind, value: Json, p: nat): seq<Record>
    requires p < |kind.parts|
  {
    Records(sp, kind.parts[p], Get(value, kind.parts[p].field))
  }

  // ----- writing

  /** A record as the model stores it. */
  function Payload(tenant: string, position: nat, record: Record): Json {
    if record.1.Obj? then
      Obj(record.1.fields[TENANT := Str(tenant)][POSITION := Num(position)][KEY := Str(record.0)])
    else record.1
  }

  function Objects(part: Part, tenant: string, records: seq<Record>): (objects: seq<OwnedObject>)
    ensures |objects| == |records|
    ensures forall i :: 0 <= i < |records| ==> objects[i].id == ItemId(part.entity, tenant, records[i].0)
  {
    seq(|records|, i requires 0 <= i < |records| =>
      OwnedObject(ItemId(part.entity, tenant, records[i].0), tenant, Payload(tenant, i, records[i])))
  }

  function Kept(part: Part, tenant: string, records: seq<Record>): set<string> {
    set r | r in records :: ItemId(part.entity, tenant, r.0)
  }

  /** Remove what is gone, put the rest. */
  function WritePart(store: Store, part: Part, tenant: string, records: seq<Record>): Store {
    var gone := Matching(store, part.entity, tenant) - Kept(part, tenant, records);
    Put(Remove(store, gone), part.entity, Objects(part, tenant, records))
  }

  /** The first `n` parts written, in order. */
  function WriteParts(sp: Spelling, store: Store, kind: Kind, tenant: string, value: Json, n: nat): Store
    requires n <= |kind.parts|
  {
    if n == 0 then store
    else
      WritePart(WriteParts(sp, store, kind, tenant, value, n - 1),
                kind.parts[n - 1], tenant, RecordsOf(sp, kind, value, n - 1))
  }

  function HeaderPayload(kind: Kind, tenant: string, value: Json, version: int, legacy: bool): Json {
    Obj(map["name" := Str(kind.typeId), "type_id" := Str(kind.typeId), TENANT := Str(tenant),
            "version" := Num(version), "deleted" := Bool(false), "legacy" := Bool(legacy),
            "settings" := Obj(Settings(kind, value))])
  }

  function PutHeader(store: Store, kind: Kind, tenant: string, payload: Json): Store {
    Put(store, HEADER, [OwnedObject(HeaderId(tenant, kind), tenant, payload)])
  }

  /** The whole document written: its parts, then its header. */
  function WriteDocument(sp: Spelling, store: Store, kind: Kind, tenant: string, value: Json, version: int, legacy: bool): Store {
    PutHeader(WriteParts(sp, store, kind, tenant, value, |kind.parts|), kind, tenant,
              HeaderPayload(kind, tenant, value, version, legacy))
  }

  // ----- reading

  /** The fields a record is stored with, and loses when it is read. */
  const RESERVED: set<string> := {TENANT, POSITION, KEY, SCOPE}

  function Strip(payload: Json): Json {
    if payload.Obj? then Obj(payload.fields - RESERVED) else payload
  }

  function KeyIn(payload: Json): string {
    match GetStr(payload, KEY)
    case Some(s) => s
    case None => ""
  }

  /** A list of records as the part's value: an object for a map, a list otherwise. */
  function Gathered(part: Part, records: seq<Record>): Json {
    if part.key == [] then Obj(Collect(records))
    else Arr(seq(|records|, i requires 0 <= i < |records| => records[i].1))
  }

  /** What an object of a part is read as. */
  function RecordIn(o: Object): Record {
    (KeyIn(o.payload), Strip(o.payload))
  }

  function RecordsAt(store: Store, ids: seq<string>): (records: seq<Record>)
    requires forall i :: 0 <= i < |ids| ==> ids[i] in store
    ensures |records| == |ids|
  {
    seq(|ids|, i requires 0 <= i < |ids| => RecordIn(store[ids[i]]))
  }

  /** The records of a part as the model holds them, in order. */
  function StoredRecords(store: Store, part: Part, tenant: string): (records: seq<Record>)
    ensures |records| == |Matching(store, part.entity, tenant)|
  {
    RecordsAt(store, Listing(store, Matching(store, part.entity, tenant)))
  }

  function PartValue(store: Store, part: Part, tenant: string): Json {
    Gathered(part, StoredRecords(store, part, tenant))
  }

  /** `settings` with the first `n` parts put in. */
  function Fill(settings: map<string, Json>, parts: seq<Part>, values: seq<Json>): map<string, Json>
    requires |parts| == |values|
  {
    if parts == [] then settings
    else
      var last := |parts| - 1;
      Fill(settings, parts[..last], values[..last])[parts[last].field := values[last]]
  }

  function HeaderOf(store: Store, kind: Kind, tenant: string): Option<Json> {
    var id := HeaderId(tenant, kind);
    if id in store && store[id].entity == HEADER then Some(store[id].payload) else None
  }

  datatype Entry = Entry(value: Json, version: int)

  function SettingsIn(header: Json): map<string, Json> {
    match Get(header, "settings")
    case Some(Obj(m)) => m
    case _ => map[]
  }

  function VersionIn(header: Json, missing: int): int {
    match GetInt(header, "version")
    case Some(v) => v
    case None => missing
  }

  function PartValues(store: Store, kind: Kind, tenant: string): (values: seq<Json>)
    ensures |values| == |kind.parts|
  {
    seq(|kind.parts|, i requires 0 <= i < |kind.parts| => PartValue(store, kind.parts[i], tenant))
  }

  /** The document a header and its parts make; `None` without a header, or with one that says deleted. */
  function ReadFrom(kind: Kind, header: Option<Json>, values: seq<Json>): Option<Entry>
    requires |values| == |kind.parts|
  {
    match header
    case None => None
    case Some(h) =>
      if GetBool(h, "deleted") == Some(true) then None
      else Some(Entry(Obj(Fill(SettingsIn(h), kind.parts, values)), VersionIn(h, 1)))
  }

  /** What a read of the store makes of a document. */
  function ReadDocument(store: Store, kind: Kind, tenant: string): Option<Entry> {
    ReadFrom(kind, HeaderOf(store, kind, tenant), PartValues(store, kind, tenant))
  }

  // ----- the round trip

  function NormalParts(sp: Spelling, kind: Kind, value: Json): (values: seq<Json>)
    ensures |values| == |kind.parts|
  {
    seq(|kind.parts|, i requires 0 <= i < |kind.parts| => Gathered(kind.parts[i], RecordsOf(sp, kind, value, i)))
  }

  /** The document with every part present: a list for a list part, an object for a map part. */
  function Normalized(sp: Spelling, kind: Kind, value: Json): Json {
    Obj(Fill(Settings(kind, value), kind.parts, NormalParts(sp, kind, value)))
  }

  /** Every record is an object without reserved fields, and no two have one key. */
  ghost predicate PartStorable(records: seq<Record>) {
    && (forall i :: 0 <= i < |records| ==> records[i].1.Obj? && records[i].1.fields.Keys !! RESERVED)
    && DistinctKeys(records)
  }

  ghost predicate DistinctKeys(records: seq<Record>) {
    forall i, j :: 0 <= i < j < |records| ==> records[i].0 != records[j].0
  }

  ghost predicate Storable(sp: Spelling, kind: Kind, value: Json) {
    forall p :: 0 <= p < |kind.parts| ==> PartStorable(RecordsOf(sp, kind, value, p))
  }

  /** A map part's records have distinct keys whatever the document holds there. */
  lemma {:induction false} MapKeysDistinct(sp: Spelling, part: Part, v: Option<Json>)
    requires Enumerates(sp) && part.key == []
    ensures DistinctKeys(Records(sp, part, v))
  {
    if v.Some? && v.value.Arr? {
      var records := Records(sp, part, v);
      forall i, j | 0 <= i < j < |records|
        ensures records[i].0 != records[j].0
      {
        DecimalInjective(i, j);
      }
    }
  }

  // one part

  /** After a part is written, an object of it carries the tenant only under the id of a record. */
  lemma {:induction false} WrittenPart(store: Store, part: Part, tenant: string, records: seq<Record>, id: string)
    requires forall i :: 0 <= i < |records| ==> ItemId(part.entity, tenant, records[i].0) != id
    ensures id !in Matching(WritePart(store, part, tenant, records), part.entity, tenant)
  {
    var gone := Matching(store, part.entity, tenant) - Kept(part, tenant, records);
    PutElsewhere(Remove(store, gone), part.entity, Objects(part, tenant, records), id);
    assert id !in Kept(part, tenant, records);
  }

  /** Every record is stored under its id, when no two share one. */
  lemma {:induction false} WrittenAt(store: Store, part: Part, tenant: string, records: seq<Record>, i: nat)
    requires Plain(part.entity) && Plain(tenant) && DistinctKeys(records) && i < |records|
    ensures var id := ItemId(part.entity, tenant, records[i].0);
            && id in WritePart(store, part, tenant, records)
            && WritePart(store, part, tenant, records)[id] ==
               Object(part.entity, Scoped(Objects(part, tenant, records)[i]))
  {
    var objects := Objects(part, tenant, records);
    forall j | i < j < |objects|
      ensures objects[j].id != objects[i].id
    {
      ItemIdInjective(part.entity, tenant, records[i].0, part.entity, tenant, records[j].0);
    }
    PutAt(Remove(store, Matching(store, part.entity, tenant) - Kept(part, tenant, records)), part.entity, objects, i);
  }

  function Ids(part: Part, tenant: string, records: seq<Record>): (ids: seq<string>)
    ensures |ids| == |records|
    ensures forall i :: 0 <= i < |records| ==> ids[i] == ItemId(part.entity, tenant, records[i].0)
  {
    seq(|records|, i requires 0 <= i < |records| => ItemId(part.entity, tenant, records[i].0))
  }

  /** The records a query finds are those that are objects. */
  lemma {:induction false} MatchedIsObject(store: Store, part: Part, tenant: string, records: seq<Record>, i: nat)
    requires Plain(part.entity) && Plain(tenant) && DistinctKeys(records) && i < |records|
    ensures var id := ItemId(part.entity, tenant, records[i].0);
            id in Matching(WritePart(store, part, tenant, records), part.entity, tenant) <==> records[i].1.Obj?
  {
    WrittenAt(store, part, tenant, records, i);
  }

  lemma {:induction false} OnlyIds(store: Store, part: Part, tenant: string, records: seq<Record>)
    ensures forall id :: id in Matching(WritePart(store, part, tenant, records), part.entity, tenant) ==>
              id in Ids(part, tenant, records)
  {
    forall id | id !in Ids(part, tenant, records)
      ensures id !in Matching(WritePart(store, part, tenant, records), part.entity, tenant)
    {
      var ids := Ids(part, tenant, records);
      assert forall i :: 0 <= i < |records| ==> ids[i] != id;
      assert forall i :: 0 <= i < |records| ==> ItemId(part.entity, tenant, records[i].0) == ids[i];
      WrittenPart(store, part, tenant, records, id);
    }
  }

  /** What a stored record is read as. */
  lemma {:induction false} StripsBack(part: Part, tenant: string, records: seq<Record>, i: nat)
    requires i < |records| && records[i].1.Obj?
    ensures var payload := Scoped(Objects(part, tenant, records)[i]);
            && GetStr(payload, TENANT) == Some(tenant)
            && GetInt(payload, POSITION) == Some(i)
            && KeyIn(payload) == records[i].0
            && Strip(payload) == Obj(records[i].1.fields - RESERVED)
  {
  }

  /** Objects under `ids`, each at its position, are listed in that order. */
  lemma {:induction false} ListedByPosition(after: Store, matching: set<string>, ids: seq<string>)
    requires matching <= after.Keys
    requires forall id :: id in matching ==> id in ids
    requires forall i :: 0 <= i < |ids| ==> ids[i] in matching && GetInt(after[ids[i]].payload, POSITION) == Some(i)
    ensures Listing(after, matching) == ids
  {
    ListingUnique(after, matching, ids);
  }

  /** Records that are objects with distinct keys come back in order, without their reserved fields. */
  lemma {:induction false} StoredBack(store: Store, part: Part, tenant: string, records: seq<Record>)
    requires Plain(part.entity) && Plain(tenant) && DistinctKeys(records)
    requires forall i :: 0 <= i < |records| ==> records[i].1.Obj?
    ensures var stored := StoredRecords(WritePart(store, part, tenant, records), part, tenant);
            && |stored| == |records|
            && forall i :: 0 <= i < |records| ==>
                 stored[i] == (records[i].0, Obj(records[i].1.fields - RESERVED))
  {
    var after := WritePart(store, part, tenant, records);
    var matching := Matching(after, part.entity, tenant);
    var ids := Ids(part, tenant, records);
    forall i | 0 <= i < |records|
      ensures ids[i] in matching && GetInt(after[ids[i]].payload, POSITION) == Some(i)
      ensures KeyIn(after[ids[i]].payload) == records[i].0
      ensures Strip(after[ids[i]].payload) == Obj(records[i].1.fields - RESERVED)
    {
      WrittenAt(store, part, tenant, records, i);
      StripsBack(part, tenant, records, i);
    }
    OnlyIds(store, part, tenant, records);
    ListedByPosition(after, matching, ids);
  }

  lemma {:induction false} Duplicates(list: seq<string>)
    ensures |set x | x in list| <= |list|
    ensures |set x | x in list| == |list| ==> Distinct(list)
  {
    if list != [] {
      var last := |list| - 1;
      Duplicates(list[..last]);
      assert list == list[..last] + [list[last]];
      assert (set x | x in list) == (set x | x in list[..last]) + {list[last]};
      if list[last] in list[..last] {
        assert (set x | x in list) == (set x | x in list[..last]);
      }
    }
  }

  /** As many elements as the sequence is long, all from it: it has no duplicates and they are all of it. */
  lemma {:induction false} SameCount(a: set<string>, list: seq<string>)
    requires |a| == |list| && forall x :: x in a ==> x in list
    ensures Distinct(list) && forall i :: 0 <= i < |list| ==> list[i] in a
  {
    var all := set x | x in list;
    Duplicates(list);
    assert all == a + (all - a);
    assert all - a == {};
    forall i | 0 <= i < |list|
      ensures list[i] in a
    {
      assert list[i] in all;
    }
  }

  /** A list part that comes back whole had records that are objects with distinct keys. */
  lemma {:induction false} ListWasWhole(store: Store, part: Part, tenant: string, records: seq<Record>)
    requires Plain(part.entity) && Plain(tenant)
    requires |StoredRecords(WritePart(store, part, tenant, records), part, tenant)| == |records|
    ensures DistinctKeys(records) && forall i :: 0 <= i < |records| ==> records[i].1.Obj?
  {
    var ids := Ids(part, tenant, records);
    OnlyIds(store, part, tenant, records);
    SameCount(Matching(WritePart(store, part, tenant, records), part.entity, tenant), ids);
    forall i, j | 0 <= i < j < |records|
      ensures records[i].0 != records[j].0
    {
      assert ids[i] != ids[j];
    }
    forall i | 0 <= i < |records|
      ensures records[i].1.Obj?
    {
      assert ids[i] in Matching(WritePart(store, part, tenant, records), part.entity, tenant);
      MatchedIsObject(store, part, tenant, records, i);
    }
  }

  /** A map part that comes back whole had values that are objects. */
  lemma {:induction false} MapWasWhole(store: Store, part: Part, tenant: string, records: seq<Record>, i: nat)
    requires Plain(part.entity) && Plain(tenant) && DistinctKeys(records) && i < |records|
    ensures records[i].0 in Collect(StoredRecords(WritePart(store, part, tenant, records), part, tenant)) ==> records[i].1.Obj?
  {
    if records[i].0 !in Collect(StoredRecords(WritePart(store, part, tenant, records), part, tenant)) {
      return;
    }
    var after := WritePart(store, part, tenant, records);
    var stored := StoredRecords(after, part, tenant);
    var l :| 0 <= l < |stored| && stored[l].0 == records[i].0;
    var id := Listing(after, Matching(after, part.entity, tenant))[l];
    OnlyIds(store, part, tenant, records);
    var m :| 0 <= m < |records| && Ids(part, tenant, records)[m] == id;
    MatchedIsObject(store, part, tenant, records, m);
    WrittenAt(store, part, tenant, records, m);
    StripsBack(part, tenant, records, m);
    assert records[m].0 == records[i].0;
  }

  /** A gathered part tells its records apart: of a list all of them, of a map those with keys of their own. */
  lemma {:induction false} GatheredEqual(part: Part, a: seq<Record>, b: seq<Record>)
    requires |a| == |b| && forall i :: 0 <= i < |a| ==> a[i].0 == b[i].0
    requires part.key == [] ==> DistinctKeys(b)
    ensures Gathered(part, a) == Gathered(part, b) ==> forall i :: 0 <= i < |a| ==> a[i] == b[i]
  {
    if Gathered(part, a) == Gathered(part, b) {
      forall i | 0 <= i < |a|
        ensures a[i] == b[i]
      {
        if part.key == [] {
          CollectAt(a, i);
          CollectAt(b, i);
        } else {
          assert Gathered(part, a).items[i] == Gathered(part, b).items[i];
        }
      }
    }
  }

  lemma {:induction false} WasWhole(store: Store, part: Part, tenant: string, records: seq<Record>)
    requires Plain(part.entity) && Plain(tenant) && (part.key == [] ==> DistinctKeys(records))
    requires PartValue(WritePart(store, part, tenant, records), part, tenant) == Gathered(part, records)
    ensures DistinctKeys(records) && forall i :: 0 <= i < |records| ==> records[i].1.Obj?
  {
    if part.key == [] {
      forall i | 0 <= i < |records|
        ensures records[i].1.Obj?
      {
        CollectAt(records, i);
        MapWasWhole(store, part, tenant, records, i);
      }
    } else {
      var stored := StoredRecords(WritePart(store, part, tenant, records), part, tenant);
      assert |Gathered(part, stored).items| == |Gathered(part, records).items|;
      ListWasWhole(store, part, tenant, records);
    }
  }

  lemma {:induction false} Unreserved(fields: map<string, Json>)
    ensures fields - RESERVED == fields <==> fields.Keys !! RESERVED
  {
  }

  /** One part written over anything reads back exactly when its records are storable. */
  lemma {:induction false} PartRoundTrip(store: Store, part: Part, tenant: string, records: seq<Record>)
    requires Plain(part.entity) && Plain(tenant) && (part.key == [] ==> DistinctKeys(records))
    ensures PartStorable(records) <==>
            PartValue(WritePart(store, part, tenant, records), part, tenant) == Gathered(part, records)
  {
    var stored := StoredRecords(WritePart(store, part, tenant, records), part, tenant);
    if PartStorable(records) {
      StoredBack(store, part, tenant, records);
      forall i | 0 <= i < |records|
        ensures stored[i] == records[i]
      {
        Unreserved(records[i].1.fields);
      }
      assert stored == records;
    }
    if Gathered(part, stored) == Gathered(part, records) {
      WasWhole(store, part, tenant, records);
      StoredBack(store, part, tenant, records);
      GatheredEqual(part, stored, records);
      forall i | 0 <= i < |records|
        ensures records[i].1.fields.Keys !! RESERVED
      {
        assert stored[i] == records[i];
        assert records[i].1.fields - RESERVED == records[i].1.fields;
        Unreserved(records[i].1.fields);
      }
    }
  }

  // ----- what a write leaves alone

  /** `id` is an item of `entity` on `tenant`. */
  predicate OfItem(id: string, entity: string, tenant: string) {
    ItemId(entity, tenant, "") <= id
  }

  /** Everything of `entity` that carries `tenant` is stored under an id of its own. */
  ghost predicate Owned(store: Store, entity: string, tenant: string) {
    forall id :: id in Matching(store, entity, tenant) ==> OfItem(id, entity, tenant)
  }

  /** Objects under ids of one entity and tenant, carrying no other tenant. */
  ghost predicate AllOf(objects: seq<OwnedObject>, entity: string, tenant: string) {
    forall i :: 0 <= i < |objects| ==>
      && OfItem(objects[i].id, entity, tenant)
      && (GetStr(Scoped(objects[i]), TENANT) == Some(tenant) || GetStr(Scoped(objects[i]), TENANT) == None)
  }

  lemma {:induction false} OfOneItem(id: string, e: string, t: string, e': string, t': string)
    requires Plain(e) && Plain(t) && Plain(e') && Plain(t')
    requires OfItem(id, e, t) && OfItem(id, e', t')
    ensures e == e' && t == t'
  {
    var k, k' := id[|ItemId(e, t, "")|..], id[|ItemId(e', t', "")|..];
    assert id == ItemId(e, t, k) && id == ItemId(e', t', k');
    ItemIdInjective(e, t, k, e', t', k');
  }

  /** What a query of one entity and tenant answers is the same in both stores. */
  ghost predicate SameItems(store: Store, store': Store, entity: string, tenant: string) {
    && Matching(store', entity, tenant) == Matching(store, entity, tenant)
    && forall id :: id in Matching(store, entity, tenant) ==> store'[id] == store[id]
  }

  lemma {:induction false} PutFrame(store: Store, entity: string, tenant: string, objects: seq<OwnedObject>, e: string, t: string)
    requires Plain(e) && Plain(t) && Plain(entity) && Plain(tenant) && (e != entity || t != tenant)
    requires Owned(store, e, t) && AllOf(objects, entity, tenant)
    ensures SameItems(store, Put(store, entity, objects), e, t)
  {
    var after := Put(store, entity, objects);
    forall id
      ensures id in Matching(after, e, t) <==> id in Matching(store, e, t)
      ensures id in Matching(store, e, t) ==> after[id] == store[id]
    {
      if i :| 0 <= i < |objects| && objects[i].id == id {
        PutSome(store, entity, objects, i);
        if id in Matching(store, e, t) {
          OfOneItem(id, e, t, entity, tenant);
        }
      } else {
        PutElsewhere(store, entity, objects, id);
      }
    }
  }

  lemma {:induction false} ItemObjects(part: Part, tenant: string, records: seq<Record>)
    ensures AllOf(Objects(part, tenant, records), part.entity, tenant)
  {
  }

  /** Writing a part leaves what any other entity or tenant holds. */
  lemma {:induction false} PartFrame(store: Store, part: Part, tenant: string, records: seq<Record>, e: string, t: string)
    requires Plain(e) && Plain(t) && Plain(part.entity) && Plain(tenant) && (e != part.entity || t != tenant)
    requires Owned(store, e, t)
    ensures SameItems(store, WritePart(store, part, tenant, records), e, t)
    ensures Owned(WritePart(store, part, tenant, records), e, t)
  {
    var rest := Remove(store, Matching(store, part.entity, tenant) - Kept(part, tenant, records));
    assert SameItems(store, rest, e, t);
    ItemObjects(part, tenant, records);
    PutFrame(rest, part.entity, tenant, Objects(part, tenant, records), e, t);
  }

  lemma {:induction false} SameItemsSameValue(store: Store, store': Store, part: Part, tenant: string)
    requires SameItems(store, store', part.entity, tenant)
    ensures PartValue(store', part, tenant) == PartValue(store, part, tenant)
  {
    ListingFrame(store, store', Matching(store, part.entity, tenant));
    assert StoredRecords(store', part, tenant) == StoredRecords(store, part, tenant);
  }

  /** A part just written owns its ids. */
  lemma {:induction false} WrittenOwned(store: Store, part: Part, tenant: string, records: seq<Record>)
    ensures Owned(WritePart(store, part, tenant, records), part.entity, tenant)
  {
    OnlyIds(store, part, tenant, records);
  }

  // ----- the whole document

  lemma {:induction false} NextPartKeeps(sp: Spelling, store: Store, kind: Kind, tenant: string, value: Json, p: nat, n: nat)
    requires WellFormed(kind) && Plain(tenant) && p < n < |kind.parts|
    requires Owned(WriteParts(sp, store, kind, tenant, value, n), kind.parts[p].entity, tenant)
    ensures var before, after := WriteParts(sp, store, kind, tenant, value, n), WriteParts(sp, store, kind, tenant, value, n + 1);
            && Owned(after, kind.parts[p].entity, tenant)
            && PartValue(after, kind.parts[p], tenant) == PartValue(before, kind.parts[p], tenant)
  {
    var before := WriteParts(sp, store, kind, tenant, value, n);
    var records := RecordsOf(sp, kind, value, n);
    PartFrame(before, kind.parts[n], tenant, records, kind.parts[p].entity, tenant);
    SameItemsSameValue(before, WritePart(before, kind.parts[n], tenant, records), kind.parts[p], tenant);
  }

  lemma {:induction false} JustWrittenOwned(sp: Spelling, store: Store, kind: Kind, tenant: string, value: Json, p: nat)
    requires p < |kind.parts|
    ensures Owned(WriteParts(sp, store, kind, tenant, value, p + 1), kind.parts[p].entity, tenant)
  {
    WrittenOwned(WriteParts(sp, store, kind, tenant, value, p), kind.parts[p], tenant, RecordsOf(sp, kind, value, p));
  }

  /** Part `p` reads the same after the later parts are written as just after it was. */
  lemma {:induction false} LaterPartsKeep(sp: Spelling, store: Store, kind: Kind, tenant: string, value: Json, p: nat, n: nat)
    requires WellFormed(kind) && Plain(tenant) && p < n <= |kind.parts|
    requires Owned(WriteParts(sp, store, kind, tenant, value, p + 1), kind.parts[p].entity, tenant)
    ensures Owned(WriteParts(sp, store, kind, tenant, value, n), kind.parts[p].entity, tenant)
    ensures PartValue(WriteParts(sp, store, kind, tenant, value, n), kind.parts[p], tenant) ==
            PartValue(WriteParts(sp, store, kind, tenant, value, p + 1), kind.parts[p], tenant)
  {
    if n > p + 1 {
      LaterPartsKeep(sp, store, kind, tenant, value, p, n - 1);
      NextPartKeeps(sp, store, kind, tenant, value, p, n - 1);
    }
  }

  lemma {:induction false} HeaderObject(kind: Kind, tenant: string, payload: Json)
    requires GetStr(payload, TENANT) == Some(tenant)
    ensures AllOf([OwnedObject(HeaderId(tenant, kind), tenant, payload)], HEADER, tenant)
  {
  }

  /** Putting the header leaves every part. */
  lemma {:induction false} HeaderKeeps(store: Store, kind: Kind, tenant: string, payload: Json, e: string, t: string)
    requires Plain(e) && e != HEADER && Plain(t) && Plain(tenant) && Owned(store, e, t)
    requires GetStr(payload, TENANT) == Some(tenant)
    ensures SameItems(store, PutHeader(store, kind, tenant, payload), e, t)
  {
    HeaderObject(kind, tenant, payload);
    PutFrame(store, HEADER, tenant, [OwnedObject(HeaderId(tenant, kind), tenant, payload)], e, t);
  }

  lemma {:induction false} HeaderPut(store: Store, kind: Kind, tenant: string, payload: Json)
    ensures HeaderOf(PutHeader(store, kind, tenant, payload), kind, tenant) ==
            Some(Scoped(OwnedObject(HeaderId(tenant, kind), tenant, payload)))
  {
  }

  /** The value a part has in the document just written. */
  lemma {:induction false} PartOfWritten(sp: Spelling, store: Store, kind: Kind, tenant: string, value: Json, version: int, legacy: bool, p: nat)
    requires WellFormed(kind) && Plain(tenant) && Enumerates(sp) && p < |kind.parts|
    ensures var records := RecordsOf(sp, kind, value, p);
            PartStorable(records) <==>
            PartValue(WriteDocument(sp, store, kind, tenant, value, version, legacy), kind.parts[p], tenant) ==
            Gathered(kind.parts[p], records)
  {
    var part := kind.parts[p];
    var parts := WriteParts(sp, store, kind, tenant, value, |kind.parts|);
    var payload := HeaderPayload(kind, tenant, value, version, legacy);
    JustWrittenOwned(sp, store, kind, tenant, value, p);
    LaterPartsKeep(sp, store, kind, tenant, value, p, |kind.parts|);
    HeaderKeeps(parts, kind, tenant, payload, part.entity, tenant);
    SameItemsSameValue(parts, PutHeader(parts, kind, tenant, payload), part, tenant);
    if part.key == [] {
      MapKeysDistinct(sp, part, Get(value, part.field));
    }
    PartRoundTrip(WriteParts(sp, store, kind, tenant, value, p), part, tenant, RecordsOf(sp, kind, value, p));
  }

  lemma {:induction false} FillNext(settings: map<string, Json>, parts: seq<Part>, values: seq<Json>, i: nat)
    requires |parts| == |values| && i < |parts|
    ensures Fill(settings, parts[..i + 1], values[..i + 1]) ==
            Fill(settings, parts[..i], values[..i])[parts[i].field := values[i]]
  {
    assert parts[..i + 1][..i] == parts[..i] && values[..i + 1][..i] == values[..i];
  }

  lemma {:induction false} FillAt(settings: map<string, Json>, parts: seq<Part>, values: seq<Json>, i: nat)
    requires |parts| == |values| && i < |parts|
    requires forall a, b :: 0 <= a < b < |parts| ==> parts[a].field != parts[b].field
    ensures parts[i].field in Fill(settings, parts, values) && Fill(settings, parts, values)[parts[i].field] == values[i]
  {
    var last := |parts| - 1;
    if i < last {
      FillAt(settings, parts[..last], values[..last], i);
    }
  }

  /** Two documents of a kind with the same settings are equal when their parts are. */
  lemma {:induction false} FillEqual(settings: map<string, Json>, kind: Kind, a: seq<Json>, b: seq<Json>)
    requires WellFormed(kind) && |a| == |b| == |kind.parts|
    ensures Fill(settings, kind.parts, a) == Fill(settings, kind.parts, b) <==> a == b
  {
    if Fill(settings, kind.parts, a) == Fill(settings, kind.parts, b) {
      forall i | 0 <= i < |a|
        ensures a[i] == b[i]
      {
        FillAt(settings, kind.parts, a, i);
        FillAt(settings, kind.parts, b, i);
      }
    }
  }

  lemma {:induction false} PartsOfWritten(sp: Spelling, store: Store, kind: Kind, tenant: string, value: Json, version: int, legacy: bool)
    requires WellFormed(kind) && Plain(tenant) && Enumerates(sp)
    ensures Storable(sp, kind, value) <==>
            PartValues(WriteDocument(sp, store, kind, tenant, value, version, legacy), kind, tenant) == NormalParts(sp, kind, value)
  {
    var values := PartValues(WriteDocument(sp, store, kind, tenant, value, version, legacy), kind, tenant);
    forall p | 0 <= p < |kind.parts|
      ensures PartStorable(RecordsOf(sp, kind, value, p)) <==> values[p] == NormalParts(sp, kind, value)[p]
    {
      PartOfWritten(sp, store, kind, tenant, value, version, legacy, p);
    }
  }

  lemma {:induction false} HeaderSays(kind: Kind, tenant: string, value: Json, version: int, legacy: bool, id: string)
    ensures var header := Scoped(OwnedObject(id, tenant, HeaderPayload(kind, tenant, value, version, legacy)));
            && GetBool(header, "deleted") == Some(false)
            && SettingsIn(header) == Settings(kind, value)
            && VersionIn(header, 1) == version
  {
  }

  /** A document whose header was just written is read from that header. */
  lemma {:induction false} ReadsByHeader(store: Store, kind: Kind, tenant: string, value: Json, version: int, legacy: bool)
    ensures var after := PutHeader(store, kind, tenant, HeaderPayload(kind, tenant, value, version, legacy));
            ReadDocument(after, kind, tenant) ==
            Some(Entry(Obj(Fill(Settings(kind, value), kind.parts, PartValues(after, kind, tenant))), version))
  {
    HeaderPut(store, kind, tenant, HeaderPayload(kind, tenant, value, version, legacy));
    HeaderSays(kind, tenant, value, version, legacy, HeaderId(tenant, kind));
  }

  /**
   Written over any earlier contents, a document reads back as itself with
   its absent parts filled in empty exactly when it is storable; its version
   is always the one written.
   */
  lemma {:induction false} RoundTrip(sp: Spelling, store: Store, kind: Kind, tenant: string, value: Json, version: int, legacy: bool)
    requires WellFormed(kind) && Plain(tenant) && Enumerates(sp)
    ensures var read := ReadDocument(WriteDocument(sp, store, kind, tenant, value, version, legacy), kind, tenant);
            && read.Some? && read.value.version == version
            && (read.value.value == Normalized(sp, kind, value) <==> Storable(sp, kind, value))
  {
    ReadsByHeader(WriteParts(sp, store, kind, tenant, value, |kind.parts|), kind, tenant, value, version, legacy);
    PartsOfWritten(sp, store, kind, tenant, value, version, legacy);
    FillEqual(Settings(kind, value), kind,
              PartValues(WriteDocument(sp, store, kind, tenant, value, version, legacy), kind, tenant),
              NormalParts(sp, kind, value));
  }

  // ----- normal form

  /** The settings stay under the parts, and nothing else is added. */
  lemma {:induction false} FillRest(settings: map<string, Json>, parts: seq<Part>, values: seq<Json>)
    requires |parts| == |values|
    ensures Fill(settings, parts, values).Keys == settings.Keys + set p | p in parts :: p.field
    ensures forall f :: f in settings && f !in (set p | p in parts :: p.field) ==>
              Fill(settings, parts, values)[f] == settings[f]
  {
    if parts != [] {
      var last := |parts| - 1;
      FillRest(settings, parts[..last], values[..last]);
      assert parts == parts[..last] + [parts[last]];
    }
  }

  /** A map read entry by entry and gathered is the map. */
  lemma {:induction false} CollectEntries(sp: Spelling, part: Part, fields: map<string, Json>)
    requires Enumerates(sp)
    ensures Collect(Records(sp, part, Some(Obj(fields)))) == fields
  {
    var records := Records(sp, part, Some(Obj(fields)));
    var keys := sp.keys(fields.Keys);
    assert forall i :: 0 <= i < |keys| ==> keys[i] in keys && records[i] == (keys[i], fields[keys[i]]);
    var m := Collect(records);
    forall k | k in m
      ensures k in fields
    {
      var p :| p in records && p.0 == k;
      var i :| 0 <= i < |records| && records[i] == p;
      assert keys[i] in keys;
    }
    forall k | k in fields
      ensures k in m && m[k] == fields[k]
    {
      var i :| 0 <= i < |keys| && keys[i] == k;
      CollectAt(records, i);
    }
    assert m == fields;
  }

  lemma {:induction false} GatheredAgain(sp: Spelling, part: Part, records: seq<Record>)
    requires Enumerates(sp)
    ensures Gathered(part, Records(sp, part, Some(Gathered(part, records)))) == Gathered(part, records)
  {
    if part.key == [] {
      CollectEntries(sp, part, Collect(records));
    }
  }

  lemma {:induction false} NormalFields(sp: Spelling, kind: Kind, value: Json)
    requires WellFormed(kind)
    ensures Settings(kind, Normalized(sp, kind, value)) == Settings(kind, value)
    ensures forall p :: 0 <= p < |kind.parts| ==>
              Get(Normalized(sp, kind, value), kind.parts[p].field) == Some(NormalParts(sp, kind, value)[p])
  {
    FillRest(Settings(kind, value), kind.parts, NormalParts(sp, kind, value));
    forall p | 0 <= p < |kind.parts|
      ensures Get(Normalized(sp, kind, value), kind.parts[p].field) == Some(NormalParts(sp, kind, value)[p])
    {
      FillAt(Settings(kind, value), kind.parts, NormalParts(sp, kind, value), p);
    }
  }

  /** The normal form is one: filling in again changes nothing. */
  lemma {:induction false} NormalizedAgain(sp: Spelling, kind: Kind, value: Json)
    requires WellFormed(kind) && Enumerates(sp)
    ensures Normalized(sp, kind, Normalized(sp, kind, value)) == Normalized(sp, kind, value)
  {
    var normal := Normalized(sp, kind, value);
    NormalFields(sp, kind, value);
    forall p | 0 <= p < |kind.parts|
      ensures NormalParts(sp, kind, normal)[p] == NormalParts(sp, kind, value)[p]
    {
      GatheredAgain(sp, kind.parts[p], RecordsOf(sp, kind, value, p));
    }
    assert NormalParts(sp, kind, normal) == NormalParts(sp, kind, value);
  }

  /** No list part is given as a map. */
  predicate ListsAreLists(kind: Kind, value: Json) {
    forall p | p in kind.parts :: p.key != [] ==>
      match Get(value, p.field)
      case Some(Obj(_)) => false
      case _ => true
  }

  lemma {:induction false} MapPartStorableAgain(sp: Spelling, part: Part, records: seq<Record>)
    requires Enumerates(sp) && part.key == [] && PartStorable(records)
    ensures PartStorable(Records(sp, part, Some(Gathered(part, records))))
  {
    var again := Records(sp, part, Some(Gathered(part, records)));
    forall i | 0 <= i < |again|
      ensures again[i].1.Obj? && again[i].1.fields.Keys !! RESERVED
    {
      var keys := sp.keys(Collect(records).Keys);
      assert keys[i] in keys;
      var j :| 0 <= j < |records| && records[j].0 == again[i].0;
      CollectAt(records, j);
    }
    MapKeysDistinct(sp, part, Some(Gathered(part, records)));
  }

  /** What was read back can be stored again: a storable document stays so in normal form. */
  lemma {:induction false} StorableAgain(sp: Spelling, kind: Kind, value: Json)
    requires WellFormed(kind) && Enumerates(sp) && Storable(sp, kind, value) && ListsAreLists(kind, value)
    ensures Storable(sp, kind, Normalized(sp, kind, value)) && ListsAreLists(kind, Normalized(sp, kind, value))
  {
    var normal := Normalized(sp, kind, value);
    NormalFields(sp, kind, value);
    forall p | 0 <= p < |kind.parts|
      ensures PartStorable(RecordsOf(sp, kind, normal, p))
    {
      var part, records := kind.parts[p], RecordsOf(sp, kind, value, p);
      assert part in kind.parts;
      if part.key == [] {
        MapPartStorableAgain(sp, part, records);
      } else {
        assert RecordsOf(sp, kind, normal, p) == records;
      }
    }
    forall part | part in kind.parts
      ensures part.key != [] ==> match Get(normal, part.field) case Some(Obj(_)) => false case _ => true
    {
      var p :| 0 <= p < |kind.parts| && kind.parts[p] == part;
    }
  }

  lemma {:induction false} PresentPart(sp: Spelling, part: Part, v: Json)
    requires Enumerates(sp) && if part.key == [] then v.Obj? else v.Arr?
    ensures Gathered(part, Records(sp, part, Some(v))) == v
  {
    if part.key == [] {
      CollectEntries(sp, part, v.fields);
    }
  }

  /** Every part is there, a map part as an object, the others as lists. */
  ghost predicate Present(kind: Kind, value: Json) {
    forall p :: 0 <= p < |kind.parts| ==>
      && Get(value, kind.parts[p].field).Some?
      && if kind.parts[p].key == [] then Get(value, kind.parts[p].field).value.Obj?
         else Get(value, kind.parts[p].field).value.Arr?
  }

  lemma {:induction false} PresentField(sp: Spelling, kind: Kind, value: Json, field: string)
    requires WellFormed(kind) && Enumerates(sp) && value.Obj? && Present(kind, value) && field in value.fields
    ensures Get(Normalized(sp, kind, value), field) == Some(value.fields[field])
  {
    if p :| 0 <= p < |kind.parts| && kind.parts[p].field == field {
      NormalFields(sp, kind, value);
      PresentPart(sp, kind.parts[p], value.fields[field]);
    } else {
      FillRest(Settings(kind, value), kind.parts, NormalParts(sp, kind, value));
    }
  }

  /** A document with every part present in its own form is its normal form. */
  lemma {:induction false} PresentIsNormal(sp: Spelling, kind: Kind, value: Json)
    requires WellFormed(kind) && Enumerates(sp) && value.Obj? && Present(kind, value)
    ensures Normalized(sp, kind, value) == value
  {
    hide Enumerates, WellFormed, Records;
    var normal := Normalized(sp, kind, value);
    forall field | field in value.fields
      ensures field in normal.fields && normal.fields[field] == value.fields[field]
    {
      PresentField(sp, kind, value, field);
    }
    FillRest(Settings(kind, value), kind.parts, NormalParts(sp, kind, value));
    assert normal.fields.Keys <= value.fields.Keys;
    assert normal.fields == value.fields;
  }

  // ----- other documents

  /** Whatever carries a tenant is stored under an id of that tenant and of its entity. */
  ghost predicate Consistent(store: Store) {
    forall id :: id in store && GetStr(store[id].payload, TENANT).Some? ==>
      OfItem(id, store[id].entity, GetStr(store[id].payload, TENANT).value)
  }

  /** `id` is one of the items of this document. */
  ghost predicate ItemOf(id: string, kind: Kind, tenant: string) {
    exists p :: 0 <= p < |kind.parts| && OfItem(id, kind.parts[p].entity, tenant)
  }

  /** Nothing but this document's items differs. */
  ghost predicate OnlyItems(store: Store, store': Store, kind: Kind, tenant: string) {
    && Consistent(store')
    && forall id :: !ItemOf(id, kind, tenant) ==>
         (id in store' <==> id in store) && (id in store ==> store'[id] == store[id])
  }

  /** Nothing but this document's items and header differs. */
  ghost predicate OnlyDocument(store: Store, store': Store, kind: Kind, tenant: string) {
    && Consistent(store')
    && forall id :: !ItemOf(id, kind, tenant) && id != HeaderId(tenant, kind) ==>
         (id in store' <==> id in store) && (id in store ==> store'[id] == store[id])
  }

  /** Two documents that share no object. */
  ghost predicate Apart(kind: Kind, tenant: string, kind': Kind, tenant': string) {
    || tenant != tenant'
    || (kind.docId != kind'.docId
        && forall p, q :: 0 <= p < |kind.parts| && 0 <= q < |kind'.parts| ==>
             kind.parts[p].entity != kind'.parts[q].entity)
  }

  lemma {:induction false} PutConsistent(store: Store, entity: string, tenant: string, objects: seq<OwnedObject>)
    requires Consistent(store) && AllOf(objects, entity, tenant)
    ensures Consistent(Put(store, entity, objects))
    ensures forall id :: !OfItem(id, entity, tenant) ==>
              && (id in Put(store, entity, objects) <==> id in store)
              && (id in store ==> Put(store, entity, objects)[id] == store[id])
  {
    var after := Put(store, entity, objects);
    forall id
      ensures id in after && GetStr(after[id].payload, TENANT).Some? ==>
                OfItem(id, after[id].entity, GetStr(after[id].payload, TENANT).value)
      ensures !OfItem(id, entity, tenant) ==> (id in after <==> id in store) && (id in store ==> after[id] == store[id])
    {
      if i :| 0 <= i < |objects| && objects[i].id == id {
        PutSome(store, entity, objects, i);
      } else {
        PutElsewhere(store, entity, objects, id);
      }
    }
  }

  lemma {:induction false} ReadSame(store: Store, store': Store, kind: Kind, tenant: string)
    requires HeaderOf(store', kind, tenant) == HeaderOf(store, kind, tenant)
    requires forall p :: 0 <= p < |kind.parts| ==> SameItems(store, store', kind.parts[p].entity, tenant)
    ensures ReadDocument(store', kind, tenant) == ReadDocument(store, kind, tenant)
  {
    forall p | 0 <= p < |kind.parts|
      ensures PartValue(store', kind.parts[p], tenant) == PartValue(store, kind.parts[p], tenant)
    {
      SameItemsSameValue(store, store', kind.parts[p], tenant);
    }
    assert PartValues(store', kind, tenant) == PartValues(store, kind, tenant);
  }

  /** An item or header of one document is no item or header of another. */
  lemma {:induction false} ApartIds(kind: Kind, tenant: string, kind': Kind, tenant': string, id: string)
    requires WellFormed(kind) && WellFormed(kind') && Plain(tenant) && Plain(tenant')
    requires Apart(kind, tenant, kind', tenant')
    requires ItemOf(id, kind', tenant') || id == HeaderId(tenant', kind')
    ensures !ItemOf(id, kind, tenant) && id != HeaderId(tenant, kind)
  {
    var e' := if id == HeaderId(tenant', kind') then HEADER else
      var q :| 0 <= q < |kind'.parts| && OfItem(id, kind'.parts[q].entity, tenant'); kind'.parts[q].entity;
    assert Plain(HEADER);
    assert OfItem(id, e', tenant');
    if p :| 0 <= p < |kind.parts| && OfItem(id, kind.parts[p].entity, tenant) {
      OfOneItem(id, kind.parts[p].entity, tenant, e', tenant');
    }
    if id == HeaderId(tenant, kind) {
      OfOneItem(id, HEADER, tenant, e', tenant');
      ItemIdInjective(HEADER, tenant, kind.docId, HEADER, tenant', kind'.docId);
    }
  }

  /** Whatever happens to one document, every document apart from it reads the same. */
  lemma {:induction false} OthersUntouched(store: Store, store': Store, kind: Kind, tenant: string, kind': Kind, tenant': string)
    requires WellFormed(kind) && WellFormed(kind') && Plain(tenant) && Plain(tenant')
    requires Consistent(store) && OnlyDocument(store, store', kind, tenant)
    requires Apart(kind, tenant, kind', tenant')
    ensures ReadDocument(store', kind', tenant') == ReadDocument(store, kind', tenant')
    ensures HeaderOf(store', kind', tenant') == HeaderOf(store, kind', tenant')
  {
    ApartIds(kind, tenant, kind', tenant', HeaderId(tenant', kind'));
    forall q | 0 <= q < |kind'.parts|
      ensures SameItems(store, store', kind'.parts[q].entity, tenant')
    {
      var e := kind'.parts[q].entity;
      forall id | id in Matching(store, e, tenant') || id in Matching(store', e, tenant')
        ensures id in Matching(store, e, tenant') && id in Matching(store', e, tenant') && store'[id] == store[id]
      {
        assert OfItem(id, e, tenant');
        ApartIds(kind, tenant, kind', tenant', id);
      }
    }
    ReadSame(store, store', kind', tenant');
  }

  // ----- each port call of a write, by itself

  lemma {:induction false} RemovesOnlyItems(store: Store, kind: Kind, tenant: string, p: nat, ids: set<string>)
    requires p < |kind.parts| && Consistent(store)
    requires ids <= Matching(store, kind.parts[p].entity, tenant)
    ensures OnlyItems(store, Remove(store, ids), kind, tenant)
  {
  }

  lemma {:induction false} PutsOnlyItems(store: Store, kind: Kind, tenant: string, p: nat, objects: seq<OwnedObject>)
    requires p < |kind.parts| && Consistent(store) && AllOf(objects, kind.parts[p].entity, tenant)
    ensures OnlyItems(store, Put(store, kind.parts[p].entity, objects), kind, tenant)
  {
    PutConsistent(store, kind.parts[p].entity, tenant, objects);
  }

  lemma {:induction false} OnlyItemsThen(a: Store, b: Store, c: Store, kind: Kind, tenant: string)
    requires OnlyItems(a, b, kind, tenant) && OnlyItems(b, c, kind, tenant)
    ensures OnlyItems(a, c, kind, tenant)
  {
  }

  lemma {:induction false} OnlyDocumentThen(a: Store, b: Store, c: Store, kind: Kind, tenant: string)
    requires OnlyDocument(a, b, kind, tenant) && OnlyDocument(b, c, kind, tenant)
    ensures OnlyDocument(a, c, kind, tenant)
  {
  }

  /** The header of a document is none of its items. */
  lemma {:induction false} HeaderIsNoItem(kind: Kind, tenant: string)
    requires WellFormed(kind) && Plain(tenant)
    ensures !ItemOf(HeaderId(tenant, kind), kind, tenant)
  {
    assert OfItem(HeaderId(tenant, kind), HEADER, tenant) && Plain(HEADER);
    if p :| 0 <= p < |kind.parts| && OfItem(HeaderId(tenant, kind), kind.parts[p].entity, tenant) {
      OfOneItem(HeaderId(tenant, kind), kind.parts[p].entity, tenant, HEADER, tenant);
    }
  }
}
