/**
 One document across its two stores: what the model holds of it and the row
 account-management holds, and how each migration step moves between them.
 */
module Migration {
  import opened Prelude
  import opened Json
  import opened ObjectPort
  import opened TenantDocument

  /** What the model says of a document. */
  datatype ModelSide =
    | Absent                              // it has never held it
    | Live(entry: Entry, legacy: bool)    // it holds it; `legacy`: its row may not have been dropped yet
    | Deleted(version: int)               // deleted, whatever row there is
    | Returned(version: int)              // it went back to account-management

  datatype View = View(model: ModelSide, row: Option<Entry>)

  function SideFrom(kind: Kind, header: Option<Json>, values: seq<Json>): ModelSide
    requires |values| == |kind.parts|
  {
    match header
    case None => Absent
    case Some(h) =>
      if GetBool(h, "returned") == Some(true) then Returned(VersionIn(h, 0))
      else match ReadFrom(kind, header, values)
           case None => Deleted(VersionIn(h, 0))
           case Some(entry) => Live(entry, GetBool(h, "legacy") == Some(true))
  }

  function SideOf(store: Store, kind: Kind, tenant: string): ModelSide {
    SideFrom(kind, HeaderOf(store, kind, tenant), PartValues(store, kind, tenant))
  }

  /** A row as the model would hold it. */
  function NormalRow(sp: Spelling, kind: Kind, row: Option<Entry>): Option<Entry> {
    match row
    case None => None
    case Some(e) => Some(Entry(Normalized(sp, kind, e.value), e.version))
  }

  /** The one versioned document both stores stand for, when the model is the store in use. */
  function Current(sp: Spelling, kind: Kind, v: View): Option<Entry> {
    match v.model
    case Live(entry, _) => Some(entry)
    case Deleted(_) => None
    case _ => NormalRow(sp, kind, v.row)
  }

  /** And when account-management is: a live copy in the model goes back before it is asked. */
  function CurrentReturning(sp: Spelling, kind: Kind, v: View): Option<Entry> {
    match v.model
    case Live(entry, _) => Some(entry)
    case _ => NormalRow(sp, kind, v.row)
  }

  /** What a caller is answered: the document, or the row it was just moved from as it stood there. */
  predicate Answers(sp: Spelling, kind: Kind, answer: Option<Entry>, current: Option<Entry>) {
    answer == current || NormalRow(sp, kind, answer) == current
  }

  // ----- the steps of a move into the model

  predicate MovesIn(v: View) {
    (v.model.Absent? || v.model.Returned?) && v.row.Some?
  }

  ghost predicate StorableView(sp: Spelling, kind: Kind, v: View) {
    v.row.Some? ==> Storable(sp, kind, v.row.value.value)
  }

  /** The row is copied, as `held`, and marked as still there. */
  function Copied(v: View, held: Json): View {
    if MovesIn(v) then v.(model := Live(Entry(held, v.row.value.version), true)) else v
  }

  /** The row is dropped. */
  function RowDropped(v: View): View {
    v.(row := None)
  }

  /** The mark is cleared. */
  function MarkCleared(v: View): View {
    match v.model
    case Live(entry, _) => v.(model := Live(entry, false))
    case _ => v
  }

  /**
   Where the move of any row can be left: before it, after any of its steps,
   or done. What the model then holds is the row exactly when that is storable.
   */
  ghost predicate MoveStage(sp: Spelling, kind: Kind, v: View, w: View) {
    || w == v
    || (MovesIn(v) && w.model.Live? &&
        var held := w.model.entry.value;
        var copied := Copied(v, held);
        && (held == Normalized(sp, kind, v.row.value.value) <==> StorableView(sp, kind, v))
        && (w == copied || w == RowDropped(copied) || w == MarkCleared(RowDropped(copied))))
  }

  /** And where it is left when no call fails: nothing of the row is behind. */
  ghost predicate MoveDone(sp: Spelling, kind: Kind, v: View, w: View) {
    MoveStage(sp, kind, v, w) && (MovesIn(v) ==> w.model.Live? && !w.model.legacy && w.row == None)
  }

  /** The document wholly in the model, as a storable row leaves it there. */
  function Settled(sp: Spelling, kind: Kind, v: View): View {
    if MovesIn(v) then MarkCleared(RowDropped(Copied(v, Normalized(sp, kind, v.row.value.value)))) else v
  }

  /**
   A stage a move is left at stands for the same document, at the same
   version, exactly when nothing was copied or the row is storable; moving
   again from there changes nothing more, and no row is read.
   */
  lemma {:induction false} MovePreserves(sp: Spelling, kind: Kind, v: View, w: View)
    requires MoveStage(sp, kind, v, w)
    ensures Current(sp, kind, w) == Current(sp, kind, v) <==> w == v || StorableView(sp, kind, v)
    ensures LiveVersion(Current(sp, kind, w)) == LiveVersion(Current(sp, kind, v))
    ensures w != v ==> forall row :: Settled(sp, kind, w.(row := row)) == w.(row := row)
    ensures w != v ==> forall row :: Current(sp, kind, w.(row := row)) == Current(sp, kind, w)
    ensures MoveDone(sp, kind, v, w) && StorableView(sp, kind, v) ==> w == Settled(sp, kind, v)
  {
    hide Normalized, Storable;
  }

  /** A document that has nothing to move is moved, and one that has is left before its move. */
  lemma {:induction false} NotMoved(sp: Spelling, kind: Kind, v: View)
    ensures MoveStage(sp, kind, v, v) && (!MovesIn(v) ==> MoveDone(sp, kind, v, v))
  {
  }

  /** From its copy on, a move is at one of its stages, and answers the row. */
  lemma {:induction false} CopyStages(sp: Spelling, kind: Kind, v: View, side: ModelSide, w: View)
    requires MovesIn(v) && side.Live? && side.legacy && side.entry.version == v.row.value.version
    requires side.entry.value == Normalized(sp, kind, v.row.value.value) <==> StorableView(sp, kind, v)
    requires var copied := View(side, v.row);
             w in {copied, RowDropped(copied), MarkCleared(RowDropped(copied))}
    ensures MoveStage(sp, kind, v, w) && !MovesIn(w)
    ensures w == MarkCleared(RowDropped(View(side, v.row))) ==> MoveDone(sp, kind, v, w)
    ensures Answers(sp, kind, v.row, Current(sp, kind, v))
  {
    hide Normalized, Storable;
  }

  // ----- writes in the model

  /** The version the next write follows: the header's, 0 without one. */
  function HeaderVersion(m: ModelSide): int {
    match m
    case Absent => 0
    case Live(entry, _) => entry.version
    case Deleted(version) => version
    case Returned(version) => version
  }

  /** What an expected version is compared with: 0 where there is no document. */
  function LiveVersion(current: Option<Entry>): int {
    match current
    case Some(entry) => entry.version
    case None => 0
  }

  /** Once nothing is left to move, the model's side says what the document is and which version is next. */
  lemma {:induction false} SideAfterMove(sp: Spelling, kind: Kind, v: View, w: View)
    requires MoveStage(sp, kind, v, w) && !MovesIn(w)
    ensures HeaderVersion(w.model) == HeaderVersion(Settled(sp, kind, v).model)
    ensures match Current(sp, kind, v)
            case Some(entry) => w.model.Live? && LiveVersion(Current(sp, kind, v)) == entry.version == HeaderVersion(w.model)
            case None => w == v
  {
    hide Normalized, Storable;
  }

  /** A document just written as `version`. */
  function Written(sp: Spelling, kind: Kind, v: View, value: Json, version: int, row: Option<Entry>): View {
    View(Live(Entry(Normalized(sp, kind, value), version), false), row)
  }

  // ----- the move back

  /** A live document goes back whole, into a row that account-management numbers. */
  function MovedBack(v: View, number: int): View {
    match v.model
    case Live(entry, _) => View(Returned(entry.version), Some(Entry(entry.value, number)))
    case _ => v
  }

  /** Where a move back that was not finished is left: before it, or with the row whole and a live copy at the same version. */
  predicate BackStage(v: View, w: View, number: int) {
    || w == v
    || (v.model.Live? && w.model.Live?
        && w.model.entry.version == v.model.entry.version
        && w.row == Some(Entry(v.model.entry.value, number)))
  }

  // ----- the steps on the store

  /** The header of a document carries its tenant, and is deleted when it is returned. */
  predicate Sane(header: Option<Json>, tenant: string) {
    match header
    case None => true
    case Some(h) =>
      && GetStr(h, TENANT) == Some(tenant)
      && GetInt(h, "version").Some?
      && (GetBool(h, "returned") == Some(true) ==> GetBool(h, "deleted") == Some(true))
  }

  lemma {:induction false} SaneWritten(kind: Kind, tenant: string, value: Json, version: int, legacy: bool)
    ensures Sane(Some(HeaderStored(kind, tenant, HeaderPayload(kind, tenant, value, version, legacy))), tenant)
  {
  }

  /** A header with one field set; the port's own field is not written back. */
  function WithField(header: Json, field: string, b: bool): Json {
    Obj(Fields(header)[field := Bool(b)] - {SCOPE})
  }

  /** The header a port stores: what was written, with its scope. */
  function HeaderStored(kind: Kind, tenant: string, payload: Json): Json {
    Scoped(OwnedObject(HeaderId(tenant, kind), tenant, payload))
  }

  /** Setting a field of a header sets that field and no other. */
  lemma {:induction false} FieldSet(kind: Kind, tenant: string, header: Json, field: string, b: bool)
    requires field != SCOPE
    ensures GetBool(HeaderStored(kind, tenant, WithField(header, field, b)), field) == Some(b)
    ensures forall g :: g != field && g != SCOPE ==>
              Get(HeaderStored(kind, tenant, WithField(header, field, b)), g) == Get(header, g)
  {
  }

  lemma {:induction false} FreshHeader(kind: Kind, tenant: string, value: Json, version: int, legacy: bool, values: seq<Json>)
    requires |values| == |kind.parts|
    ensures SideFrom(kind, Some(HeaderStored(kind, tenant, HeaderPayload(kind, tenant, value, version, legacy))), values) ==
            Live(Entry(Obj(Fill(Settings(kind, value), kind.parts, values)), version), legacy)
  {
    hide Fill;
  }

  /**
   What a move does to the store once its copy is complete: the document is
   live at its version, and is the document that was given exactly when that is storable.
   */
  lemma {:induction false} CopyMade(sp: Spelling, store: Store, kind: Kind, tenant: string, value: Json, version: int, legacy: bool)
    requires WellFormed(kind) && Plain(tenant) && Enumerates(sp)
    ensures var side := SideOf(WriteDocument(sp, store, kind, tenant, value, version, legacy), kind, tenant);
            && side.Live? && side.entry.version == version && side.legacy == legacy
            && (side.entry.value == Normalized(sp, kind, value) <==> Storable(sp, kind, value))
  {
    hide Fill, WriteParts, WellFormed, Enumerates, Storable, PartValues;
    var after := WriteDocument(sp, store, kind, tenant, value, version, legacy);
    PartsOfWritten(sp, store, kind, tenant, value, version, legacy);
    HeaderPut(WriteParts(sp, store, kind, tenant, value, |kind.parts|), kind, tenant,
              HeaderPayload(kind, tenant, value, version, legacy));
    FreshHeader(kind, tenant, value, version, legacy, PartValues(after, kind, tenant));
    FillEqual(Settings(kind, value), kind, PartValues(after, kind, tenant), NormalParts(sp, kind, value));
  }

  /**
   The copy a move makes stands for the row it was made from exactly when
   the row is storable, whether the row is still there or dropped.
   */
  lemma {:induction false} MoveExact(sp: Spelling, store: Store, kind: Kind, tenant: string, row: Entry, left: Option<Entry>)
    requires WellFormed(kind) && Plain(tenant) && Enumerates(sp)
    requires MovesIn(View(SideOf(store, kind, tenant), Some(row)))
    ensures var copied := WriteDocument(sp, store, kind, tenant, row.value, row.version, true);
            Current(sp, kind, View(SideOf(copied, kind, tenant), left))
            == Current(sp, kind, View(SideOf(store, kind, tenant), Some(row)))
            <==> Storable(sp, kind, row.value)
  {
    hide SideOf, WriteDocument, Storable, Normalized, WellFormed, Enumerates;
    CopyMade(sp, store, kind, tenant, row.value, row.version, true);
  }

  /** A record with an id, as a document holds it. */
  function Numbered(n: int): Json {
    Obj(map["id" := Str("a"), "n" := Num(n)])
  }

  /**
   Two records with one key: account-management keeps such a document, the
   model does not, so moving it in changes it for good.
   */
  lemma {:induction false} TwinRecords(sp: Spelling, store: Store, kind: Kind, tenant: string, version: int)
    requires WellFormed(kind) && Plain(tenant) && Enumerates(sp)
    requires kind.parts != [] && kind.parts[0].key == ["id"]
    requires SideOf(store, kind, tenant).Absent?
    ensures var row := Entry(Obj(map[kind.parts[0].field := Arr([Numbered(1), Numbered(2)])]), version);
            && !Storable(sp, kind, row.value)
            && Current(sp, kind, View(SideOf(WriteDocument(sp, store, kind, tenant, row.value, version, true), kind, tenant), None))
               != Current(sp, kind, View(SideOf(store, kind, tenant), Some(row)))
  {
    hide SideOf, WriteDocument, WellFormed, Enumerates, Current, KeyOf;
    var row := Entry(Obj(map[kind.parts[0].field := Arr([Numbered(1), Numbered(2)])]), version);
    var records := RecordsOf(sp, kind, row.value, 0);
    KeyById(sp, Numbered(1), kind.parts[0], 0);
    KeyById(sp, Numbered(2), kind.parts[0], 1);
    assert records[0].0 == records[1].0;
    MoveExact(sp, store, kind, tenant, row, None);
  }

  /** The key of a record with an id, in a part keyed by it. */
  lemma {:induction false} KeyById(sp: Spelling, record: Json, part: Part, position: nat)
    requires part.key == ["id"] && GetStr(record, "id") == Some("a")
    ensures KeyOf(sp, record, part, position) == "a"
  {
    var parts := seq(|part.key|, i requires 0 <= i < |part.key| => KeyField(sp, record, part.key[i]));
    assert parts == ["a"];
    assert parts[0] in parts && parts[0] != "-";
  }

  /** Rewriting the header of a document changes only what the header says. */
  lemma {:induction false} HeaderRewritten(store: Store, kind: Kind, tenant: string, payload: Json)
    requires WellFormed(kind) && Plain(tenant) && Consistent(store)
    requires GetStr(payload, TENANT) == Some(tenant)
    ensures var after := PutHeader(store, kind, tenant, payload);
            && Consistent(after) && OnlyDocument(store, after, kind, tenant)
            && HeaderOf(after, kind, tenant) == Some(HeaderStored(kind, tenant, payload))
            && PartValues(after, kind, tenant) == PartValues(store, kind, tenant)
  {
    var after := PutHeader(store, kind, tenant, payload);
    HeaderPut(store, kind, tenant, payload);
    forall p | 0 <= p < |kind.parts|
      ensures PartValue(after, kind.parts[p], tenant) == PartValue(store, kind.parts[p], tenant)
    {
      assert Owned(store, kind.parts[p].entity, tenant);
      HeaderKeeps(store, kind, tenant, payload, kind.parts[p].entity, tenant);
      SameItemsSameValue(store, after, kind.parts[p], tenant);
    }
    HeaderObject(kind, tenant, payload);
    PutConsistent(store, HEADER, tenant, [OwnedObject(HeaderId(tenant, kind), tenant, payload)]);
    PutElsewhereThanHeader(store, kind, tenant, payload);
  }

  lemma {:induction false} PutElsewhereThanHeader(store: Store, kind: Kind, tenant: string, payload: Json)
    ensures forall id :: id != HeaderId(tenant, kind) ==>
              && (id in PutHeader(store, kind, tenant, payload) <==> id in store)
              && (id in store ==> PutHeader(store, kind, tenant, payload)[id] == store[id])
  {
    forall id | id != HeaderId(tenant, kind)
      ensures id in PutHeader(store, kind, tenant, payload) <==> id in store
      ensures id in store ==> PutHeader(store, kind, tenant, payload)[id] == store[id]
    {
      PutElsewhere(store, HEADER, [OwnedObject(HeaderId(tenant, kind), tenant, payload)], id);
    }
  }

  /** Clearing the mark on a document's header. */
  lemma {:induction false} MarkClearedOnHeader(kind: Kind, tenant: string, header: Json, values: seq<Json>)
    requires |values| == |kind.parts|
    ensures SideFrom(kind, Some(HeaderStored(kind, tenant, WithField(header, "legacy", false))), values) ==
            MarkCleared(View(SideFrom(kind, Some(header), values), None)).model
  {
    FieldSet(kind, tenant, header, "legacy", false);
  }

  /** Marking a header deleted. */
  lemma {:induction false} MarkedDeleted(kind: Kind, tenant: string, header: Json, values: seq<Json>)
    requires |values| == |kind.parts| && GetBool(header, "returned") != Some(true)
    ensures SideFrom(kind, Some(HeaderStored(kind, tenant, WithField(header, "deleted", true))), values) ==
            Deleted(VersionIn(header, 0))
  {
    FieldSet(kind, tenant, header, "deleted", true);
  }

  /** Marking a header deleted and returned. */
  lemma {:induction false} MarkedReturned(kind: Kind, tenant: string, header: Json, values: seq<Json>)
    requires |values| == |kind.parts|
    ensures SideFrom(kind, Some(HeaderStored(kind, tenant, WithField(WithField(header, "deleted", true), "returned", true))), values) ==
            Returned(VersionIn(header, 0))
  {
  }

  lemma {:induction false} SaneField(kind: Kind, tenant: string, header: Json, field: string, b: bool)
    requires Sane(Some(header), tenant) && field in {"legacy", "deleted"} && (field == "deleted" ==> b)
    ensures Sane(Some(HeaderStored(kind, tenant, WithField(header, field, b))), tenant)
    ensures GetStr(WithField(header, field, b), TENANT) == Some(tenant)
  {
  }

  lemma {:induction false} SaneReturned(kind: Kind, tenant: string, header: Json)
    requires Sane(Some(header), tenant)
    ensures var payload := WithField(WithField(header, "deleted", true), "returned", true);
            Sane(Some(HeaderStored(kind, tenant, payload)), tenant) && GetStr(payload, TENANT) == Some(tenant)
  {
  }

  /** A header that is not read as live says the same whatever its parts are. */
  lemma {:induction false} PartsDoNotMatter(kind: Kind, header: Option<Json>, values: seq<Json>, values': seq<Json>)
    requires |values| == |values'| == |kind.parts| && !SideFrom(kind, header, values).Live?
    ensures SideFrom(kind, header, values') == SideFrom(kind, header, values)
  {
  }

  /** A failed copy changes only items: the model still says what it said, unless it was live. */
  lemma {:induction false} CopyUnmade(store: Store, store': Store, kind: Kind, tenant: string)
    requires WellFormed(kind) && Plain(tenant) && OnlyItems(store, store', kind, tenant)
    requires !SideOf(store, kind, tenant).Live?
    ensures SideOf(store', kind, tenant) == SideOf(store, kind, tenant)
  {
    HeaderIsNoItem(kind, tenant);
    PartsDoNotMatter(kind, HeaderOf(store, kind, tenant), PartValues(store, kind, tenant), PartValues(store', kind, tenant));
  }

  /** Items alone do not make a live document any less live, nor change its version. */
  lemma {:induction false} TornIsLive(store: Store, store': Store, kind: Kind, tenant: string)
    requires WellFormed(kind) && Plain(tenant) && OnlyItems(store, store', kind, tenant)
    requires SideOf(store, kind, tenant).Live?
    ensures SideOf(store', kind, tenant).Live?
    ensures SideOf(store', kind, tenant).entry.version == SideOf(store, kind, tenant).entry.version
  {
    HeaderIsNoItem(kind, tenant);
  }

  /** A live document's header, marked deleted and returned. */
  lemma {:induction false} HeaderReturned(store: Store, kind: Kind, tenant: string, header: Json)
    requires WellFormed(kind) && Plain(tenant) && Consistent(store) && Sane(Some(header), tenant)
    requires HeaderOf(store, kind, tenant) == Some(header)
    ensures var payload := WithField(WithField(header, "deleted", true), "returned", true);
            var after := PutHeader(store, kind, tenant, payload);
            && OnlyDocument(store, after, kind, tenant)
            && Sane(HeaderOf(after, kind, tenant), tenant)
            && SideOf(after, kind, tenant) == Returned(VersionIn(header, 1))
            && forall p :: 0 <= p < |kind.parts| ==>
                 Matching(after, kind.parts[p].entity, tenant) == Matching(store, kind.parts[p].entity, tenant)
  {
    var payload := WithField(WithField(header, "deleted", true), "returned", true);
    SaneReturned(kind, tenant, header);
    HeaderRewritten(store, kind, tenant, payload);
    MarkedReturned(kind, tenant, header, PartValues(store, kind, tenant));
    forall p | 0 <= p < |kind.parts|
      ensures SameItems(store, PutHeader(store, kind, tenant, payload), kind.parts[p].entity, tenant)
    {
      assert Owned(store, kind.parts[p].entity, tenant);
      HeaderKeeps(store, kind, tenant, payload, kind.parts[p].entity, tenant);
    }
  }

  /** A document that can be read is live, at the version of its header. */
  lemma {:induction false} ReadIsLive(store: Store, kind: Kind, tenant: string)
    requires Sane(HeaderOf(store, kind, tenant), tenant)
    ensures match ReadDocument(store, kind, tenant)
            case Some(entry) =>
              && SideOf(store, kind, tenant).Live? && SideOf(store, kind, tenant).entry == entry
              && HeaderOf(store, kind, tenant).Some? && VersionIn(HeaderOf(store, kind, tenant).value, 1) == entry.version
            case None => !SideOf(store, kind, tenant).Live?
  {
  }

  /** What a header says of its version, whatever it says else. */
  lemma {:induction false} HeaderVersionIs(store: Store, kind: Kind, tenant: string)
    requires Sane(HeaderOf(store, kind, tenant), tenant)
    ensures HeaderVersion(SideOf(store, kind, tenant)) ==
            match HeaderOf(store, kind, tenant) case Some(h) => VersionIn(h, 0) case None => 0
  {
  }

  /** A delete left between its two writes: the document is there, and empty; only the mark makes it gone. */
  lemma {:induction false} HalfDeleted(sp: Spelling, store: Store, kind: Kind, tenant: string, version: int, row: Option<Entry>)
    requires WellFormed(kind) && Plain(tenant) && Enumerates(sp)
    ensures var half := WriteDocument(sp, store, kind, tenant, Obj(map[]), version, false);
            && Current(sp, kind, View(SideOf(half, kind, tenant), row)) == Some(Entry(Normalized(sp, kind, Obj(map[])), version))
            && HeaderOf(half, kind, tenant).Some?
            && Current(sp, kind, View(SideFrom(kind, Some(HeaderStored(kind, tenant, WithField(HeaderOf(half, kind, tenant).value, "deleted", true))),
                                               PartValues(half, kind, tenant)), row)) == None
  {
    hide Normalized, WellFormed, Enumerates;
    EmptyStorable(sp, kind);
    CopyMade(sp, store, kind, tenant, Obj(map[]), version, false);
    var half := WriteDocument(sp, store, kind, tenant, Obj(map[]), version, false);
    var header := HeaderOf(half, kind, tenant).value;
    MarkedDeleted(kind, tenant, header, PartValues(half, kind, tenant));
  }

  // ----- a move back that stops

  /** The records of the first `n` parts, taken out. */
  function TakenOut(store: Store, kind: Kind, tenant: string, n: nat): Store
    requires n <= |kind.parts|
  {
    if n == 0 then store
    else
      var before := TakenOut(store, kind, tenant, n - 1);
      Remove(before, Matching(before, kind.parts[n - 1].entity, tenant))
  }

  lemma {:induction false} TakenOutItems(store: Store, kind: Kind, tenant: string, n: nat)
    requires Consistent(store) && n <= |kind.parts|
    ensures OnlyItems(store, TakenOut(store, kind, tenant, n), kind, tenant)
  {
    if n > 0 {
      var before := TakenOut(store, kind, tenant, n - 1);
      TakenOutItems(store, kind, tenant, n - 1);
      RemovesOnlyItems(before, kind, tenant, n - 1, Matching(before, kind.parts[n - 1].entity, tenant));
      OnlyItemsThen(store, before, TakenOut(store, kind, tenant, n), kind, tenant);
    }
  }

  /** Parts taken out are empty; the others are as they were. */
  lemma {:induction false} TakenOutPart(store: Store, kind: Kind, tenant: string, n: nat, p: nat)
    requires WellFormed(kind) && n <= |kind.parts| && p < |kind.parts|
    ensures var after := TakenOut(store, kind, tenant, n);
            if p < n then Matching(after, kind.parts[p].entity, tenant) == {}
            else SameItems(store, after, kind.parts[p].entity, tenant)
  {
    if n > 0 {
      TakenOutPart(store, kind, tenant, n - 1, p);
      assert p != n - 1 ==> kind.parts[p].entity != kind.parts[n - 1].entity;
    }
  }

  lemma {:induction false} GatheredNothing(part: Part, records: seq<Record>)
    ensures Gathered(part, records) == Gathered(part, []) <==> records == []
  {
    if records != [] {
      if part.key == [] {
        assert records[0] in records && records[0].0 in Gathered(part, records).fields;
        assert records[0].0 !in Gathered(part, []).fields;
      } else {
        assert |Gathered(part, records).items| == |records| && |Gathered(part, []).items| == 0;
      }
    }
  }

  lemma {:induction false} TakenOutValue(store: Store, kind: Kind, tenant: string, n: nat, p: nat)
    requires WellFormed(kind) && n <= |kind.parts| && p < |kind.parts|
    ensures PartValue(TakenOut(store, kind, tenant, n), kind.parts[p], tenant) == PartValue(store, kind.parts[p], tenant)
            <==> p >= n || Matching(store, kind.parts[p].entity, tenant) == {}
  {
    hide WellFormed, Listing, Gathered, TakenOut;
    TakenOutPart(store, kind, tenant, n, p);
    if p < n {
      GatheredNothing(kind.parts[p], StoredRecords(store, kind.parts[p], tenant));
      assert StoredRecords(TakenOut(store, kind, tenant, n), kind.parts[p], tenant) == [];
      var matching := Matching(store, kind.parts[p].entity, tenant);
      assert |matching| == 0 <==> matching == {};
    } else {
      SameItemsSameValue(store, TakenOut(store, kind, tenant, n), kind.parts[p], tenant);
    }
  }

  /**
   A move back that stopped after taking out `n` parts leaves a live copy, at
   the same version, which is what a later try writes over the row. It is the
   document that was there exactly when the parts taken out were empty.
   */
  lemma {:induction false} StoppedMoveBack(store: Store, kind: Kind, tenant: string, n: nat)
    requires WellFormed(kind) && Plain(tenant) && Consistent(store) && n <= |kind.parts|
    requires SideOf(store, kind, tenant).Live?
    ensures var torn := SideOf(TakenOut(store, kind, tenant, n), kind, tenant);
            && torn.Live? && torn.entry.version == SideOf(store, kind, tenant).entry.version
            && (torn.entry.value == SideOf(store, kind, tenant).entry.value <==>
                  forall p :: 0 <= p < n ==> Matching(store, kind.parts[p].entity, tenant) == {})
  {
    hide WellFormed, Consistent, PartValue, Fill, TakenOut;
    var after := TakenOut(store, kind, tenant, n);
    TakenOutItems(store, kind, tenant, n);
    HeaderIsNoItem(kind, tenant);
    TornIsLive(store, after, kind, tenant);
    forall p | 0 <= p < |kind.parts|
      ensures PartValues(after, kind, tenant)[p] == PartValues(store, kind, tenant)[p]
              <==> p >= n || Matching(store, kind.parts[p].entity, tenant) == {}
    {
      TakenOutValue(store, kind, tenant, n, p);
    }
    FillEqual(SettingsIn(HeaderOf(store, kind, tenant).value), kind, PartValues(after, kind, tenant), PartValues(store, kind, tenant));
  }

  // ----- a write that stops

  lemma {:induction false} WrittenItems(sp: Spelling, store: Store, kind: Kind, tenant: string, value: Json, n: nat)
    requires Consistent(store) && n <= |kind.parts|
    ensures OnlyItems(store, WriteParts(sp, store, kind, tenant, value, n), kind, tenant)
  {
    hide Consistent, OnlyItems;
    if n == 0 {
      UntouchedItems(store, kind, tenant);
    } else {
      var part, records := kind.parts[n - 1], RecordsOf(sp, kind, value, n - 1);
      var before := WriteParts(sp, store, kind, tenant, value, n - 1);
      var gone := Matching(before, part.entity, tenant) - Kept(part, tenant, records);
      var rest := Remove(before, gone);
      WrittenItems(sp, store, kind, tenant, value, n - 1);
      ItemsConsistent(store, before, kind, tenant);
      RemovesOnlyItems(before, kind, tenant, n - 1, gone);
      ItemsConsistent(before, rest, kind, tenant);
      ItemObjects(part, tenant, records);
      PutsOnlyItems(rest, kind, tenant, n - 1, Objects(part, tenant, records));
      OnlyItemsThen(before, rest, WritePart(before, part, tenant, records), kind, tenant);
      OnlyItemsThen(store, before, WritePart(before, part, tenant, records), kind, tenant);
    }
  }

  lemma {:induction false} UntouchedItems(store: Store, kind: Kind, tenant: string)
    requires Consistent(store)
    ensures OnlyItems(store, store, kind, tenant)
  {
  }

  lemma {:induction false} ItemsConsistent(store: Store, store': Store, kind: Kind, tenant: string)
    requires OnlyItems(store, store', kind, tenant)
    ensures Consistent(store')
  {
  }

  /** A part not yet written is as it was. */
  lemma {:induction false} UnwrittenPart(sp: Spelling, store: Store, kind: Kind, tenant: string, value: Json, n: nat, p: nat)
    requires WellFormed(kind) && Plain(tenant) && n <= p < |kind.parts| && Owned(store, kind.parts[p].entity, tenant)
    ensures Owned(WriteParts(sp, store, kind, tenant, value, n), kind.parts[p].entity, tenant)
    ensures PartValue(WriteParts(sp, store, kind, tenant, value, n), kind.parts[p], tenant) == PartValue(store, kind.parts[p], tenant)
  {
    hide PartValue, WritePart, Owned, RecordsOf;
    if n > 0 {
      var before := WriteParts(sp, store, kind, tenant, value, n - 1);
      var records := RecordsOf(sp, kind, value, n - 1);
      UnwrittenPart(sp, store, kind, tenant, value, n - 1, p);
      PartFrame(before, kind.parts[n - 1], tenant, records, kind.parts[p].entity, tenant);
      SameItemsSameValue(before, WritePart(before, kind.parts[n - 1], tenant, records), kind.parts[p], tenant);
    }
  }

  /** A part already written is the new one. */
  lemma {:induction false} WrittenPartValue(sp: Spelling, store: Store, kind: Kind, tenant: string, value: Json, n: nat, p: nat)
    requires WellFormed(kind) && Plain(tenant) && Enumerates(sp) && Storable(sp, kind, value) && p < n <= |kind.parts|
    ensures PartValue(WriteParts(sp, store, kind, tenant, value, n), kind.parts[p], tenant) == NormalParts(sp, kind, value)[p]
  {
    var part := kind.parts[p];
    JustWrittenOwned(sp, store, kind, tenant, value, p);
    LaterPartsKeep(sp, store, kind, tenant, value, p, n);
    if part.key == [] {
      MapKeysDistinct(sp, part, Get(value, part.field));
    }
    PartRoundTrip(WriteParts(sp, store, kind, tenant, value, p), part, tenant, RecordsOf(sp, kind, value, p));
  }

  /**
   A write of a live document that stopped after `n` parts leaves it live,
   under the old header and version. It reads as it did exactly when the parts
   written were what they are written to be already.
   */
  lemma {:induction false} StoppedWrite(sp: Spelling, store: Store, kind: Kind, tenant: string, value: Json, n: nat)
    requires WellFormed(kind) && Plain(tenant) && Enumerates(sp) && Consistent(store) && Storable(sp, kind, value)
    requires n <= |kind.parts| && SideOf(store, kind, tenant).Live?
    ensures var torn := SideOf(WriteParts(sp, store, kind, tenant, value, n), kind, tenant);
            && torn.Live? && torn.entry.version == SideOf(store, kind, tenant).entry.version
            && (torn.entry.value == SideOf(store, kind, tenant).entry.value <==>
                  forall p :: 0 <= p < n ==> PartValue(store, kind.parts[p], tenant) == NormalParts(sp, kind, value)[p])
  {
    hide WellFormed, Enumerates, Storable, PartValue, Fill, WriteParts;
    var after := WriteParts(sp, store, kind, tenant, value, n);
    WrittenItems(sp, store, kind, tenant, value, n);
    HeaderIsNoItem(kind, tenant);
    TornIsLive(store, after, kind, tenant);
    forall p | 0 <= p < |kind.parts|
      ensures PartValues(after, kind, tenant)[p] == PartValues(store, kind, tenant)[p]
              <==> p >= n || PartValue(store, kind.parts[p], tenant) == NormalParts(sp, kind, value)[p]
    {
      if p < n {
        WrittenPartValue(sp, store, kind, tenant, value, n, p);
      } else {
        assert Owned(store, kind.parts[p].entity, tenant);
        UnwrittenPart(sp, store, kind, tenant, value, n, p);
      }
    }
    FillEqual(SettingsIn(HeaderOf(store, kind, tenant).value), kind, PartValues(after, kind, tenant), PartValues(store, kind, tenant));
  }

  /** What happens to one document leaves what the model says of another. */
  lemma {:induction false} OtherSideSame(store: Store, store': Store, kind: Kind, tenant: string, kind': Kind, tenant': string)
    requires WellFormed(kind) && WellFormed(kind') && Plain(tenant) && Plain(tenant')
    requires Consistent(store) && OnlyDocument(store, store', kind, tenant) && Apart(kind, tenant, kind', tenant')
    ensures SideOf(store', kind', tenant') == SideOf(store, kind', tenant')
    ensures HeaderOf(store', kind', tenant') == HeaderOf(store, kind', tenant')
  {
    OthersUntouched(store, store', kind, tenant, kind', tenant');
  }

  lemma {:induction false} EmptyStorable(sp: Spelling, kind: Kind)
    ensures Storable(sp, kind, Obj(map[]))
  {
  }
}
