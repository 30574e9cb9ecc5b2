/**
 The client through which tenant documents are read, written and deleted,
 whichever store they are in: its state, and its methods step by step. Any
 call to the model or to account-management may fail, and a crash is a run of
 failures to the end, so what a method ensures without asking for success
 holds at every point it may die.
 */
module ModelMetadata {
  import opened Prelude
  import opened Json
  import opened ObjectPort
  import opened TenantDocument
  import opened Migration
  import opened VersionClaims
  import StoreSwitching

  datatype Error = NotFound | VersionMismatch | Internal

  /** How many objects one write to the port holds. */
  const CHUNK := 500

  type DocKey = (string, string)

  datatype DocRef = DocRef(kind: Kind, tenant: string)

  ghost predicate ReadyIn(sp: Spelling, store: Store, kind: Kind, tenant: string) {
    && Enumerates(sp) && WellFormed(kind) && Plain(tenant)
    && Consistent(store) && Sane(HeaderOf(store, kind, tenant), tenant)
  }

  /** The model with an empty document as `version`. */
  function EmptyLive(sp: Spelling, kind: Kind, version: int): ModelSide {
    Live(Entry(Normalized(sp, kind, Obj(map[])), version), false)
  }

  /** Where a delete can be left: moving the document in, with its records torn, empty, or deleted. */
  ghost predicate DeleteStage(sp: Spelling, kind: Kind, v: View, w: View) {
    var version := HeaderVersion(Settled(sp, kind, v).model);
    || MoveStage(sp, kind, v, w)
    || (w.model.Live? && w.model.entry.version == version)
    || w.model == EmptyLive(sp, kind, version + 1)
    || w.model == Deleted(version + 1)
  }

  /** Documents that share no object and no row. */
  ghost predicate AllApart(docs: seq<DocRef>) {
    forall i, j :: 0 <= i < |docs| && 0 <= j < |docs| && i != j ==>
      && Apart(docs[i].kind, docs[i].tenant, docs[j].kind, docs[j].tenant)
      && (docs[i].tenant, docs[i].kind.typeId) != (docs[j].tenant, docs[j].kind.typeId)
  }

  /** The tenants a walk up from `at` can meet. */
  function Known(parents: map<string, string>, at: string): set<string> {
    {at} + parents.Values
  }

  /** A tenant and its ancestors, nearest first, up to one already seen or one whose parent is not known. */
  function Ancestry(parents: map<string, string>, at: Option<string>, seen: set<string>): seq<string>
    decreases parents.Values + (if at.Some? then {at.value} else {}) - seen
  {
    if at.None? || at.value in seen then []
    else [at.value] + Ancestry(parents, Above(parents, at.value), seen + {at.value})
  }

  lemma {:induction false} AncestryDistinct(parents: map<string, string>, at: Option<string>, seen: set<string>)
    ensures Distinct(Ancestry(parents, at, seen))
    ensures forall t :: t in Ancestry(parents, at, seen) ==> t !in seen
    decreases parents.Values + (if at.Some? then {at.value} else {}) - seen
  {
    if at.Some? && at.value !in seen {
      AncestryDistinct(parents, Above(parents, at.value), seen + {at.value});
    }
  }

  function Above(parents: map<string, string>, tenant: string): Option<string> {
    if tenant in parents then Some(parents[tenant]) else None
  }

  /** A step up the chain. */
  lemma {:induction false} StepsUp(kind: Kind, parents: map<string, string>, tenant: string, at: string, seen: set<string>, i: nat)
    requires i <= |Inherited(kind, parents, tenant)|
    requires OnTenants(kind, Ancestry(parents, Some(at), seen)) == Inherited(kind, parents, tenant)[i..] && at !in seen
    ensures var docs := Inherited(kind, parents, tenant);
            && i < |docs| && docs[i] == DocRef(kind, at)
            && OnTenants(kind, Ancestry(parents, Above(parents, at), seen + {at})) == docs[i + 1..]
  {
  }

  lemma {:induction false} ChainApart(kind: Kind, parents: map<string, string>, tenant: string)
    ensures AllApart(Inherited(kind, parents, tenant))
  {
    AncestryDistinct(parents, Some(tenant), {});
  }

  function OnTenants(kind: Kind, tenants: seq<string>): (docs: seq<DocRef>)
    ensures |docs| == |tenants|
  {
    seq(|tenants|, i requires 0 <= i < |tenants| => DocRef(kind, tenants[i]))
  }

  /** The documents a tenant may inherit, nearest first. */
  function Inherited(kind: Kind, parents: map<string, string>, tenant: string): seq<DocRef> {
    OnTenants(kind, Ancestry(parents, Some(tenant), {}))
  }

  /** What the move of a document answers and leaves, whatever its row is. */
  ghost predicate MovedTo(sp: Spelling, kind: Kind, reliable: bool, v: View, w: View, r: Result<Option<Entry>, Error>) {
    && MoveStage(sp, kind, v, w)
    && (r.Ok? ==> Answers(sp, kind, r.value, Current(sp, kind, v)) && !MovesIn(w))
    && (r.Err? || r.value.None? ==> w == v)
    && (reliable ==> r.Ok? && MoveDone(sp, kind, v, w))
  }

  /** The first `n` documents are not there. */
  predicate NoneBefore(sp: Spelling, kind: Kind, views: seq<View>, n: nat)
    requires n <= |views|
  {
    forall j :: 0 <= j < n ==> Current(sp, kind, views[j]) == None
  }

  /** The nearest document was answered, and that one alone may have moved in. */
  ghost predicate ResolvedAt(sp: Spelling, kind: Kind, reliable: bool, views: seq<View>, views': seq<View>,
                             r: Result<Option<Entry>, Error>, i: nat) {
    && i < |views| == |views'|
    && NoneBefore(sp, kind, views, i)
    && views' == views[i := views'[i]]
    && MovedTo(sp, kind, reliable, views[i], views'[i], r)
  }

  ghost predicate Resolved(sp: Spelling, kind: Kind, reliable: bool, views: seq<View>, views': seq<View>,
                           r: Result<Option<Entry>, Error>) {
    match r
    case Err(_) => views' == views && !reliable
    case Ok(None) => views' == views && Nearest(sp, kind, views) == None
    case Ok(Some(entry)) =>
      && Answers(sp, kind, r.value, Nearest(sp, kind, views))
      && exists i :: ResolvedAt(sp, kind, reliable, views, views', r, i)
  }

  /** The walk ends with a document, or fails. */
  lemma {:induction false} WalkEnds(sp: Spelling, kind: Kind, reliable: bool, views: seq<View>, w: View, r: Result<Option<Entry>, Error>, i: nat)
    requires i < |views| && NoneBefore(sp, kind, views, i) && MovedTo(sp, kind, reliable, views[i], w, r)
    requires r.Err? || r.value.Some?
    ensures Resolved(sp, kind, reliable, views, views[i := w], r)
  {
    hide Current, MoveStage, MoveDone;
    NearestAt(sp, kind, views, i);
    if r.Ok? {
      AnswersSomething(sp, kind, r.value, Current(sp, kind, views[i]));
      assert views[i := w] == views[i := views[i := w][i]];
      assert ResolvedAt(sp, kind, reliable, views, views[i := w], r, i);
    }
  }

  lemma {:induction false} AnswersSomething(sp: Spelling, kind: Kind, answer: Option<Entry>, current: Option<Entry>)
    requires Answers(sp, kind, answer, current)
    ensures answer.None? <==> current.None?
  {
  }

  /** Or passes one that is not there, which had nothing to move. */
  lemma {:induction false} WalkPasses(sp: Spelling, kind: Kind, reliable: bool, views: seq<View>, w: View, i: nat)
    requires i < |views| && NoneBefore(sp, kind, views, i) && MovedTo(sp, kind, reliable, views[i], w, Ok(None))
    ensures w == views[i] && NoneBefore(sp, kind, views, i + 1)
  {
    AnswersSomething(sp, kind, None, Current(sp, kind, views[i]));
  }

  /**
   What a first touch leaves of a document: a stage of its move in; or of its
   move back, which is finished exactly when it is not tried again. With no
   failure either is done.
   */
  ghost predicate TouchStage(sp: Spelling, kind: Kind, reliable: bool, d: StoreSwitching.Doc, d': StoreSwitching.Doc) {
    && d'.returning == d.returning
    && (!d.returning ==>
          && d'.back == d.back && MoveStage(sp, kind, d.view, d'.view)
          && (reliable ==> MoveDone(sp, kind, d.view, d'.view)))
    && (d.returning && d.back ==> d' == d)
    && (d.returning && !d.back ==>
          exists number :: if d'.back then d'.view == MovedBack(d.view, number) else BackStage(d.view, d'.view, number))
    && (d.returning && reliable ==> d'.back)
  }

  /** Touched without a failure, a document is where it should be, under either strategy. */
  lemma {:induction false} TouchDone(sp: Spelling, kind: Kind, d: StoreSwitching.Doc, d': StoreSwitching.Doc)
    requires TouchStage(sp, kind, true, d, d') && (d.returning || StorableView(sp, kind, d.view))
    ensures exists number :: d' == StoreSwitching.Touched(sp, kind, d, number)
  {
    hide Normalized, Storable;
    if !d.returning {
      MovePreserves(sp, kind, d.view, d'.view);
      assert d' == StoreSwitching.Touched(sp, kind, d, 0);
    } else if d.back {
      assert d' == StoreSwitching.Touched(sp, kind, d, 0);
    } else {
      var number :| d'.view == MovedBack(d.view, number);
      assert d' == StoreSwitching.Touched(sp, kind, d, number);
    }
  }

  /** The first `n` documents were touched, and the rest stand as they stood. */
  ghost predicate TouchedFirst(sp: Spelling, docs: seq<DocRef>, reliable: bool,
                               before: seq<StoreSwitching.Doc>, after: seq<StoreSwitching.Doc>, n: nat) {
    && n <= |docs| == |before| == |after|
    && (forall j :: 0 <= j < n ==> TouchStage(sp, docs[j].kind, reliable, before[j], after[j]))
    && (forall j :: n <= j < |docs| ==> after[j] == before[j])
  }

  lemma {:induction false} TouchedNone(sp: Spelling, docs: seq<DocRef>, reliable: bool, before: seq<StoreSwitching.Doc>)
    requires |docs| == |before|
    ensures TouchedFirst(sp, docs, reliable, before, before, 0)
  {
  }

  lemma {:induction false} TouchedNext(sp: Spelling, docs: seq<DocRef>, reliable: bool,
                                       before: seq<StoreSwitching.Doc>, after: seq<StoreSwitching.Doc>, n: nat, d: StoreSwitching.Doc)
    requires n < |docs| && TouchedFirst(sp, docs, reliable, before, after, n)
    requires TouchStage(sp, docs[n].kind, reliable, after[n], d)
    ensures TouchedFirst(sp, docs, reliable, before, after[n := d], n + 1)
  {
    hide TouchStage;
  }

  /** The documents of one tenant. */
  function OfTenant(kinds: seq<Kind>, tenant: string): (docs: seq<DocRef>)
    ensures |docs| == |kinds|
  {
    seq(|kinds|, i requires 0 <= i < |kinds| => DocRef(kinds[i], tenant))
  }

  /** The first document there is. */
  function Nearest(sp: Spelling, kind: Kind, views: seq<View>): Option<Entry> {
    if views == [] then None
    else if Current(sp, kind, views[0]).Some? then Current(sp, kind, views[0])
    else Nearest(sp, kind, views[1..])
  }

  lemma {:induction false} NearestAt(sp: Spelling, kind: Kind, views: seq<View>, i: nat)
    requires i <= |views| && forall j :: 0 <= j < i ==> Current(sp, kind, views[j]) == None
    ensures Nearest(sp, kind, views) == Nearest(sp, kind, views[i..])
    ensures i < |views| && Current(sp, kind, views[i]).Some? ==> Nearest(sp, kind, views) == Current(sp, kind, views[i])
  {
    if i > 0 {
      NearestAt(sp, kind, views[1..], i - 1);
      assert views[1..][i - 1..] == views[i..];
    } else {
      assert views[0..] == views;
    }
  }

  class Client {
    const sp: Spelling
    /** No call fails. */
    const reliable: bool

    /** The model's objects. */
    var store: Store
    /** Account-management's rows, by tenant and type. */
    var rows: map<DocKey, Entry>
    /** The version claims, by document. */
    var claims: map<DocKey, map<int, Claim>>
    /** Account-management is the store in use, and not the model. */
    var returning: bool
    /** Which documents this process has no more to move back. */
    var returned: set<DocKey>

    constructor (sp: Spelling, reliable: bool, store: Store, rows: map<DocKey, Entry>,
                 claims: map<DocKey, map<int, Claim>>, returning: bool)
      ensures this.sp == sp && this.reliable == reliable && this.store == store && this.rows == rows
      ensures this.claims == claims && this.returning == returning && this.returned == {}
    {
      this.sp, this.reliable, this.store, this.rows := sp, reliable, store, rows;
      this.claims, this.returning, this.returned := claims, returning, {};
    }

    function Key(kind: Kind, tenant: string): DocKey {
      (tenant, kind.typeId)
    }

    function RowOf(kind: Kind, tenant: string): Option<Entry>
      reads this`rows
    {
      if Key(kind, tenant) in rows then Some(rows[Key(kind, tenant)]) else None
    }

    function ViewOf(kind: Kind, tenant: string): View
      reads this`store, this`rows
    {
      View(SideOf(store, kind, tenant), RowOf(kind, tenant))
    }

    /** Work on one document leaves another. */
    lemma {:induction false} OtherSame(before: Store, rowsBefore: map<DocKey, Entry>, doc: DocRef, other: DocRef)
      requires ReadyIn(sp, before, doc.kind, doc.tenant) && ReadyIn(sp, before, other.kind, other.tenant)
      requires OnlyDocument(before, store, doc.kind, doc.tenant)
      requires rows - {Key(doc.kind, doc.tenant)} == rowsBefore - {Key(doc.kind, doc.tenant)}
      requires Apart(doc.kind, doc.tenant, other.kind, other.tenant)
      requires Key(doc.kind, doc.tenant) != Key(other.kind, other.tenant)
      ensures Ready(other.kind, other.tenant)
      ensures SideOf(store, other.kind, other.tenant) == SideOf(before, other.kind, other.tenant)
      ensures var key := Key(other.kind, other.tenant);
              (key in rows <==> key in rowsBefore) && (key in rows ==> rows[key] == rowsBefore[key])
    {
      OtherSideSame(before, store, doc.kind, doc.tenant, other.kind, other.tenant);
      var key := Key(other.kind, other.tenant);
      assert key in rows <==> key in rows - {Key(doc.kind, doc.tenant)};
      assert key in rows ==> rows[key] == (rows - {Key(doc.kind, doc.tenant)})[key];
    }

    /** What both stores hold of several documents. */
    function ViewsOf(docs: seq<DocRef>): (views: seq<View>)
      reads this`store, this`rows
      ensures |views| == |docs|
      ensures forall i :: 0 <= i < |docs| ==> views[i] == ViewOf(docs[i].kind, docs[i].tenant)
    {
      if docs == [] then [] else ViewsOf(docs[..|docs| - 1]) + [ViewOf(docs[|docs| - 1].kind, docs[|docs| - 1].tenant)]
    }

    /** The document under the strategy in use. */
    function DocOf(kind: Kind, tenant: string): StoreSwitching.Doc
      reads this`store, this`rows, this`returning, this`returned
    {
      StoreSwitching.Doc(ViewOf(kind, tenant), returning, Key(kind, tenant) in returned)
    }

    function DocsOf(docs: seq<DocRef>): (all: seq<StoreSwitching.Doc>)
      reads this`store, this`rows, this`returning, this`returned
      ensures |all| == |docs|
      ensures forall i :: 0 <= i < |docs| ==> all[i] == DocOf(docs[i].kind, docs[i].tenant)
    {
      if docs == [] then [] else DocsOf(docs[..|docs| - 1]) + [DocOf(docs[|docs| - 1].kind, docs[|docs| - 1].tenant)]
    }

    /** The model still holds a copy that the next touch writes over account-management's row. */
    predicate StaleCopy(kind: Kind, tenant: string)
      reads this`store, this`returning, this`returned
    {
      returning && Key(kind, tenant) !in returned && SideOf(store, kind, tenant).Live?
    }

    ghost predicate Ready(kind: Kind, tenant: string)
      reads this`store
    {
      ReadyIn(sp, store, kind, tenant)
    }

    // ----- the port

    method PutObjects(entity: string, objects: seq<OwnedObject>) returns (ok: bool)
      modifies this`store
      ensures store == if ok then Put(old(store), entity, objects) else old(store)
      ensures reliable ==> ok
    {
      ok := *;
      ok := ok || reliable;
      if ok {
        store := Put(store, entity, objects);
      }
    }

    method RemoveObjects(ids: set<string>) returns (ok: bool)
      modifies this`store
      ensures store == if ok then Remove(old(store), ids) else old(store)
      ensures reliable ==> ok
    {
      ok := *;
      ok := ok || reliable;
      if ok {
        store := Remove(store, ids);
      }
    }

    method QueryItems(entity: string, tenant: string) returns (r: Result<seq<string>, Error>)
      ensures r.Ok? ==> r.value == Listing(store, Matching(store, entity, tenant))
      ensures r.Err? ==> r.error == Internal
      ensures reliable ==> r.Ok?
    {
      var ok: bool := *;
      if ok || reliable {
        r := Ok(Listing(store, Matching(store, entity, tenant)));
      } else {
        r := Err(Internal);
      }
    }

    method Header(kind: Kind, tenant: string) returns (r: Result<Option<Json>, Error>)
      ensures r.Ok? ==> r.value == HeaderOf(store, kind, tenant)
      ensures r.Err? ==> r.error == Internal
      ensures reliable ==> r.Ok?
    {
      var ok: bool := *;
      if ok || reliable {
        r := Ok(HeaderOf(store, kind, tenant));
      } else {
        r := Err(Internal);
      }
    }

    // ----- account-management

    method AmGet(kind: Kind, tenant: string) returns (r: Result<Entry, Error>)
      ensures r.Ok? ==> RowOf(kind, tenant) == Some(r.value)
      ensures r == Err(NotFound) ==> RowOf(kind, tenant) == None
      ensures reliable ==> r.Ok? || r == Err(NotFound)
      ensures r.Err? ==> r.error == NotFound || r.error == Internal
    {
      var ok: bool := *;
      if ok || reliable {
        r := match RowOf(kind, tenant) case Some(row) => Ok(row) case None => Err(NotFound);
      } else {
        r := Err(Internal);
      }
    }

    /** Account-management checks an expected version, and numbers its own rows. */
    method AmUpsert(kind: Kind, tenant: string, value: Json, expected: Option<int>) returns (r: Result<Entry, Error>)
      modifies this`rows
      ensures r.Ok? ==> r.value.value == value && rows == old(rows)[Key(kind, tenant) := r.value]
      ensures r.Err? ==> rows == old(rows)
      ensures r.Ok? ==> expected.Some? ==> expected.value == LiveVersion(old(RowOf(kind, tenant)))
      ensures reliable && r.Err? ==> r.error == VersionMismatch
      ensures reliable && (expected.Some? ==> expected.value == LiveVersion(old(RowOf(kind, tenant)))) ==> r.Ok?
    {
      var ok: bool := *;
      if expected.Some? && expected.value != LiveVersion(RowOf(kind, tenant)) {
        r := Err(VersionMismatch);
      } else if ok || reliable {
        var version: int :| version > 0;
        r := Ok(Entry(value, version));
        rows := rows[Key(kind, tenant) := r.value];
      } else {
        r := Err(Internal);
      }
    }

    method AmDelete(kind: Kind, tenant: string) returns (r: Result<(), Error>)
      modifies this`rows
      ensures r.Ok? ==> rows == old(rows) - {Key(kind, tenant)}
      ensures r.Err? ==> rows == old(rows)
      ensures r == Err(NotFound) ==> RowOf(kind, tenant) == None
      ensures r.Ok? ==> old(RowOf(kind, tenant)).Some?
      ensures reliable ==> r.Ok? || r == Err(NotFound)
    {
      var ok: bool := *;
      if ok || reliable {
        if Key(kind, tenant) in rows {
          rows := rows - {Key(kind, tenant)};
          r := Ok(());
        } else {
          r := Err(NotFound);
        }
      } else {
        r := Err(Internal);
      }
    }

    // ----- a document in the model

    method Split(kind: Kind, value: Json) returns (settings: map<string, Json>, parts: seq<seq<Record>>)
      requires WellFormed(kind)
      ensures settings == Settings(kind, value) && |parts| == |kind.parts|
      ensures forall p :: 0 <= p < |parts| ==> parts[p] == RecordsOf(sp, kind, value, p)
    {
      settings, parts := Fields(value), [];
      for i := 0 to |kind.parts|
        invariant settings == Fields(value) - (set p | p in kind.parts[..i] :: p.field)
        invariant |parts| == i && forall p :: 0 <= p < i ==> parts[p] == RecordsOf(sp, kind, value, p)
      {
        var part := kind.parts[i];
        var field := if part.field in settings then Some(settings[part.field]) else None;
        assert field == Get(value, part.field);
        settings := settings - {part.field};
        parts := parts + [Records(sp, part, field)];
        assert kind.parts[..i + 1] == kind.parts[..i] + [part];
      }
      assert kind.parts[..|kind.parts|] == kind.parts;
    }

    /** One part of the document, its records in order without what they are stored with. */
    method ReadPart(part: Part, tenant: string) returns (r: Result<Json, Error>)
      ensures r.Ok? ==> r.value == PartValue(store, part, tenant)
      ensures r.Err? ==> r.error == Internal
      ensures reliable ==> r.Ok?
    {
      var items := QueryItems(part.entity, tenant);
      if items.Err? {
        return Err(items.error);
      }
      r := Ok(Gathered(part, RecordsAt(store, items.value)));
    }

    /** A document put together from its header and its parts, if the model has it. */
    method Read(kind: Kind, tenant: string) returns (r: Result<Option<Entry>, Error>)
      ensures r.Ok? ==> r.value == ReadDocument(store, kind, tenant)
      ensures r.Err? ==> r.error == Internal
      ensures reliable ==> r.Ok?
    {
      var found := Header(kind, tenant);
      if found.Err? {
        return Err(found.error);
      }
      if found.value.None? || GetBool(found.value.value, "deleted") == Some(true) {
        return Ok(None);
      }
      var doc := SettingsIn(found.value.value);
      ghost var values := PartValues(store, kind, tenant);
      for i := 0 to |kind.parts|
        invariant doc == Fill(SettingsIn(found.value.value), kind.parts[..i], values[..i])
      {
        var value := ReadPart(kind.parts[i], tenant);
        if value.Err? {
          return Err(value.error);
        }
        FillNext(SettingsIn(found.value.value), kind.parts, values, i);
        doc := doc[kind.parts[i].field := value.value];
      }
      assert kind.parts[..|kind.parts|] == kind.parts && values[..|kind.parts|] == values;
      r := Ok(Some(Entry(Obj(doc), VersionIn(found.value.value, 1))));
    }

    /** Removes the records of a part that are not kept. */
    method RemoveGone(kind: Kind, p: nat, tenant: string, keep: set<string>) returns (ok: bool)
      requires p < |kind.parts| && Consistent(store)
      modifies this`store
      ensures store == if ok then Remove(old(store), Matching(old(store), kind.parts[p].entity, tenant) - keep) else old(store)
      ensures OnlyItems(old(store), store, kind, tenant)
      ensures reliable ==> ok
    {
      var existing := QueryItems(kind.parts[p].entity, tenant);
      if existing.Err? {
        return false;
      }
      var gone := AsSet(existing.value) - keep;
      ListingSet(store, Matching(store, kind.parts[p].entity, tenant));
      RemovesOnlyItems(store, kind, tenant, p, gone);
      ok := true;
      if gone != {} {
        ok := RemoveObjects(gone);
      }
    }

    /** Puts the objects of a part, a chunk at a time. */
    method PutChunks(kind: Kind, p: nat, tenant: string, objects: seq<OwnedObject>) returns (ok: bool)
      requires p < |kind.parts| && Consistent(store) && AllOf(objects, kind.parts[p].entity, tenant)
      modifies this`store
      ensures ok ==> store == Put(old(store), kind.parts[p].entity, objects)
      ensures OnlyItems(old(store), store, kind, tenant)
      ensures reliable ==> ok
    {
      var entity := kind.parts[p].entity;
      var next := 0;
      while next < |objects|
        invariant 0 <= next <= |objects| && store == Put(old(store), entity, objects[..next])
        invariant OnlyItems(old(store), store, kind, tenant)
      {
        var end := if next + CHUNK < |objects| then next + CHUNK else |objects|;
        ghost var before := store;
        PutsOnlyItems(store, kind, tenant, p, objects[next..end]);
        ok := PutObjects(entity, objects[next..end]);
        OnlyItemsThen(old(store), before, store, kind, tenant);
        if !ok {
          return;
        }
        PutSplits(old(store), entity, objects[..next], objects[next..end]);
        assert objects[..next] + objects[next..end] == objects[..end];
        next := end;
      }
      assert objects[..|objects|] == objects;
      ok := true;
    }

    method WriteItems(kind: Kind, p: nat, tenant: string, records: seq<Record>) returns (ok: bool)
      requires p < |kind.parts| && Consistent(store)
      modifies this`store
      ensures ok ==> store == WritePart(old(store), kind.parts[p], tenant, records)
      ensures OnlyItems(old(store), store, kind, tenant)
      ensures reliable ==> ok
    {
      ok := RemoveGone(kind, p, tenant, Kept(kind.parts[p], tenant, records));
      if ok {
        ghost var rest := store;
        ItemObjects(kind.parts[p], tenant, records);
        ok := PutChunks(kind, p, tenant, Objects(kind.parts[p], tenant, records));
        OnlyItemsThen(old(store), rest, store, kind, tenant);
      }
    }

    /** The parts of a document, in order. */
    method WriteAllItems(kind: Kind, tenant: string, parts: seq<seq<Record>>, ghost value: Json) returns (ok: bool)
      requires Consistent(store) && |parts| == |kind.parts|
      requires forall p :: 0 <= p < |parts| ==> parts[p] == RecordsOf(sp, kind, value, p)
      modifies this`store
      ensures ok ==> store == WriteParts(sp, old(store), kind, tenant, value, |kind.parts|)
      ensures OnlyItems(old(store), store, kind, tenant)
      ensures reliable ==> ok
    {
      for i := 0 to |kind.parts|
        invariant store == WriteParts(sp, old(store), kind, tenant, value, i)
        invariant OnlyItems(old(store), store, kind, tenant)
      {
        ghost var before := store;
        ok := WriteItems(kind, i, tenant, parts[i]);
        OnlyItemsThen(old(store), before, store, kind, tenant);
        if !ok {
          return;
        }
      }
      ok := true;
    }

    /** Writes every part and, only when they are all written, the header that announces them. */
    method Write(kind: Kind, tenant: string, value: Json, version: int, legacy: bool) returns (ok: bool)
      requires Ready(kind, tenant)
      modifies this`store
      ensures ok ==> store == WriteDocument(sp, old(store), kind, tenant, value, version, legacy)
      ensures !ok ==> OnlyItems(old(store), store, kind, tenant)
      ensures OnlyDocument(old(store), store, kind, tenant) && Ready(kind, tenant)
      ensures reliable ==> ok
    {
      var settings, parts := Split(kind, value);
      HeaderIsNoItem(kind, tenant);
      ok := WriteAllItems(kind, tenant, parts, value);
      if !ok {
        return;
      }
      ghost var items := store;
      var payload := HeaderPayload(kind, tenant, value, version, legacy);
      HeaderRewritten(store, kind, tenant, payload);
      ok := PutObjects(HEADER, [OwnedObject(HeaderId(tenant, kind), tenant, payload)]);
      OnlyDocumentThen(old(store), items, store, kind, tenant);
      SaneWritten(kind, tenant, value, version, legacy);
    }

    // ----- moving

    /** Ends a move: first the row goes, and the mark only once it is gone. */
    method DropLegacy(kind: Kind, tenant: string)
      requires Ready(kind, tenant)
      modifies this`store, this`rows
      ensures Ready(kind, tenant) && OnlyDocument(old(store), store, kind, tenant)
      ensures rows - {Key(kind, tenant)} == old(rows) - {Key(kind, tenant)}
      ensures var v := old(ViewOf(kind, tenant));
              ViewOf(kind, tenant) in {v, RowDropped(v), MarkCleared(RowDropped(v))}
      ensures reliable ==> ViewOf(kind, tenant) == MarkCleared(RowDropped(old(ViewOf(kind, tenant))))
    {
      var dropped := AmDelete(kind, tenant);
      if dropped.Err? && dropped.error != NotFound {
        return;
      }
      assert ViewOf(kind, tenant) == RowDropped(old(ViewOf(kind, tenant)));
      var found := Header(kind, tenant);
      if found.Err? || found.value.None? {
        return;
      }
      var header := found.value.value;
      HeaderRewritten(store, kind, tenant, WithField(header, "legacy", false)) by {
        SaneField(kind, tenant, header, "legacy", false);
      }
      MarkClearedOnHeader(kind, tenant, header, PartValues(store, kind, tenant));
      SaneField(kind, tenant, header, "legacy", false);
      var ok := PutObjects(HEADER, [OwnedObject(HeaderId(tenant, kind), tenant, WithField(header, "legacy", false))]);
    }

    /**
     What every call made while the model is in use begins with: a document
     that is only a row is copied in, and answered. The two stores stand for
     what they stood for exactly when nothing was copied or the row is
     storable, wherever the move is left.
     */
    method Moved(kind: Kind, tenant: string) returns (r: Result<Option<Entry>, Error>)
      requires Ready(kind, tenant)
      modifies this`store, this`rows
      ensures Ready(kind, tenant) && OnlyDocument(old(store), store, kind, tenant)
      ensures rows - {Key(kind, tenant)} == old(rows) - {Key(kind, tenant)}
      ensures r.Err? ==> r.error == Internal
      ensures !old(ViewOf(kind, tenant).model.Absent?) && !old(ViewOf(kind, tenant).model.Returned?) ==>
                store == old(store) && rows == old(rows)
      ensures MovedTo(sp, kind, reliable, old(ViewOf(kind, tenant)), ViewOf(kind, tenant), r)
      ensures Current(sp, kind, ViewOf(kind, tenant)) == Current(sp, kind, old(ViewOf(kind, tenant)))
              <==> r.Err? || !MovesIn(old(ViewOf(kind, tenant))) || StorableView(sp, kind, old(ViewOf(kind, tenant)))
    {
      hide Normalized, Storable, Consistent, WellFormed, WriteDocument, OnlyItems, PartValues, MoveStage, MoveDone;
      ghost var v := ViewOf(kind, tenant);
      NotMoved(sp, kind, v);
      var found := Header(kind, tenant);
      if found.Err? {
        return Err(found.error);
      }
      if found.value.Some? && GetBool(found.value.value, "returned") != Some(true) {
        r := Read(kind, tenant);
        return;
      }
      var row := AmGet(kind, tenant);
      if row.Err? {
        return if row.error == NotFound then Ok(None) else Err(row.error);
      }
      var ok := Write(kind, tenant, row.value.value, row.value.version, true);
      if !ok {
        CopyUnmade(old(store), store, kind, tenant);
        return Err(Internal);
      }
      CopyMade(sp, old(store), kind, tenant, row.value.value, row.value.version, true);
      ghost var copied, side := store, SideOf(store, kind, tenant);
      DropLegacy(kind, tenant);
      OnlyDocumentThen(old(store), copied, store, kind, tenant);
      CopyStages(sp, kind, v, side, ViewOf(kind, tenant));
      MovePreserves(sp, kind, v, ViewOf(kind, tenant));
      r := Ok(Some(row.value));
    }

    ghost predicate Emptied(kind: Kind, tenant: string)
      reads this`store
    {
      forall p :: 0 <= p < |kind.parts| ==> Matching(store, kind.parts[p].entity, tenant) == {}
    }

    /** The records of every part go, part by part. */
    method RemoveAllItems(kind: Kind, tenant: string) returns (ok: bool, ghost parts: nat)
      requires WellFormed(kind) && Consistent(store)
      modifies this`store
      ensures parts <= |kind.parts| && store == TakenOut(old(store), kind, tenant, parts)
      ensures OnlyItems(old(store), store, kind, tenant)
      ensures ok ==> parts == |kind.parts| && Emptied(kind, tenant)
      ensures reliable ==> ok
    {
      for i := 0 to |kind.parts|
        invariant store == TakenOut(old(store), kind, tenant, i)
      {
        TakenOutItems(old(store), kind, tenant, i);
        ghost var before := store;
        ok := RemoveGone(kind, i, tenant, {});
        if !ok {
          return false, i;
        }
        assert Matching(before, kind.parts[i].entity, tenant) - {} == Matching(before, kind.parts[i].entity, tenant);
      }
      ok, parts := true, |kind.parts|;
      TakenOutItems(old(store), kind, tenant, parts);
      forall p | 0 <= p < |kind.parts|
        ensures Matching(store, kind.parts[p].entity, tenant) == {}
      {
        TakenOutPart(old(store), kind, tenant, parts, p);
      }
    }

    method MarkReturned(kind: Kind, tenant: string) returns (ok: bool)
      requires Ready(kind, tenant) && HeaderOf(store, kind, tenant).Some?
      modifies this`store
      ensures Ready(kind, tenant) && OnlyDocument(old(store), store, kind, tenant)
      ensures ok ==> SideOf(store, kind, tenant) == Returned(VersionIn(old(HeaderOf(store, kind, tenant)).value, 1))
      ensures !ok ==> store == old(store)
      ensures old(Emptied(kind, tenant)) ==> Emptied(kind, tenant)
      ensures reliable ==> ok
    {
      var found := Header(kind, tenant);
      if found.Err? {
        return false;
      }
      HeaderReturned(store, kind, tenant, found.value.value);
      ok := PutObjects(HEADER, [OwnedObject(HeaderId(tenant, kind), tenant,
                                            WithField(WithField(found.value.value, "deleted", true), "returned", true))]);
    }

    /** Empties a document, part by part, and marks its header when nothing is left. */
    method TakeOut(kind: Kind, tenant: string) returns (ok: bool)
      requires Ready(kind, tenant) && HeaderOf(store, kind, tenant).Some?
      modifies this`store
      ensures Ready(kind, tenant) && OnlyDocument(old(store), store, kind, tenant)
      ensures ok ==> Emptied(kind, tenant)
      ensures ok ==> SideOf(store, kind, tenant) == Returned(VersionIn(old(HeaderOf(store, kind, tenant)).value, 1))
      ensures !ok ==> exists n :: 0 <= n <= |kind.parts| && store == TakenOut(old(store), kind, tenant, n)
      ensures reliable ==> ok
    {
      HeaderIsNoItem(kind, tenant);
      ghost var parts;
      ok, parts := RemoveAllItems(kind, tenant);
      if ok {
        ghost var emptied := store;
        ok := MarkReturned(kind, tenant);
        OnlyDocumentThen(old(store), emptied, store, kind, tenant);
      }
    }

    /** Writes a live document to account-management, then takes it out of the model. */
    method GiveBack(kind: Kind, tenant: string, entry: Entry) returns (ok: bool, ghost number: int)
      requires Ready(kind, tenant) && ReadDocument(store, kind, tenant) == Some(entry)
      modifies this`store, this`rows
      ensures Ready(kind, tenant) && OnlyDocument(old(store), store, kind, tenant)
      ensures rows - {Key(kind, tenant)} == old(rows) - {Key(kind, tenant)}
      ensures ok ==> Emptied(kind, tenant)
      ensures ok ==> ViewOf(kind, tenant) == View(Returned(entry.version), Some(Entry(entry.value, number)))
      ensures !ok ==>
                || (store == old(store) && rows == old(rows))
                || (RowOf(kind, tenant) == Some(Entry(entry.value, number))
                    && exists n :: 0 <= n <= |kind.parts| && store == TakenOut(old(store), kind, tenant, n))
      ensures reliable ==> ok
    {
      hide WellFormed, Sane, SideOf, ReadFrom, PartValues, VersionIn, TakenOut, Emptied;
      ReadIsLive(store, kind, tenant);
      var row := AmUpsert(kind, tenant, entry.value, None);
      if row.Err? {
        return false, 0;
      }
      number := row.value.version;
      ok := TakeOut(kind, tenant);
    }

    /**
     The move back, tried at every touch until it is finished once. Nothing
     leaves the model before the row is the whole document, wherever the move
     stops; when it is finished, the model is left with none of it.
     */
    method BackToAm(kind: Kind, tenant: string) returns (ghost number: int)
      requires Ready(kind, tenant)
      modifies this`store, this`rows, this`returned
      ensures Ready(kind, tenant) && OnlyDocument(old(store), store, kind, tenant)
      ensures rows - {Key(kind, tenant)} == old(rows) - {Key(kind, tenant)}
      ensures returned == old(returned) || returned == old(returned) + {Key(kind, tenant)}
      ensures Key(kind, tenant) in old(returned) ==> store == old(store) && rows == old(rows)
      ensures Key(kind, tenant) in returned && Key(kind, tenant) !in old(returned) ==>
                && ViewOf(kind, tenant) == MovedBack(old(ViewOf(kind, tenant)), number)
                && (old(ViewOf(kind, tenant)).model.Live? ==> Emptied(kind, tenant))
      ensures Key(kind, tenant) !in returned ==>
                && BackStage(old(ViewOf(kind, tenant)), ViewOf(kind, tenant), number)
                && (ViewOf(kind, tenant) == old(ViewOf(kind, tenant))
                    || exists n :: 0 <= n <= |kind.parts| && store == TakenOut(old(store), kind, tenant, n))
      ensures !old(ViewOf(kind, tenant)).model.Live? ==> store == old(store) && rows == old(rows)
      ensures reliable ==> Key(kind, tenant) in returned
    {
      number := 0;
      if Key(kind, tenant) in returned {
        return;
      }
      ReadIsLive(store, kind, tenant);
      var held := Read(kind, tenant);
      if held.Err? {
        return;
      }
      var done := true;
      if held.value.Some? {
        done, number := GiveBack(kind, tenant, held.value.value);
        if !done && (store != old(store) || rows != old(rows)) {
          var n :| 0 <= n <= |kind.parts| && store == TakenOut(old(store), kind, tenant, n);
          StoppedMoveBack(old(store), kind, tenant, n);
        }
      }
      if done {
        returned := returned + {Key(kind, tenant)};
      }
    }

    // ----- version claims

    static function ClaimsOf(claims: map<DocKey, map<int, Claim>>, key: DocKey): map<int, Claim> {
      if key in claims then claims[key] else map[]
    }

    /**
     Looks at the eight versions above `live` in turn, on a clock that reads
     `at`: a claim that may be passed is passed, any other ends the search,
     and the first version nobody claimed is claimed.
     */
    method ClaimVersion(kind: Kind, tenant: string, live: int, at: int) returns (r: Result<Option<int>, Error>)
      modifies this`claims
      ensures match r
              case Ok(Some(v)) =>
                && Claimable(ClaimsOf(old(claims), Key(kind, tenant)), live, at, v)
                && claims == old(claims)[Key(kind, tenant) := ClaimsOf(old(claims), Key(kind, tenant))[v := Claimed(at)]]
              case Ok(None) =>
                && claims == old(claims)
                && forall v :: !Claimable(ClaimsOf(old(claims), Key(kind, tenant)), live, at, v)
              case Err(e) => claims == old(claims) && e == Internal
      ensures reliable ==> r.Ok?
    {
      var held := ClaimsOf(claims, Key(kind, tenant));
      var version := live + 1;
      while version <= live + CLAIM_SKIPS
        invariant live < version <= live + CLAIM_SKIPS + 1
        invariant forall u :: live < u < version ==> u in held && Passable(held[u], at)
      {
        var ok: bool := *;
        if !ok && !reliable {
          return Err(Internal);
        }
        if version !in held {
          claims := claims[Key(kind, tenant) := held[version := Claimed(at)]];
          return Ok(Some(version));
        }
        if !Passable(held[version], at) {
          return Ok(None);
        }
        version := version + 1;
      }
      r := Ok(None);
    }

    /** Marks a claim whose write failed, if it can. */
    method Release(kind: Kind, tenant: string, version: int)
      modifies this`claims
      ensures claims == old(claims) || claims == old(claims)[Key(kind, tenant) := ClaimsOf(old(claims), Key(kind, tenant))[version := Released]]
      ensures reliable ==> claims == old(claims)[Key(kind, tenant) := ClaimsOf(old(claims), Key(kind, tenant))[version := Released]]
    {
      var ok: bool := *;
      if ok || reliable {
        claims := claims[Key(kind, tenant) := ClaimsOf(claims, Key(kind, tenant))[version := Released]];
      }
    }

    // ----- the client's calls

    /**
     Reads a document. With documents in the model, the two stores stand
     afterwards for what they stood for, wherever the call is left, unless it
     moved in a row that is not storable. Under the other strategy it answers
     the row, even where the model still holds a copy.
     */
    method GetMetadata(kind: Kind, tenant: string) returns (r: Result<Entry, Error>, ghost number: int)
      requires Ready(kind, tenant)
      modifies this`store, this`rows, this`returned
      ensures Ready(kind, tenant) && OnlyDocument(old(store), store, kind, tenant)
      ensures rows - {Key(kind, tenant)} == old(rows) - {Key(kind, tenant)}
      ensures !returning ==>
                var v := old(ViewOf(kind, tenant));
                && MoveStage(sp, kind, v, ViewOf(kind, tenant))
                && (r.Ok? ==> Answers(sp, kind, Some(r.value), Current(sp, kind, v)))
                && (r == Err(NotFound) ==> Current(sp, kind, v) == None)
                && (Current(sp, kind, ViewOf(kind, tenant)) == Current(sp, kind, v)
                    <==> r.Err? || !MovesIn(v) || StorableView(sp, kind, v))
      ensures returning && r.Ok? ==>
                && RowOf(kind, tenant) == Some(r.value)
                && (StoreSwitching.Answer(sp, kind, DocOf(kind, tenant)) == Some(Normalized(sp, kind, r.value.value))
                    <==> !StaleCopy(kind, tenant) || ViewOf(kind, tenant).model.entry.value == Normalized(sp, kind, r.value.value))
      ensures returning && r == Err(NotFound) ==>
                && RowOf(kind, tenant) == None
                && (StoreSwitching.Answer(sp, kind, DocOf(kind, tenant)) == None <==> !StaleCopy(kind, tenant))
      ensures reliable ==> !StaleCopy(kind, tenant)
      ensures reliable && (returning || StorableView(sp, kind, old(ViewOf(kind, tenant)))) ==>
                DocOf(kind, tenant) == StoreSwitching.After(sp, kind, old(DocOf(kind, tenant)), StoreSwitching.Read(number))
      ensures reliable ==>
                var answer := StoreSwitching.Answer(sp, kind, old(DocOf(kind, tenant)));
                && (r.Ok? ==> answer == Some(r.value.value) || answer == Some(Normalized(sp, kind, r.value.value)))
                && (r.Err? ==> r.error == NotFound)
                && (r.Err? <==> answer == None)
    {
      hide WellFormed, Normalized, OnlyDocument, Consistent, Sane, SideOf, Storable;
      number := 0;
      if returning {
        number := BackToAm(kind, tenant);
        r := AmGet(kind, tenant);
        return;
      }
      var moved := Moved(kind, tenant);
      match moved
      case Err(e) => r := Err(e);
      case Ok(None) => r := Err(NotFound);
      case Ok(Some(entry)) => r := Ok(entry);
    }

    /** The model holds the document as `version`: as it was given exactly when it is storable. */
    ghost predicate HoldsWritten(kind: Kind, tenant: string, value: Json, version: int)
      reads this`store
    {
      var side := SideOf(store, kind, tenant);
      && side.Live? && side.entry.version == version
      && (side.entry.value == Normalized(sp, kind, value) <==> Storable(sp, kind, value))
    }

    /** Writes a document under the version claimed for it, and releases the claim if that fails. */
    method WriteClaimed(kind: Kind, tenant: string, value: Json, next: int, legacy: bool) returns (ok: bool)
      requires Ready(kind, tenant)
      modifies this`store, this`rows, this`claims
      ensures Ready(kind, tenant) && OnlyDocument(old(store), store, kind, tenant)
      ensures rows - {Key(kind, tenant)} == old(rows) - {Key(kind, tenant)}
      ensures ok ==> claims == old(claims)
      ensures !ok ==> HeaderOf(store, kind, tenant) == old(HeaderOf(store, kind, tenant)) && rows == old(rows)
      ensures ok ==> HoldsWritten(kind, tenant, value, next)
      ensures ok && SideOf(store, kind, tenant).legacy ==> legacy
      ensures reliable ==> ok
      ensures reliable && Storable(sp, kind, value) ==>
                ViewOf(kind, tenant) ==
                Written(sp, kind, old(ViewOf(kind, tenant)), value, next, if legacy then None else old(RowOf(kind, tenant)))
    {
      hide WellFormed, OnlyDocument, Consistent, Sane, Normalized, Storable, SideOf, WriteDocument, OnlyItems;
      ok := Write(kind, tenant, value, next, legacy);
      HeaderIsNoItem(kind, tenant);
      if !ok {
        Release(kind, tenant, next);
        return;
      }
      CopyMade(sp, old(store), kind, tenant, value, next, legacy);
      assert HoldsWritten(kind, tenant, value, next);
      if legacy {
        ghost var written, side := store, SideOf(store, kind, tenant);
        DropLegacy(kind, tenant);
        OnlyDocumentThen(old(store), written, store, kind, tenant);
        assert SideOf(store, kind, tenant) in {side, Live(side.entry, false)};
      }
    }

    /**
     Moves the document in, and answers what a write of it follows: the live
     version, its header's version, whether the old row may still be there, and whether there is none.
     */
    method Settle(kind: Kind, tenant: string) returns (r: Result<(int, int, bool, bool), Error>)
      requires Ready(kind, tenant)
      modifies this`store, this`rows
      ensures Ready(kind, tenant) && OnlyDocument(old(store), store, kind, tenant)
      ensures rows - {Key(kind, tenant)} == old(rows) - {Key(kind, tenant)}
      ensures !old(ViewOf(kind, tenant).model.Absent?) && !old(ViewOf(kind, tenant).model.Returned?) ==>
                store == old(store) && rows == old(rows)
      ensures var v := old(ViewOf(kind, tenant));
                && MoveStage(sp, kind, v, ViewOf(kind, tenant))
                && (reliable ==> r.Ok? && MoveDone(sp, kind, v, ViewOf(kind, tenant)))
                && (r.Ok? && r.value.3 ==> ViewOf(kind, tenant) == v)
                && (r.Ok? && !r.value.3 ==> ViewOf(kind, tenant).model.Live? && ViewOf(kind, tenant).model.entry.version == r.value.1)
                && (r.Ok? ==>
                      && r.value.0 == LiveVersion(Current(sp, kind, v))
                      && r.value.1 == HeaderVersion(Settled(sp, kind, v).model)
                      && r.value.3 == Current(sp, kind, v).None?
                      && (ViewOf(kind, tenant).model.Live? ==> r.value.2 == ViewOf(kind, tenant).model.legacy))
    {
      hide Normalized, Storable, Consistent, WellFormed, MoveStage, MoveDone, Settled, Current, Answers;
      ghost var v := ViewOf(kind, tenant);
      var current := Moved(kind, tenant);
      if current.Err? {
        return Err(current.error);
      }
      AnswersSomething(sp, kind, current.value, Current(sp, kind, v));
      SideAfterMove(sp, kind, v, ViewOf(kind, tenant));
      HeaderVersionIs(store, kind, tenant);
      var found := Header(kind, tenant);
      match found
      case Err(e) => r := Err(e);
      case Ok(None) => r := Ok((0, 0, false, current.value.None?));
      case Ok(Some(h)) =>
        var version := VersionIn(h, 0);
        r := Ok((if current.value.Some? then version else 0, version, GetBool(h, "legacy") == Some(true), current.value.None?));
    }

    /** Claims the next version after `version` and writes the document under it. */
    method WriteNext(kind: Kind, tenant: string, value: Json, version: int, legacy: bool, at: int)
      returns (r: Result<Entry, Error>)
      requires Ready(kind, tenant)
      modifies this`store, this`rows, this`claims
      ensures Ready(kind, tenant) && OnlyDocument(old(store), store, kind, tenant)
      ensures rows - {Key(kind, tenant)} == old(rows) - {Key(kind, tenant)}
      ensures r.Ok? ==> r.value.value == value && Claimable(ClaimsOf(old(claims), Key(kind, tenant)), version, at, r.value.version)
      ensures r.Ok? ==> HoldsWritten(kind, tenant, value, r.value.version)
      ensures r.Err? ==> HeaderOf(store, kind, tenant) == old(HeaderOf(store, kind, tenant))
      ensures reliable ==> (r.Ok? <==> exists n :: Claimable(ClaimsOf(old(claims), Key(kind, tenant)), version, at, n))
      ensures reliable && r.Err? ==>
                r.error == VersionMismatch && claims == old(claims) && ViewOf(kind, tenant) == old(ViewOf(kind, tenant))
      ensures reliable && r.Ok? && Storable(sp, kind, value) ==>
                ViewOf(kind, tenant) ==
                Written(sp, kind, old(ViewOf(kind, tenant)), value, r.value.version, if legacy then None else old(RowOf(kind, tenant)))
    {
      var next := ClaimVersion(kind, tenant, version, at);
      match next {
        case Err(e) => r := Err(e);
        case Ok(None) => r := Err(VersionMismatch);
        case Ok(Some(n)) =>
          var ok := WriteClaimed(kind, tenant, value, n, legacy);
          r := if ok then Ok(Entry(value, n)) else Err(Internal);
      }
    }

    /** The row an upsert leaves: the one it found, or none when it dropped it. */
    ghost predicate LeavesRow(s: View, row: Option<Entry>) {
      && (row == s.row || row == None)
      && (s.model.Live? ==> row == if s.model.legacy then None else s.row)
    }

    /**
     An upsert in the model. When it succeeds it wrote the least claimable
     version after the one on the header, over the version its caller expected.
     */
    method UpsertInModel(kind: Kind, tenant: string, value: Json, expected: Option<int>, at: int)
      returns (r: Result<Entry, Error>)
      requires Ready(kind, tenant)
      modifies this`store, this`rows, this`claims
      ensures Ready(kind, tenant) && OnlyDocument(old(store), store, kind, tenant)
      ensures rows - {Key(kind, tenant)} == old(rows) - {Key(kind, tenant)}
      ensures r.Err? && !old(ViewOf(kind, tenant)).model.Absent? && !old(ViewOf(kind, tenant)).model.Returned? ==>
                HeaderOf(store, kind, tenant) == old(HeaderOf(store, kind, tenant))
      ensures r.Ok? ==> r.value.value == value && HoldsWritten(kind, tenant, value, r.value.version)
      ensures var v := old(ViewOf(kind, tenant));
                var s := Settled(sp, kind, v);
                var matches := expected.Some? ==> expected.value == LiveVersion(Current(sp, kind, v));
                var held := ClaimsOf(old(claims), Key(kind, tenant));
                && (r.Ok? ==>
                      && matches
                      && Claimable(held, HeaderVersion(s.model), at, r.value.version))
                && (reliable ==> (r.Ok? <==> matches && exists n :: Claimable(held, HeaderVersion(s.model), at, n)))
                && (reliable && r.Err? ==> MoveDone(sp, kind, v, ViewOf(kind, tenant)) && claims == old(claims) && r.error == VersionMismatch)
                && (reliable && r.Ok? && Storable(sp, kind, value) ==>
                      && ViewOf(kind, tenant) == Written(sp, kind, s, value, r.value.version, RowOf(kind, tenant))
                      && LeavesRow(s, RowOf(kind, tenant)))
    {
      var settled := Settle(kind, tenant);
      if settled.Err? {
        return Err(Internal);
      }
      ghost var before := store;
      var (live, version, legacy, _) := settled.value;
      if expected.Some? && expected.value != live {
        return Err(VersionMismatch);
      }
      r := WriteNext(kind, tenant, value, version, legacy, at);
      OnlyDocumentThen(old(store), before, store, kind, tenant);
    }

    /**
     A write under either strategy. Where the move back failed, it reaches the
     row and succeeds, though the copy still in the model will overwrite it.
     */
    method UpsertMetadata(kind: Kind, tenant: string, value: Json, expected: Option<int>, at: int)
      returns (r: Result<Entry, Error>, ghost number: int)
      requires Ready(kind, tenant)
      modifies this`store, this`rows, this`claims, this`returned
      ensures Ready(kind, tenant) && OnlyDocument(old(store), store, kind, tenant)
      ensures rows - {Key(kind, tenant)} == old(rows) - {Key(kind, tenant)}
      ensures returning && r.Ok? ==>
                && RowOf(kind, tenant) == Some(r.value) && r.value.value == value
                && (StoreSwitching.Answer(sp, kind, DocOf(kind, tenant)) == Some(Normalized(sp, kind, value))
                    <==> !StaleCopy(kind, tenant) || ViewOf(kind, tenant).model.entry.value == Normalized(sp, kind, value))
      ensures reliable ==> !StaleCopy(kind, tenant)
      ensures !returning && r.Ok? ==> r.value.value == value && HoldsWritten(kind, tenant, value, r.value.version)
      ensures !returning && reliable && r.Ok? && Storable(sp, kind, value) ==>
                LeavesRow(Settled(sp, kind, old(ViewOf(kind, tenant))), RowOf(kind, tenant))
      ensures !returning && r.Err? && !old(ViewOf(kind, tenant)).model.Absent? && !old(ViewOf(kind, tenant)).model.Returned? ==>
                HeaderOf(store, kind, tenant) == old(HeaderOf(store, kind, tenant))
      ensures reliable && r.Err? ==> r.error == VersionMismatch
      ensures reliable && r.Err? && !returning ==> MoveDone(sp, kind, old(ViewOf(kind, tenant)), ViewOf(kind, tenant))
      ensures reliable && r.Err? && (returning || StorableView(sp, kind, old(ViewOf(kind, tenant)))) ==>
                DocOf(kind, tenant) == StoreSwitching.After(sp, kind, old(DocOf(kind, tenant)), StoreSwitching.Read(number))
      ensures reliable && r.Ok? && (returning || (Storable(sp, kind, value) && !StoreSwitching.Hidden(old(ViewOf(kind, tenant))))) ==>
                DocOf(kind, tenant) == StoreSwitching.After(sp, kind, old(DocOf(kind, tenant)),
                                            StoreSwitching.Upsert(value, r.value.version, number))
    {
      hide WellFormed, Normalized, OnlyDocument, Consistent, Sane, SideOf, Storable, LeavesRow;
      number := 0;
      if returning {
        number := BackToAm(kind, tenant);
        r := AmUpsert(kind, tenant, value, expected);
      } else {
        r := UpsertInModel(kind, tenant, value, expected, at);
      }
    }

    /** Marks the document's header deleted. */
    method MarkDeleted(kind: Kind, tenant: string) returns (ok: bool)
      requires Ready(kind, tenant) && SideOf(store, kind, tenant).Live?
      modifies this`store
      ensures Ready(kind, tenant) && OnlyDocument(old(store), store, kind, tenant)
      ensures ok ==> SideOf(store, kind, tenant) == Deleted(HeaderVersion(old(SideOf(store, kind, tenant))))
      ensures !ok ==> store == old(store)
      ensures reliable ==> ok
    {
      HeaderVersionIs(store, kind, tenant);
      var found := Header(kind, tenant);
      if found.Err? {
        return false;
      }
      var header := found.value.value;
      SaneField(kind, tenant, header, "deleted", true);
      HeaderRewritten(store, kind, tenant, WithField(header, "deleted", true));
      MarkedDeleted(kind, tenant, header, PartValues(store, kind, tenant));
      ok := PutObjects(HEADER, [OwnedObject(HeaderId(tenant, kind), tenant, WithField(header, "deleted", true))]);
    }

    /**
     A delete is two writes: an empty document, and the mark on its header.
     Left between the two, the document is there, and empty.
     */
    method WriteDeleted(kind: Kind, tenant: string, version: int) returns (ok: bool)
      requires Ready(kind, tenant)
      modifies this`store
      ensures Ready(kind, tenant) && OnlyDocument(old(store), store, kind, tenant)
      ensures ok ==> SideOf(store, kind, tenant) == Deleted(version)
      ensures !ok && old(SideOf(store, kind, tenant)).Live? ==>
                || SideOf(store, kind, tenant) == EmptyLive(sp, kind, version)
                || (SideOf(store, kind, tenant).Live?
                    && SideOf(store, kind, tenant).entry.version == old(SideOf(store, kind, tenant)).entry.version)
      ensures reliable ==> ok
    {
      var empty := Obj(map[]);
      EmptyStorable(sp, kind);
      CopyMade(sp, store, kind, tenant, empty, version, false);
      ok := Write(kind, tenant, empty, version, false);
      if ok {
        ghost var written := store;
        ok := MarkDeleted(kind, tenant);
        OnlyDocumentThen(old(store), written, store, kind, tenant);
      } else if SideOf(old(store), kind, tenant).Live? {
        TornIsLive(old(store), store, kind, tenant);
      }
    }

    method DeleteInModel(kind: Kind, tenant: string) returns (r: Result<(), Error>)
      requires Ready(kind, tenant)
      modifies this`store, this`rows
      ensures Ready(kind, tenant) && OnlyDocument(old(store), store, kind, tenant)
      ensures rows - {Key(kind, tenant)} == old(rows) - {Key(kind, tenant)}
      ensures var v := old(ViewOf(kind, tenant));
                && DeleteStage(sp, kind, v, ViewOf(kind, tenant))
                && (r.Ok? ==> Current(sp, kind, v).Some? && ViewOf(kind, tenant).model == Deleted(HeaderVersion(Settled(sp, kind, v).model) + 1))
                && (r == Err(NotFound) ==> Current(sp, kind, v).None? && ViewOf(kind, tenant) == v)
      ensures reliable ==>
                var v := old(ViewOf(kind, tenant));
                var s := Settled(sp, kind, v);
                if Current(sp, kind, v).None? then r == Err(NotFound)
                else r.Ok? && ViewOf(kind, tenant) == s.(model := Deleted(HeaderVersion(s.model) + 1))
    {
      hide WellFormed, Normalized, OnlyDocument, Consistent, Sane, SideOf, Current;
      var settled := Settle(kind, tenant);
      if settled.Err? {
        return Err(Internal);
      }
      if settled.value.3 {
        return Err(NotFound);
      }
      ghost var before := store;
      var ok := WriteDeleted(kind, tenant, settled.value.1 + 1);
      OnlyDocumentThen(old(store), before, store, kind, tenant);
      r := if ok then Ok(()) else Err(Internal);
    }

    /** A delete under either strategy. */
    method DeleteMetadata(kind: Kind, tenant: string) returns (r: Result<(), Error>, ghost number: int)
      requires Ready(kind, tenant)
      modifies this`store, this`rows, this`returned
      ensures Ready(kind, tenant) && OnlyDocument(old(store), store, kind, tenant)
      ensures rows - {Key(kind, tenant)} == old(rows) - {Key(kind, tenant)}
      ensures returning && r.Ok? ==>
                && RowOf(kind, tenant) == None
                && (StoreSwitching.Answer(sp, kind, DocOf(kind, tenant)) == None <==> !StaleCopy(kind, tenant))
      ensures reliable ==> !StaleCopy(kind, tenant)
      ensures !returning ==>
                && DeleteStage(sp, kind, old(ViewOf(kind, tenant)), ViewOf(kind, tenant))
                && (r.Ok? ==> ViewOf(kind, tenant).model.Deleted?)
                && (r == Err(NotFound) ==> ViewOf(kind, tenant) == old(ViewOf(kind, tenant)))
      ensures reliable ==>
                && DocOf(kind, tenant) == StoreSwitching.After(sp, kind, old(DocOf(kind, tenant)), StoreSwitching.Delete(number))
                && (r.Err? ==> r.error == NotFound)
                && (r.Err? <==> StoreSwitching.Answer(sp, kind, old(DocOf(kind, tenant))) == None)
    {
      hide WellFormed, Normalized, OnlyDocument, Consistent, Sane, SideOf, DeleteStage, MoveStage;
      number := 0;
      if returning {
        number := BackToAm(kind, tenant);
        r := AmDelete(kind, tenant);
      } else {
        r := DeleteInModel(kind, tenant);
      }
    }

    // ----- several documents

    ghost predicate AllReady(docs: seq<DocRef>)
      reads this`store
    {
      forall i :: 0 <= i < |docs| ==> Ready(docs[i].kind, docs[i].tenant)
    }

    /** The move of one document of several. */
    method MovedOf(ghost docs: seq<DocRef>, ghost i: nat, kind: Kind, tenant: string) returns (r: Result<Option<Entry>, Error>)
      requires i < |docs| && docs[i] == DocRef(kind, tenant)
      requires AllApart(docs) && AllReady(docs)
      modifies this`store, this`rows
      ensures AllReady(docs)
      ensures ViewsOf(docs) == old(ViewsOf(docs))[i := ViewOf(kind, tenant)]
      ensures r.Err? ==> r.error == Internal
      ensures MovedTo(sp, kind, reliable, old(ViewsOf(docs))[i], ViewsOf(docs)[i], r)
    {
      ghost var before, rowsBefore := store, rows;
      r := Moved(kind, tenant);
      forall j | 0 <= j < |docs| && j != i
        ensures Ready(docs[j].kind, docs[j].tenant)
        ensures ViewOf(docs[j].kind, docs[j].tenant) == old(ViewOf(docs[j].kind, docs[j].tenant))
      {
        OtherSame(before, rowsBefore, docs[i], docs[j]);
      }
    }

    /**
     The document a tenant inherits: the nearest one on its chain of
     ancestors, up to a tenant seen before or one that cannot be read. The
     documents passed on the way have nothing to move.
     */
    method ResolveInModel(kind: Kind, parents: map<string, string>, tenant: string) returns (r: Result<Option<Entry>, Error>)
      requires AllReady(Inherited(kind, parents, tenant))
      modifies this`store, this`rows
      ensures Resolved(sp, kind, reliable, old(ViewsOf(Inherited(kind, parents, tenant))),
                       ViewsOf(Inherited(kind, parents, tenant)), r)
    {
      ghost var docs := Inherited(kind, parents, tenant);
      ghost var views := ViewsOf(docs);
      ChainApart(kind, parents, tenant);
      var at, seen := Some(tenant), {};
      ghost var i := 0;
      while at.Some? && at.value !in seen
        invariant 0 <= i <= |docs| && OnTenants(kind, Ancestry(parents, at, seen)) == docs[i..]
        invariant at.Some? ==> at.value in Known(parents, tenant)
        invariant AllReady(docs)
        invariant ViewsOf(docs) == views && NoneBefore(sp, kind, views, i)
        decreases Known(parents, tenant) - seen
      {
        StepsUp(kind, parents, tenant, at.value, seen, i);
        r := MovedOf(docs, i, kind, at.value);
        if r.Err? || r.value.Some? {
          WalkEnds(sp, kind, reliable, views, ViewOf(kind, at.value), r, i);
          return;
        }
        WalkPasses(sp, kind, reliable, views, ViewOf(kind, at.value), i);
        seen := seen + {at.value};
        at := Above(parents, at.value);
        i := i + 1;
      }
      r := Ok(None);
      NearestAt(sp, kind, views, |views|);
    }

    /** The first touch of one document of several, under either strategy. */
    method Touch(ghost docs: seq<DocRef>, ghost i: nat, kind: Kind, tenant: string) returns (ok: bool)
      requires i < |docs| && docs[i] == DocRef(kind, tenant)
      requires AllApart(docs) && AllReady(docs)
      modifies this`store, this`rows, this`returned
      ensures AllReady(docs)
      ensures DocsOf(docs) == old(DocsOf(docs))[i := DocOf(kind, tenant)]
      ensures TouchStage(sp, kind, reliable, old(DocsOf(docs))[i], DocsOf(docs)[i])
      ensures !ok ==> DocOf(kind, tenant) == old(DocOf(kind, tenant))
      ensures reliable ==> ok
    {
      hide WellFormed, Normalized, OnlyDocument, Consistent, Sane, SideOf, Storable;
      ghost var before, rowsBefore := store, rows;
      if returning {
        ghost var number := BackToAm(kind, tenant);
        ok := true;
      } else {
        var moved := Moved(kind, tenant);
        ok := moved.Ok?;
      }
      forall j | 0 <= j < |docs| && j != i
        ensures Ready(docs[j].kind, docs[j].tenant)
        ensures DocOf(docs[j].kind, docs[j].tenant) == old(DocOf(docs[j].kind, docs[j].tenant))
      {
        OtherSame(before, rowsBefore, docs[i], docs[j]);
      }
    }

    /** Every document of a tenant is brought to the store in use. */
    method Prepare(kinds: seq<Kind>, tenant: string) returns (ok: bool)
      requires AllApart(OfTenant(kinds, tenant)) && AllReady(OfTenant(kinds, tenant))
      modifies this`store, this`rows, this`returned
      ensures AllReady(OfTenant(kinds, tenant))
      ensures ok ==> TouchedFirst(sp, OfTenant(kinds, tenant), reliable,
                                  old(DocsOf(OfTenant(kinds, tenant))), DocsOf(OfTenant(kinds, tenant)), |kinds|)
      ensures !ok ==> exists n :: 0 <= n < |kinds| && TouchedFirst(sp, OfTenant(kinds, tenant), reliable,
                                  old(DocsOf(OfTenant(kinds, tenant))), DocsOf(OfTenant(kinds, tenant)), n)
      ensures reliable ==> ok
    {
      hide WellFormed, Normalized, OnlyDocument, Consistent, Sane, SideOf, TouchStage, ReadyIn;
      ghost var docs := OfTenant(kinds, tenant);
      ghost var before := DocsOf(docs);
      for i := 0 to |kinds|
        invariant AllReady(docs) && TouchedFirst(sp, docs, reliable, before, DocsOf(docs), i)
      {
        ok := Touch(docs, i, kinds[i], tenant);
        assert ok ==> TouchedFirst(sp, docs, reliable, before, DocsOf(docs), i + 1);
        if !ok {
          assert TouchedFirst(sp, docs, reliable, before, DocsOf(docs), i);
          return;
        }
      }
      ok := true;
    }

    /** The documents a tenant may inherit, brought back to account-management before it resolves them. */
    method ReturnChain(kind: Kind, parents: map<string, string>, tenant: string)
      requires returning && AllReady(Inherited(kind, parents, tenant))
      modifies this`store, this`rows, this`returned
      ensures TouchedFirst(sp, Inherited(kind, parents, tenant), reliable, old(DocsOf(Inherited(kind, parents, tenant))),
                           DocsOf(Inherited(kind, parents, tenant)), |Inherited(kind, parents, tenant)|)
    {
      hide WellFormed, Normalized, OnlyDocument, Consistent, Sane, SideOf, TouchStage, TouchedFirst, ReadyIn, AllReady;
      ghost var docs := Inherited(kind, parents, tenant);
      ghost var before := DocsOf(docs);
      ChainApart(kind, parents, tenant);
      TouchedNone(sp, docs, reliable, before);
      var at, seen := Some(tenant), {};
      ghost var i := 0;
      while at.Some? && at.value !in seen
        invariant 0 <= i <= |docs| && OnTenants(kind, Ancestry(parents, at, seen)) == docs[i..]
        invariant at.Some? ==> at.value in Known(parents, tenant)
        invariant AllReady(docs)
        invariant TouchedFirst(sp, docs, reliable, before, DocsOf(docs), i)
        decreases Known(parents, tenant) - seen
      {
        StepsUp(kind, parents, tenant, at.value, seen, i);
        ghost var reached := DocsOf(docs);
        var _ := Touch(docs, i, kind, at.value);
        TouchedNext(sp, docs, reliable, before, reached, i, DocOf(kind, at.value));
        seen := seen + {at.value};
        at := Above(parents, at.value);
        i := i + 1;
      }
    }

    /** A new process, with documents in the model or in account-management. */
    method Restart(returning: bool)
      modifies this`returning, this`returned
      ensures this.returning == returning && returned == {}
      ensures forall kind, tenant :: DocOf(kind, tenant) ==
                StoreSwitching.After(sp, kind, old(DocOf(kind, tenant)), StoreSwitching.Restart(returning))
    {
      this.returning, returned := returning, {};
    }
  }
}
