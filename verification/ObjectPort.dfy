/**
 The domain model's port, as far as the documents use it: objects by id, each
 of one entity, written whole, removed by id, and queried by the tenant they
 carry, in the order of their position.
 */
module ObjectPort {
  import opened Prelude
  import opened Json

  const TENANT := "doc_tenant_id"
  const POSITION := "doc_position"
  const KEY := "doc_key"
  const SCOPE := "_scope"

  datatype Object = Object(entity: string, payload: Json)

  /** What a gear writes: an object under the id it chose, in one tenant's scope. */
  datatype OwnedObject = OwnedObject(id: string, scope: string, payload: Json)

  type Store = map<string, Object>

  // ----- writes

  /** The port notes the scope in the payload. */
  function Scoped(o: OwnedObject): Json {
    if o.payload.Obj? && o.scope != "" then Obj(o.payload.fields[SCOPE := Str(o.scope)]) else o.payload
  }

  function Put(store: Store, entity: string, objects: seq<OwnedObject>): Store {
    if objects == [] then store
    else
      var last := |objects| - 1;
      Put(store, entity, objects[..last])[objects[last].id := Object(entity, Scoped(objects[last]))]
  }

  function Remove(store: Store, ids: set<string>): Store {
    map id | id in store && id !in ids :: store[id]
  }

  /** Writing in two batches is writing at once. */
  lemma {:induction false} PutSplits(store: Store, entity: string, a: seq<OwnedObject>, b: seq<OwnedObject>)
    ensures Put(store, entity, a + b) == Put(Put(store, entity, a), entity, b)
  {
    if b == [] {
      assert a + b == a;
    } else {
      var last := |b| - 1;
      PutSplits(store, entity, a, b[..last]);
      assert (a + b)[..|a + b| - 1] == a + b[..last];
    }
  }

  lemma {:induction false} PutElsewhere(store: Store, entity: string, objects: seq<OwnedObject>, id: string)
    requires forall i :: 0 <= i < |objects| ==> objects[i].id != id
    ensures id in Put(store, entity, objects) <==> id in store
    ensures id in store ==> Put(store, entity, objects)[id] == store[id]
  {
    if objects != [] {
      PutElsewhere(store, entity, objects[..|objects| - 1], id);
    }
  }

  /** The last object written under an id is the one that stays. */
  lemma {:induction false} PutAt(store: Store, entity: string, objects: seq<OwnedObject>, i: nat)
    requires i < |objects|
    requires forall j :: i < j < |objects| ==> objects[j].id != objects[i].id
    ensures objects[i].id in Put(store, entity, objects)
    ensures Put(store, entity, objects)[objects[i].id] == Object(entity, Scoped(objects[i]))
  {
    var last := |objects| - 1;
    if i < last {
      PutAt(store, entity, objects[..last], i);
    }
  }

  /** Under an id that was written there is one of the objects written under it. */
  lemma {:induction false} PutSome(store: Store, entity: string, objects: seq<OwnedObject>, i: nat)
    requires i < |objects|
    ensures objects[i].id in Put(store, entity, objects)
    ensures exists j :: 0 <= j < |objects| && Put(store, entity, objects)[objects[i].id] == Object(entity, Scoped(objects[j]))
  {
    var last := |objects| - 1;
    if objects[i].id == objects[last].id {
      PutAt(store, entity, objects, last);
    } else {
      PutSome(store, entity, objects[..last], i);
      var j :| 0 <= j < last &&
               Put(store, entity, objects[..last])[objects[i].id] == Object(entity, Scoped(objects[..last][j]));
      assert objects[..last][j] == objects[j];
    }
  }

  // ----- queries

  /** The objects of `entity` whose tenant field is `tenant`. */
  function Matching(store: Store, entity: string, tenant: string): set<string> {
    set id | id in store && store[id].entity == entity && GetStr(store[id].payload, TENANT) == Some(tenant)
  }

  /** Lexicographic order, which breaks ties of position. */
  predicate StrLess(a: string, b: string) {
    b != "" && (a == "" || a[0] < b[0] || (a[0] == b[0] && StrLess(a[1..], b[1..])))
  }

  lemma {:induction false} StrTotal(a: string, b: string)
    ensures a == b || StrLess(a, b) || StrLess(b, a)
    ensures !(StrLess(a, b) && StrLess(b, a))
  {
    if a != "" && b != "" && a[0] == b[0] {
      StrTotal(a[1..], b[1..]);
      assert a == [a[0]] + a[1..] && b == [b[0]] + b[1..];
    }
  }

  lemma {:induction false} StrTransitive(a: string, b: string, c: string)
    requires StrLess(a, b) && StrLess(b, c)
    ensures StrLess(a, c)
  {
    if a != "" && a[0] == b[0] && b[0] == c[0] {
      StrTransitive(a[1..], b[1..], c[1..]);
    }
  }

  /** The order of a query: by position, an object without one last, then by id. */
  predicate Before(store: Store, a: string, b: string)
    requires a in store && b in store
  {
    match (GetInt(store[a].payload, POSITION), GetInt(store[b].payload, POSITION))
    case (Some(x), Some(y)) => x < y || (x == y && StrLess(a, b))
    case (Some(_), None) => true
    case (None, Some(_)) => false
    case (None, None) => StrLess(a, b)
  }

  lemma {:induction false} BeforeTotal(store: Store)
    ensures forall a, b :: a in store && b in store && a != b ==> Before(store, a, b) || Before(store, b, a)
    ensures forall a, b :: a in store && b in store && Before(store, a, b) ==> !Before(store, b, a)
  {
    forall a, b | a in store && b in store
      ensures a != b ==> Before(store, a, b) || Before(store, b, a)
      ensures Before(store, a, b) ==> !Before(store, b, a)
    {
      StrTotal(a, b);
    }
  }

  lemma {:induction false} BeforeTransitive(store: Store, a: string, b: string, c: string)
    requires a in store && b in store && c in store && Before(store, a, b) && Before(store, b, c)
    ensures Before(store, a, c)
  {
    if StrLess(a, b) && StrLess(b, c) {
      StrTransitive(a, b, c);
    }
  }

  predicate Least(store: Store, ids: set<string>, m: string)
    requires ids <= store.Keys
  {
    m in ids && forall x :: x in ids && x != m ==> Before(store, m, x)
  }

  lemma {:induction false} LeastExists(store: Store, ids: set<string>)
    requires ids <= store.Keys && ids != {}
    ensures exists m :: Least(store, ids, m)
  {
    BeforeTotal(store);
    var x :| x in ids;
    var rest := ids - {x};
    assert ids == rest + {x};
    if rest == {} {
      assert Least(store, ids, x);
    } else {
      LeastExists(store, rest);
      var m :| Least(store, rest, m);
      if Before(store, x, m) {
        forall y | y in ids && y != x
          ensures Before(store, x, y)
        {
          if y != m {
            BeforeTransitive(store, x, m, y);
          }
        }
        assert Least(store, ids, x);
      } else {
        assert m in rest && Before(store, m, x);
        assert forall y :: y in ids && y != x ==> y in rest;
        assert Least(store, ids, m);
      }
    }
  }

  lemma {:induction false} LeastUnique(store: Store, ids: set<string>, m: string, n: string)
    requires ids <= store.Keys && Least(store, ids, m) && Least(store, ids, n)
    ensures m == n
  {
    BeforeTotal(store);
  }

  /** `list` holds exactly `ids`, in the order of a query. */
  ghost predicate InOrder(store: Store, ids: set<string>, list: seq<string>)
    requires ids <= store.Keys
  {
    && (forall id :: id in list <==> id in ids)
    && (forall i :: 0 <= i < |list| ==> list[i] in ids)
    && (forall i, j :: 0 <= i < j < |list| ==> Before(store, list[i], list[j]))
  }

  /** The ids a query answers, in its order. */
  function Listing(store: Store, ids: set<string>): (list: seq<string>)
    requires ids <= store.Keys
    ensures |list| == |ids| && InOrder(store, ids, list)
  {
    if ids == {} then []
    else
      LeastExists(store, ids);
      BeforeTotal(store);
      var m :| Least(store, ids, m);
      [m] + Listing(store, ids - {m})
  }

  function AsSet(list: seq<string>): set<string> {
    set id | id in list
  }

  lemma {:induction false} ListingSet(store: Store, ids: set<string>)
    requires ids <= store.Keys
    ensures AsSet(Listing(store, ids)) == ids
  {
  }

  lemma {:induction false} HeadAndTail(store: Store, ids: set<string>, list: seq<string>)
    requires ids <= store.Keys && InOrder(store, ids, list) && list != []
    ensures Least(store, ids, list[0])
    ensures InOrder(store, ids - {list[0]}, list[1..])
  {
    forall id | id in ids && id != list[0]
      ensures Before(store, list[0], id) && id in list[1..]
    {
      assert id in list;
    }
    forall i | 0 <= i < |list[1..]|
      ensures list[1..][i] in ids - {list[0]}
    {
      BeforeTotal(store);
      assert Before(store, list[0], list[i + 1]);
    }
  }

  /** The order is total, so there is one listing: any sequence in order is it. */
  lemma {:induction false} ListingUnique(store: Store, ids: set<string>, list: seq<string>)
    requires ids <= store.Keys && InOrder(store, ids, list)
    ensures Listing(store, ids) == list
  {
    var listing := Listing(store, ids);
    if list == [] {
      assert ids == {};
    } else {
      assert list[0] in ids && listing != [];
      HeadAndTail(store, ids, list);
      HeadAndTail(store, ids, listing);
      LeastUnique(store, ids, list[0], listing[0]);
      ListingUnique(store, ids - {list[0]}, list[1..]);
      ListingUnique(store, ids - {list[0]}, listing[1..]);
    }
  }

  /** A query answers by what it matches: equal matches, equal answers. */
  lemma {:induction false} ListingFrame(store: Store, store': Store, ids: set<string>)
    requires ids <= store.Keys && ids <= store'.Keys
    requires forall id :: id in ids ==> store'[id] == store[id]
    ensures Listing(store', ids) == Listing(store, ids)
  {
    var list := Listing(store, ids);
    forall i, j | 0 <= i < j < |list|
      ensures Before(store', list[i], list[j])
    {
      assert Before(store, list[i], list[j]);
    }
    ListingUnique(store', ids, list);
  }
}
