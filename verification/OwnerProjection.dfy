/**
 Whether one person owns an organization, as the stored access document says
 it: a write takes out every grant that says so and puts one back for an
 owner. A read that fails counts as finding nothing.
 */
module OwnerProjection {
  import opened Prelude
  import opened Json
  import opened AccessConfig

  datatype Error = NotAnObject | GrantsNotAList | NotWritten

  /** Who the grant is for: the key it is written with, and earlier keys of the same person. */
  datatype Subject = Subject(key: string, name: string, legacy: seq<string>)

  /** The organization the document is of. */
  datatype Tenant = Tenant(id: string, name: string)

  function Keys(who: Subject): set<string> {
    {who.key} + set k | k in who.legacy
  }

  predicate NamesOwner(g: Json, who: Subject) {
    && GetStr(g, "subjectType") == Some(MEMBER)
    && GetStr(g, "subjectId").Some? && (GetStr(g, "subjectId").value == who.key || GetStr(g, "subjectId").value in who.legacy)
    && GetStr(g, "scopeType") == Some(ORG)
    && GetStr(g, "roleKey") == Some(OWNER)
  }

  /** The grants of a list that are, or are not, the person's owner grants, in order. */
  function Grants(list: seq<Json>, who: Subject, owning: bool): seq<Json> {
    if list == [] then []
    else
      var most, last := Grants(list[..|list| - 1], who, owning), list[|list| - 1];
      if NamesOwner(last, who) == owning then most + [last] else most
  }

  function NewGrant(who: Subject, tenant: Tenant, id: string): Json {
    Obj(map["id" := Str(id), "subjectType" := Str(MEMBER), "subjectId" := Str(who.key), "subjectName" := Str(who.name),
            "roleKey" := Str(OWNER), "scopeType" := Str(ORG), "scopeId" := Str(tenant.id), "scopeName" := Str(tenant.name)])
  }

  /** A document with the roles filled in when it defines none. */
  function WithLadder(doc: Json, ladder: Json): Json {
    if ListAt(doc, "roles") == [] then Obj(Fields(doc)["roles" := ladder]) else doc
  }

  /** What a fresh organization starts with. */
  function Fresh(ladder: Json): Json {
    Obj(map["model" := Str("tenant"), "roles" := ladder, "grants" := Arr([])])
  }

  function Started(existing: Option<Json>, ladder: Json): Json {
    match existing
    case Some(doc) => doc
    case None => Fresh(ladder)
  }

  function NewList(list: seq<Json>, who: Subject, tenant: Tenant, owner: bool, id: string): seq<Json> {
    Grants(list, who, false) + if owner then [NewGrant(who, tenant, id)] else []
  }

  function Projected(existing: Option<Json>, ladder: Json, who: Subject, tenant: Tenant, owner: bool, id: string): Result<Json, Error> {
    var doc := Started(existing, ladder);
    if !doc.Obj? then Err(NotAnObject)
    else if Get(doc, "grants").Some? && !Listed(doc) then Err(GrantsNotAList)
    else Ok(WithGrants(WithLadder(doc, ladder), NewList(ListAt(doc, "grants"), who, tenant, owner, id)))
  }

  method Retain(grants: seq<Json>, who: Subject) returns (kept: seq<Json>)
    ensures kept == Grants(grants, who, false)
  {
    kept := [];
    for i := 0 to |grants|
      invariant kept == Grants(grants[..i], who, false)
    {
      assert grants[..i + 1][..i] == grants[..i];
      if !NamesOwner(grants[i], who) {
        kept := kept + [grants[i]];
      }
    }
    assert grants[..|grants|] == grants;
  }

  /** What a write starts from: nothing, both when nothing is stored and when the read failed. */
  function Got(stored: Option<Json>, read: bool): Option<Json> {
    if read then stored else None
  }

  /** The document written over the stored one. */
  function Written(stored: Option<Json>, read: bool, ladder: Json, who: Subject, tenant: Tenant, owner: bool, id: string): Result<Json, Error> {
    Projected(Got(stored, read), ladder, who, tenant, owner, id)
  }

  /** Account-management's access document of one organization. */
  class StoredAccess {
    var stored: Option<Json>

    constructor (stored: Option<Json>)
      ensures this.stored == stored
    {
      this.stored := stored;
    }

    /** Any read may fail; a failed one says no more than that. */
    method GetMetadata() returns (found: Option<Json>, ghost read: bool)
      ensures found == Got(stored, read)
    {
      var reachable: bool := *;
      found, read := if reachable then stored else None, reachable;
    }

    /** A write with no version expected. */
    method UpsertMetadata(doc: Json) returns (ok: bool)
      modifies this
      ensures stored == if ok then Some(doc) else old(stored)
    {
      ok := *;
      if ok {
        stored := Some(doc);
      }
    }

    /** Makes a person an owner of the organization, or ends it. */
    method SetOwnerGrant(ladder: Json, who: Subject, tenant: Tenant, owner: bool, id: string)
      returns (r: Result<(), Error>, ghost read: bool)
      modifies this
      ensures var written := Written(old(stored), read, ladder, who, tenant, owner, id);
              && (r.Ok? ==> written.Ok? && stored == Some(written.value))
              && (r.Err? ==> stored == old(stored) && (written.Err? ==> r.error == written.error))
              && (r.Err? && written.Ok? ==> r.error == NotWritten)
    {
      var found;
      found, read := GetMetadata();
      var edited := Edit(found, ladder, who, tenant, owner, id);
      if edited.Err? {
        return Err(edited.error), read;
      }
      var ok := UpsertMetadata(edited.value);
      r := if ok then Ok(()) else Err(NotWritten);
    }

    /** The edit of what was read. */
    static method Edit(existing: Option<Json>, ladder: Json, who: Subject, tenant: Tenant, owner: bool, id: string)
      returns (r: Result<Json, Error>)
      ensures r == Projected(existing, ladder, who, tenant, owner, id)
    {
      var config := Started(existing, ladder);
      if !config.Obj? {
        return Err(NotAnObject);
      }
      if ListAt(config, "roles") == [] {
        config := Obj(config.fields["roles" := ladder]);
      }
      if "grants" !in config.fields {
        config := Obj(config.fields["grants" := Arr([])]);
      }
      if !config.fields["grants"].Arr? {
        return Err(GrantsNotAList);
      }
      var grants := Retain(config.fields["grants"].items, who);
      assert grants + [] == grants;
      if owner {
        grants := grants + [NewGrant(who, tenant, id)];
      }
      config := Obj(config.fields["grants" := Arr(grants)]);
      assert config == WithGrants(WithLadder(Started(existing, ladder), ladder), grants);
      r := Ok(config);
    }
  }

  // ----- the grants afterwards

  lemma {:induction false} NewNamesOwner(who: Subject, tenant: Tenant, id: string)
    ensures NamesOwner(NewGrant(who, tenant, id), who)
    ensures GrantOk(NewGrant(who, tenant, id))
    ensures GrantIn(NewGrant(who, tenant, id)) == Grant(MEMBER, who.key, OWNER, ORG, Some(tenant.id))
  {
  }

  lemma {:induction false} GrantsOfGrants(list: seq<Json>, who: Subject, owning: bool)
    ensures Grants(Grants(list, who, false), who, owning) == if owning then [] else Grants(list, who, false)
  {
    hide NamesOwner;
    if list != [] {
      var most, last := list[..|list| - 1], list[|list| - 1];
      GrantsOfGrants(most, who, owning);
      var kept := Grants(most, who, false);
      assert (kept + [last])[..|kept|] == kept;
    }
  }

  lemma {:induction false} GrantsOfNew(list: seq<Json>, who: Subject, tenant: Tenant, owner: bool, id: string)
    ensures Grants(NewList(list, who, tenant, owner, id), who, true) == if owner then [NewGrant(who, tenant, id)] else []
    ensures Grants(NewList(list, who, tenant, owner, id), who, false) == Grants(list, who, false)
  {
    hide NamesOwner, NewGrant;
    var kept := Grants(list, who, false);
    GrantsOfGrants(list, who, true);
    GrantsOfGrants(list, who, false);
    NewNamesOwner(who, tenant, id);
    if owner {
      assert (kept + [NewGrant(who, tenant, id)])[..|kept|] == kept;
      assert [] + [NewGrant(who, tenant, id)] == [NewGrant(who, tenant, id)];
    } else {
      assert kept + [] == kept;
    }
  }

  lemma {:induction false} GrantsAfter(existing: Option<Json>, ladder: Json, who: Subject, tenant: Tenant, owner: bool, id: string)
    requires Projected(existing, ladder, who, tenant, owner, id).Ok?
    ensures var doc, after := Started(existing, ladder), Projected(existing, ladder, who, tenant, owner, id).value;
            && after.Obj? && Listed(after)
            && ListAt(after, "grants") == NewList(ListAt(doc, "grants"), who, tenant, owner, id)
            && ListAt(after, "roles") == (if ListAt(doc, "roles") == [] then ListAt(WithLadder(doc, ladder), "roles") else ListAt(doc, "roles"))
            && Get(after, "model") == Get(doc, "model")
  {
    hide NewList;
  }

  /** The grants of the stored document, whether or not it can be read. */
  function Had(stored: Option<Json>): seq<Json> {
    match stored
    case Some(doc) => ListAt(doc, "grants")
    case None => []
  }

  /**
   The person holds exactly one organization-wide owner grant afterwards, on
   their key, or none at all. Every other grant that was stored is there, in
   its order, exactly when the document was read or had none: after a failed
   read the others' grants are gone.
   */
  lemma {:induction false} OneOwnerGrant(stored: Option<Json>, read: bool, ladder: Json, who: Subject, tenant: Tenant, owner: bool, id: string)
    requires Written(stored, read, ladder, who, tenant, owner, id).Ok?
    ensures var after := ListAt(Written(stored, read, ladder, who, tenant, owner, id).value, "grants");
            && Grants(after, who, true) == (if owner then [NewGrant(who, tenant, id)] else [])
            && (Grants(after, who, false) == Grants(Had(stored), who, false) <==> read || Grants(Had(stored), who, false) == [])
            && (!read ==> Grants(after, who, false) == [])
  {
    hide Projected, NewList;
    var got := Got(stored, read);
    GrantsAfter(got, ladder, who, tenant, owner, id);
    GrantsOfNew(ListAt(Started(got, ladder), "grants"), who, tenant, owner, id);
    FreshIsEmpty(ladder);
  }

  lemma {:induction false} FreshIsEmpty(ladder: Json)
    ensures ListAt(Fresh(ladder), "grants") == [] && ListAt(Fresh(ladder), "roles") == (if ladder.Arr? then ladder.items else [])
  {
  }

  /** Setting it again is setting it once, with the later grant's id. */
  lemma {:induction false} RepeatedOnce(stored: Option<Json>, read: bool, ladder: Json, who: Subject, tenant: Tenant, owner: bool,
                                        id: string, id': string)
    requires Written(stored, read, ladder, who, tenant, owner, id).Ok?
    requires ladder.Arr? && ladder.items != []
    ensures Written(Some(Written(stored, read, ladder, who, tenant, owner, id).value), true, ladder, who, tenant, owner, id') ==
            Written(stored, read, ladder, who, tenant, owner, id')
  {
    hide NewGrant, Grants, NamesOwner;
    var existing := Got(stored, read);
    var doc := Started(existing, ladder);
    var list := ListAt(doc, "grants");
    var once := Projected(existing, ladder, who, tenant, owner, id).value;
    GrantsAfter(existing, ladder, who, tenant, owner, id);
    GrantsOfNew(list, who, tenant, owner, id);
    assert WithLadder(once, ladder) == once;
    var again := NewList(list, who, tenant, owner, id');
    assert NewList(ListAt(once, "grants"), who, tenant, owner, id') == again;
    assert WithGrants(once, again) == WithGrants(WithLadder(doc, ladder), again);
  }

  // ----- authority afterwards

  lemma {:induction false} InGrants(list: seq<Json>, who: Subject, owning: bool)
    ensures forall g :: g in Grants(list, who, owning) <==> g in list && NamesOwner(g, who) == owning
  {
    hide NamesOwner;
    if list != [] {
      InGrants(list[..|list| - 1], who, owning);
      assert list == list[..|list| - 1] + [list[|list| - 1]];
    }
  }

  predicate LadderOk(ladder: Json) {
    ladder.Arr? && forall i :: 0 <= i < |ladder.items| ==> RoleOk(ladder.items[i])
  }

  /** The document can be read once it is written: everything but the person's own grants could be, or its roles are filled in. */
  ghost predicate ReadableAfter(doc: Json, ladder: Json, who: Subject) {
    RestOk(WithLadder(doc, ladder)) && forall g :: g in Grants(ListAt(doc, "grants"), who, false) ==> GrantOk(g)
  }

  lemma {:induction false} WrittenReadable(existing: Option<Json>, ladder: Json, who: Subject, tenant: Tenant, owner: bool, id: string)
    requires LadderOk(ladder) && Projected(existing, ladder, who, tenant, owner, id).Ok?
    ensures var doc, after := Started(existing, ladder), Projected(existing, ladder, who, tenant, owner, id).value;
            && (Readable(after) <==> ReadableAfter(doc, ladder, who))
            && RolesIn(ListAt(after, "roles")) == RolesIn(ListAt(WithLadder(doc, ladder), "roles"))
  {
    hide GrantOk, RoleOk, RoleIn, NewGrant, NamesOwner;
    var doc := Started(existing, ladder);
    var base := WithLadder(doc, ladder);
    var kept := Grants(ListAt(doc, "grants"), who, false);
    var list := NewList(ListAt(doc, "grants"), who, tenant, owner, id);
    GrantsAfter(existing, ladder, who, tenant, owner, id);
    NewNamesOwner(who, tenant, id);
    var after := Projected(existing, ladder, who, tenant, owner, id).value;
    assert after == WithGrants(base, list);
    assert Get(after, "model") == Get(base, "model") && Get(after, "roles") == Get(base, "roles");
    assert GrantsOk(list) <==> forall g :: g in kept ==> GrantOk(g) by {
      assert forall g :: g in kept ==> g in list;
    }
  }

  /** What others hold is what was written for them, once the document can be read. */
  lemma {:induction false} OthersHold(existing: Option<Json>, ladder: Json, who: Subject, tenant: Tenant, owner: bool, id: string,
                                      subjects: set<string>, privilege: string)
    requires LadderOk(ladder) && Projected(existing, ladder, who, tenant, owner, id).Ok? && subjects !! Keys(who)
    ensures var doc, after := Started(existing, ladder), Projected(existing, ladder, who, tenant, owner, id).value;
            var list, roles := ListAt(doc, "grants"), RolesIn(ListAt(WithLadder(doc, ladder), "roles"));
            && (OwnershipTo(Read(after), subjects) <==> ReadableAfter(doc, ladder, who) && SomeOwner(list, subjects))
            && (PrivilegeTo(Read(after), subjects, privilege) <==>
                  ReadableAfter(doc, ladder, who) && SomePrivilege(roles, list, subjects, privilege))
  {
    hide Projected, GrantOk, NewGrant, NamesOwner, OwnerWritten, PrivilegeWritten, ReadableAfter, Readable, WithLadder;
    var doc := Started(existing, ladder);
    var after := Projected(existing, ladder, who, tenant, owner, id).value;
    WrittenReadable(existing, ladder, who, tenant, owner, id);
    GrantsAfter(existing, ladder, who, tenant, owner, id);
    OthersWritten(ListAt(doc, "grants"), who, tenant, owner, id, RolesIn(ListAt(WithLadder(doc, ladder), "roles")), subjects, privilege);
    if Readable(after) {
      AnswersAsWritten(after, subjects, privilege, "p");
    } else {
      Unread(after, subjects, privilege);
    }
  }

  lemma {:induction false} Unread(doc: Json, subjects: set<string>, privilege: string)
    requires !Readable(doc)
    ensures !OwnershipTo(Read(doc), subjects) && !PrivilegeTo(Read(doc), subjects, privilege)
  {
    hide Readable;
  }

  /** The grants by which others hold anything are all there, and no other. */
  lemma {:induction false} OthersWritten(list: seq<Json>, who: Subject, tenant: Tenant, owner: bool, id: string,
                                         roles: seq<Role>, subjects: set<string>, privilege: string)
    requires subjects !! Keys(who)
    ensures var after := NewList(list, who, tenant, owner, id);
            && (SomeOwner(after, subjects) <==> SomeOwner(list, subjects))
            && (SomePrivilege(roles, after, subjects, privilege) <==> SomePrivilege(roles, list, subjects, privilege))
  {
    hide NamesOwner, NewGrant, OwnerWritten, PrivilegeWritten, Keys;
    var after := NewList(list, who, tenant, owner, id);
    var kept := Grants(list, who, false);
    InGrants(list, who, false);
    NewNamesOwner(who, tenant, id);
    forall g | NamesOwner(g, who)
      ensures !OwnerWritten(g, subjects) && !PrivilegeWritten(roles, g, subjects, privilege)
    {
      NotOthers(g, who, roles, subjects, privilege);
    }
    forall i | 0 <= i < |list| && !NamesOwner(list[i], who)
      ensures exists k :: 0 <= k < |after| && after[k] == list[i]
    {
      assert list[i] in kept;
      var k :| 0 <= k < |kept| && kept[k] == list[i];
      assert after[k] == list[i];
    }
    forall k | 0 <= k < |after| && !NamesOwner(after[k], who)
      ensures exists i :: 0 <= i < |list| && list[i] == after[k]
    {
      assert after[k] in kept;
    }
  }

  lemma {:induction false} NotOthers(g: Json, who: Subject, roles: seq<Role>, subjects: set<string>, privilege: string)
    requires NamesOwner(g, who) && subjects !! Keys(who)
    ensures !OwnerWritten(g, subjects) && !PrivilegeWritten(roles, g, subjects, privilege)
  {
  }

  /** The roles of a document whose ladder is filled in carry all they carried. */
  lemma {:induction false} LadderCarriesMore(doc: Json, ladder: Json, list: seq<Json>, subjects: set<string>, privilege: string)
    ensures var roles, filled := RolesIn(ListAt(doc, "roles")), RolesIn(ListAt(WithLadder(doc, ladder), "roles"));
            && (SomePrivilege(roles, list, subjects, privilege) ==> SomePrivilege(filled, list, subjects, privilege))
            && (ListAt(doc, "roles") != [] ==> filled == roles)
  {
    hide RoleIn, Carries;
    var roles, filled := RolesIn(ListAt(doc, "roles")), RolesIn(ListAt(WithLadder(doc, ladder), "roles"));
    if i :| 0 <= i < |list| && PrivilegeWritten(roles, list[i], subjects, privilege) {
      assert PrivilegeWritten(filled, list[i], subjects, privilege);
    }
  }

  /** What is read of the stored document: nothing when there is none. */
  function ReadStored(stored: Option<Json>): Access {
    match stored
    case Some(doc) => Read(doc)
    case None => Access("", [], [])
  }

  lemma {:induction false} StaysReadableAfter(doc: Json, ladder: Json, who: Subject)
    requires LadderOk(ladder) && Readable(doc)
    ensures ReadableAfter(doc, ladder, who)
  {
    hide GrantOk, RoleOk, NamesOwner;
    InGrants(ListAt(doc, "grants"), who, false);
    assert Get(WithLadder(doc, ladder), "model") == Get(doc, "model") && Get(WithLadder(doc, ladder), "grants") == Get(doc, "grants");
  }

  /**
   Nobody else loses a privilege, or the ownership, they held in the stored
   document, exactly when it was read or they held none.
   */
  lemma {:induction false} OthersKeepPrivileges(stored: Option<Json>, read: bool, ladder: Json, who: Subject, tenant: Tenant, owner: bool, id: string,
                                                subjects: set<string>, privilege: string)
    requires LadderOk(ladder) && Written(stored, read, ladder, who, tenant, owner, id).Ok? && subjects !! Keys(who)
    ensures var before, after := ReadStored(stored), Read(Written(stored, read, ladder, who, tenant, owner, id).value);
            && ((OwnershipTo(before, subjects) ==> OwnershipTo(after, subjects)) <==> read || !OwnershipTo(before, subjects))
            && ((PrivilegeTo(before, subjects, privilege) ==> PrivilegeTo(after, subjects, privilege)) <==>
                  read || !PrivilegeTo(before, subjects, privilege))
  {
    hide Projected, Readable, ReadableAfter, WithLadder, SomeOwner, SomePrivilege, Read, OwnershipTo, PrivilegeTo, Fresh;
    var got := Got(stored, read);
    OthersHold(got, ladder, who, tenant, owner, id, subjects, privilege);
    FreshHolds(ladder, subjects, privilege);
    NoneHold(subjects, privilege);
    if got.Some? {
      var doc := got.value;
      LadderCarriesMore(doc, ladder, ListAt(doc, "grants"), subjects, privilege);
      if Readable(doc) {
        AnswersAsWritten(doc, subjects, privilege, "p");
        StaysReadableAfter(doc, ladder, who);
      } else {
        Unread(doc, subjects, privilege);
      }
    }
  }

  /**
   Nobody else gains one, exactly unless the document could not be read and
   now can, or defined no roles and the ladder gives them one.
   */
  lemma {:induction false} OthersGainNothing(stored: Option<Json>, read: bool, ladder: Json, who: Subject, tenant: Tenant, owner: bool, id: string,
                                             subjects: set<string>, privilege: string)
    requires LadderOk(ladder) && Written(stored, read, ladder, who, tenant, owner, id).Ok? && subjects !! Keys(who)
    ensures var before, after := ReadStored(stored), Read(Written(stored, read, ladder, who, tenant, owner, id).value);
            var doc := Started(stored, ladder);
            && ((OwnershipTo(after, subjects) ==> OwnershipTo(before, subjects)) <==>
                  !read || Readable(doc) || !ReadableAfter(doc, ladder, who) || !SomeOwner(Had(stored), subjects))
            && ((PrivilegeTo(after, subjects, privilege) ==> PrivilegeTo(before, subjects, privilege)) <==>
                  !read || (Readable(doc) && SomePrivilege(RolesIn(ListAt(doc, "roles")), Had(stored), subjects, privilege))
                  || !ReadableAfter(doc, ladder, who)
                  || !SomePrivilege(RolesIn(ListAt(WithLadder(doc, ladder), "roles")), Had(stored), subjects, privilege))
            && (Readable(doc) && ListAt(doc, "roles") != [] ==>
                  (PrivilegeTo(after, subjects, privilege) ==> PrivilegeTo(before, subjects, privilege)))
  {
    hide Projected, Readable, ReadableAfter, WithLadder, SomeOwner, SomePrivilege, Read, OwnershipTo, PrivilegeTo, Fresh;
    var got := Got(stored, read);
    OthersHold(got, ladder, who, tenant, owner, id, subjects, privilege);
    FreshHolds(ladder, subjects, privilege);
    NoneHold(subjects, privilege);
    if got.Some? {
      var doc := got.value;
      LadderCarriesMore(doc, ladder, ListAt(doc, "grants"), subjects, privilege);
      if Readable(doc) {
        AnswersAsWritten(doc, subjects, privilege, "p");
      } else {
        Unread(doc, subjects, privilege);
      }
    }
  }

  lemma {:induction false} FreshHolds(ladder: Json, subjects: set<string>, privilege: string)
    ensures !SomeOwner(ListAt(Fresh(ladder), "grants"), subjects) && !SomeOwner([], subjects)
    ensures forall roles :: !SomePrivilege(roles, ListAt(Fresh(ladder), "grants"), subjects, privilege)
    ensures forall roles :: !SomePrivilege(roles, [], subjects, privilege)
  {
    hide OwnerWritten, PrivilegeWritten;
  }

  lemma {:induction false} NoneHold(subjects: set<string>, privilege: string)
    ensures !OwnershipTo(Access("", [], []), subjects) && !PrivilegeTo(Access("", [], []), subjects, privilege)
  {
  }

  /** The failing case: one other owner is stored, the read fails, and they own nothing afterwards. */
  lemma {:induction false} FailedReadForgets(other: string, ladder: Json, who: Subject, tenant: Tenant, owner: bool, id: string)
    requires LadderOk(ladder) && other !in Keys(who)
    ensures var stored := Some(GrantsOnly([GrantJson(other, OWNER, ORG, None)]));
            var written := Written(stored, false, ladder, who, tenant, owner, id);
            && OwnershipTo(ReadStored(stored), {other})
            && written.Ok? && !OwnershipTo(Read(written.value), {other})
  {
    hide GrantJson, Read, OwnershipTo, SomeOwner;
    var rekey: Rekey := (s: string) => None;
    OneOwner(other, rekey, {other});
    OthersHold(None, ladder, who, tenant, owner, id, {other}, "");
    FreshHolds(ladder, {other}, "");
  }

  lemma {:induction false} OwnersOwn(list: seq<Json>, who: Subject, tenant: Tenant, owner: bool, id: string)
    ensures SomeOwner(NewList(list, who, tenant, owner, id), Keys(who)) <==> owner
  {
    hide NamesOwner, NewGrant, OwnerWritten, Keys;
    var after := NewList(list, who, tenant, owner, id);
    var kept := Grants(list, who, false);
    InGrants(list, who, false);
    NewNamesOwner(who, tenant, id);
    forall k | 0 <= k < |after|
      ensures OwnerWritten(after[k], Keys(who)) <==> k >= |kept|
    {
      WrittenNames(after[k], who);
      if k < |kept| {
        assert kept[k] in kept;
      }
    }
    assert owner ==> OwnerWritten(after[|kept|], Keys(who));
  }

  lemma {:induction false} WrittenNames(g: Json, who: Subject)
    ensures OwnerWritten(g, Keys(who)) <==> NamesOwner(g, who)
  {
  }

  /** The person is an owner afterwards exactly when they were to be one, and the document can be read. */
  lemma {:induction false} OwnerAsAsked(stored: Option<Json>, read: bool, ladder: Json, who: Subject, tenant: Tenant, owner: bool, id: string)
    requires LadderOk(ladder) && Written(stored, read, ladder, who, tenant, owner, id).Ok?
    ensures OwnershipTo(Read(Written(stored, read, ladder, who, tenant, owner, id).value), Keys(who)) <==>
            owner && ReadableAfter(Started(Got(stored, read), ladder), ladder, who)
  {
    hide Projected, Started, Read, Readable, ReadableAfter, SomeOwner, Keys, OwnershipTo;
    var got := Got(stored, read);
    var after := Written(stored, read, ladder, who, tenant, owner, id).value;
    WrittenReadable(got, ladder, who, tenant, owner, id);
    GrantsAfter(got, ladder, who, tenant, owner, id);
    OwnersOwn(ListAt(Started(got, ladder), "grants"), who, tenant, owner, id);
    if Readable(after) {
      AnswersAsWritten(after, Keys(who), "", "p");
    } else {
      Unread(after, Keys(who), "");
    }
  }
}
