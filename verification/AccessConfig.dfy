/**
 An organization's access document: who holds which role where, the questions
 asked of it, and the two ways its grants are rewritten.
 */
module AccessConfig {
  import opened Prelude
  import opened Json

  const MEMBER := "member"
  const ORG := "org"
  const PROJECT := "project"
  const OWNER := "owner"

  datatype Role = Role(key: string, privileges: seq<string>)

  datatype Grant = Grant(subjectType: string, subjectId: string, roleKey: string, scopeType: string, scopeId: Option<string>)

  datatype Access = Access(model: string, roles: seq<Role>, grants: seq<Grant>)

  // ----- reading the document

  function OrEmpty(s: Option<string>): string {
    match s
    case Some(t) => t
    case None => ""
  }

  predicate GrantOk(g: Json) {
    && GetStr(g, "subjectType").Some? && GetStr(g, "subjectId").Some?
    && GetStr(g, "roleKey").Some? && GetStr(g, "scopeType").Some?
    && (Get(g, "scopeId").Some? ==> Get(g, "scopeId").value.Null? || Get(g, "scopeId").value.Str?)
  }

  function GrantIn(g: Json): Grant {
    Grant(OrEmpty(GetStr(g, "subjectType")), OrEmpty(GetStr(g, "subjectId")), OrEmpty(GetStr(g, "roleKey")),
          OrEmpty(GetStr(g, "scopeType")), GetStr(g, "scopeId"))
  }

  predicate RoleOk(r: Json) {
    && GetStr(r, "key").Some?
    && (Get(r, "privileges").Some? ==>
          && Get(r, "privileges").value.Arr?
          && forall i :: 0 <= i < |ListAt(r, "privileges")| ==> ListAt(r, "privileges")[i].Str?)
  }

  /** The items of a list field; none when it is missing or no list. */
  function ListAt(v: Json, field: string): seq<Json> {
    match Get(v, field)
    case Some(Arr(items)) => items
    case _ => []
  }

  function RoleIn(r: Json): Role {
    var list := ListAt(r, "privileges");
    Role(OrEmpty(GetStr(r, "key")), seq(|list|, i requires 0 <= i < |list| => if list[i].Str? then list[i].s else ""))
  }

  function RolesIn(list: seq<Json>): (roles: seq<Role>)
    ensures |roles| == |list|
    ensures forall i :: 0 <= i < |list| ==> roles[i] == RoleIn(list[i])
  {
    seq(|list|, i requires 0 <= i < |list| => RoleIn(list[i]))
  }

  function GrantsIn(list: seq<Json>): (grants: seq<Grant>)
    ensures |grants| == |list|
    ensures forall i :: 0 <= i < |list| ==> grants[i] == GrantIn(list[i])
  {
    seq(|list|, i requires 0 <= i < |list| => GrantIn(list[i]))
  }

  /** Everything but the grants can be read. */
  predicate RestOk(doc: Json) {
    && doc.Obj?
    && (Get(doc, "model").Some? ==> Get(doc, "model").value.Str?)
    && (Get(doc, "roles").Some? ==> Get(doc, "roles").value.Arr?)
    && (forall i :: 0 <= i < |ListAt(doc, "roles")| ==> RoleOk(ListAt(doc, "roles")[i]))
    && (Get(doc, "grants").Some? ==> Get(doc, "grants").value.Arr?)
  }

  predicate GrantsOk(list: seq<Json>) {
    forall i :: 0 <= i < |list| ==> GrantOk(list[i])
  }

  predicate Readable(doc: Json) {
    RestOk(doc) && GrantsOk(ListAt(doc, "grants"))
  }

  /** The document as it is read; one that cannot be read grants nothing. */
  function Read(doc: Json): Access {
    if Readable(doc) then
      Access(OrEmpty(GetStr(doc, "model")), RolesIn(ListAt(doc, "roles")), GrantsIn(ListAt(doc, "grants")))
    else Access("", [], [])
  }

  // ----- the questions

  predicate EndsWith(s: string, end: string) {
    |end| <= |s| && s[|s| - |end|..] == end
  }

  predicate Writes(p: string) {
    EndsWith(p, ".edit") || EndsWith(p, ".manage")
  }

  /** A role carries a privilege it lists, and reading or writing domain objects by implication. */
  predicate Carries(privileges: seq<string>, wanted: string) {
    || wanted in privileges
    || (wanted == "domain.view" && exists p :: p in privileges && (EndsWith(p, ".view") || Writes(p)))
    || (wanted == "domain.edit" && exists p :: p in privileges && p != "domain.model" && Writes(p))
  }

  predicate Sees(p: string) {
    EndsWith(p, ".view") || Writes(p)
  }

  /**
   A role reads domain objects exactly when it may see or change anything,
   and writes them exactly when it may change anything: naming the privilege
   itself adds nothing, and the one left out would not count anyway. Any
   other privilege it must list.
   */
  lemma {:induction false} CarriesExactly(privileges: seq<string>, wanted: string)
    ensures Carries(privileges, "domain.view") <==> exists p :: p in privileges && Sees(p)
    ensures Carries(privileges, "domain.edit") <==> exists p :: p in privileges && Writes(p)
    ensures wanted !in {"domain.view", "domain.edit"} ==> (Carries(privileges, wanted) <==> wanted in privileges)
  {
    assert "domain.edit"[|"domain.edit"| - 5..] == ".edit" && Writes("domain.edit");
    assert "domain.view"[|"domain.view"| - 5..] == ".view" && Sees("domain.view");
    assert "domain.model"[|"domain.model"| - 5..] == "model" && !EndsWith("domain.model", ".edit");
    assert "domain.model"[|"domain.model"| - 7..][0] != ".manage"[0] && !EndsWith("domain.model", ".manage");
  }

  function FindRole(roles: seq<Role>, key: string): Option<Role> {
    if roles == [] then None else if roles[0].key == key then Some(roles[0]) else FindRole(roles[1..], key)
  }

  /** An owner's authority is not looked up. */
  predicate RoleCarries(roles: seq<Role>, key: string, privilege: string) {
    || key == OWNER
    || (FindRole(roles, key).Some? && Carries(FindRole(roles, key).value.privileges, privilege))
  }

  predicate OwnerGrant(g: Grant, subjects: set<string>) {
    g.subjectType == MEMBER && g.subjectId in subjects && g.roleKey == OWNER && g.scopeType == ORG
  }

  predicate OwnershipTo(access: Access, subjects: set<string>) {
    exists i :: 0 <= i < |access.grants| && OwnerGrant(access.grants[i], subjects)
  }

  predicate PrivilegeGrant(roles: seq<Role>, g: Grant, subjects: set<string>, privilege: string) {
    g.subjectType == MEMBER && g.subjectId in subjects && g.scopeType == ORG && RoleCarries(roles, g.roleKey, privilege)
  }

  predicate PrivilegeTo(access: Access, subjects: set<string>, privilege: string) {
    exists i :: 0 <= i < |access.grants| && PrivilegeGrant(access.roles, access.grants[i], subjects, privilege)
  }

  predicate OnProject(g: Grant, project: string) {
    g.subjectType == MEMBER && (g.scopeType == ORG || (g.scopeType == PROJECT && g.scopeId == Some(project)))
  }

  /** Whom the member grants put on a project. */
  function SubjectsOn(access: Access, project: string): set<string> {
    set i | 0 <= i < |access.grants| && OnProject(access.grants[i], project) :: access.grants[i].subjectId
  }

  /** An owner holds every privilege, whatever roles the document defines. */
  lemma {:induction false} OwnersHoldAll(access: Access, subjects: set<string>, privilege: string)
    ensures OwnershipTo(access, subjects) ==> PrivilegeTo(access, subjects, privilege)
  {
    hide Carries;
    if i :| 0 <= i < |access.grants| && OwnerGrant(access.grants[i], subjects) {
      assert PrivilegeGrant(access.roles, access.grants[i], subjects, privilege);
    }
  }

  /** Whoever holds a privilege across the organization is on every project. */
  lemma {:induction false} PrivilegedAreMembers(access: Access, subjects: set<string>, privilege: string, project: string)
    requires PrivilegeTo(access, subjects, privilege)
    ensures exists id :: id in subjects && id in SubjectsOn(access, project)
  {
    hide RoleCarries;
    var i :| 0 <= i < |access.grants| && PrivilegeGrant(access.roles, access.grants[i], subjects, privilege);
    assert OnProject(access.grants[i], project);
    assert access.grants[i].subjectId in SubjectsOn(access, project);
  }

  /** A grant that is not across the organization, or not a member's, adds nothing to what anybody may do there. */
  lemma {:induction false} OthersAdministerNothing(access: Access, extra: Grant, subjects: set<string>, privilege: string)
    requires extra.subjectType != MEMBER || extra.scopeType != ORG
    ensures var more := access.(grants := access.grants + [extra]);
            && (PrivilegeTo(more, subjects, privilege) <==> PrivilegeTo(access, subjects, privilege))
            && (OwnershipTo(more, subjects) <==> OwnershipTo(access, subjects))
  {
    hide RoleCarries;
    var more := access.(grants := access.grants + [extra]);
    assert !PrivilegeGrant(access.roles, extra, subjects, privilege) && !OwnerGrant(extra, subjects);
    forall i | 0 <= i < |access.grants|
      ensures more.grants[i] == access.grants[i]
    {
    }
    if i :| 0 <= i < |access.grants| && PrivilegeGrant(access.roles, access.grants[i], subjects, privilege) {
      assert PrivilegeGrant(more.roles, more.grants[i], subjects, privilege);
    }
    if i :| 0 <= i < |access.grants| && OwnerGrant(access.grants[i], subjects) {
      assert OwnerGrant(more.grants[i], subjects);
    }
  }

  // ----- rekeying

  type Rekey = string -> Option<string>

  /** The key a subject goes by after the rewrite. */
  function KeyFor(rekey: Rekey, id: string): string {
    match rekey(id)
    case Some(k) => k
    case None => id
  }

  /** A member grant names a subject that goes by another key. */
  predicate Moves(g: Json, rekey: Rekey) {
    && GetStr(g, "subjectType") == Some(MEMBER) && GetStr(g, "subjectId").Some?
    && KeyFor(rekey, GetStr(g, "subjectId").value) != GetStr(g, "subjectId").value
  }

  function Rewritten(g: Json, rekey: Rekey): Json {
    if Moves(g, rekey) then Obj(g.fields["subjectId" := Str(KeyFor(rekey, GetStr(g, "subjectId").value))]) else g
  }

  function AllRewritten(list: seq<Json>, rekey: Rekey): (r: seq<Json>)
    ensures |r| == |list|
    ensures forall i :: 0 <= i < |list| ==> r[i] == Rewritten(list[i], rekey)
  {
    seq(|list|, i requires 0 <= i < |list| => Rewritten(list[i], rekey))
  }

  /** What two grants have in common when they are one: an organization's grant has no scope of its own. */
  function Identity(g: Json): (string, string, string, string, string) {
    var scope := OrEmpty(GetStr(g, "scopeType"));
    (OrEmpty(GetStr(g, "subjectType")), OrEmpty(GetStr(g, "subjectId")), OrEmpty(GetStr(g, "roleKey")), scope,
     if scope == ORG then "" else OrEmpty(GetStr(g, "scopeId")))
  }

  predicate Repeats(list: seq<Json>, g: Json) {
    exists j :: 0 <= j < |list| && Identity(list[j]) == Identity(g)
  }

  /** Of grants that are one, the first. */
  function Deduped(list: seq<Json>): seq<Json> {
    if list == [] then []
    else
      var most, last := list[..|list| - 1], list[|list| - 1];
      if Repeats(most, last) then Deduped(most) else Deduped(most) + [last]
  }

  predicate Listed(doc: Json) {
    Get(doc, "grants").Some? && Get(doc, "grants").value.Arr?
  }

  function WithGrants(doc: Json, list: seq<Json>): Json {
    Obj(Fields(doc)["grants" := Arr(list)])
  }

  function Rekeyed(doc: Json, rekey: Rekey): Json {
    if Listed(doc) then WithGrants(doc, Deduped(AllRewritten(ListAt(doc, "grants"), rekey))) else doc
  }

  function Moving(list: seq<Json>, rekey: Rekey): nat {
    if list == [] then 0 else Moving(list[..|list| - 1], rekey) + if Moves(list[|list| - 1], rekey) then 1 else 0
  }

  /** The document, edited in place. */
  class AccessDocument {
    var doc: Json

    constructor (doc: Json)
      ensures this.doc == doc
    {
      this.doc := doc;
    }

    /** Points every member grant at the key its subject goes by; how many grants that changed or dropped. */
    method RekeyMemberGrants(rekey: Rekey) returns (count: nat)
      modifies this
      ensures doc == Rekeyed(old(doc), rekey)
      ensures count == Moving(ListAt(old(doc), "grants"), rekey)
                       + |ListAt(old(doc), "grants")| - |ListAt(doc, "grants")|
    {
      if !Listed(doc) {
        return 0;
      }
      hide Moving, Deduped, Identity;
      var grants, changed := RewriteAll(ListAt(doc, "grants"), rekey);
      var kept := Retain(grants);
      doc := WithGrants(doc, kept);
      DedupedShorter(grants);
      count := changed + (|grants| - |kept|);
    }

    static method RewriteAll(list: seq<Json>, rekey: Rekey) returns (grants: seq<Json>, changed: nat)
      ensures grants == AllRewritten(list, rekey) && changed == Moving(list, rekey)
    {
      hide Moves, Rewritten;
      grants, changed := list, 0;
      for i := 0 to |grants|
        invariant |grants| == |list| && changed == Moving(list[..i], rekey)
        invariant forall j :: 0 <= j < i ==> grants[j] == Rewritten(list[j], rekey)
        invariant forall j :: i <= j < |list| ==> grants[j] == list[j]
      {
        assert list[..i + 1][..i] == list[..i];
        var grant, moved := Rewrite(grants[i], rekey);
        if moved {
          grants, changed := grants[i := grant], changed + 1;
        }
      }
      assert list[..|list|] == list;
    }

    static method Rewrite(grant: Json, rekey: Rekey) returns (r: Json, moved: bool)
      ensures r == Rewritten(grant, rekey) && moved == Moves(grant, rekey) && (!moved ==> r == grant)
    {
      r, moved := grant, false;
      if GetStr(grant, "subjectType") != Some(MEMBER) || GetStr(grant, "subjectId").None? {
        return;
      }
      var id := GetStr(grant, "subjectId").value;
      var key := rekey(id);
      if key.Some? && key.value != id {
        r, moved := Obj(grant.fields["subjectId" := Str(key.value)]), true;
      }
    }

    static method Retain(grants: seq<Json>) returns (kept: seq<Json>)
      ensures kept == Deduped(grants)
    {
      hide Identity;
      kept := [];
      var seen: set<(string, string, string, string, string)> := {};
      for i := 0 to |grants|
        invariant kept == Deduped(grants[..i])
        invariant seen == set j | 0 <= j < i :: Identity(grants[j])
      {
        assert grants[..i + 1][..i] == grants[..i];
        assert Repeats(grants[..i], grants[i]) <==> Identity(grants[i]) in seen;
        if Identity(grants[i]) !in seen {
          kept := kept + [grants[i]];
        }
        seen := seen + {Identity(grants[i])};
      }
      assert grants[..|grants|] == grants;
    }
  }

  lemma {:induction false} DedupedShorter(list: seq<Json>)
    ensures |Deduped(list)| <= |list|
    ensures |Deduped(list)| == |list| ==> Deduped(list) == list
  {
    if list != [] {
      DedupedShorter(list[..|list| - 1]);
    }
  }

  /** What is kept is a grant of the list that no earlier one is. */
  predicate First(list: seq<Json>, i: nat)
    requires i < |list|
  {
    !Repeats(list[..i], list[i])
  }

  lemma {:induction false} DedupedAre(list: seq<Json>)
    ensures forall g :: g in Deduped(list) <==> exists i :: 0 <= i < |list| && list[i] == g && First(list, i)
  {
    hide Identity;
    if list != [] {
      var n := |list| - 1;
      var most := list[..n];
      DedupedAre(most);
      forall i | 0 <= i < n
        ensures most[i] == list[i] && (First(list, i) <==> First(most, i))
      {
        assert most[..i] == list[..i];
      }
    }
  }

  /** Every grant of the list is one with one that is kept. */
  lemma {:induction false} DedupedCovers(list: seq<Json>, i: nat)
    requires i < |list|
    ensures exists h :: h in Deduped(list) && Identity(h) == Identity(list[i])
  {
    hide Identity;
    if First(list, i) {
      DedupedAre(list);
      assert list[i] in Deduped(list);
    } else {
      var j :| 0 <= j < |list[..i]| && Identity(list[..i][j]) == Identity(list[i]);
      DedupedCovers(list, j);
    }
  }

  /** Counted nothing exactly when nothing changed. */
  lemma {:induction false} RekeyedCount(doc: Json, rekey: Rekey)
    requires Listed(doc)
    ensures var list, after := ListAt(doc, "grants"), ListAt(Rekeyed(doc, rekey), "grants");
            Moving(list, rekey) + |list| - |after| == 0 <==> Rekeyed(doc, rekey) == doc
  {
    hide Identity, Moves;
    var list := ListAt(doc, "grants");
    var moved := AllRewritten(list, rekey);
    DedupedShorter(moved);
    MovingNone(list, rekey);
    assert Rekeyed(doc, rekey) == doc <==> Deduped(moved) == list;
  }

  lemma {:induction false} MovingNone(list: seq<Json>, rekey: Rekey)
    ensures Moving(list, rekey) == 0 <==> AllRewritten(list, rekey) == list
  {
    if list != [] {
      var n := |list| - 1;
      MovingNone(list[..n], rekey);
      assert AllRewritten(list, rekey)[..n] == AllRewritten(list[..n], rekey);
      assert Moves(list[n], rekey) <==> Rewritten(list[n], rekey) != list[n];
      assert list == list[..n] + [list[n]];
      assert AllRewritten(list, rekey) == AllRewritten(list[..n], rekey) + [Rewritten(list[n], rekey)];
    }
  }

  // ----- what rekeying keeps

  /** A subject set names the same people before and after. */
  ghost predicate Closed(rekey: Rekey, subjects: set<string>) {
    forall id :: id in subjects <==> KeyFor(rekey, id) in subjects
  }

  function MovedGrant(g: Grant, rekey: Rekey): Grant {
    if g.subjectType == MEMBER then g.(subjectId := KeyFor(rekey, g.subjectId)) else g
  }

  /** Two grants that answer every question alike, unless it is about a project without a name. */
  predicate OneGrant(g: Grant, h: Grant) {
    && g.subjectType == h.subjectType && g.subjectId == h.subjectId && g.roleKey == h.roleKey && g.scopeType == h.scopeType
    && (g.scopeType != ORG ==> OrEmpty(g.scopeId) == OrEmpty(h.scopeId))
  }

  lemma {:induction false} RewrittenReads(g: Json, rekey: Rekey)
    ensures GrantOk(Rewritten(g, rekey)) <==> GrantOk(g)
    ensures GrantOk(g) ==> GrantIn(Rewritten(g, rekey)) == MovedGrant(GrantIn(g), rekey)
  {
  }

  lemma {:induction false} IdentityReads(g: Json, h: Json)
    requires GrantOk(g) && GrantOk(h) && Identity(g) == Identity(h)
    ensures OneGrant(GrantIn(g), GrantIn(h))
  {
  }

  /** The grants after rekeying, against the grants before. */
  lemma {:induction false} RekeyedGrants(list: seq<Json>, rekey: Rekey)
    requires GrantsOk(list)
    ensures var after := Deduped(AllRewritten(list, rekey));
            && GrantsOk(after)
            && (forall k :: 0 <= k < |after| ==> From(GrantsIn(list), GrantIn(after[k]), rekey))
            && (forall i :: 0 <= i < |list| ==> Has(GrantsIn(after), MovedGrant(GrantIn(list[i]), rekey)))
  {
    hide Rewritten, GrantOk, GrantIn, Identity, MovedGrant, OneGrant;
    var moved := AllRewritten(list, rekey);
    var after := Deduped(moved);
    DedupedAre(moved);
    forall i | 0 <= i < |list|
      ensures GrantOk(moved[i]) && GrantIn(moved[i]) == MovedGrant(GrantIn(list[i]), rekey)
    {
      RewrittenReads(list[i], rekey);
    }
    forall k | 0 <= k < |after|
      ensures GrantOk(after[k])
      ensures From(GrantsIn(list), GrantIn(after[k]), rekey)
    {
      assert after[k] in after;
      var i :| 0 <= i < |moved| && moved[i] == after[k];
      assert GrantIn(after[k]) == MovedGrant(GrantsIn(list)[i], rekey);
    }
    forall i | 0 <= i < |list|
      ensures Has(GrantsIn(after), MovedGrant(GrantIn(list[i]), rekey))
    {
      DedupedCovers(moved, i);
      var h :| h in after && Identity(h) == Identity(moved[i]);
      var k :| 0 <= k < |after| && after[k] == h;
      IdentityReads(h, moved[i]);
      assert OneGrant(GrantsIn(after)[k], MovedGrant(GrantIn(list[i]), rekey));
    }
  }

  /** Only the grants of a document change. */
  lemma {:induction false} RekeyedRest(doc: Json, rekey: Rekey)
    ensures RestOk(Rekeyed(doc, rekey)) <==> RestOk(doc)
    ensures GetStr(Rekeyed(doc, rekey), "model") == GetStr(doc, "model")
    ensures ListAt(Rekeyed(doc, rekey), "roles") == ListAt(doc, "roles")
    ensures ListAt(Rekeyed(doc, rekey), "grants") == Deduped(AllRewritten(ListAt(doc, "grants"), rekey))
  {
    hide RoleOk, Rewritten, Repeats;
    assert AllRewritten([], rekey) == [];
    var after := Rekeyed(doc, rekey);
    assert Get(after, "model") == Get(doc, "model") && Get(after, "roles") == Get(doc, "roles");
    assert ListAt(after, "roles") == ListAt(doc, "roles");
    assert Listed(after) <==> Listed(doc);
  }

  /** A grant is one of `grants`, rekeyed. */
  ghost predicate From(grants: seq<Grant>, g: Grant, rekey: Rekey) {
    exists i :: 0 <= i < |grants| && g == MovedGrant(grants[i], rekey)
  }

  /** One of `grants` is one with `g`. */
  ghost predicate Has(grants: seq<Grant>, g: Grant) {
    exists k :: 0 <= k < |grants| && OneGrant(grants[k], g)
  }

  /** What is read after rekeying, against what was read before. */
  ghost predicate ReadsAs(a: Access, b: Access, rekey: Rekey) {
    && b.model == a.model && b.roles == a.roles
    && (forall k :: 0 <= k < |b.grants| ==> From(a.grants, b.grants[k], rekey))
    && (forall i :: 0 <= i < |a.grants| ==> Has(b.grants, MovedGrant(a.grants[i], rekey)))
  }

  lemma {:induction false} RekeyedReads(doc: Json, rekey: Rekey)
    requires Readable(doc)
    ensures Readable(Rekeyed(doc, rekey)) && ReadsAs(Read(doc), Read(Rekeyed(doc, rekey)), rekey)
  {
    hide GrantOk, GrantIn, MovedGrant, OneGrant, RestOk, RoleOk, Rekeyed, Deduped, RoleIn, From, Has;
    RekeyedRest(doc, rekey);
    RekeyedGrants(ListAt(doc, "grants"), rekey);
  }

  lemma {:induction false} AuthorityReads(a: Access, b: Access, rekey: Rekey, subjects: set<string>, privilege: string)
    requires ReadsAs(a, b, rekey) && Closed(rekey, subjects)
    ensures OwnershipTo(b, subjects) <==> OwnershipTo(a, subjects)
    ensures PrivilegeTo(b, subjects, privilege) <==> PrivilegeTo(a, subjects, privilege)
  {
  }

  /** In a document that can be read, everybody whose keys are rekeyed among themselves keeps what they hold. */
  lemma {:induction false} ReadableKeeps(doc: Json, rekey: Rekey, subjects: set<string>, privilege: string)
    requires Readable(doc) && Closed(rekey, subjects)
    ensures OwnershipTo(Read(Rekeyed(doc, rekey)), subjects) <==> OwnershipTo(Read(doc), subjects)
    ensures PrivilegeTo(Read(Rekeyed(doc, rekey)), subjects, privilege) <==> PrivilegeTo(Read(doc), subjects, privilege)
  {
    RekeyedReads(doc, rekey);
    AuthorityReads(Read(doc), Read(Rekeyed(doc, rekey)), rekey, subjects, privilege);
  }

  /** The members of a project are the same people, by the keys they now go by. */
  ghost predicate SameMembers(a: Access, b: Access, rekey: Rekey, project: string) {
    SubjectsOn(b, project) == set id | id in SubjectsOn(a, project) :: KeyFor(rekey, id)
  }

  lemma {:induction false} MembershipReads(a: Access, b: Access, rekey: Rekey, project: string)
    requires ReadsAs(a, b, rekey) && project != ""
    ensures SameMembers(a, b, rekey, project)
  {
  }

  /** In a document that can be read, rekeying keeps the members of every project that has a name. */
  lemma {:induction false} ReadableKeepsMembers(doc: Json, rekey: Rekey, project: string)
    requires Readable(doc) && project != ""
    ensures SameMembers(Read(doc), Read(Rekeyed(doc, rekey)), rekey, project)
  {
    hide Rekeyed, Read, Readable, From, Has;
    RekeyedReads(doc, rekey);
    MembershipReads(Read(doc), Read(Rekeyed(doc, rekey)), rekey, project);
  }

  function GrantJson(subject: string, role: string, scope: string, scopeId: Option<string>): Json {
    var fields := map["subjectType" := Str(MEMBER), "subjectId" := Str(subject), "roleKey" := Str(role), "scopeType" := Str(scope)];
    Obj(if scopeId.Some? then fields["scopeId" := Str(scopeId.value)] else fields)
  }

  function GrantsOnly(list: seq<Json>): Json {
    Obj(map["grants" := Arr(list)])
  }

  /** What a document of grants alone says, before and after. */
  lemma {:induction false} GrantsOnlyReads(list: seq<Json>, rekey: Rekey)
    ensures RestOk(GrantsOnly(list)) && ListAt(GrantsOnly(list), "grants") == list
    ensures GrantsOk(list) ==> Readable(GrantsOnly(list)) && Read(GrantsOnly(list)) == Access("", [], GrantsIn(list))
    ensures Rekeyed(GrantsOnly(list), rekey) == GrantsOnly(Deduped(AllRewritten(list, rekey)))
  {
  }

  lemma {:induction false} GrantJsonReads(subject: string, role: string, scope: string, scopeId: Option<string>)
    ensures var g := GrantJson(subject, role, scope, scopeId);
            && GrantOk(g) && GrantIn(g) == Grant(MEMBER, subject, role, scope, scopeId) && GetStr(g, "roleKey") == Some(role)
            && Identity(g) == (MEMBER, subject, role, scope, if scope == ORG then "" else OrEmpty(scopeId))
  {
  }

  lemma {:induction false} DedupedPair(g: Json, h: Json)
    ensures Deduped([g]) == [g]
    ensures Deduped([g, h]) == if Identity(g) == Identity(h) then [g] else [g, h]
  {
    hide Identity;
    assert [g, h][..1] == [g] && [g][..0] == [];
    assert Deduped([g]) == [g];
    assert Repeats([g], h) <==> Identity([g][0]) == Identity(h);
  }

  /** The owners in a document of one owner grant, before and after. */
  lemma {:induction false} OneOwner(id: string, rekey: Rekey, subjects: set<string>)
    ensures var doc := GrantsOnly([GrantJson(id, OWNER, ORG, None)]);
            && Readable(doc)
            && (OwnershipTo(Read(doc), subjects) <==> id in subjects)
            && (OwnershipTo(Read(Rekeyed(doc, rekey)), subjects) <==> KeyFor(rekey, id) in subjects)
  {
    hide Readable, Rekeyed, Read, GrantJson, GrantOk, GrantIn, Rewritten, Deduped, Identity, KeyFor;
    var g := GrantJson(id, OWNER, ORG, None);
    var moved := Rewritten(g, rekey);
    GrantJsonReads(id, OWNER, ORG, None);
    RewrittenReads(g, rekey);
    assert AllRewritten([g], rekey) == [moved];
    DedupedPair(moved, moved);
    GrantsOnlyReads([g], rekey);
    GrantsOnlyReads([moved], rekey);
    assert GrantsIn([g])[0] == GrantIn(g) && GrantsIn([moved])[0] == GrantIn(moved);
  }

  ghost predicate Fixed(rekey: Rekey) {
    forall id :: KeyFor(rekey, KeyFor(rekey, id)) == KeyFor(rekey, id)
  }

  lemma {:induction false} NoRepeats(list: seq<Json>)
    requires forall i :: 0 <= i < |list| ==> First(list, i)
    ensures Deduped(list) == list
  {
    hide Identity;
    if list != [] {
      var n := |list| - 1;
      forall i | 0 <= i < n
        ensures First(list[..n], i)
      {
        assert list[..n][..i] == list[..i] && First(list, i);
      }
      NoRepeats(list[..n]);
      assert First(list, n);
    }
  }

  lemma {:induction false} DedupedFirsts(list: seq<Json>)
    ensures forall i :: 0 <= i < |Deduped(list)| ==> First(Deduped(list), i)
  {
    hide Identity;
    if list != [] {
      var most, last := list[..|list| - 1], list[|list| - 1];
      DedupedFirsts(most);
      DedupedAre(most);
      var before, after := Deduped(most), Deduped(list);
      forall i | 0 <= i < |after|
        ensures First(after, i)
      {
        if i < |before| {
          assert after[..i] == before[..i] && First(before, i);
        } else {
          assert after[..i] == before;
          assert forall j :: 0 <= j < |before| ==> before[j] in before;
        }
      }
    }
  }

  /** Where every new key stands for itself, rekeying twice is rekeying once. */
  lemma {:induction false} RekeyIdempotent(doc: Json, rekey: Rekey)
    requires Fixed(rekey)
    ensures Rekeyed(Rekeyed(doc, rekey), rekey) == Rekeyed(doc, rekey)
  {
    hide Identity;
    if Listed(doc) {
      var moved := AllRewritten(ListAt(doc, "grants"), rekey);
      var once := Deduped(moved);
      DedupedAre(moved);
      forall k | 0 <= k < |once|
        ensures Rewritten(once[k], rekey) == once[k]
      {
        assert once[k] in once;
        var i :| 0 <= i < |moved| && moved[i] == once[k];
        RewrittenAgain(ListAt(doc, "grants")[i], rekey);
      }
      assert AllRewritten(once, rekey) == once;
      DedupedFirsts(moved);
      NoRepeats(once);
      assert WithGrants(Rekeyed(doc, rekey), once) == Rekeyed(doc, rekey);
    }
  }

  lemma {:induction false} RewrittenAgain(g: Json, rekey: Rekey)
    requires Fixed(rekey)
    ensures Rewritten(Rewritten(g, rekey), rekey) == Rewritten(g, rekey)
  {
  }

  // ----- where it does not

  /** Two grants on the project without a name, the first by leaving the name out: one identity, two answers. */
  lemma {:induction false} UnnamedProjectLost(rekey: Rekey)
    requires forall id :: rekey(id) == None
    ensures var doc := GrantsOnly([GrantJson("a", "r", PROJECT, None), GrantJson("a", "r", PROJECT, Some(""))]);
            && Readable(doc) && "a" in SubjectsOn(Read(doc), "") && "a" !in SubjectsOn(Read(Rekeyed(doc, rekey)), "")
  {
    hide Readable, Rekeyed, Read, GrantJson, GrantOk, GrantIn, Deduped, Identity;
    var g, h := GrantJson("a", "r", PROJECT, None), GrantJson("a", "r", PROJECT, Some(""));
    GrantJsonReads("a", "r", PROJECT, None);
    GrantJsonReads("a", "r", PROJECT, Some(""));
    GrantsOnlyReads([g, h], rekey);
    GrantsOnlyReads([g], rekey);
    assert OnProject(GrantsIn([g, h])[1], "");
    StaysPut([g, h], rekey);
    DedupedPair(g, h);
  }

  lemma {:induction false} StaysPut(list: seq<Json>, rekey: Rekey)
    requires forall id :: rekey(id) == None
    ensures AllRewritten(list, rekey) == list
  {
  }

  lemma {:induction false} NotSameMembers(a: Access, b: Access, rekey: Rekey, id: string)
    requires id in SubjectsOn(a, "") && id !in SubjectsOn(b, "") && rekey(id) == None
    ensures !SameMembers(a, b, rekey, "")
  {
  }

  // ----- every document

  /** A document that cannot be read, nor once it was rekeyed: some malformed grant repeats no earlier one and so stays. */
  ghost predicate StaysUnreadable(doc: Json, rekey: Rekey) {
    var list := ListAt(doc, "grants");
    !RestOk(doc) || exists i :: 0 <= i < |list| && !GrantOk(list[i]) && First(AllRewritten(list, rekey), i)
  }

  /**
   A document that could not be read can be once it was rekeyed, exactly when
   each of its malformed grants repeats an earlier one and so was dropped.
   */
  lemma {:induction false} RekeyedReadable(doc: Json, rekey: Rekey)
    ensures Readable(Rekeyed(doc, rekey)) <==> !StaysUnreadable(doc, rekey)
  {
    hide GrantOk, Rewritten, Repeats, RestOk;
    var list := ListAt(doc, "grants");
    var moved := AllRewritten(list, rekey);
    var after := Deduped(moved);
    RekeyedRest(doc, rekey);
    DedupedAre(moved);
    forall i | 0 <= i < |list|
      ensures GrantOk(moved[i]) <==> GrantOk(list[i])
    {
      RewrittenReads(list[i], rekey);
    }
    if GrantsOk(after) {
      forall i | 0 <= i < |list| && First(moved, i)
        ensures GrantOk(moved[i])
      {
        assert moved[i] in after;
      }
    } else {
      var k :| 0 <= k < |after| && !GrantOk(after[k]);
      assert after[k] in after;
    }
  }

  /** The grant as it is written is an owner's, whether or not it can be read. */
  predicate OwnerWritten(g: Json, subjects: set<string>) {
    && GetStr(g, "subjectType") == Some(MEMBER) && GetStr(g, "subjectId").Some? && GetStr(g, "subjectId").value in subjects
    && GetStr(g, "roleKey") == Some(OWNER) && GetStr(g, "scopeType") == Some(ORG)
  }

  /** It carries a privilege across the organization. */
  predicate PrivilegeWritten(roles: seq<Role>, g: Json, subjects: set<string>, privilege: string) {
    && GetStr(g, "subjectType") == Some(MEMBER) && GetStr(g, "subjectId").Some? && GetStr(g, "subjectId").value in subjects
    && GetStr(g, "scopeType") == Some(ORG)
    && GetStr(g, "roleKey").Some? && RoleCarries(roles, GetStr(g, "roleKey").value, privilege)
  }

  /** It places somebody on the project. */
  predicate MemberWritten(g: Json, project: string) {
    && GetStr(g, "subjectType") == Some(MEMBER) && GetStr(g, "subjectId").Some?
    && (GetStr(g, "scopeType") == Some(ORG) || (GetStr(g, "scopeType") == Some(PROJECT) && GetStr(g, "scopeId") == Some(project)))
  }

  predicate SomeOwner(list: seq<Json>, subjects: set<string>) {
    exists i :: 0 <= i < |list| && OwnerWritten(list[i], subjects)
  }

  predicate SomePrivilege(roles: seq<Role>, list: seq<Json>, subjects: set<string>, privilege: string) {
    exists i :: 0 <= i < |list| && PrivilegeWritten(roles, list[i], subjects, privilege)
  }

  predicate SomeMember(list: seq<Json>, project: string) {
    exists i :: 0 <= i < |list| && MemberWritten(list[i], project)
  }

  /** A grant that can be read reads as it is written. */
  lemma {:induction false} ReadsAsWritten(g: Json, roles: seq<Role>, subjects: set<string>, privilege: string, project: string)
    requires GrantOk(g)
    ensures OwnerWritten(g, subjects) <==> OwnerGrant(GrantIn(g), subjects)
    ensures PrivilegeWritten(roles, g, subjects, privilege) <==> PrivilegeGrant(roles, GrantIn(g), subjects, privilege)
    ensures MemberWritten(g, project) <==> OnProject(GrantIn(g), project)
  {
    hide RoleCarries;
  }

  /** What a document that can be read answers is what its grants say as written. */
  lemma {:induction false} AnswersAsWritten(doc: Json, subjects: set<string>, privilege: string, project: string)
    requires Readable(doc)
    ensures OwnershipTo(Read(doc), subjects) <==> SomeOwner(ListAt(doc, "grants"), subjects)
    ensures PrivilegeTo(Read(doc), subjects, privilege) <==>
            SomePrivilege(RolesIn(ListAt(doc, "roles")), ListAt(doc, "grants"), subjects, privilege)
    ensures SubjectsOn(Read(doc), project) == {} <==> !SomeMember(ListAt(doc, "grants"), project)
  {
    hide GrantOk, GrantIn, RoleIn, RestOk, OwnerWritten, PrivilegeWritten, MemberWritten, OwnerGrant, PrivilegeGrant, OnProject, RolesIn;
    var list := ListAt(doc, "grants");
    var roles := RolesIn(ListAt(doc, "roles"));
    forall i | 0 <= i < |list|
      ensures OwnerWritten(list[i], subjects) <==> OwnerGrant(Read(doc).grants[i], subjects)
      ensures PrivilegeWritten(roles, list[i], subjects, privilege) <==> PrivilegeGrant(roles, Read(doc).grants[i], subjects, privilege)
      ensures MemberWritten(list[i], project) <==> OnProject(Read(doc).grants[i], project)
    {
      ReadsAsWritten(list[i], roles, subjects, privilege, project);
    }
    if SomeMember(list, project) {
      var i :| 0 <= i < |list| && MemberWritten(list[i], project);
      assert Read(doc).grants[i].subjectId in SubjectsOn(Read(doc), project);
    }
  }

  /** A rewritten grant says of a closed set of subjects what it said. */
  lemma {:induction false} RewrittenSays(g: Json, rekey: Rekey, roles: seq<Role>, subjects: set<string>, privilege: string, project: string)
    requires Closed(rekey, subjects)
    ensures OwnerWritten(Rewritten(g, rekey), subjects) <==> OwnerWritten(g, subjects)
    ensures PrivilegeWritten(roles, Rewritten(g, rekey), subjects, privilege) <==> PrivilegeWritten(roles, g, subjects, privilege)
    ensures MemberWritten(Rewritten(g, rekey), project) <==> MemberWritten(g, project)
  {
    hide RoleCarries;
  }

  /** A grant that can be read says what one it is one with says. */
  lemma {:induction false} TwinSays(h: Json, g: Json, roles: seq<Role>, subjects: set<string>, privilege: string, project: string)
    requires GrantOk(h) && Identity(h) == Identity(g) && project != ""
    ensures OwnerWritten(g, subjects) ==> OwnerWritten(h, subjects)
    ensures PrivilegeWritten(roles, g, subjects, privilege) ==> PrivilegeWritten(roles, h, subjects, privilege)
    ensures MemberWritten(g, project) ==> MemberWritten(h, project)
  {
    hide RoleCarries;
  }

  /** Once a document can be read, its grants say what they said before it was rekeyed. */
  lemma {:induction false} RekeyedSays(list: seq<Json>, rekey: Rekey, roles: seq<Role>, subjects: set<string>, privilege: string, project: string)
    requires Closed(rekey, subjects) && GrantsOk(Deduped(AllRewritten(list, rekey))) && project != ""
    ensures var after := Deduped(AllRewritten(list, rekey));
            && (SomeOwner(after, subjects) <==> SomeOwner(list, subjects))
            && (SomePrivilege(roles, after, subjects, privilege) <==> SomePrivilege(roles, list, subjects, privilege))
            && (SomeMember(after, project) <==> SomeMember(list, project))
  {
    hide Closed, GrantOk, Rewritten, Identity, OwnerWritten, PrivilegeWritten, MemberWritten, Deduped, First;
    var moved := AllRewritten(list, rekey);
    var after := Deduped(moved);
    DedupedAre(moved);
    forall k | 0 <= k < |after|
      ensures exists i :: 0 <= i < |list| && moved[i] == after[k]
    {
      assert after[k] in after;
    }
    forall i | 0 <= i < |list|
      ensures OwnerWritten(moved[i], subjects) <==> OwnerWritten(list[i], subjects)
      ensures PrivilegeWritten(roles, moved[i], subjects, privilege) <==> PrivilegeWritten(roles, list[i], subjects, privilege)
      ensures MemberWritten(moved[i], project) <==> MemberWritten(list[i], project)
      ensures exists k :: 0 <= k < |after| && Says(after[k], moved[i], roles, subjects, privilege, project)
    {
      RewrittenSays(list[i], rekey, roles, subjects, privilege, project);
      DedupedCovers(moved, i);
      var h :| h in after && Identity(h) == Identity(moved[i]);
      var k :| 0 <= k < |after| && after[k] == h;
      TwinSays(h, moved[i], roles, subjects, privilege, project);
      assert Says(after[k], moved[i], roles, subjects, privilege, project);
    }
  }

  /** Whatever `g` says, `h` says. */
  ghost predicate Says(h: Json, g: Json, roles: seq<Role>, subjects: set<string>, privilege: string, project: string) {
    && (OwnerWritten(g, subjects) ==> OwnerWritten(h, subjects))
    && (PrivilegeWritten(roles, g, subjects, privilege) ==> PrivilegeWritten(roles, h, subjects, privilege))
    && (MemberWritten(g, project) ==> MemberWritten(h, project))
  }

  /**
   Of every document: what a closed set of subjects holds is the same before
   and after, exactly unless the document could not be read, can be now, and
   has a grant by which they hold it.
   */
  lemma {:induction false} AuthorityPreserved(doc: Json, rekey: Rekey, subjects: set<string>, privilege: string)
    requires Closed(rekey, subjects)
    ensures var list, roles := ListAt(doc, "grants"), RolesIn(ListAt(doc, "roles"));
            && ((OwnershipTo(Read(Rekeyed(doc, rekey)), subjects) <==> OwnershipTo(Read(doc), subjects)) <==>
                  Readable(doc) || StaysUnreadable(doc, rekey) || !SomeOwner(list, subjects))
            && ((PrivilegeTo(Read(Rekeyed(doc, rekey)), subjects, privilege) <==> PrivilegeTo(Read(doc), subjects, privilege)) <==>
                  Readable(doc) || StaysUnreadable(doc, rekey) || !SomePrivilege(roles, list, subjects, privilege))
  {
    hide Closed, Rekeyed, SomeOwner, SomePrivilege, SomeMember, StaysUnreadable, Deduped, GrantOk, RestOk, PrivilegeGrant, OwnerGrant;
    RekeyedReadable(doc, rekey);
    if Readable(doc) {
      ReadableKeeps(doc, rekey, subjects, privilege);
      RekeyedReads(doc, rekey);
    } else if Readable(Rekeyed(doc, rekey)) {
      RekeyedRest(doc, rekey);
      AnswersAsWritten(Rekeyed(doc, rekey), subjects, privilege, "p");
      RekeyedSays(ListAt(doc, "grants"), rekey, RolesIn(ListAt(doc, "roles")), subjects, privilege, "p");
    }
  }

  /** And so are the members of every project with a name, exactly under the same conditions. */
  lemma {:induction false} MembershipPreserved(doc: Json, rekey: Rekey, project: string)
    requires project != ""
    ensures SameMembers(Read(doc), Read(Rekeyed(doc, rekey)), rekey, project) <==>
            Readable(doc) || StaysUnreadable(doc, rekey) || !SomeMember(ListAt(doc, "grants"), project)
  {
    hide Rekeyed, SomeOwner, SomePrivilege, SomeMember, StaysUnreadable, Deduped, GrantOk, RestOk, OnProject;
    RekeyedReadable(doc, rekey);
    if Readable(doc) {
      ReadableKeepsMembers(doc, rekey, project);
    } else {
      assert SubjectsOn(Read(doc), project) == {};
      if Readable(Rekeyed(doc, rekey)) {
        RekeyedRest(doc, rekey);
        assert Closed(rekey, {});
        AnswersAsWritten(Rekeyed(doc, rekey), {}, "", project);
        RekeyedSays(ListAt(doc, "grants"), rekey, [], {}, "", project);
      }
    }
  }

  /** Rekeying leaves whether the document can be read as it was. */
  ghost predicate ReadsAlike(doc: Json, rekey: Rekey) {
    Readable(doc) || StaysUnreadable(doc, rekey)
  }

  ghost predicate KeepsOwners(rekey: Rekey, subjects: set<string>) {
    forall doc :: ReadsAlike(doc, rekey) ==> (OwnershipTo(Read(Rekeyed(doc, rekey)), subjects) <==> OwnershipTo(Read(doc), subjects))
  }

  /** Rekeying keeps the owners among a set of subjects, in every such document, exactly when the set is closed under it. */
  lemma {:induction false} ClosureBound(rekey: Rekey, subjects: set<string>)
    ensures KeepsOwners(rekey, subjects) <==> Closed(rekey, subjects)
  {
    hide Readable, Rekeyed, Read, OwnershipTo, StaysUnreadable;
    if Closed(rekey, subjects) {
      forall doc | ReadsAlike(doc, rekey)
        ensures OwnershipTo(Read(Rekeyed(doc, rekey)), subjects) <==> OwnershipTo(Read(doc), subjects)
      {
        AuthorityPreserved(doc, rekey, subjects, "");
      }
    }
    if KeepsOwners(rekey, subjects) {
      forall id
        ensures id in subjects <==> KeyFor(rekey, id) in subjects
      {
        OneOwner(id, rekey, subjects);
      }
    }
  }

  ghost predicate KeepsMembers(project: string) {
    forall doc, rekey: Rekey :: ReadsAlike(doc, rekey) ==> SameMembers(Read(doc), Read(Rekeyed(doc, rekey)), rekey, project)
  }

  /** Membership is kept in every such document exactly for the projects that have a name. */
  lemma {:induction false} MembershipBound(project: string)
    ensures KeepsMembers(project) <==> project != ""
  {
    hide Readable, Rekeyed, Read, SameMembers, StaysUnreadable;
    if project != "" {
      forall doc, rekey: Rekey | ReadsAlike(doc, rekey)
        ensures SameMembers(Read(doc), Read(Rekeyed(doc, rekey)), rekey, project)
      {
        MembershipPreserved(doc, rekey, project);
      }
    } else {
      var rekey: Rekey := (id: string) => None;
      UnnamedProjectLost(rekey);
      var doc := GrantsOnly([GrantJson("a", "r", PROJECT, None), GrantJson("a", "r", PROJECT, Some(""))]);
      NotSameMembers(Read(doc), Read(Rekeyed(doc, rekey)), rekey, "a");
    }
  }

  /** An owner, a grant of a role without a name, and that grant again with the role left out. */
  function HidingDocument(): Json {
    GrantsOnly([GrantJson("b", OWNER, ORG, None), GrantJson("a", "", ORG, None), NoRole(GrantJson("a", "", ORG, None))])
  }

  /** So authority can appear: the malformed grant hid the owner, and went. */
  lemma {:induction false} MalformedGrantHid(rekey: Rekey)
    requires forall id :: rekey(id) == None
    ensures !OwnershipTo(Read(HidingDocument()), {"b"})
    ensures OwnershipTo(Read(Rekeyed(HidingDocument(), rekey)), {"b"})
  {
    hide Readable, Rekeyed, Read, GrantOk, GrantIn, Deduped, Identity, GrantJson;
    var a, b := GrantJson("a", "", ORG, None), GrantJson("b", OWNER, ORG, None);
    GrantJsonReads("a", "", ORG, None);
    GrantJsonReads("b", OWNER, ORG, None);
    var broken := NoRole(a);
    var list := [b, a, broken];
    var doc := GrantsOnly(list);
    BrokenHalf(a);
    GrantsOnlyReads(list, rekey);
    Unreadable(doc, 2);
    StaysPut(list, rekey);
    BrokenDropped(a, b, broken);
    GrantsOnlyReads([b, a], rekey);
    assert OwnerGrant(GrantsIn([b, a])[0], {"b"});
  }

  function NoRole(g: Json): Json {
    Obj(Fields(g) - {"roleKey"})
  }

  lemma {:induction false} BrokenHalf(g: Json)
    requires GetStr(g, "roleKey") == Some("")
    ensures !GrantOk(NoRole(g)) && Identity(NoRole(g)) == Identity(g)
  {
  }

  lemma {:induction false} Unreadable(doc: Json, i: nat)
    requires i < |ListAt(doc, "grants")| && !GrantOk(ListAt(doc, "grants")[i])
    ensures Read(doc) == Access("", [], [])
  {
  }

  lemma {:induction false} BrokenDropped(a: Json, b: Json, broken: Json)
    requires Identity(broken) == Identity(a) && Identity(b) != Identity(a)
    ensures Deduped([b, a, broken]) == [b, a]
  {
    hide Identity;
    DedupedPair(b, a);
    assert [b, a, broken][..2] == [b, a];
    assert Repeats([b, a], broken) by { assert [b, a][1] == a; }
  }
}
