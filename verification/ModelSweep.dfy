/**
 The sweep at the start of the process: every mover is asked to make every
 tenant ready, organization by organization.
 */
module ModelSweep {
  import opened Prelude
  import opened TenantDocument
  import opened ModelMetadata
  import StoreSwitching

  /** How many pages of a tenant's children are read. */
  const MAX_PAGES := 50

  datatype Cursor = End | Next | Undecodable

  /** What one call for a page of children answers. */
  datatype Answer = Fails | Page(items: seq<string>, cursor: Cursor)

  /** The answers for each tenant, page by page; a tenant that is not there cannot be listed. */
  type Directory = map<string, seq<Answer>>

  /** Something that keeps records of tenants, and the types of the documents it keeps. */
  datatype Mover = Mover(name: string, early: bool, types: seq<string>)

  datatype Visit = Visit(mover: Mover, org: string, tenant: string)

  // ----- children

  /** The children on at most `n` pages. */
  function FirstPages(pages: seq<Answer>, n: nat): Option<seq<string>> {
    if n == 0 then Some([])
    else if pages == [] || pages[0].Fails? || pages[0].cursor.Undecodable? then None
    else if pages[0].cursor.End? then Some(pages[0].items)
    else match FirstPages(pages[1..], n - 1)
         case None => None
         case Some(rest) => Some(pages[0].items + rest)
  }

  function PagesOf(dir: Directory, tenant: string): seq<Answer> {
    if tenant in dir then dir[tenant] else []
  }

  function Children(dir: Directory, tenant: string): Option<seq<string>> {
    FirstPages(PagesOf(dir, tenant), MAX_PAGES)
  }

  method ListChildren(dir: Directory, tenant: string) returns (r: Option<seq<string>>)
    ensures r == Children(dir, tenant)
  {
    var pages := PagesOf(dir, tenant);
    var out: seq<string> := [];
    assert pages[0..] == pages;
    assert Children(dir, tenant).Some? ==> out + Children(dir, tenant).value == Children(dir, tenant).value;
    for i := 0 to MAX_PAGES
      invariant i <= |pages|
      invariant Children(dir, tenant) ==
                match FirstPages(pages[i..], MAX_PAGES - i) case None => None case Some(rest) => Some(out + rest)
    {
      if i == |pages| || pages[i].Fails? {
        return None;
      }
      assert pages[i..][1..] == pages[i + 1..];
      assert forall rest :: out + (pages[i].items + rest) == (out + pages[i].items) + rest;
      out := out + pages[i].items;
      if pages[i].cursor.End? {
        return Some(out);
      }
      if pages[i].cursor.Undecodable? {
        return None;
      }
    }
    assert out + [] == out;
    r := Some(out);
  }

  function Items(pages: seq<Answer>): seq<string>
    requires forall i :: 0 <= i < |pages| ==> pages[i].Page?
  {
    if pages == [] then [] else pages[0].items + Items(pages[1..])
  }

  /** A list of pages that ends. */
  ghost predicate Ends(pages: seq<Answer>) {
    && pages != []
    && (forall i :: 0 <= i < |pages| ==> pages[i].Page? && (pages[i].cursor == if i == |pages| - 1 then End else Next))
  }

  /** Beyond the fiftieth page children are left out: nothing is lost exactly when those pages are empty. */
  lemma {:induction false} ChildrenComplete(pages: seq<Answer>, n: nat)
    requires Ends(pages)
    ensures FirstPages(pages, n).Some? && |FirstPages(pages, n).value| <= |Items(pages)|
    ensures FirstPages(pages, n) == Some(Items(pages)) <==> forall i :: n <= i < |pages| ==> pages[i].items == []
  {
    if n == 0 {
      NoItems(pages);
    } else if |pages| > 1 {
      ChildrenComplete(pages[1..], n - 1);
      var rest := FirstPages(pages[1..], n - 1).value;
      assert FirstPages(pages, n) == Some(pages[0].items + rest);
      assert pages[0].items + rest == Items(pages) <==> rest == Items(pages[1..]) by {
        if pages[0].items + rest == Items(pages) {
          assert (pages[0].items + rest)[|pages[0].items|..] == rest;
          assert Items(pages)[|pages[0].items|..] == Items(pages[1..]);
        }
      }
      assert (forall i :: n <= i < |pages| ==> pages[i].items == []) <==>
             (forall i :: n - 1 <= i < |pages[1..]| ==> pages[1..][i].items == []) by {
        assert forall i :: n <= i < |pages| ==> pages[i] == pages[1..][i - 1];
      }
    } else {
      assert Items(pages[1..]) == [] && pages[0].items + [] == pages[0].items;
    }
  }

  lemma {:induction false} NoItems(pages: seq<Answer>)
    requires forall i :: 0 <= i < |pages| ==> pages[i].Page?
    ensures Items(pages) == [] <==> forall i :: 0 <= i < |pages| ==> pages[i].items == []
  {
    if pages != [] {
      NoItems(pages[1..]);
      assert forall i :: 0 < i < |pages| ==> pages[i] == pages[1..][i - 1];
    }
  }

  // ----- the walk

  /** Children, none when they cannot be listed. */
  function Kids(dir: Directory, tenant: string): seq<string> {
    match Children(dir, tenant)
    case None => []
    case Some(c) => c
  }

  ghost predicate Path(dir: Directory, p: seq<string>) {
    p != [] && forall i :: 0 <= i < |p| - 1 ==> p[i + 1] in Kids(dir, p[i])
  }

  ghost predicate PathTo(dir: Directory, a: string, b: string, p: seq<string>) {
    Path(dir, p) && p[0] == a && p[|p| - 1] == b
  }

  /** `b` is at or below `a`. */
  ghost predicate Reaches(dir: Directory, a: string, b: string) {
    exists p :: PathTo(dir, a, b, p)
  }

  lemma {:induction false} ReachesSelf(dir: Directory, a: string)
    ensures Reaches(dir, a, a)
  {
    assert PathTo(dir, a, a, [a]);
  }

  lemma {:induction false} ReachesOn(dir: Directory, a: string, b: string, c: string)
    requires Reaches(dir, a, b) && c in Kids(dir, b)
    ensures Reaches(dir, a, c)
  {
    var p :| PathTo(dir, a, b, p);
    assert PathTo(dir, a, c, p + [c]);
  }

  /** What is closed under children holds everything below what it holds. */
  lemma {:induction false} ClosedHolds(dir: Directory, closed: set<string>, a: string, p: seq<string>)
    requires a in closed && Path(dir, p) && p[0] == a
    requires forall t, c :: t in closed && c in Kids(dir, t) ==> c in closed
    ensures p[|p| - 1] in closed
    decreases |p|
  {
    if |p| > 1 {
      ClosedHolds(dir, closed, a, p[..|p| - 1]);
      assert p[|p| - 1] in Kids(dir, p[|p| - 2]);
    }
  }

  lemma {:induction false} PageItems(pages: seq<Answer>, n: nat, c: string)
    requires FirstPages(pages, n).Some? && c in FirstPages(pages, n).value
    ensures exists i :: 0 <= i < |pages| && pages[i].Page? && c in pages[i].items
  {
    if !pages[0].cursor.End? && c !in pages[0].items {
      PageItems(pages[1..], n - 1, c);
      var i :| 0 <= i < |pages[1..]| && pages[1..][i].Page? && c in pages[1..][i].items;
      assert pages[i + 1] == pages[1..][i];
    }
  }

  /** Every tenant any answer names. */
  ghost function Named(dir: Directory): set<string> {
    set t, i, c | t in dir && 0 <= i < |dir[t]| && dir[t][i].Page? && c in dir[t][i].items :: c
  }

  lemma {:induction false} KidsNamed(dir: Directory, tenant: string)
    ensures forall c :: c in Kids(dir, tenant) ==> c in Named(dir)
  {
    forall c | c in Kids(dir, tenant)
      ensures c in Named(dir)
    {
      PageItems(PagesOf(dir, tenant), MAX_PAGES, c);
    }
  }

  /** Every mover's visit to each tenant of `plan`, one tenant after the other. */
  function Visits(movers: seq<Mover>, org: string, plan: seq<string>): seq<Visit> {
    if plan == [] then [] else Visits(movers, org, plan[..|plan| - 1]) + VisitsTo(movers, org, plan[|plan| - 1])
  }

  function VisitsTo(movers: seq<Mover>, org: string, tenant: string): (visits: seq<Visit>)
    ensures |visits| == |movers|
  {
    seq(|movers|, i requires 0 <= i < |movers| => Visit(movers[i], org, tenant))
  }

  /** The tenants an organization's walk makes ready. */
  ghost predicate InOrg(dir: Directory, root: string, org: string, tenant: string) {
    if org == root then tenant == root else tenant != root && Reaches(dir, org, tenant)
  }

  ghost predicate Planned(dir: Directory, root: string, org: string, plan: seq<string>) {
    Distinct(plan) && forall t :: t in plan <==> InOrg(dir, root, org, t)
  }

  /** Every mover visited every planned tenant, in some order of the tenants. */
  ghost predicate SweptOrg(movers: seq<Mover>, dir: Directory, root: string, org: string, visits: seq<Visit>, tenants: nat) {
    exists plan :: Planned(dir, root, org, plan) && tenants == |plan| && visits == Visits(movers, org, plan)
  }

  /** What an organization's walk meets; the root's goes nowhere. */
  ghost predicate Reached(dir: Directory, root: string, org: string, tenant: string) {
    Reaches(dir, org, tenant) && (org == root ==> tenant == root)
  }

  /** What is seen is reached and visited; what is reached and not seen waits. */
  ghost predicate Walking(dir: Directory, root: string, org: string, queue: seq<string>, seen: set<string>, plan: seq<string>) {
    && (forall t :: t in queue ==> Reached(dir, root, org, t))
    && (forall t :: t in seen ==> Reached(dir, root, org, t))
    && (org != root ==> forall t, c :: t in seen && c in Kids(dir, t) ==> c in seen || c in queue)
    && (org in seen || org in queue)
    && Distinct(plan)
    && (forall t :: t in plan <==> t in seen && (t != root || org == root))
  }

  lemma {:induction false} WalkDone(dir: Directory, root: string, org: string, seen: set<string>, plan: seq<string>)
    requires Walking(dir, root, org, [], seen, plan)
    ensures Planned(dir, root, org, plan)
  {
    if org != root {
      forall t | Reaches(dir, org, t)
        ensures t in seen
      {
        var p :| PathTo(dir, org, t, p);
        ClosedHolds(dir, seen, org, p);
      }
    } else {
      ReachesSelf(dir, root);
    }
  }

  lemma {:induction false} Popped(queue: seq<string>)
    requires queue != []
    ensures forall c :: c in queue <==> c in queue[..|queue| - 1] || c == queue[|queue| - 1]
  {
  }

  lemma {:induction false} WalkSkips(dir: Directory, root: string, org: string, queue: seq<string>, seen: set<string>, plan: seq<string>)
    requires queue != [] && Walking(dir, root, org, queue, seen, plan) && queue[|queue| - 1] in seen
    ensures Walking(dir, root, org, queue[..|queue| - 1], seen, plan)
  {
  }

  lemma {:induction false} WalkSteps(dir: Directory, root: string, org: string, queue: seq<string>, seen: set<string>, plan: seq<string>)
    requires queue != [] && Walking(dir, root, org, queue, seen, plan) && queue[|queue| - 1] !in seen
    ensures var t := queue[|queue| - 1];
            Walking(dir, root, org, queue[..|queue| - 1] + (if org != root then Kids(dir, t) else []), seen + {t},
                    if t != root || org == root then plan + [t] else plan)
  {
    var t := queue[|queue| - 1];
    Popped(queue);
    assert Reached(dir, root, org, t);
    if org != root {
      forall c | c in Kids(dir, t)
        ensures Reached(dir, root, org, c)
      {
        ReachesOn(dir, org, t, c);
      }
    }
  }

  /** Every mover in turn. */
  method VisitAll(movers: seq<Mover>, org: string, tenant: string) returns (visits: seq<Visit>)
    ensures visits == VisitsTo(movers, org, tenant)
  {
    visits := [];
    for i := 0 to |movers|
      invariant visits == VisitsTo(movers, org, tenant)[..i]
    {
      visits := visits + [Visit(movers[i], org, tenant)];
    }
  }

  /** What the walk goes on to: nothing below the root itself, nor below a tenant that cannot be listed. */
  method Below(dir: Directory, root: string, org: string, tenant: string) returns (kids: seq<string>)
    ensures kids == if org != root then Kids(dir, tenant) else []
  {
    kids := [];
    if org != root {
      var listed := ListChildren(dir, tenant);
      kids := if listed.Some? then listed.value else [];
    }
  }

  /** One organization: itself and everything under it, each tenant once, every mover in turn. */
  method SweepOrg(movers: seq<Mover>, dir: Directory, root: string, org: string)
    returns (visits: seq<Visit>, tenants: nat)
    ensures SweptOrg(movers, dir, root, org, visits, tenants)
  {
    visits, tenants := [], 0;
    ghost var plan: seq<string> := [];
    var queue, seen := [org], {};
    ghost var all := {org} + Named(dir);
    ReachesSelf(dir, org);
    while queue != []
      invariant Walking(dir, root, org, queue, seen, plan)
      invariant forall t :: t in queue || t in seen ==> t in all
      invariant tenants == |plan| && visits == Visits(movers, org, plan)
      decreases all - seen, |queue|
    {
      var tenant := queue[|queue| - 1];
      var rest := queue[..|queue| - 1];
      if tenant in seen {
        WalkSkips(dir, root, org, queue, seen, plan);
        queue := rest;
        continue;
      }
      WalkSteps(dir, root, org, queue, seen, plan);
      seen := seen + {tenant};
      if tenant != root || org == root {
        var ready := VisitAll(movers, org, tenant);
        visits := visits + ready;
        assert (plan + [tenant])[..|plan|] == plan;
        plan := plan + [tenant];
        tenants := tenants + 1;
      }
      var kids := Below(dir, root, org, tenant);
      KidsNamed(dir, tenant);
      queue := rest + kids;
    }
    WalkDone(dir, root, org, seen, plan);
  }

  // ----- the sweep

  function Kept(movers: seq<Mover>, early: bool): seq<Mover> {
    if movers == [] then []
    else if movers[0].early == early then [movers[0]] + Kept(movers[1..], early)
    else Kept(movers[1..], early)
  }

  /** Sorted so that early movers come first, in the order they registered otherwise. */
  function EarlyFirst(movers: seq<Mover>): seq<Mover> {
    Kept(movers, true) + Kept(movers, false)
  }

  lemma {:induction false} KeptOf(movers: seq<Mover>, early: bool)
    ensures forall m :: m in Kept(movers, early) ==> m.early == early
  {
    if movers != [] {
      KeptOf(movers[1..], early);
    }
  }

  lemma {:induction false} KeptAgain(movers: seq<Mover>, early: bool)
    requires forall m :: m in movers ==> m.early == early
    ensures Kept(movers, early) == movers && Kept(movers, !early) == []
  {
    if movers != [] {
      KeptAgain(movers[1..], early);
    }
  }

  lemma {:induction false} KeptAll(movers: seq<Mover>)
    ensures multiset(Kept(movers, true)) + multiset(Kept(movers, false)) == multiset(movers)
  {
    if movers != [] {
      KeptAll(movers[1..]);
      assert movers == [movers[0]] + movers[1..];
    }
  }

  lemma {:induction false} AppendedAfter(m: Mover, a: seq<Mover>, b: seq<Mover>)
    ensures [m] + (a + b) == ([m] + a) + b
  {
  }

  lemma {:induction false} KeptConcat(a: seq<Mover>, b: seq<Mover>, early: bool)
    ensures Kept(a + b, early) == Kept(a, early) + Kept(b, early)
  {
    if a == [] {
      assert a + b == b;
    } else {
      KeptConcat(a[1..], b, early);
      assert (a + b)[1..] == a[1..] + b && (a + b)[0] == a[0];
      if a[0].early == early {
        AppendedAfter(a[0], Kept(a[1..], early), Kept(b, early));
      }
    }
  }

  /** The sort is stable: no mover before an early one unless it is early, and each class in its order. */
  lemma {:induction false} EarlyMoversFirst(movers: seq<Mover>)
    ensures multiset(EarlyFirst(movers)) == multiset(movers)
    ensures forall i, j :: 0 <= i < j < |EarlyFirst(movers)| && EarlyFirst(movers)[j].early ==> EarlyFirst(movers)[i].early
    ensures forall early :: Kept(EarlyFirst(movers), early) == Kept(movers, early)
  {
    KeptAll(movers);
    KeptOf(movers, true);
    KeptOf(movers, false);
    KeptAgain(Kept(movers, true), true);
    KeptAgain(Kept(movers, false), false);
    forall early
      ensures Kept(EarlyFirst(movers), early) == Kept(movers, early)
    {
      KeptConcat(Kept(movers, true), Kept(movers, false), early);
    }
  }

  /** One organization after the other. */
  function AllVisits(movers: seq<Mover>, orgs: seq<string>, plans: seq<seq<string>>): seq<Visit>
    requires |orgs| == |plans|
  {
    if orgs == [] then []
    else AllVisits(movers, orgs[..|orgs| - 1], plans[..|orgs| - 1]) + Visits(movers, orgs[|orgs| - 1], plans[|orgs| - 1])
  }

  function Total(plans: seq<seq<string>>): nat {
    if plans == [] then 0 else Total(plans[..|plans| - 1]) + |plans[|plans| - 1]|
  }

  ghost predicate AllPlanned(dir: Directory, root: string, orgs: seq<string>, plans: seq<seq<string>>) {
    |plans| == |orgs| && forall i :: 0 <= i < |orgs| ==> Planned(dir, root, orgs[i], plans[i])
  }

  /** Every organization was swept, one after the other. */
  ghost predicate Swept(movers: seq<Mover>, dir: Directory, root: string, orgs: seq<string>, visits: seq<Visit>, tenants: nat) {
    exists plans :: AllPlanned(dir, root, orgs, plans) && visits == AllVisits(movers, orgs, plans) && tenants == Total(plans)
  }

  lemma {:induction false} SweptNext(movers: seq<Mover>, dir: Directory, root: string, orgs: seq<string>, i: nat,
                                     visits: seq<Visit>, tenants: nat, more: seq<Visit>, count: nat)
    requires i < |orgs| && Swept(movers, dir, root, orgs[..i], visits, tenants)
    requires SweptOrg(movers, dir, root, orgs[i], more, count)
    ensures Swept(movers, dir, root, orgs[..i + 1], visits + more, tenants + count)
  {
    hide Planned, Visits;
    var plans :| AllPlanned(dir, root, orgs[..i], plans) && visits == AllVisits(movers, orgs[..i], plans) && tenants == Total(plans);
    var plan :| Planned(dir, root, orgs[i], plan) && count == |plan| && more == Visits(movers, orgs[i], plan);
    var all := plans + [plan];
    assert orgs[..i + 1][..i] == orgs[..i] && all[..i] == plans;
    PlannedNext(dir, root, orgs, i, plans, plan);
    hide AllPlanned;
    assert Total(all) == tenants + count;
    assert AllVisits(movers, orgs[..i + 1], all) == visits + more;
  }

  lemma {:induction false} PlannedNext(dir: Directory, root: string, orgs: seq<string>, i: nat, plans: seq<seq<string>>, plan: seq<string>)
    requires i < |orgs| && AllPlanned(dir, root, orgs[..i], plans) && Planned(dir, root, orgs[i], plan)
    ensures AllPlanned(dir, root, orgs[..i + 1], plans + [plan])
  {
    hide Planned;
  }

  method SweepAll(movers: seq<Mover>, dir: Directory, root: string, orgs: seq<string>) returns (visits: seq<Visit>, tenants: nat)
    ensures Swept(movers, dir, root, orgs, visits, tenants)
  {
    visits, tenants := [], 0;
    assert AllPlanned(dir, root, orgs[..0], []);
    for i := 0 to |orgs|
      invariant Swept(movers, dir, root, orgs[..i], visits, tenants)
    {
      var more, count := SweepOrg(movers, dir, root, orgs[i]);
      SweptNext(movers, dir, root, orgs, i, visits, tenants, more, count);
      visits, tenants := visits + more, tenants + count;
    }
    assert orgs[..|orgs|] == orgs;
  }

  /**
   The sweep, with the movers that were picked: `None` when the
   organizations cannot be listed, otherwise how many there are and how many
   tenants were made ready. It ends on every directory, cyclic ones too.
   */
  method SweepWith(movers: seq<Mover>, dir: Directory, root: string) returns (r: Option<(nat, nat)>, visits: seq<Visit>)
    ensures movers == [] ==> r == Some((0, 0)) && visits == []
    ensures movers != [] && Children(dir, root) == None ==> r == None && visits == []
    ensures movers != [] && Children(dir, root).Some? ==>
              && r.Some? && r.value.0 == 1 + |Kids(dir, root)|
              && Swept(EarlyFirst(movers), dir, root, [root] + Kids(dir, root), visits, r.value.1)
  {
    if movers == [] {
      return Some((0, 0)), [];
    }
    var kids := ListChildren(dir, root);
    if kids.None? {
      return None, [];
    }
    var orgs := [root] + kids.value;
    var tenants;
    visits, tenants := SweepAll(EarlyFirst(movers), dir, root, orgs);
    r := Some((|orgs|, tenants));
  }

  // ----- on a tree

  /** Every tenant is listed once, under one parent at most, and the root under none. */
  ghost predicate Tree(dir: Directory, root: string) {
    && (forall t :: Distinct(Kids(dir, t)))
    && (forall a, b, c :: c in Kids(dir, a) && c in Kids(dir, b) ==> a == b)
    && (forall a :: root !in Kids(dir, a))
  }

  /** In a tree a tenant is below one organization only. */
  lemma {:induction false} OneOrg(dir: Directory, root: string, a: string, b: string, p: seq<string>, q: seq<string>)
    requires Tree(dir, root) && a in Kids(dir, root) && b in Kids(dir, root)
    requires Path(dir, p) && Path(dir, q) && p[0] == a && q[0] == b && p[|p| - 1] == q[|q| - 1]
    ensures a == b
    decreases |p| + |q|
  {
    if |p| > 1 {
      assert p[|p| - 1] in Kids(dir, p[|p| - 2]);
    }
    if |q| > 1 {
      assert q[|q| - 1] in Kids(dir, q[|q| - 2]);
    }
    if |p| > 1 && |q| > 1 {
      OneOrg(dir, root, a, b, p[..|p| - 1], q[..|q| - 1]);
    } else if |p| > 1 {
      RootIsBelowNone(dir, root, a, p[..|p| - 1]);
    } else if |q| > 1 {
      RootIsBelowNone(dir, root, b, q[..|q| - 1]);
    }
  }

  lemma {:induction false} RootIsBelowNone(dir: Directory, root: string, a: string, p: seq<string>)
    requires Tree(dir, root) && a in Kids(dir, root) && Path(dir, p) && p[0] == a
    ensures p[|p| - 1] != root
  {
    if |p| > 1 {
      assert p[|p| - 1] in Kids(dir, p[|p| - 2]);
    }
  }

  /** An organization of its own from which a path away from the root goes on: returns to the root are skipped. */
  lemma {:induction false} LeavesRoot(dir: Directory, root: string, t: string, p: seq<string>) returns (org: string)
    requires PathTo(dir, root, t, p) && t != root
    ensures org in Kids(dir, root) && org != root && Reaches(dir, org, t)
    decreases |p|
  {
    assert p[1] in Kids(dir, p[0]);
    assert PathTo(dir, p[1], t, p[1..]);
    org := p[1];
    if org == root {
      org := LeavesRoot(dir, root, t, p[1..]);
    }
  }

  /** Below the root is the root, or below an organization that is not the root. */
  lemma {:induction false} UnderRoot(dir: Directory, root: string, t: string)
    ensures Reaches(dir, root, t) <==>
            t == root || exists org :: org in Kids(dir, root) && org != root && Reaches(dir, org, t)
  {
    ReachesSelf(dir, root);
    if Reaches(dir, root, t) && t != root {
      var p :| PathTo(dir, root, t, p);
      var org := LeavesRoot(dir, root, t, p);
    }
    if org :| org in Kids(dir, root) && Reaches(dir, org, t) {
      var p :| PathTo(dir, org, t, p);
      assert PathTo(dir, root, t, [root] + p);
    }
  }

  ghost predicate InPlans(plans: seq<seq<string>>, t: string) {
    exists i :: 0 <= i < |plans| && t in plans[i]
  }

  ghost predicate Disjoint(plans: seq<seq<string>>) {
    forall i, j :: 0 <= i < j < |plans| ==> forall t :: t in plans[i] ==> t !in plans[j]
  }

  /**
   The sweep's plans hold every tenant at or below the root, and no other,
   on any graph; on a tree each tenant is in one place of one plan.
   */
  lemma {:induction false} SweepComplete(dir: Directory, root: string, plans: seq<seq<string>>)
    requires AllPlanned(dir, root, [root] + Kids(dir, root), plans)
    ensures forall t :: Reaches(dir, root, t) <==> InPlans(plans, t)
    ensures forall i :: 0 <= i < |plans| ==> Distinct(plans[i])
    ensures Tree(dir, root) ==> Disjoint(plans)
  {
    var orgs := [root] + Kids(dir, root);
    forall t
      ensures Reaches(dir, root, t) <==> InPlans(plans, t)
    {
      Covered(dir, root, plans, t);
    }
    if Tree(dir, root) {
      forall i, j, t | 0 <= i < j < |plans| && t in plans[i]
        ensures t !in plans[j]
      {
        InOnePlan(dir, root, orgs, plans, i, j, t);
      }
    }
  }

  lemma {:induction false} Covered(dir: Directory, root: string, plans: seq<seq<string>>, t: string)
    requires AllPlanned(dir, root, [root] + Kids(dir, root), plans)
    ensures Reaches(dir, root, t) <==> InPlans(plans, t)
  {
    var orgs := [root] + Kids(dir, root);
    UnderRoot(dir, root, t);
    if t == root {
      assert t in plans[0] by { assert Planned(dir, root, orgs[0], plans[0]); }
    } else if org :| org in Kids(dir, root) && org != root && Reaches(dir, org, t) {
      var k :| 0 <= k < |Kids(dir, root)| && Kids(dir, root)[k] == org;
      assert orgs[k + 1] == org && Planned(dir, root, orgs[k + 1], plans[k + 1]);
    }
    if i :| 0 <= i < |plans| && t in plans[i] {
      assert Planned(dir, root, orgs[i], plans[i]) && InOrg(dir, root, orgs[i], t);
      assert i > 0 ==> orgs[i] in Kids(dir, root);
    }
  }

  lemma {:induction false} InOnePlan(dir: Directory, root: string, orgs: seq<string>, plans: seq<seq<string>>, i: nat, j: nat, t: string)
    requires Tree(dir, root) && orgs == [root] + Kids(dir, root) && AllPlanned(dir, root, orgs, plans)
    requires i < j < |plans| && t in plans[i]
    ensures t !in plans[j]
  {
    assert Planned(dir, root, orgs[i], plans[i]) && Planned(dir, root, orgs[j], plans[j]);
    assert orgs[j] == Kids(dir, root)[j - 1];
    if t in plans[j] && i > 0 {
      assert orgs[i] == Kids(dir, root)[i - 1];
      var p :| PathTo(dir, orgs[i], t, p);
      var q :| PathTo(dir, orgs[j], t, q);
      OneOrg(dir, root, orgs[i], orgs[j], p, q);
      assert false;
    }
  }

  /** How often a mover is asked to make a tenant ready. */
  function VisitCount(visits: seq<Visit>, m: Mover, t: string): nat {
    if visits == [] then 0
    else
      var last := visits[|visits| - 1];
      VisitCount(visits[..|visits| - 1], m, t) + if last.mover == m && last.tenant == t then 1 else 0
  }

  lemma {:induction false} CountConcat(a: seq<Visit>, b: seq<Visit>, m: Mover, t: string)
    ensures VisitCount(a + b, m, t) == VisitCount(a, m, t) + VisitCount(b, m, t)
  {
    if b == [] {
      assert a + b == a;
    } else {
      CountConcat(a, b[..|b| - 1], m, t);
      assert (a + b)[..|a + b| - 1] == a + b[..|b| - 1];
    }
  }

  lemma {:induction false} CountTo(movers: seq<Mover>, org: string, tenant: string, m: Mover, t: string)
    ensures VisitCount(VisitsTo(movers, org, tenant), m, t) == if t == tenant then multiset(movers)[m] else 0
  {
    if movers != [] {
      var most := movers[..|movers| - 1];
      CountTo(most, org, tenant, m, t);
      assert movers == most + [movers[|movers| - 1]];
      assert VisitsTo(movers, org, tenant)[..|movers| - 1] == VisitsTo(most, org, tenant);
    }
  }

  lemma {:induction false} CountPlan(movers: seq<Mover>, org: string, plan: seq<string>, m: Mover, t: string)
    requires Distinct(plan)
    ensures VisitCount(Visits(movers, org, plan), m, t) == if t in plan then multiset(movers)[m] else 0
  {
    if plan != [] {
      var most, last := plan[..|plan| - 1], plan[|plan| - 1];
      CountPlan(movers, org, most, m, t);
      CountTo(movers, org, last, m, t);
      CountConcat(Visits(movers, org, most), VisitsTo(movers, org, last), m, t);
      assert plan == most + [last];
    }
  }

  /** `t` is planned once at most. */
  ghost predicate PlannedOnce(plans: seq<seq<string>>, t: string) {
    && (forall i :: 0 <= i < |plans| ==> Distinct(plans[i]))
    && (forall i, j :: 0 <= i < j < |plans| && t in plans[i] ==> t !in plans[j])
  }

  lemma {:induction false} PlannedOnceBefore(plans: seq<seq<string>>, t: string)
    requires plans != [] && PlannedOnce(plans, t)
    ensures PlannedOnce(plans[..|plans| - 1], t) && Distinct(plans[|plans| - 1])
    ensures !(InPlans(plans[..|plans| - 1], t) && t in plans[|plans| - 1])
  {
  }

  lemma {:induction false} CountAll(movers: seq<Mover>, orgs: seq<string>, plans: seq<seq<string>>, m: Mover, t: string)
    requires |orgs| == |plans| && PlannedOnce(plans, t)
    ensures VisitCount(AllVisits(movers, orgs, plans), m, t) == if InPlans(plans, t) then multiset(movers)[m] else 0
  {
    if orgs != [] {
      var n := |orgs| - 1;
      var before, last := AllVisits(movers, orgs[..n], plans[..n]), Visits(movers, orgs[n], plans[n]);
      PlannedOnceBefore(plans, t);
      CountAll(movers, orgs[..n], plans[..n], m, t);
      CountPlan(movers, orgs[n], plans[n], m, t);
      CountConcat(before, last, m, t);
      InPlansNext(plans, t);
      assert AllVisits(movers, orgs, plans) == before + last;
    }
  }

  lemma {:induction false} InPlansNext(plans: seq<seq<string>>, t: string)
    requires plans != []
    ensures InPlans(plans, t) <==> InPlans(plans[..|plans| - 1], t) || t in plans[|plans| - 1]
  {
  }

  /** On a tree every mover that takes part visits every tenant at or below the root once, and no other tenant. */
  lemma {:induction false} VisitsEachOnce(dir: Directory, root: string, movers: seq<Mover>, visits: seq<Visit>, tenants: nat, m: Mover, t: string)
    requires Tree(dir, root) && Swept(EarlyFirst(movers), dir, root, [root] + Kids(dir, root), visits, tenants)
    ensures VisitCount(visits, m, t) == if Reaches(dir, root, t) then multiset(movers)[m] else 0
  {
    var orgs := [root] + Kids(dir, root);
    var plans :| AllPlanned(dir, root, orgs, plans) && visits == AllVisits(EarlyFirst(movers), orgs, plans) && tenants == Total(plans);
    SweepComplete(dir, root, plans);
    EarlyMoversFirst(movers);
    CountAll(EarlyFirst(movers), orgs, plans, m, t);
  }

  // ----- the order of visits

  /** No visit to `t` by a mover that is not early comes before one by an early mover. */
  ghost predicate EarlyBefore(visits: seq<Visit>, t: string) {
    forall i, j :: 0 <= i < j < |visits| && visits[i].tenant == visits[j].tenant == t && visits[j].mover.early ==>
      visits[i].mover.early
  }

  ghost predicate Unvisited(visits: seq<Visit>, t: string) {
    forall i :: 0 <= i < |visits| ==> visits[i].tenant != t
  }

  lemma {:induction false} EarlyConcat(a: seq<Visit>, b: seq<Visit>, t: string)
    requires EarlyBefore(a, t) && EarlyBefore(b, t) && (Unvisited(a, t) || Unvisited(b, t))
    ensures EarlyBefore(a + b, t)
    ensures Unvisited(a, t) && Unvisited(b, t) ==> Unvisited(a + b, t)
  {
  }

  lemma {:induction false} EarlyInPlan(movers: seq<Mover>, org: string, plan: seq<string>, t: string)
    requires Distinct(plan) && forall i, j :: 0 <= i < j < |movers| && movers[j].early ==> movers[i].early
    ensures EarlyBefore(Visits(movers, org, plan), t)
    ensures t !in plan ==> Unvisited(Visits(movers, org, plan), t)
  {
    if plan != [] {
      var most, last := plan[..|plan| - 1], plan[|plan| - 1];
      EarlyInPlan(movers, org, most, t);
      EarlyConcat(Visits(movers, org, most), VisitsTo(movers, org, last), t);
    }
  }

  lemma {:induction false} EarlyInAll(movers: seq<Mover>, orgs: seq<string>, plans: seq<seq<string>>, t: string)
    requires |orgs| == |plans| && PlannedOnce(plans, t)
    requires forall i, j :: 0 <= i < j < |movers| && movers[j].early ==> movers[i].early
    ensures EarlyBefore(AllVisits(movers, orgs, plans), t)
    ensures !InPlans(plans, t) ==> Unvisited(AllVisits(movers, orgs, plans), t)
  {
    if orgs != [] {
      hide EarlyBefore, Unvisited, InPlans, PlannedOnce;
      var n := |orgs| - 1;
      PlannedOnceBefore(plans, t);
      InPlansNext(plans, t);
      EarlyInAll(movers, orgs[..n], plans[..n], t);
      EarlyInPlan(movers, orgs[n], plans[n], t);
      EarlyConcat(AllVisits(movers, orgs[..n], plans[..n]), Visits(movers, orgs[n], plans[n]), t);
    }
  }

  /** On a tree the early movers visit each tenant before the others do. */
  lemma {:induction false} EarlyVisitFirst(dir: Directory, root: string, movers: seq<Mover>, visits: seq<Visit>, tenants: nat, t: string)
    requires Tree(dir, root) && Swept(EarlyFirst(movers), dir, root, [root] + Kids(dir, root), visits, tenants)
    ensures EarlyBefore(visits, t)
  {
    hide EarlyBefore;
    var orgs := [root] + Kids(dir, root);
    var plans :| AllPlanned(dir, root, orgs, plans) && visits == AllVisits(EarlyFirst(movers), orgs, plans) && tenants == Total(plans);
    SweepComplete(dir, root, plans);
    EarlyMoversFirst(movers);
    EarlyInAll(EarlyFirst(movers), orgs, plans, t);
  }

  // ----- sweeping again

  /** Some visit asks the mover to make the tenant ready. */
  ghost predicate Asked(visits: seq<Visit>, m: Mover, t: string) {
    exists v :: v in visits && v.mover == m && v.tenant == t
  }

  lemma {:induction false} AskedTo(movers: seq<Mover>, org: string, tenant: string, m: Mover, t: string)
    ensures Asked(VisitsTo(movers, org, tenant), m, t) <==> t == tenant && m in movers
  {
    if t == tenant && m in movers {
      var i :| 0 <= i < |movers| && movers[i] == m;
      assert VisitsTo(movers, org, tenant)[i] in VisitsTo(movers, org, tenant);
    }
  }

  lemma {:induction false} AskedInPlan(movers: seq<Mover>, org: string, plan: seq<string>, m: Mover, t: string)
    ensures Asked(Visits(movers, org, plan), m, t) <==> t in plan && m in movers
  {
    if plan != [] {
      var most, last := plan[..|plan| - 1], plan[|plan| - 1];
      AskedInPlan(movers, org, most, m, t);
      AskedTo(movers, org, last, m, t);
      assert plan == most + [last];
    }
  }

  lemma {:induction false} AskedInAll(movers: seq<Mover>, orgs: seq<string>, plans: seq<seq<string>>, m: Mover, t: string)
    requires |orgs| == |plans|
    ensures Asked(AllVisits(movers, orgs, plans), m, t) <==> InPlans(plans, t) && m in movers
  {
    if orgs != [] {
      var n := |orgs| - 1;
      AskedInAll(movers, orgs[..n], plans[..n], m, t);
      AskedInPlan(movers, orgs[n], plans[n], m, t);
      InPlansNext(plans, t);
    }
  }

  /** On any graph, a mover is asked for exactly the tenants at or below the root. */
  lemma {:induction false} AsksForReached(dir: Directory, root: string, movers: seq<Mover>, visits: seq<Visit>, tenants: nat, m: Mover, t: string)
    requires Swept(EarlyFirst(movers), dir, root, [root] + Kids(dir, root), visits, tenants)
    ensures Asked(visits, m, t) <==> m in movers && Reaches(dir, root, t)
  {
    var orgs := [root] + Kids(dir, root);
    var plans :| AllPlanned(dir, root, orgs, plans) && visits == AllVisits(EarlyFirst(movers), orgs, plans) && tenants == Total(plans);
    Covered(dir, root, plans, t);
    AskedInAll(EarlyFirst(movers), orgs, plans, m, t);
    EarlyMoversFirst(movers);
    assert m in EarlyFirst(movers) <==> m in multiset(EarlyFirst(movers));
    assert m in movers <==> m in multiset(movers);
  }

  type DocKey = (string, string)

  /** What the sweep finds of each document, by type and tenant. */
  type World = map<DocKey, StoreSwitching.Doc>

  /** How each type is split, and how values are spelled. */
  datatype Setting = Setting(sp: Spelling, kinds: map<string, Kind>)

  predicate Visited(visit: Visit, key: DocKey) {
    key.1 == visit.tenant && key.0 in visit.mover.types
  }

  /** What a document's mover leaves of it. */
  ghost predicate Readied(setting: Setting, reliable: bool, key: DocKey, d: StoreSwitching.Doc, d': StoreSwitching.Doc) {
    if key.0 in setting.kinds then TouchStage(setting.sp, setting.kinds[key.0], reliable, d, d') else d' == d
  }

  ghost predicate AfterVisit(setting: Setting, reliable: bool, world: World, visit: Visit, world': World) {
    && world'.Keys == world.Keys
    && forall key :: key in world ==>
         if Visited(visit, key) then Readied(setting, reliable, key, world[key], world'[key]) else world'[key] == world[key]
  }

  /** The worlds before, between and after the visits. */
  ghost predicate Run(setting: Setting, reliable: bool, worlds: seq<World>, visits: seq<Visit>) {
    && |worlds| == |visits| + 1
    && forall i :: 0 <= i < |visits| ==> AfterVisit(setting, reliable, worlds[i], visits[i], worlds[i + 1])
  }

  /** A document made ready without a failure stays as it is, whether later touches fail or not. */
  lemma {:induction false} ReadyStays(setting: Setting, reliable: bool, key: DocKey,
                                      d: StoreSwitching.Doc, d': StoreSwitching.Doc, d'': StoreSwitching.Doc)
    requires Readied(setting, true, key, d, d') && Readied(setting, reliable, key, d', d'')
    ensures d'' == d'
  {
    hide Normalized, Storable;
  }

  /** However often a document is visited, it is made ready once. */
  lemma {:induction false} VisitedOnce(setting: Setting, worlds: seq<World>, visits: seq<Visit>, n: nat, key: DocKey)
    requires Run(setting, true, worlds, visits) && n <= |visits| && key in worlds[0]
    ensures key in worlds[n]
    ensures if exists v :: v in visits[..n] && Visited(v, key) then Readied(setting, true, key, worlds[0][key], worlds[n][key])
            else worlds[n][key] == worlds[0][key]
  {
    hide Readied;
    if n > 0 {
      VisitedOnce(setting, worlds, visits, n - 1, key);
      assert AfterVisit(setting, true, worlds[n - 1], visits[n - 1], worlds[n]);
      assert visits[..n] == visits[..n - 1] + [visits[n - 1]];
      if Visited(visits[n - 1], key) && exists v :: v in visits[..n - 1] && Visited(v, key) {
        ReadyStays(setting, true, key, worlds[0][key], worlds[n - 1][key], worlds[n][key]);
      }
    }
  }

  /** Visits to tenants, by movers, that were already there change no document, whether they fail or not. */
  lemma {:induction false} VisitsAgain(setting: Setting, worlds: seq<World>, first: seq<Visit>,
                                       reliable: bool, worlds': seq<World>, second: seq<Visit>, n: nat)
    requires Run(setting, true, worlds, first) && Run(setting, reliable, worlds', second)
    requires worlds'[0] == worlds[|first|] && n <= |second|
    requires forall v :: v in second ==> Asked(first, v.mover, v.tenant)
    ensures worlds'[n] == worlds[|first|]
  {
    hide Readied;
    if n > 0 {
      VisitsAgain(setting, worlds, first, reliable, worlds', second, n - 1);
      var once, visit := worlds[|first|], second[n - 1];
      assert AfterVisit(setting, reliable, worlds'[n - 1], visit, worlds'[n]);
      KeysStay(setting, worlds, first, |first|);
      forall key | key in once
        ensures worlds'[n][key] == once[key]
      {
        if Visited(visit, key) {
          assert visit in second;
          var u :| u in first && u.mover == visit.mover && u.tenant == visit.tenant;
          assert first[..|first|] == first && Visited(u, key);
          VisitedOnce(setting, worlds, first, |first|, key);
          ReadyStays(setting, reliable, key, worlds[0][key], once[key], worlds'[n][key]);
        }
      }
    }
  }

  lemma {:induction false} KeysStay(setting: Setting, worlds: seq<World>, visits: seq<Visit>, n: nat)
    requires Run(setting, true, worlds, visits) && n <= |visits|
    ensures worlds[n].Keys == worlds[0].Keys
  {
    hide Readied;
    if n > 0 {
      KeysStay(setting, worlds, visits, n - 1);
      assert AfterVisit(setting, true, worlds[n - 1], visits[n - 1], worlds[n]);
    }
  }

  /**
   On any graph, after a sweep none of whose calls failed, a second sweep by
   movers that took part in the first leaves every document as it is,
   whichever of its own calls fail.
   */
  lemma {:induction false} SecondSweepChangesNothing(
    dir: Directory, root: string, movers: seq<Mover>, visits: seq<Visit>, tenants: nat, worlds: seq<World>,
    movers': seq<Mover>, visits': seq<Visit>, tenants': nat, worlds': seq<World>, setting: Setting, reliable: bool)
    requires Swept(EarlyFirst(movers), dir, root, [root] + Kids(dir, root), visits, tenants)
    requires Swept(EarlyFirst(movers'), dir, root, [root] + Kids(dir, root), visits', tenants')
    requires forall m :: m in movers' ==> m in movers
    requires Run(setting, true, worlds, visits) && Run(setting, reliable, worlds', visits')
    requires worlds'[0] == worlds[|visits|]
    ensures forall n :: 0 <= n < |worlds'| ==> worlds'[n] == worlds[|visits|]
  {
    hide Swept, Reaches, AfterVisit;
    forall v | v in visits'
      ensures Asked(visits, v.mover, v.tenant)
    {
      AsksForReached(dir, root, movers', visits', tenants', v.mover, v.tenant);
      AsksForReached(dir, root, movers, visits, tenants, v.mover, v.tenant);
    }
    forall n | 0 <= n < |worlds'|
      ensures worlds'[n] == worlds[|visits|]
    {
      VisitsAgain(setting, worlds, visits, reliable, worlds', visits', n);
    }
  }
}
