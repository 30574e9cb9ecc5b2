/**
 How several role mixtures are averaged into one by the length of the texts
 they were read from. Shares are exact reals: rounding is not modelled.
 */
module Mixture {
  import opened Prelude

  /** A share as a result carries it: a finite number, or anything else. */
  datatype Share = Number(r: real) | Other

  /** What one document is said to be made of; a result that is missing has no mixture. */
  datatype Result = Result(mixture: Option<map<string, Share>>, tokens: Option<real>)

  /** The length of a document; 1 when it is not known. */
  function Weight(r: Result): (w: real)
    ensures w > 0.0
  {
    if r.tokens.Some? && r.tokens.value > 0.0 then r.tokens.value else 1.0
  }

  predicate Shares(r: Result, role: string) {
    r.mixture.Some? && role in r.mixture.value && r.mixture.value[role].Number?
  }

  /** The share of a role in one document: 0 where it is absent or no number. */
  function ShareOf(r: Result, role: string): real {
    if Shares(r, role) then r.mixture.value[role].r else 0.0
  }

  function WeightOf(r: Result): real {
    if r.mixture.Some? then Weight(r) else 0.0
  }

  /** The length of the whole set. */
  function Tokens(results: seq<Result>): real {
    if results == [] then 0.0 else Tokens(results[..|results| - 1]) + WeightOf(results[|results| - 1])
  }

  /** How much of one document reads as `role`. */
  function Term(r: Result, role: string): real {
    ShareOf(r, role) * WeightOf(r)
  }

  /** How much of the set reads as `role`. */
  function Total(results: seq<Result>, role: string): real {
    if results == [] then 0.0
    else Total(results[..|results| - 1], role) + Term(results[|results| - 1], role)
  }

  /** The roles any result gives a share of. */
  function Roles(results: seq<Result>): set<string> {
    set i, role | 0 <= i < |results| && results[i].mixture.Some? && role in results[i].mixture.value && Shares(results[i], role) :: role
  }

  /** The mixture of a set; empty when no result has one. */
  function Mixed(results: seq<Result>): map<string, real> {
    if Tokens(results) == 0.0 then map[]
    else map role | role in Roles(results) :: Total(results, role) / Tokens(results)
  }

  /** One result's shares, a role at a time, added to the totals. */
  method AddShares(totals: map<string, real>, mixture: map<string, Share>, weight: real) returns (r: map<string, real>)
    ensures r.Keys == totals.Keys + set role | role in mixture && mixture[role].Number?
    ensures forall role :: role in r ==>
              r[role] == (if role in totals then totals[role] else 0.0)
                         + (if role in mixture && mixture[role].Number? then mixture[role].r * weight else 0.0)
  {
    r := totals;
    var left := mixture.Keys;
    while left != {}
      invariant left <= mixture.Keys
      invariant r.Keys == totals.Keys + set role | role in mixture && role !in left && mixture[role].Number?
      invariant forall role :: role in r ==>
                  r[role] == (if role in totals then totals[role] else 0.0)
                             + (if role in mixture && role !in left && mixture[role].Number? then mixture[role].r * weight else 0.0)
      decreases left
    {
      var role :| role in left;
      left := left - {role};
      if mixture[role].Number? {
        r := r[role := (if role in r then r[role] else 0.0) + mixture[role].r * weight];
      }
    }
  }

  lemma {:induction false} TokensNonNegative(results: seq<Result>)
    ensures Tokens(results) >= 0.0
    ensures Tokens(results) == 0.0 <==> forall i :: 0 <= i < |results| ==> results[i].mixture.None?
  {
    if results != [] {
      var n := |results| - 1;
      TokensNonNegative(results[..n]);
      assert forall i :: 0 <= i < n ==> results[..n][i] == results[i];
    }
  }

  lemma {:induction false} RolesNext(results: seq<Result>, i: nat)
    requires i < |results|
    ensures Roles(results[..i + 1]) == Roles(results[..i]) + set role | role in MixtureOf(results[i]) && Shares(results[i], role)
  {
  }

  function MixtureOf(r: Result): map<string, Share> {
    match r.mixture
    case Some(m) => m
    case None => map[]
  }

  /** A role nobody has a share of so far adds up to nothing. */
  lemma {:induction false} NoShareNoTotal(results: seq<Result>, role: string)
    requires role !in Roles(results)
    ensures Total(results, role) == 0.0
  {
    if results != [] {
      var n := |results| - 1;
      RolesNext(results, n);
      assert results[..n + 1] == results;
      NoShareNoTotal(results[..n], role);
      assert !Shares(results[n], role);
    }
  }

  lemma {:induction false} TotalNext(results: seq<Result>, i: nat, role: string)
    requires i < |results|
    ensures Total(results[..i + 1], role) == Total(results[..i], role) + ShareOf(results[i], role) * WeightOf(results[i])
    ensures Tokens(results[..i + 1]) == Tokens(results[..i]) + WeightOf(results[i])
  {
    assert results[..i + 1][..i] == results[..i];
  }

  /** The totals so far. */
  ghost predicate TotalsOf(results: seq<Result>, totals: map<string, real>) {
    totals.Keys == Roles(results) && forall role :: role in totals ==> totals[role] == Total(results, role)
  }

  /** One result more. */
  lemma {:induction false} TotalsNext(results: seq<Result>, i: nat, totals: map<string, real>, totals': map<string, real>)
    requires i < |results| && TotalsOf(results[..i], totals)
    requires totals'.Keys == totals.Keys + set role | role in MixtureOf(results[i]) && Shares(results[i], role)
    requires forall role :: role in totals' ==>
               totals'[role] == (if role in totals then totals[role] else 0.0) + ShareOf(results[i], role) * WeightOf(results[i])
    ensures TotalsOf(results[..i + 1], totals')
  {
    hide Total, Roles, Shares, ShareOf;
    RolesNext(results, i);
    forall role | role in totals'
      ensures totals'[role] == Total(results[..i + 1], role)
    {
      TotalNext(results, i, role);
      if role !in totals {
        NoShareNoTotal(results[..i], role);
      }
    }
  }

  /** One mixture for all the results, longer documents counting for more, and their length together. */
  method WeightedMixture(results: seq<Result>) returns (mixture: map<string, real>, tokens: real)
    ensures mixture == Mixed(results) && tokens == Tokens(results)
  {
    hide Total, Roles, Tokens, TotalsOf;
    var totals: map<string, real> := map[];
    tokens := 0.0;
    NothingYet(results);
    for i := 0 to |results|
      invariant tokens == Tokens(results[..i]) && TotalsOf(results[..i], totals)
    {
      var result := results[i];
      ghost var before := totals;
      TotalNext(results, i, "");
      if result.mixture.Some? {
        tokens := tokens + Weight(result);
        totals := AddShares(totals, result.mixture.value, Weight(result));
      }
      TotalsNext(results, i, before, totals);
    }
    assert results[..|results|] == results;
    MixedIs(results, totals);
    if tokens == 0.0 {
      return map[], 0.0;
    }
    mixture := map role | role in totals :: totals[role] / tokens;
  }

  lemma {:induction false} NothingYet(results: seq<Result>)
    ensures Tokens(results[..0]) == 0.0 && TotalsOf(results[..0], map[])
  {
  }

  lemma {:induction false} MixedIs(results: seq<Result>, totals: map<string, real>)
    requires TotalsOf(results, totals)
    ensures Mixed(results) == if Tokens(results) == 0.0 then map[] else map role | role in totals :: totals[role] / Tokens(results)
  {
  }

  // ----- sums over the roles

  ghost function Any(roles: set<string>): (role: string)
    requires roles != {}
    ensures role in roles
  {
    var role :| role in roles;
    role
  }

  ghost function Sum(roles: set<string>, f: string -> real): real {
    if roles == {} then 0.0 else f(Any(roles)) + Sum(roles - {Any(roles)}, f)
  }

  /** In whichever order a sum is taken. */
  lemma {:induction false} SumWithout(roles: set<string>, f: string -> real, role: string)
    requires role in roles
    ensures Sum(roles, f) == f(role) + Sum(roles - {role}, f)
    decreases roles
  {
    var first := Any(roles);
    if first != role {
      SumWithout(roles - {first}, f, role);
      SumWithout(roles - {role}, f, first);
      assert roles - {first} - {role} == roles - {role} - {first};
    }
  }

  lemma {:induction false} SumSame(roles: set<string>, f: string -> real, g: string -> real)
    requires forall role :: role in roles ==> f(role) == g(role)
    ensures Sum(roles, f) == Sum(roles, g)
    decreases roles
  {
    if roles != {} {
      var role :| role in roles;
      SumWithout(roles, f, role);
      SumWithout(roles, g, role);
      SumSame(roles - {role}, f, g);
    }
  }

  lemma {:induction false} SumMore(roles: set<string>, more: set<string>, f: string -> real)
    requires roles <= more && forall role :: role in more - roles ==> f(role) == 0.0
    ensures Sum(more, f) == Sum(roles, f)
    decreases more
  {
    if role :| role in more - roles {
      SumWithout(more, f, role);
      SumMore(roles, more - {role}, f);
    } else {
      assert forall role :: role in more ==> role in roles || role in more - roles;
      assert roles == more;
    }
  }

  lemma {:induction false} SumNothing(roles: set<string>, f: string -> real)
    requires forall role :: role in roles ==> f(role) == 0.0
    ensures Sum(roles, f) == 0.0
  {
    SumMore({}, roles, f);
  }

  function Times(x: real, w: real): real {
    x * w
  }

  lemma {:induction false} Distributes(x: real, y: real, w: real)
    ensures Times(x + y, w) == Times(x, w) + Times(y, w)
  {
  }

  /** A sum of sums, the second scaled. */
  lemma {:induction false} SumPlus(roles: set<string>, f: string -> real, g: string -> real, w: real, h: string -> real)
    requires forall role :: role in roles ==> h(role) == f(role) + Times(g(role), w)
    ensures Sum(roles, h) == Sum(roles, f) + Times(Sum(roles, g), w)
    decreases roles
  {
    hide Times;
    if roles == {} {
      Distributes(0.0, 0.0, w);
    } else {
      hide Sum;
      var role :| role in roles;
      SumWithout(roles, f, role);
      SumWithout(roles, g, role);
      SumWithout(roles, h, role);
      SumPlus(roles - {role}, f, g, w, h);
      Distributes(g(role), Sum(roles - {role}, g), w);
    }
  }

  lemma {:induction false} SumScaled(roles: set<string>, f: string -> real, w: real, h: string -> real)
    requires forall role :: role in roles ==> h(role) == f(role) * w
    ensures Sum(roles, h) == Sum(roles, f) * w
  {
    var nothing := (role: string) => 0.0;
    SumPlus(roles, nothing, f, w, h);
    SumNothing(roles, nothing);
  }

  // ----- a convex combination

  function RolesOf(r: Result): set<string> {
    set role | role in MixtureOf(r) && Shares(r, role)
  }

  /** A document that is counted is made of its roles: its shares add up to 1. */
  ghost predicate Whole(r: Result) {
    r.mixture.Some? ==> Sum(RolesOf(r), role => ShareOf(r, role)) == 1.0
  }

  lemma {:induction false} TotalsAddUp(results: seq<Result>, roles: set<string>)
    requires (forall i :: 0 <= i < |results| ==> Whole(results[i])) && Roles(results) <= roles
    ensures Sum(roles, role => Total(results, role)) == Tokens(results)
  {
    hide Sum, Whole, Roles, ShareOf, WeightOf;
    if results == [] {
      SumNothing(roles, role => Total(results, role));
    } else {
      var n := |results| - 1;
      var most, last := results[..n], results[n];
      RolesNext(results, n);
      assert results[..n + 1] == results;
      TotalsAddUp(most, roles);
      var shares := (role: string) => ShareOf(last, role);
      SumPlus(roles, role => Total(most, role), shares, WeightOf(last), role => Total(results, role));
      WholeAdds(last, roles);
    }
  }

  lemma {:induction false} WholeAdds(r: Result, roles: set<string>)
    requires Whole(r) && RolesOf(r) <= roles
    ensures Sum(roles, role => ShareOf(r, role)) * WeightOf(r) == WeightOf(r)
  {
    if r.mixture.Some? {
      SumMore(RolesOf(r), roles, role => ShareOf(r, role));
    }
  }

  /** The shares of the set add up to 1 when those of every counted document do. */
  lemma {:induction false} MixtureWhole(results: seq<Result>)
    requires forall i :: 0 <= i < |results| ==> Whole(results[i])
    requires Tokens(results) != 0.0
    ensures Sum(Mixed(results).Keys, role => if role in Mixed(results) then Mixed(results)[role] else 0.0) == 1.0
  {
    hide Total, Sum, Whole, Tokens, Roles;
    var tokens := Tokens(results);
    TotalsAddUp(results, Roles(results));
    forall role | role in Roles(results)
      ensures Mixed(results)[role] == Total(results, role) * (1.0 / tokens)
    {
      Inverse(Total(results, role), tokens);
    }
    Inverse(tokens, tokens);
    assert Mixed(results).Keys == Roles(results);
    SumScaled(Roles(results), role => Total(results, role), 1.0 / tokens,
              role => if role in Mixed(results) then Mixed(results)[role] else 0.0);
  }

  lemma {:induction false} Inverse(x: real, y: real)
    requires y != 0.0
    ensures x / y == x * (1.0 / y) && y / y == 1.0
  {
  }

  /** The total of a role is between its least and its greatest share of the whole length. */
  lemma {:induction false} TotalBetween(results: seq<Result>, role: string, lo: real, hi: real)
    requires forall i :: 0 <= i < |results| && results[i].mixture.Some? ==> lo <= ShareOf(results[i], role) <= hi
    ensures lo * Tokens(results) <= Total(results, role) <= hi * Tokens(results)
  {
    hide WeightOf, ShareOf;
    if results != [] {
      var n := |results| - 1;
      var most, last := results[..n], results[n];
      TotalBetween(most, role, lo, hi);
      var w, share := WeightOf(last), ShareOf(last, role);
      Counted(last);
      Between(lo, share, hi, w, last.mixture.Some?);
      Added(lo, Tokens(most), Total(most, role), hi, w, share);
    }
  }

  lemma {:induction false} Added(lo: real, tokens: real, total: real, hi: real, w: real, share: real)
    requires lo * tokens <= total <= hi * tokens && lo * w <= share * w <= hi * w
    ensures lo * (tokens + w) <= total + share * w <= hi * (tokens + w)
  {
  }

  lemma {:induction false} Counted(r: Result)
    ensures if r.mixture.Some? then WeightOf(r) > 0.0 else WeightOf(r) == 0.0
  {
  }

  lemma {:induction false} Between(lo: real, share: real, hi: real, w: real, counted: bool)
    requires if counted then lo <= share <= hi && w > 0.0 else w == 0.0
    ensures lo * w <= share * w <= hi * w
  {
  }

  /** Each share of the set lies between the least and the greatest share of a counted document. */
  lemma {:induction false} MixtureBetween(results: seq<Result>, role: string, lo: real, hi: real)
    requires role in Mixed(results)
    requires forall i :: 0 <= i < |results| && results[i].mixture.Some? ==> lo <= ShareOf(results[i], role) <= hi
    ensures lo <= Mixed(results)[role] <= hi
  {
    hide Total, Tokens;
    TotalBetween(results, role, lo, hi);
    TokensNonNegative(results);
    Divides(lo, Total(results, role), hi, Tokens(results));
  }

  lemma {:induction false} Divides(lo: real, total: real, hi: real, tokens: real)
    requires tokens > 0.0 && lo * tokens <= total <= hi * tokens
    ensures lo <= total / tokens <= hi
  {
  }

  // ----- whatever the order

  lemma {:induction false} TakenOut(results: seq<Result>, i: nat, role: string)
    requires i < |results|
    ensures var rest := results[..i] + results[i + 1..];
            && Tokens(results) == Tokens(rest) + WeightOf(results[i])
            && Total(results, role) == Total(rest, role) + Term(results[i], role)
  {
    hide WeightOf, Term;
    var n := |results| - 1;
    var rest := results[..i] + results[i + 1..];
    if i == n {
      assert rest == results[..n];
    } else {
      TakenOut(results[..n], i, role);
      assert rest[..|rest| - 1] == results[..n][..i] + results[..n][i + 1..];
    }
  }

  lemma {:induction false} SameTotals(a: seq<Result>, b: seq<Result>, role: string)
    requires multiset(a) == multiset(b)
    ensures Tokens(a) == Tokens(b) && Total(a, role) == Total(b, role)
    decreases |a|
  {
    hide WeightOf, Term;
    if b == [] {
      assert |multiset(a)| == 0;
    } else {
      var n := |b| - 1;
      var i := WhereIs(a, b);
      TakenOut(a, i, role);
      SameTotals(a[..i] + a[i + 1..], b[..n], role);
    }
  }

  /** The last of one list, in another with the same elements. */
  lemma {:induction false} WhereIs(a: seq<Result>, b: seq<Result>) returns (i: nat)
    requires b != [] && multiset(a) == multiset(b)
    ensures i < |a| && a[i] == b[|b| - 1]
    ensures multiset(a[..i] + a[i + 1..]) == multiset(b[..|b| - 1])
  {
    var n := |b| - 1;
    assert b == b[..n] + [b[n]];
    assert b[n] in multiset(a);
    i :| 0 <= i < |a| && a[i] == b[n];
    var rest := a[..i] + a[i + 1..];
    assert a == a[..i] + [a[i]] + a[i + 1..];
    assert multiset(a) == multiset(rest) + multiset{a[i]};
    assert multiset(rest) == multiset(a) - multiset{a[i]};
    assert multiset(b[..n]) == multiset(b) - multiset{b[n]};
  }

  /** The order of the results does not matter. */
  lemma {:induction false} MixtureUnordered(a: seq<Result>, b: seq<Result>)
    requires multiset(a) == multiset(b)
    ensures Mixed(a) == Mixed(b) && Tokens(a) == Tokens(b)
  {
    SameTotals(a, b, "");
    forall role
      ensures Total(a, role) == Total(b, role) && (role in Roles(a) <==> role in Roles(b))
    {
      SameTotals(a, b, role);
      if role in Roles(a) {
        SameRoles(a, b, role);
      }
      if role in Roles(b) {
        SameRoles(b, a, role);
      }
    }
    assert Roles(a) == Roles(b);
  }

  lemma {:induction false} SameRoles(a: seq<Result>, b: seq<Result>, role: string)
    requires multiset(a) == multiset(b) && role in Roles(a)
    ensures role in Roles(b)
  {
    var i :| 0 <= i < |a| && a[i].mixture.Some? && role in a[i].mixture.value && Shares(a[i], role);
    assert a[i] in multiset(b);
    var j :| 0 <= j < |b| && b[j] == a[i];
    assert Shares(b[j], role);
  }
}
