/**
 Which organization a tenant belongs to: a bounded walk up its ancestors,
 with what it found kept for the life of the process.
 */
module OrgScope {
  import opened Prelude

  /** The tenant at the top; those directly under it are the organizations. */
  const ROOT := "00000000-0000-0000-0000-000000000001"

  /** How far up the walk goes. */
  const LEVELS := 16

  /** The parent of each tenant; a tenant that is not there has none. */
  type Parents = map<string, string>

  /** The tenant `k` levels up, or the last one there is. */
  function Up(parents: Parents, tenant: string, k: nat): string
    decreases k
  {
    if k == 0 || tenant !in parents then tenant else Up(parents, parents[tenant], k - 1)
  }

  /** The walk goes on from here. */
  predicate GoesOn(parents: Parents, at: string) {
    at != ROOT && at in parents && parents[at] != ROOT
  }

  /** Where a walk of at most `n` levels ends when every read succeeds. */
  function Walk(parents: Parents, at: string, n: nat): string
    decreases n
  {
    if n == 0 || !GoesOn(parents, at) then at else Walk(parents, parents[at], n - 1)
  }

  /** `org` is the organization of `tenant`, `k` levels up: the ancestor directly under the root. */
  ghost predicate OrgAt(parents: Parents, tenant: string, org: string, k: nat) {
    && Up(parents, tenant, k) == org
    && org != ROOT && org in parents && parents[org] == ROOT
    && forall j :: 0 <= j < k ==> GoesOn(parents, Up(parents, tenant, j))
  }

  lemma {:induction false} UpOne(parents: Parents, tenant: string, k: nat)
    requires tenant in parents
    ensures Up(parents, tenant, k + 1) == Up(parents, parents[tenant], k)
  {
  }

  /** A walk that has `n` levels to go reaches the organization exactly when it is no more than `n` levels up. */
  lemma {:induction false} WalkReaches(parents: Parents, tenant: string, org: string, k: nat, n: nat)
    requires OrgAt(parents, tenant, org, k)
    ensures Walk(parents, tenant, n) == org <==> k <= n
    ensures Walk(parents, tenant, n) == Up(parents, tenant, if k <= n then k else n)
    decreases k
  {
    if k > 0 {
      assert GoesOn(parents, Up(parents, tenant, 0));
      var parent := parents[tenant];
      assert OrgAt(parents, parent, org, k - 1) by {
        forall j | 0 <= j < k - 1
          ensures GoesOn(parents, Up(parents, parent, j))
        {
          UpOne(parents, tenant, j);
          assert GoesOn(parents, Up(parents, tenant, j + 1));
        }
      }
      if n > 0 {
        WalkReaches(parents, parent, org, k - 1, n - 1);
      } else {
        assert !(parents[tenant] == ROOT);
      }
    }
  }

  /** A tenant's organization is found exactly when it is at most sixteen levels up, and is its own organization. */
  lemma {:induction false} OrgFound(parents: Parents, tenant: string, org: string, k: nat)
    requires OrgAt(parents, tenant, org, k)
    ensures Walk(parents, tenant, LEVELS) == org <==> k <= LEVELS
    ensures Walk(parents, org, LEVELS) == org
  {
    WalkReaches(parents, tenant, org, k, LEVELS);
  }

  /** A tenant has one organization, at one distance. */
  lemma {:induction false} OrgUnique(parents: Parents, tenant: string, a: string, k: nat, b: string, j: nat)
    requires OrgAt(parents, tenant, a, k) && OrgAt(parents, tenant, b, j)
    ensures a == b && k == j
  {
  }

  /** What one process knows. */
  class Organizations {
    /** The tree, which does not change. */
    const parents: Parents
    var cache: map<string, string>

    /** Whatever is kept is what a walk finds. */
    ghost predicate Valid()
      reads this`cache
    {
      forall t :: t in cache ==> cache[t] == Walk(parents, t, LEVELS)
    }

    constructor (parents: Parents)
      ensures Valid() && this.parents == parents && cache == map[]
    {
      this.parents, cache := parents, map[];
    }

    /** One read of account-management, which may fail. */
    method GetTenant(id: string) returns (r: Result<Option<string>, ()>)
      ensures r.Ok? ==> r.value == if id in parents then Some(parents[id]) else None
    {
      var ok: bool := *;
      r := if !ok then Err(()) else Ok(if id in parents then Some(parents[id]) else None);
    }

    /**
     The organization of `tenant`. `read` says whether every read it needed
     succeeded: if not, the tenant itself is answered and nothing is kept.
     */
    method OrgOf(tenant: string) returns (org: string, ghost read: bool)
      requires Valid()
      modifies this`cache
      ensures Valid()
      ensures read ==> org == Walk(parents, tenant, LEVELS) && cache == old(cache)[tenant := org]
      ensures !read ==> org == tenant && tenant !in cache && cache == old(cache)
      ensures tenant in old(cache) ==> read
    {
      if tenant in cache {
        assert cache[tenant := cache[tenant]] == cache;
        return cache[tenant], true;
      }
      var at := tenant;
      var level := 0;
      while level < LEVELS
        invariant cache == old(cache)
        invariant level <= LEVELS && Walk(parents, tenant, LEVELS) == Walk(parents, at, LEVELS - level)
      {
        if at == ROOT {
          break;
        }
        var t := GetTenant(at);
        if t.Err? {
          return tenant, false;
        }
        if t.value.Some? && t.value.value != ROOT {
          at := t.value.value;
        } else {
          break;
        }
        level := level + 1;
      }
      cache := cache[tenant := at];
      return at, true;
    }
  }
}
