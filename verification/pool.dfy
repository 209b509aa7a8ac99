/**
 Profile-pool construction: the requested category names are turned into the
 flat sequence of (category, User-Agent) pairs from the category table.
 Unknown names contribute nothing; a repeated name contributes again.
 */
module Pool {
  import opened Optional
  import opened Catalog

  /** The profiles one requested name contributes, in table order. */
  function ProfilesOf(table: seq<CategoryEntry>, name: string): seq<Profile>
  {
    match LookupIn(table, name)
    case None => []
    case Some(uas) => seq(|uas|, i requires 0 <= i < |uas| => Profile(name, uas[i]))
  }

  /** A requested name contributes exactly the profiles (name, ua) for the ua listed under it. */
  lemma ProfilesOfMembership(table: seq<CategoryEntry>, name: string, p: Profile)
    ensures p in ProfilesOf(table, name) <==> p.category == name && IsKnownIn(table, name) && p.userAgent in LookupIn(table, name).value
  {
  }

  /** The pool for the requested names: request order first, then table order. */
  function PoolOf(table: seq<CategoryEntry>, categories: seq<string>): seq<Profile>
    decreases |categories|
  {
    if |categories| == 0 then []
    else PoolOf(table, categories[..|categories| - 1]) + ProfilesOf(table, categories[|categories| - 1])
  }

  /** The pool of a concatenated request is the concatenation of the pools. */
  lemma {:induction false} PoolOfAppend(table: seq<CategoryEntry>, a: seq<string>, b: seq<string>)
    ensures PoolOf(table, a + b) == PoolOf(table, a) + PoolOf(table, b)
    decreases |b|
  {
    if |b| == 0 {
      assert a + b == a;
    } else {
      var b' := b[..|b| - 1];
      var last := b[|b| - 1];
      calc {
        PoolOf(table, a + b);
        { assert (a + b)[..|a + b| - 1] == a + b'; assert (a + b)[|a + b| - 1] == last; }
        PoolOf(table, a + b') + ProfilesOf(table, last);
        { PoolOfAppend(table, a, b'); }
        PoolOf(table, a) + PoolOf(table, b') + ProfilesOf(table, last);
        PoolOf(table, a) + (PoolOf(table, b') + ProfilesOf(table, last));
        PoolOf(table, a) + PoolOf(table, b);
      }
    }
  }

  /**
   A profile is in the pool exactly when its category was requested, is a key
   of the table, and its User-Agent is listed under that key.
   */
  lemma {:induction false} PoolMembership(table: seq<CategoryEntry>, categories: seq<string>, p: Profile)
    ensures p in PoolOf(table, categories) <==> p.category in categories && IsKnownIn(table, p.category) && p.userAgent in LookupIn(table, p.category).value
    decreases |categories|
  {
    if |categories| > 0 {
      var init := categories[..|categories| - 1];
      var last := categories[|categories| - 1];
      PoolMembership(table, init, p);
      ProfilesOfMembership(table, last, p);
      assert categories == init + [last];
      assert p.category in categories <==> p.category in init || p.category == last;
    }
  }

  /** The pool is empty exactly when none of the requested names is a key of the table. */
  lemma {:induction false} PoolEmptyIff(table: seq<CategoryEntry>, categories: seq<string>)
    requires NoEmptyCategory(table)
    ensures PoolOf(table, categories) == [] <==> forall i :: 0 <= i < |categories| ==> !IsKnownIn(table, categories[i])
    decreases |categories|
  {
    if |categories| > 0 {
      var init := categories[..|categories| - 1];
      var last := categories[|categories| - 1];
      PoolEmptyIff(table, init);
      assert PoolOf(table, categories) == PoolOf(table, init) + ProfilesOf(table, last);
      assert ProfilesOf(table, last) == [] <==> !IsKnownIn(table, last) by {
        if IsKnownIn(table, last) {
          KnownCategoryNonEmpty(table, last);
          assert |ProfilesOf(table, last)| == |LookupIn(table, last).value|;
        }
      }
      assert (forall i :: 0 <= i < |categories| ==> !IsKnownIn(table, categories[i]))
         <==> (forall i :: 0 <= i < |init| ==> !IsKnownIn(table, init[i])) && !IsKnownIn(table, last) by {
        assert forall i :: 0 <= i < |init| ==> init[i] == categories[i];
      }
    }
  }

  /** Dropping the unknown names from the request leaves the pool unchanged. */
  function KnownOnly(table: seq<CategoryEntry>, categories: seq<string>): (known: seq<string>)
    ensures forall c :: c in known <==> c in categories && IsKnownIn(table, c)
    decreases |categories|
  {
    if |categories| == 0 then []
    else
      var init := KnownOnly(table, categories[..|categories| - 1]);
      var last := categories[|categories| - 1];
      assert categories == categories[..|categories| - 1] + [last];
      if IsKnownIn(table, last) then init + [last] else init
  }

  lemma {:induction false} PoolIgnoresUnknown(table: seq<CategoryEntry>, categories: seq<string>)
    ensures PoolOf(table, KnownOnly(table, categories)) == PoolOf(table, categories)
    decreases |categories|
  {
    if |categories| > 0 {
      var init := categories[..|categories| - 1];
      var last := categories[|categories| - 1];
      PoolIgnoresUnknown(table, init);
      PoolOfAppend(table, KnownOnly(table, init), [last]);
      assert [last][..0] == [];
    }
  }

  /**
   The source's nested loop: for each requested name that is a key of the
   table, append one pair per listed User-Agent.
   */
  method BuildPool(table: seq<CategoryEntry>, categories: seq<string>) returns (pool: seq<Profile>)
    ensures pool == PoolOf(table, categories)
  {
    pool := [];
    for i := 0 to |categories|
      invariant pool == PoolOf(table, categories[..i])
    {
      var category := categories[i];
      ghost var before := pool;
      assert PoolOf(table, categories[..i + 1]) == before + ProfilesOf(table, category) by {
        assert categories[..i + 1][..i] == categories[..i];
      }
      match LookupIn(table, category)
      case None =>
      case Some(uas) =>
        for j := 0 to |uas|
          invariant pool == before + ProfilesOf(table, category)[..j]
        {
          pool := pool + [Profile(category, uas[j])];
        }
        assert ProfilesOf(table, category)[..|uas|] == ProfilesOf(table, category);
    }
    assert categories[..|categories|] == categories;
  }
}
