/** What the disambiguation rounds promise: the three rules one round applies to each
    competing type, the distinct names a round hands out, and that once no type competes
    every type that ever competed has a referent. */
module ResolveFacts {
  import opened Elements
  import opened Resolver
  import opened ResolverRounds

  /** The fate a round gives to the type `t` of the bucket `k` is the one the loop body
      computes for it. */
  lemma RoundFate(env: Env, s: State, k: string, t: TypeName)
    requires Ready(env, s) && k in s.typeMap && t in s.typeMap[k]
    ensures t in Members(s.typeMap) && Fates(env, s)[t] == BucketFate(env, s, k, t)
  {
    KeyOfUnique(s.typeMap, k, t);
  }

  /** A type alone in its bucket is named by the bucket's key and competes no more; its
      import owner stays. */
  lemma RoundNamed(env: Env, s: State, k: string, t: TypeName)
    requires Ready(env, s) && k in s.typeMap && t in s.typeMap[k] && |s.typeMap[k]| == 1
    ensures var r := Round(env, s);
      && t in r.referents && r.referents[t] == k
      && t in r.importMap && r.importMap[t] == s.importMap[t]
      && t !in Members(r.typeMap)
  {
    RoundFate(env, s, k, t);
    MembersOfNext(env, s);
  }

  /** A type of a larger bucket whose import owner is top-level is referred to by its
      qualified name, leaves the import map and competes no more. */
  lemma RoundQualified(env: Env, s: State, k: string, t: TypeName)
    requires Ready(env, s) && k in s.typeMap && t in s.typeMap[k] && |s.typeMap[k]| != 1
    requires env[s.importMap[t]].enclosing.Package?
    ensures var r := Round(env, s);
      && t in r.referents && r.referents[t] == t
      && t !in r.importMap && t !in Members(r.typeMap)
  {
    RoundFate(env, s, k, t);
    MembersOfNext(env, s);
  }

  /** Any other type of a larger bucket competes in the next round under the simple name
      of its owner's outer type joined to its own, imported through that outer type. */
  lemma RoundDeferred(env: Env, s: State, k: string, t: TypeName, o: TypeName)
    requires Ready(env, s) && k in s.typeMap && t in s.typeMap[k] && |s.typeMap[k]| != 1
    requires env[s.importMap[t]].enclosing == Enclosing(o)
    ensures o in env && t in env
    ensures var r := Round(env, s);
      var key := env[o].simpleName + "." + env[t].simpleName;
      && key in r.typeMap && t in r.typeMap[key]
      && t in r.importMap && r.importMap[t] == o
  {
    var fs := Fates(env, s);
    RoundFate(env, s, k, t);
    FateFacts(env, s, t);
    var D := DeferredAmong(fs, Members(s.typeMap));
    assert t in D;
    assert fs[t].key in DeferredKeys(fs, D);
  }

  /** Two different types both named by their bucket's key in the same round get
      different names. */
  lemma RoundNamesDistinct(env: Env, s: State, k1: string, t1: TypeName, k2: string, t2: TypeName)
    requires Ready(env, s)
    requires k1 in s.typeMap && t1 in s.typeMap[k1] && |s.typeMap[k1]| == 1
    requires k2 in s.typeMap && t2 in s.typeMap[k2] && |s.typeMap[k2]| == 1
    requires t1 != t2
    ensures Round(env, s).referents[t1] != Round(env, s).referents[t2]
  {
    RoundNamed(env, s, k1, t1);
    RoundNamed(env, s, k2, t2);
    if k1 == k2 {
      TwoInBucket(s.typeMap[k1], t1, t2);
    }
  }

  /** A set holding two different elements has more than one. */
  lemma TwoInBucket<T>(c: set<T>, x: T, y: T)
    requires x in c && y in c && x != y
    ensures |c| != 1
  {
    assert |{x, y}| == 2;
    assert c == {x, y} + (c - {x, y});
  }

  /** The first round, right after registration: a type whose simple name no other
      registered type shares is named by its bare simple name; any other competes again or
      is referred to by its qualified name. */
  lemma FirstRound(env: Env, ts: set<TypeName>, im: ImportMap, refs: ReferentMap, t: TypeName)
    requires ts <= env.Keys && t in ts
    requires Ready(env, State(Buckets(env, ts), im, refs))
    ensures var r := Round(env, State(Buckets(env, ts), im, refs));
      if forall u | u in ts && u != t :: env[u].simpleName != env[t].simpleName then
        t in r.referents && r.referents[t] == env[t].simpleName
      else
        t in Members(r.typeMap) || (t in r.referents && r.referents[t] == t)
  {
    var s := State(Buckets(env, ts), im, refs);
    var k := env[t].simpleName;
    assert k in SimpleNames(env, ts);
    assert t in s.typeMap[k];
    if forall u | u in ts && u != t :: env[u].simpleName != env[t].simpleName {
      assert s.typeMap[k] == {t};
      RoundNamed(env, s, k, t);
    } else {
      var u :| u in ts && u != t && env[u].simpleName == k;
      assert u in s.typeMap[k];
      TwoInBucket(s.typeMap[k], t, u);
      match env[s.importMap[t]].enclosing
      case Package(_) =>
        RoundQualified(env, s, k, t);
      case Enclosing(o) =>
        RoundDeferred(env, s, k, t, o);
    }
  }

  /** One round gives a referent to every competing type it does not defer, keeps the
      referents of the types that do not compete, and defers only competing types. */
  lemma {:induction false} RoundCovers(env: Env, s: State)
    requires Ready(env, s)
    ensures var r := Round(env, s);
      && Members(s.typeMap) <= r.referents.Keys + Members(r.typeMap)
      && s.referents.Keys <= r.referents.Keys
      && Members(r.typeMap) <= Members(s.typeMap)
      && forall t | t in s.referents && t !in Members(s.typeMap) :: r.referents[t] == s.referents[t]
  {
    MembersOfNext(env, s);
  }

  /** When the rounds end, every type that competed has a referent, and a type that never
      competed keeps the referent it had. */
  lemma {:induction false} ResolveCovers(env: Env, s: State)
    requires Ready(env, s)
    ensures var r := Resolve(env, s);
      && Members(s.typeMap) + s.referents.Keys <= r.referents.Keys
      && forall t | t in s.referents && t !in Members(s.typeMap) :: r.referents[t] == s.referents[t]
    decreases Measure(env, s)
  {
    if s.typeMap != map[] {
      RoundDecreases(env, s);
      RoundCovers(env, s);
      ResolveCovers(env, Round(env, s));
    }
  }
}
