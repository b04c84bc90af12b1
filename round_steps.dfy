/** The facts the imperative round loop of the model builder needs: which buckets and
    types it has handled so far, and what handling one more type does to the state. */
module RoundSteps {
  import opened Elements
  import opened Resolver
  import opened ResolverRounds

  /** The loop over the buckets has handled every key outside `pending`: `done` is
      exactly the set of their members. */
  ghost predicate Covered(tm: TypeMap, pending: set<string>, done: set<TypeName>)
  {
    && pending <= tm.Keys
    && done <= Members(tm)
    && (forall k | k in tm && k !in pending :: tm[k] <= done)
    && (forall k | k in pending :: tm[k] !! done)
  }

  lemma CoveredStart(tm: TypeMap)
    ensures Covered(tm, tm.Keys, {})
  {
  }

  /** When no bucket is left, every competing type has been handled. */
  lemma CoveredDone(tm: TypeMap, done: set<TypeName>)
    requires Covered(tm, {}, done)
    ensures done == Members(tm)
  {
    forall t | t in Members(tm) ensures t in done {
      var k :| k in tm && t in tm[k];
    }
  }

  /** Handling the bucket `key` adds exactly its members. */
  lemma CoveredNext(tm: TypeMap, pending: set<string>, done: set<TypeName>, key: string)
    requires Disjoint(tm) && Covered(tm, pending, done) && key in pending
    ensures Covered(tm, pending - {key}, done + tm[key])
  {
    forall t | t in tm[key] ensures t in Members(tm) {
    }
  }

  /** A bucket not yet handled competes in the round and shares no type with the handled
      ones. */
  lemma BucketFresh(tm: TypeMap, pending: set<string>, done: set<TypeName>, key: string)
    requires Covered(tm, pending, done) && key in pending
    ensures done + tm[key] <= Members(tm) && done !! tm[key]
  {
    forall u | u in tm[key] ensures u in Members(tm) {
    }
  }

  lemma SingletonOf<T>(c: set<T>, x: T)
    requires |c| == 1 && x in c
    ensures c == {x}
  {
    assert |c - {x}| == 0;
  }

  /** Partway through the round that started in `s0`: the types `P` have been handled
      and the state is `s`. */
  ghost predicate Partial(env: Env, s0: State, P: set<TypeName>, s: State)
  {
    Ready(env, s0) && P <= Members(s0.typeMap) && s == After(s0, Fates(env, s0), P)
  }

  lemma PartialStart(env: Env, s0: State)
    requires Ready(env, s0)
    ensures Partial(env, s0, {}, s0.(typeMap := map[]))
  {
    AfterNone(s0, Fates(env, s0));
  }

  /** The whole round handled. */
  lemma PartialEnd(env: Env, s0: State, s: State)
    requires Partial(env, s0, Members(s0.typeMap), s)
    ensures s == Round(env, s0)
  {
  }

  /** One step of the loop body: the type `t` of bucket `k`, not yet handled, still has
      its import owner from the start of the round, and handling it by the fate the loop
      body gives it extends the handled set by `t`. */
  lemma RoundStep(env: Env, s0: State, P: set<TypeName>, s: State, k: string, t: TypeName)
    requires Partial(env, s0, P, s)
    requires k in s0.typeMap && t in s0.typeMap[k] && t !in P
    ensures t in env && t in s.importMap && s.importMap[t] == s0.importMap[t]
    ensures s0.importMap[t] in env
    ensures env[s0.importMap[t]].enclosing.Enclosing? ==> env[s0.importMap[t]].enclosing.outer in env
    ensures Partial(env, s0, P + {t}, Apply(s, t, BucketFate(env, s0, k, t)))
  {
    var fs := Fates(env, s0);
    KeyOfUnique(s0.typeMap, k, t);
    assert Declared(env, s0.importMap[t]) && DeclOk(env, s0.importMap[t]);
    AfterAdd(s0, fs, P, t);
  }

  /** A type alone in its bucket: handling it names it by the bucket's key. */
  lemma NamedStep(env: Env, s0: State, P: set<TypeName>, s: State, k: string, t: TypeName)
    requires Partial(env, s0, P, s)
    requires k in s0.typeMap && s0.typeMap[k] == {t} && t !in P
    ensures Partial(env, s0, P + s0.typeMap[k], s.(referents := s.referents[t := k]))
  {
    RoundStep(env, s0, P, s, k, t);
  }

  /** A type that is not yet handled still has the import owner it had when the round
      started, and that owner is a type of the environment. */
  lemma RoundOwner(env: Env, s0: State, P: set<TypeName>, s: State, k: string, t: TypeName)
    requires Partial(env, s0, P, s)
    requires k in s0.typeMap && t in s0.typeMap[k] && t !in P
    ensures t in env && t in s.importMap && s.importMap[t] == s0.importMap[t]
    ensures s.importMap[t] in env
    ensures env[s.importMap[t]].enclosing.Enclosing? ==> env[s.importMap[t]].enclosing.outer in env
  {
    RoundStep(env, s0, P, s, k, t);
  }

  /** A type of a larger bucket whose import owner is top-level: handling it refers to it
      by its qualified name and drops it from the import map. */
  lemma QualifiedStep(env: Env, s0: State, P: set<TypeName>, s: State, k: string, t: TypeName)
    requires Partial(env, s0, P, s)
    requires k in s0.typeMap && t in s0.typeMap[k] && t !in P && |s0.typeMap[k]| != 1
    requires t in s.importMap && s.importMap[t] in env && env[s.importMap[t]].enclosing.Package?
    ensures Partial(env, s0, P + {t}, s.(referents := s.referents[t := t], importMap := s.importMap - {t}))
  {
    RoundStep(env, s0, P, s, k, t);
  }

  /** A type of a larger bucket whose import owner is nested in `o`: handling it moves it
      to the bucket of `o`'s simple name joined to its own, imported through `o`. */
  lemma DeferredStep(env: Env, s0: State, P: set<TypeName>, s: State, k: string, t: TypeName, o: TypeName)
    requires Partial(env, s0, P, s)
    requires k in s0.typeMap && t in s0.typeMap[k] && t !in P && |s0.typeMap[k]| != 1
    requires t in s.importMap && s.importMap[t] in env && env[s.importMap[t]].enclosing == Enclosing(o)
    ensures o in env && t in env
    ensures Partial(env, s0, P + {t},
      s.(typeMap := MultiPut(s.typeMap, env[o].simpleName + "." + env[t].simpleName, t), importMap := s.importMap[t := o]))
  {
    RoundStep(env, s0, P, s, k, t);
  }
}
