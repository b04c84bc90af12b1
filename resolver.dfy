/** The referent computation of the model builder, as functions: registration state,
    one disambiguation round (`After`, `Round`), all rounds (`Resolve`), and what they
    guarantee. */
module Resolver {
  import opened Elements

  /** HashMultimap<String, TypeElement>: candidate referent -> types competing for it. */
  type TypeMap = map<string, set<TypeName>>
  /** type -> the type whose import makes the type's referent resolvable. */
  type ImportMap = map<TypeName, TypeName>
  type ReferentMap = map<TypeName, string>

  datatype State = State(typeMap: TypeMap, importMap: ImportMap, referents: ReferentMap)

  /** `HashMultimap.put`. */
  function MultiPut(tm: TypeMap, k: string, t: TypeName): (r: TypeMap)
    ensures r.Keys == tm.Keys + {k} && t in r[k]
  {
    tm[k := (if k in tm then tm[k] else {}) + {t}]
  }

  ghost function Members(tm: TypeMap): set<TypeName>
  {
    set k, t | k in tm && t in tm[k] :: t
  }

  /** No type competes for two referents at once. */
  ghost predicate Disjoint(tm: TypeMap)
  {
    forall k1, k2, t | k1 in tm && k2 in tm && t in tm[k1] && t in tm[k2] :: k1 == k2
  }

  ghost predicate NoEmptyBucket(tm: TypeMap)
  {
    forall k | k in tm :: tm[k] != {}
  }

  /** The state a round starts from: every competing type has an import-map entry, and
      import-map entries are types of the environment. */
  ghost predicate Ready(env: Env, s: State)
  {
    && WellFormed(env)
    && Disjoint(s.typeMap) && NoEmptyBucket(s.typeMap)
    && (forall t | t in s.importMap :: t in env && s.importMap[t] in env)
    && (forall k, t | k in s.typeMap && t in s.typeMap[k] :: t in s.importMap)
  }

  // ------------------------------------------------------------------ registration

  ghost function SimpleNames(env: Env, ts: set<TypeName>): set<string>
    requires ts <= env.Keys
  {
    set t | t in ts :: env[t].simpleName
  }

  /** The multimap `registerType` builds: each registered type under its simple name. */
  ghost function Buckets(env: Env, ts: set<TypeName>): (tm: TypeMap)
    requires ts <= env.Keys
  {
    map k | k in SimpleNames(env, ts) :: set t | t in ts && env[t].simpleName == k
  }

  lemma {:induction false} BucketsAdd(env: Env, ts: set<TypeName>, t: TypeName)
    requires ts <= env.Keys && t in env
    ensures Buckets(env, ts + {t}) == MultiPut(Buckets(env, ts), env[t].simpleName, t)
  {
    var n := env[t].simpleName;
    var prior := Buckets(env, ts);
    var a := Buckets(env, ts + {t});
    var b := MultiPut(prior, n, t);
    forall x | x in SimpleNames(env, ts + {t}) ensures x in SimpleNames(env, ts) + {n} {
      var u :| u in ts + {t} && env[u].simpleName == x;
      if u != t {
        assert u in ts;
      }
    }
    forall x | x in SimpleNames(env, ts) ensures x in SimpleNames(env, ts + {t}) {
      var u :| u in ts && env[u].simpleName == x;
      assert u in ts + {t};
    }
    assert n in SimpleNames(env, ts + {t});
    assert a.Keys == b.Keys;
    forall k | k in a.Keys ensures a[k] == b[k] {
      if k == n {
        assert a[k] == (if k in prior then prior[k] else {}) + {t};
      } else {
        assert a[k] == prior[k];
      }
    }
  }

  lemma {:induction false} BucketsShape(env: Env, ts: set<TypeName>)
    requires ts <= env.Keys
    ensures Members(Buckets(env, ts)) == ts
    ensures Disjoint(Buckets(env, ts)) && NoEmptyBucket(Buckets(env, ts))
    ensures forall k, t | k in Buckets(env, ts) && t in Buckets(env, ts)[k] :: k == env[t].simpleName
  {
    var tm := Buckets(env, ts);
    forall t | t in ts ensures t in Members(tm) {
      var k := env[t].simpleName;
      assert k in SimpleNames(env, ts);
      assert k in tm && t in tm[k];
    }
    forall k | k in tm ensures tm[k] != {} {
      var t :| t in ts && env[t].simpleName == k;
      assert t in tm[k];
    }
  }

  /** `S` contains every bound of its members, except those already registered (`known`). */
  ghost predicate ClosedOutside(env: Env, S: set<TypeName>, known: set<TypeName>)
    requires S <= env.Keys
  {
    forall s | s in S :: BoundsOf(env, s) <= S + known
  }

  /** The types one `prepare` call registers, given the roots it starts from and the types
      registered before: the least set closed under bounds that reaches every root. */
  ghost predicate Registration(env: Env, N: set<TypeName>, roots: set<TypeName>, known: set<TypeName>)
  {
    && N <= env.Keys && N !! known
    && roots <= N + known
    && ClosedOutside(env, N, known)
    && LeastFor(env, N, roots, known)
  }

  /** `N` lies inside every set that is closed under bounds and reaches the roots. */
  ghost predicate LeastFor(env: Env, N: set<TypeName>, roots: set<TypeName>, known: set<TypeName>)
  {
    forall S: set<TypeName> {:trigger ClosedOutside(env, S, known)}
      | S <= env.Keys && roots <= S + known && ClosedOutside(env, S, known) :: N <= S
  }

  lemma ClosedGrow(env: Env, S: set<TypeName>, known: set<TypeName>, more: set<TypeName>)
    requires S <= env.Keys && ClosedOutside(env, S, known) && known <= more
    ensures ClosedOutside(env, S, more)
  {
  }

  /** Registering one more root after a registration gives the registration of all roots. */
  lemma {:induction false} RegistrationExtend(env: Env, N: set<TypeName>, roots: set<TypeName>, known: set<TypeName>, x: TypeName, Nx: set<TypeName>)
    requires Registration(env, N, roots, known)
    requires Registration(env, Nx, {x}, known + N)
    ensures Registration(env, N + Nx, roots + {x}, known)
  {
    forall S: set<TypeName> | S <= env.Keys && roots + {x} <= S + known && ClosedOutside(env, S, known)
      ensures N + Nx <= S
    {
      assert N <= S;
      ClosedGrow(env, S, known, known + N);
    }
  }

  /** The inner step of a registration in progress: `t` has been registered and the types
      one of its bounds `b` drags in are added. */
  lemma {:induction false} LeastStep(env: Env, N: set<TypeName>, t: TypeName, known: set<TypeName>, b: TypeName, Nb: set<TypeName>)
    requires N <= env.Keys && t in N && t in env && b in BoundsOf(env, t)
    requires LeastFor(env, N, {t}, known)
    requires LeastFor(env, Nb, {b}, known + N)
    ensures LeastFor(env, N + Nb, {t}, known)
  {
    forall S: set<TypeName> | S <= env.Keys && {t} <= S + known && ClosedOutside(env, S, known)
      ensures N + Nb <= S
    {
      assert N <= S;
      ClosedGrow(env, S, known, known + N);
    }
  }

  // ------------------------------------------------------------------ one round

  ghost function KeyOf(tm: TypeMap, t: TypeName): (k: string)
    requires t in Members(tm)
    ensures k in tm && t in tm[k]
  {
    var k :| k in tm && t in tm[k]; k
  }

  /** What a round does with one competing type. */
  datatype Fate =
    | Named(referent: string)                  // alone under its key: the key is its referent
    | Qualified                                // owner is top-level: referred to by qualified name
    | Deferred(owner: TypeName, key: string)   // competes again next round under `key`

  /** What the loop body does with a type `t` it meets in the bucket `k`: a bucket of one
      names its member by the key; in a larger bucket a type whose import owner is
      top-level is qualified, and any other moves out to the owner's outer type. */
  ghost function BucketFate(env: Env, s: State, k: string, t: TypeName): Fate
    requires Ready(env, s) && k in s.typeMap && t in s.typeMap[k]
  {
    if |s.typeMap[k]| == 1 then Named(k)
    else
      var owner := s.importMap[t];
      assert Declared(env, owner) && DeclOk(env, owner);
      match env[owner].enclosing
      case Package(_) => Qualified
      case Enclosing(o) => Deferred(o, env[o].simpleName + "." + env[t].simpleName)
  }

  ghost function FateOf(env: Env, s: State, t: TypeName): Fate
    requires Ready(env, s) && t in Members(s.typeMap)
  {
    BucketFate(env, s, KeyOf(s.typeMap, t), t)
  }

  function ReferentOf(f: Fate, t: TypeName): string
    requires !f.Deferred?
  {
    if f.Named? then f.referent else t
  }

  /** The fate of every type competing in the round. */
  ghost function Fates(env: Env, s: State): (fs: map<TypeName, Fate>)
    requires Ready(env, s)
    ensures fs.Keys == Members(s.typeMap)
  {
    map t | t in Members(s.typeMap) :: FateOf(env, s, t)
  }

  ghost function DeferredAmong(fs: map<TypeName, Fate>, P: set<TypeName>): (D: set<TypeName>)
    ensures D <= P
  {
    set t | t in P && t in fs && fs[t].Deferred?
  }

  ghost function DeferredKeys(fs: map<TypeName, Fate>, D: set<TypeName>): set<string>
    requires forall t | t in D :: t in fs && fs[t].Deferred?
  {
    set t | t in D :: fs[t].key
  }

  /** `nextRound` once the types `P` of this round's buckets have been handled. */
  ghost function NextTypeMap(fs: map<TypeName, Fate>, P: set<TypeName>): TypeMap
  {
    var D := DeferredAmong(fs, P);
    map k | k in DeferredKeys(fs, D) :: set t | t in D && fs[t].key == k
  }

  ghost function NextImportMap(im: ImportMap, fs: map<TypeName, Fate>, P: set<TypeName>): ImportMap
  {
    map t | t in im && !(t in P && t in fs && fs[t].Qualified?) ::
      if t in P && t in fs && fs[t].Deferred? then fs[t].owner else im[t]
  }

  ghost function NextReferents(refs: ReferentMap, fs: map<TypeName, Fate>, P: set<TypeName>): ReferentMap
    requires P <= fs.Keys
  {
    map t | t in refs.Keys + (P - DeferredAmong(fs, P)) ::
      if t in P && !fs[t].Deferred? then ReferentOf(fs[t], t) else refs[t]
  }

  /** The state after the types `P` of the round's buckets have been handled. */
  ghost function After(s: State, fs: map<TypeName, Fate>, P: set<TypeName>): State
    requires P <= fs.Keys
  {
    State(NextTypeMap(fs, P), NextImportMap(s.importMap, fs, P), NextReferents(s.referents, fs, P))
  }

  /** One pass of the `while (!typeMap.isEmpty())` loop: every bucket handled. */
  ghost function Round(env: Env, s: State): State
    requires Ready(env, s)
  {
    After(s, Fates(env, s), Members(s.typeMap))
  }

  /** The loop body's effect on one type. */
  function Apply(s: State, t: TypeName, f: Fate): State
  {
    match f
    case Named(r) => s.(referents := s.referents[t := r])
    case Qualified => s.(referents := s.referents[t := t], importMap := s.importMap - {t})
    case Deferred(o, key) => s.(typeMap := MultiPut(s.typeMap, key, t), importMap := s.importMap[t := o])
  }

  lemma AfterNone(s: State, fs: map<TypeName, Fate>)
    ensures After(s, fs, {}) == s.(typeMap := map[])
  {
  }

  lemma {:induction false} NextTypeMapAdd(fs: map<TypeName, Fate>, P: set<TypeName>, t: TypeName)
    requires P <= fs.Keys && t in fs && t !in P
    ensures NextTypeMap(fs, P + {t}) ==
      if fs[t].Deferred? then MultiPut(NextTypeMap(fs, P), fs[t].key, t) else NextTypeMap(fs, P)
  {
    var D := DeferredAmong(fs, P);
    var D' := DeferredAmong(fs, P + {t});
    var a := NextTypeMap(fs, P + {t});
    var b := NextTypeMap(fs, P);
    if fs[t].Deferred? {
      assert D' == D + {t};
      var c := MultiPut(b, fs[t].key, t);
      assert DeferredKeys(fs, D') == DeferredKeys(fs, D) + {fs[t].key};
      assert a.Keys == c.Keys;
      forall k | k in a ensures a[k] == c[k] {
      }
    } else {
      assert D' == D;
    }
  }

  lemma {:induction false} NextImportMapAdd(im: ImportMap, fs: map<TypeName, Fate>, P: set<TypeName>, t: TypeName)
    requires P <= fs.Keys && t in fs && t !in P && t in im
    ensures NextImportMap(im, fs, P + {t}) ==
      (match fs[t]
       case Named(_) => NextImportMap(im, fs, P)
       case Qualified => NextImportMap(im, fs, P) - {t}
       case Deferred(o, _) => NextImportMap(im, fs, P)[t := o])
  {
  }

  lemma {:induction false} NextReferentsAdd(refs: ReferentMap, fs: map<TypeName, Fate>, P: set<TypeName>, t: TypeName)
    requires P <= fs.Keys && t in fs && t !in P
    ensures NextReferents(refs, fs, P + {t}) ==
      if fs[t].Deferred? then NextReferents(refs, fs, P) else NextReferents(refs, fs, P)[t := ReferentOf(fs[t], t)]
  {
    assert DeferredAmong(fs, P + {t}) == DeferredAmong(fs, P) + (if fs[t].Deferred? then {t} else {});
  }

  /** Handling the types one at a time, in any order, builds `After`. */
  lemma AfterAdd(s: State, fs: map<TypeName, Fate>, P: set<TypeName>, t: TypeName)
    requires P <= fs.Keys && t in fs && t !in P && t in s.importMap
    ensures After(s, fs, P + {t}) == Apply(After(s, fs, P), t, fs[t])
  {
    NextTypeMapAdd(fs, P, t);
    NextImportMapAdd(s.importMap, fs, P, t);
    NextReferentsAdd(s.referents, fs, P, t);
  }
}

module ResolverRounds {
  import opened Elements
  import opened Resolver

  lemma FateFacts(env: Env, s: State, t: TypeName)
    requires Ready(env, s) && t in Members(s.typeMap)
    ensures var f := FateOf(env, s, t);
      var k := KeyOf(s.typeMap, t);
      && (f.Named? <==> |s.typeMap[k]| == 1)
      && (f.Named? ==> f.referent == k)
      && (f.Qualified? <==> |s.typeMap[k]| != 1 && env[s.importMap[t]].enclosing.Package?)
      && (f.Deferred? ==>
            && env[s.importMap[t]].enclosing == Enclosing(f.owner)
            && f.owner in env
            && f.key == env[f.owner].simpleName + "." + env[t].simpleName)
  {
    assert Declared(env, s.importMap[t]) && DeclOk(env, s.importMap[t]);
  }

  lemma KeyOfUnique(tm: TypeMap, k: string, t: TypeName)
    requires Disjoint(tm) && k in tm && t in tm[k]
    ensures t in Members(tm) && KeyOf(tm, t) == k
  {
  }

  lemma {:induction false} MembersOfNext(env: Env, s: State)
    requires Ready(env, s)
    ensures Members(Round(env, s).typeMap) == DeferredAmong(Fates(env, s), Members(s.typeMap))
  {
    var fs := Fates(env, s);
    var D := DeferredAmong(fs, Members(s.typeMap));
    var tm := Round(env, s).typeMap;
    forall t | t in D ensures t in Members(tm) {
      assert fs[t].key in DeferredKeys(fs, D);
      assert t in tm[fs[t].key];
    }
  }

  /** After a round every import-map entry is still a type of the environment. */
  lemma RoundImportsOk(env: Env, s: State)
    requires Ready(env, s)
    ensures var r := Round(env, s);
      forall t | t in r.importMap :: t in env && r.importMap[t] in env
  {
    var fs := Fates(env, s);
    var r := Round(env, s);
    forall t | t in r.importMap ensures t in env && r.importMap[t] in env {
      if t in Members(s.typeMap) && fs[t].Deferred? {
        FateFacts(env, s, t);
      }
    }
  }

  /** After a round every bucket is non-empty and every competing type is still imported. */
  lemma RoundBucketsOk(env: Env, s: State)
    requires Ready(env, s)
    ensures var r := Round(env, s);
      && Disjoint(r.typeMap) && NoEmptyBucket(r.typeMap)
      && forall k, t | k in r.typeMap && t in r.typeMap[k] :: t in r.importMap
  {
    var fs := Fates(env, s);
    var M := Members(s.typeMap);
    var r := Round(env, s);
    MembersOfNext(env, s);
    forall k | k in r.typeMap ensures r.typeMap[k] != {} {
      var D := DeferredAmong(fs, M);
      var t :| t in D && fs[t].key == k;
      assert t in r.typeMap[k];
    }
  }

  /** A round leaves a state the next round can start from. */
  lemma RoundReady(env: Env, s: State)
    requires Ready(env, s)
    ensures Ready(env, Round(env, s))
  {
    RoundImportsOk(env, s);
    RoundBucketsOk(env, s);
  }

  // ------------------------------------------------------------------ termination

  function Max(a: nat, b: nat): nat
  {
    if a < b then b else a
  }

  ghost predicate OwnersIn(env: Env, im: ImportMap, ts: set<TypeName>)
  {
    WellFormed(env) && forall t | t in ts :: t in im && im[t] in env
  }

  ghost function Pick<T>(ts: set<T>): (t: T)
    requires ts != {}
    ensures t in ts
  {
    var t :| t in ts; t
  }

  /** A bound on the nesting depth of the import owners of the types `ts`. */
  ghost function OwnerDepthBound(env: Env, im: ImportMap, ts: set<TypeName>): nat
    requires OwnersIn(env, im, ts)
    decreases ts
  {
    if ts == {} then 0
    else
      var t := Pick(ts);
      Max(Depth(env, im[t]), OwnerDepthBound(env, im, ts - {t}))
  }

  lemma {:induction false} OwnerDepthBoundAbove(env: Env, im: ImportMap, ts: set<TypeName>, t: TypeName)
    requires OwnersIn(env, im, ts) && t in ts
    ensures Depth(env, im[t]) <= OwnerDepthBound(env, im, ts)
    decreases ts
  {
    var u := Pick(ts);
    if u != t {
      OwnerDepthBoundAbove(env, im, ts - {u}, t);
    }
  }

  lemma {:induction false} OwnerDepthBoundLeast(env: Env, im: ImportMap, ts: set<TypeName>, b: nat)
    requires OwnersIn(env, im, ts) && forall t | t in ts :: Depth(env, im[t]) <= b
    ensures OwnerDepthBound(env, im, ts) <= b
    decreases ts
  {
    if ts != {} {
      var u := Pick(ts);
      OwnerDepthBoundLeast(env, im, ts - {u}, b);
    }
  }

  /** The termination measure of the round loop: how far out the competing types'
      import owners can still move. */
  ghost function Measure(env: Env, s: State): nat
    requires Ready(env, s)
  {
    OwnerDepthBound(env, s.importMap, Members(s.typeMap))
  }

  /** Each round moves every type still competing one nesting level outward, so the
      loop `while (!typeMap.isEmpty())` terminates. */
  lemma {:induction false} RoundDecreases(env: Env, s: State)
    requires Ready(env, s) && s.typeMap != map[]
    ensures Ready(env, Round(env, s))
    ensures Measure(env, Round(env, s)) < Measure(env, s)
  {
    RoundReady(env, s);
    var r := Round(env, s);
    var M := Members(s.typeMap);
    var fs := Fates(env, s);
    MembersOfNext(env, s);
    var k :| k in s.typeMap;
    var t0 :| t0 in s.typeMap[k];
    assert t0 in M;
    OwnerDepthBoundAbove(env, s.importMap, M, t0);
    var m := Measure(env, s);
    assert m >= 1;
    forall t | t in Members(r.typeMap) ensures Depth(env, r.importMap[t]) <= m - 1 {
      FateFacts(env, s, t);
      OwnerDepthBoundAbove(env, s.importMap, M, t);
      assert Declared(env, s.importMap[t]) && DeclOk(env, s.importMap[t]);
    }
    OwnerDepthBoundLeast(env, r.importMap, Members(r.typeMap), m - 1);
  }

  /** Rounds until no type competes any more. */
  ghost function Resolve(env: Env, s: State): (r: State)
    requires Ready(env, s)
    ensures Ready(env, r) && r.typeMap == map[]
    decreases Measure(env, s)
  {
    if s.typeMap == map[] then s
    else
      RoundDecreases(env, s);
      Resolve(env, Round(env, s))
  }
}
