/** The builder that collects shadow bindings, resetters and documentation while the
    annotation processor runs, and the model it finally builds. */
module Model {
  import opened Sorted
  import opened Elements
  import opened Resolver
  import opened ResolverRounds
  import opened Generics
  import opened Infos
  import opened Docs
  import opened RoundSteps
  import opened ResolveFacts

  /** An entry of the shadow table is keyed by its shadow's name and names declared types. */
  ghost predicate ShadowOk(env: Env, e: Entry<ShadowInfo>)
  {
    e.key == e.value.shadowType.qualifiedName && InEnv(env, e.value.shadowType) && InEnv(env, e.value.actualType)
  }

  ghost predicate ResetterOk(env: Env, e: Entry<ResetterInfo>)
  {
    e.key == e.value.shadowType.qualifiedName && InEnv(env, e.value.shadowType)
  }

  ghost predicate ShadowsOk(env: Env, es: seq<Entry<ShadowInfo>>)
  {
    forall i | 0 <= i < |es| :: ShadowOk(env, es[i])
  }

  ghost predicate ResettersOk(env: Env, es: seq<Entry<ResetterInfo>>)
  {
    forall i | 0 <= i < |es| :: ResetterOk(env, es[i])
  }

  /** Every type registered by a `prepare` is mapped to itself before the rounds start. */
  ghost function SelfMap(ts: set<TypeName>): (m: ImportMap)
    ensures m.Keys == ts && forall t | t in ts :: m[t] == t
  {
    map t | t in ts :: t
  }

  /** The registration state: everything registered since `known` maps to itself and sits
      in the bucket of its simple name. */
  ghost predicate RegisteringAt(env: Env, im: ImportMap, tm: TypeMap, known: set<TypeName>)
  {
    && WellFormed(env)
    && known <= im.Keys
    && (forall t | t in im :: t in env && im[t] in env)
    && (forall t | t in im.Keys - known :: im[t] == t)
    && tm == Buckets(env, im.Keys - known)
  }

  /** The state inside `registerType(t)` while the bounds of `t` are being walked; `im0`
      is the import map at entry. */
  ghost predicate InProgress(env: Env, im: ImportMap, t: TypeName, im0: ImportMap)
  {
    && im.Keys <= env.Keys
    && t in env && t !in im0 && im0.Keys + {t} <= im.Keys
    && (forall u | u in im0 :: im[u] == im0[u])
    && (forall s | s in im.Keys - im0.Keys - {t} :: BoundsOf(env, s) <= im.Keys)
    && LeastFor(env, im.Keys - im0.Keys, {t}, im0.Keys)
  }

  /** The first step of `registerType(t)` for a new `t`: into its bucket, mapped to itself. */
  lemma RegisterOne(env: Env, im: ImportMap, tm: TypeMap, known: set<TypeName>, t: TypeName)
    requires RegisteringAt(env, im, tm, known) && t in env && t !in im
    ensures RegisteringAt(env, im[t := t], MultiPut(tm, env[t].simpleName, t), known)
    ensures InProgress(env, im[t := t], t, im)
  {
    RegisterOneBuckets(env, im, tm, known, t);
    RegisterOneStarts(env, im, t);
  }

  lemma RegisterOneBuckets(env: Env, im: ImportMap, tm: TypeMap, known: set<TypeName>, t: TypeName)
    requires RegisteringAt(env, im, tm, known) && t in env && t !in im
    ensures RegisteringAt(env, im[t := t], MultiPut(tm, env[t].simpleName, t), known)
  {
    BucketsAdd(env, im.Keys - known, t);
    assert im[t := t].Keys - known == (im.Keys - known) + {t};
  }

  lemma RegisterOneStarts(env: Env, im: ImportMap, t: TypeName)
    requires im.Keys <= env.Keys && t in env && t !in im
    ensures InProgress(env, im[t := t], t, im)
  {
    assert im[t := t].Keys - im.Keys == {t};
  }

  lemma BoundOfParam(env: Env, t: TypeName, i: int, j: int)
    requires WellFormed(env) && t in env
    requires 0 <= i < |env[t].typeParams| && 0 <= j < |env[t].typeParams[i].bounds|
    ensures env[t].typeParams[i].bounds[j] in BoundsOf(env, t)
    ensures env[t].typeParams[i].bounds[j] in env
  {
    assert Declared(env, t) && DeclOk(env, t);
    var p := env[t].typeParams[i];
    assert p in env[t].typeParams && p.bounds[j] in p.bounds;
  }

  /** Once every bound of `t` is registered, the walk has produced a registration of `t`. */
  /** The bounds of the first `i` type parameters of `t` are among `keys`. */
  ghost predicate BoundsIn(env: Env, t: TypeName, i: int, keys: set<TypeName>)
    requires t in env
  {
    forall k, b | 0 <= k < i && k < |env[t].typeParams| && b in env[t].typeParams[k].bounds :: b in keys
  }

  lemma BoundsInStep(env: Env, t: TypeName, i: int, k1: set<TypeName>, k2: set<TypeName>)
    requires t in env && 0 <= i < |env[t].typeParams| && BoundsIn(env, t, i, k1) && k1 <= k2
    requires forall b | b in env[t].typeParams[i].bounds :: b in k2
    ensures BoundsIn(env, t, i + 1, k2)
  {
  }

  lemma InProgressDone(env: Env, im: ImportMap, t: TypeName, im0: ImportMap)
    requires InProgress(env, im, t, im0)
    requires BoundsIn(env, t, |env[t].typeParams|, im.Keys)
    ensures Registration(env, im.Keys - im0.Keys, {t}, im0.Keys)
  {
    assert BoundsOf(env, t) <= im.Keys;
  }

  lemma {:induction false} InProgressStep(env: Env, im1: ImportMap, im2: ImportMap, t: TypeName, im0: ImportMap, b: TypeName)
    requires InProgress(env, im1, t, im0)
    requires b in BoundsOf(env, t) && im2.Keys <= env.Keys
    requires forall u | u in im1 :: u in im2 && im2[u] == im1[u]
    requires Registration(env, im2.Keys - im1.Keys, {b}, im1.Keys)
    ensures InProgress(env, im2, t, im0) && b in im2
  {
    var N := im1.Keys - im0.Keys;
    assert im1.Keys == im0.Keys + N;
    LeastStep(env, N, t, im0.Keys, b, im2.Keys - im1.Keys);
    assert im2.Keys - im0.Keys == N + (im2.Keys - im1.Keys);
  }

  /** `getVisibleShadowTypes()`: the bindings whose shadow class is marked as part of the
      Android SDK, in table order (`VisibleInOrder`). */
  function VisibleShadowTypes(es: seq<Entry<ShadowInfo>>): (r: seq<ShadowInfo>)
    ensures forall x | x in r :: x.IsInAndroidSdk() && exists i | 0 <= i < |es| :: es[i].value == x
    ensures forall i | 0 <= i < |es| && es[i].value.IsInAndroidSdk() :: es[i].value in r
    decreases |es|
  {
    if es == [] then []
    else
      var init := es[..|es| - 1];
      var last := es[|es| - 1].value;
      assert forall i | 0 <= i < |init| :: init[i] == es[i];
      if last.IsInAndroidSdk() then VisibleShadowTypes(init) + [last] else VisibleShadowTypes(init)
  }

  /** `getResetterShadowTypes()`: the bindings whose shadow class has a resetter, in table
      order (`ResettersInOrder`). */
  function ResetterShadowTypes(es: seq<Entry<ShadowInfo>>, resetters: seq<Entry<ResetterInfo>>): (r: seq<ShadowInfo>)
    ensures forall x | x in r :: x.ShadowName() in KeySet(resetters) && exists i | 0 <= i < |es| :: es[i].value == x
    ensures forall i | 0 <= i < |es| && es[i].value.ShadowName() in KeySet(resetters) :: es[i].value in r
    decreases |es|
  {
    if es == [] then []
    else
      var init := es[..|es| - 1];
      var last := es[|es| - 1].value;
      assert forall i | 0 <= i < |init| :: init[i] == es[i];
      if last.ShadowName() in KeySet(resetters) then ResetterShadowTypes(init, resetters) + [last]
      else ResetterShadowTypes(init, resetters)
  }

  /** The bindings are in strictly ascending order of shadow class name. */
  ghost predicate InShadowOrder(r: seq<ShadowInfo>)
  {
    forall i, j | 0 <= i < j < |r| :: Below(r[i].ShadowName(), r[j].ShadowName())
  }

  /** The filters keep the order of the table they filter: the bindings come out in
      shadow-name order. */
  lemma {:induction false} VisibleInOrder(es: seq<Entry<ShadowInfo>>)
    requires KeysIncreasing(es) && forall i | 0 <= i < |es| :: es[i].key == es[i].value.ShadowName()
    ensures InShadowOrder(VisibleShadowTypes(es))
    decreases |es|
  {
    if es != [] {
      var init := es[..|es| - 1];
      var last := es[|es| - 1];
      assert forall i | 0 <= i < |init| :: init[i] == es[i];
      VisibleInOrder(init);
      var ri := VisibleShadowTypes(init);
      if last.value.IsInAndroidSdk() {
        var r := ri + [last.value];
        forall i, j | 0 <= i < j < |r| ensures Below(r[i].ShadowName(), r[j].ShadowName()) {
          if j == |ri| {
            assert ri[i] in ri && r[i] == ri[i] && r[j] == last.value;
            var k :| 0 <= k < |init| && init[k].value == ri[i];
            assert init[k] == es[k] && r[i].ShadowName() == es[k].key;
            assert r[j].ShadowName() == es[|es| - 1].key;
            assert Below(es[k].key, es[|es| - 1].key);
          } else {
            assert r[i] == ri[i] && r[j] == ri[j];
          }
        }
        assert r == VisibleShadowTypes(es);
      } else {
        assert ri == VisibleShadowTypes(es);
      }
    }
  }

  lemma {:induction false} ResettersInOrder(es: seq<Entry<ShadowInfo>>, resetters: seq<Entry<ResetterInfo>>)
    requires KeysIncreasing(es) && forall i | 0 <= i < |es| :: es[i].key == es[i].value.ShadowName()
    ensures InShadowOrder(ResetterShadowTypes(es, resetters))
    decreases |es|
  {
    if es != [] {
      var init := es[..|es| - 1];
      var last := es[|es| - 1];
      assert forall i | 0 <= i < |init| :: init[i] == es[i];
      ResettersInOrder(init, resetters);
      var ri := ResetterShadowTypes(init, resetters);
      if last.value.ShadowName() in KeySet(resetters) {
        var r := ri + [last.value];
        forall i, j | 0 <= i < j < |r| ensures Below(r[i].ShadowName(), r[j].ShadowName()) {
          if j == |ri| {
            assert ri[i] in ri && r[i] == ri[i] && r[j] == last.value;
            var k :| 0 <= k < |init| && init[k].value == ri[i];
            assert init[k] == es[k] && r[i].ShadowName() == es[k].key;
            assert r[j].ShadowName() == es[|es| - 1].key;
            assert Below(es[k].key, es[|es| - 1].key);
          } else {
            assert r[i] == ri[i] && r[j] == ri[j];
          }
        }
        assert r == ResetterShadowTypes(es, resetters);
      } else {
        assert ri == ResetterShadowTypes(es, resetters);
      }
    }
  }

  /** The types the first registration loop of `prepare` starts from: each binding's
      shadow and actual class. */
  function ShadowRoots(vs: seq<ShadowInfo>): (r: set<TypeName>)
    ensures forall t :: t in r <==> exists x | x in vs :: t == x.ShadowName() || t == x.ActualName()
    decreases |vs|
  {
    if vs == [] then {}
    else
      var init := vs[..|vs| - 1];
      var last := vs[|vs| - 1];
      assert forall x | x in init :: x in vs;
      assert forall x | x in vs :: x in init || x == last;
      ShadowRoots(init) + {last.ShadowName(), last.ActualName()}
  }

  /** The types the second registration loop of `prepare` starts from: each shadow class. */
  function ShadowNames(vs: seq<ShadowInfo>): (r: set<TypeName>)
    ensures forall t :: t in r <==> exists x | x in vs :: t == x.ShadowName()
    decreases |vs|
  {
    if vs == [] then {}
    else
      var init := vs[..|vs| - 1];
      var last := vs[|vs| - 1];
      assert forall x | x in init :: x in vs;
      assert forall x | x in vs :: x in init || x == last;
      ShadowNames(init) + {last.ShadowName()}
  }

  /** The roots of one registration loop of `prepare`. */
  function LoopRoots(vs: seq<ShadowInfo>, withActual: bool): set<TypeName>
  {
    if withActual then ShadowRoots(vs) else ShadowNames(vs)
  }

  lemma LoopRootsStep(vs: seq<ShadowInfo>, i: nat, withActual: bool)
    requires i < |vs|
    ensures LoopRoots(vs[..i + 1], withActual)
      == LoopRoots(vs[..i], withActual) + {vs[i].ShadowName()} + (if withActual then {vs[i].ActualName()} else {})
  {
    assert vs[..i + 1][..i] == vs[..i];
  }

  /** Registering one more root after the registration of some roots. */
  lemma RegistrationMore(env: Env, K0: set<TypeName>, K1: set<TypeName>, K2: set<TypeName>, roots: set<TypeName>, x: TypeName)
    requires K0 <= K1 <= K2
    requires Registration(env, K1 - K0, roots, K0)
    requires Registration(env, K2 - K1, {x}, K1)
    ensures Registration(env, K2 - K0, roots + {x}, K0)
  {
    assert K0 + (K1 - K0) == K1;
    RegistrationExtend(env, K1 - K0, roots, K0, x, K2 - K1);
    assert (K1 - K0) + (K2 - K1) == K2 - K0;
  }

  /** The state the rounds start from once `prepare` has registered the types `N`. */
  ghost function RegisteredState(env: Env, im: ImportMap, refs: ReferentMap, N: set<TypeName>): State
    requires N <= env.Keys
  {
    State(Buckets(env, N), im + SelfMap(N), refs)
  }

  /** After registration the import map is the old one plus every new type mapped to
      itself. */
  lemma RegisteredImports(im0: ImportMap, im: ImportMap)
    requires forall u | u in im0 :: u in im && im[u] == im0[u]
    requires forall t | t in im.Keys - im0.Keys :: im[t] == t
    ensures im0 + SelfMap(im.Keys - im0.Keys) == im
  {
    var m := im0 + SelfMap(im.Keys - im0.Keys);
    assert m.Keys == im.Keys;
    forall u | u in m ensures m[u] == im[u] {
    }
  }

  /** Registration leaves a state the rounds can start from. */
  lemma RegisteredReady(env: Env, im0: ImportMap, im: ImportMap, tm: TypeMap, refs: ReferentMap)
    requires RegisteringAt(env, im, tm, im0.Keys)
    requires forall u | u in im0 :: u in im && im[u] == im0[u]
    ensures im.Keys - im0.Keys <= env.Keys
    ensures RegisteredState(env, im0, refs, im.Keys - im0.Keys) == State(tm, im, refs)
    ensures Ready(env, State(tm, im, refs))
  {
    RegisteredImports(im0, im);
    BucketsShape(env, im.Keys - im0.Keys);
  }

  /** Once the roots are registered, the rounds can start and will give every registered
      type a referent. */
  lemma RegisteredResolves(env: Env, im0: ImportMap, im: ImportMap, tm: TypeMap, refs: ReferentMap)
    requires RegisteringAt(env, im, tm, im0.Keys)
    requires forall u | u in im0 :: u in im && im[u] == im0[u]
    ensures im.Keys - im0.Keys <= env.Keys
    ensures RegisteredState(env, im0, refs, im.Keys - im0.Keys) == State(tm, im, refs)
    ensures Ready(env, State(tm, im, refs))
    ensures im.Keys - im0.Keys <= Resolve(env, State(tm, im, refs)).referents.Keys
  {
    RegisteredReady(env, im0, im, tm, refs);
    BucketsShape(env, im.Keys - im0.Keys);
    ResolveCovers(env, State(tm, im, refs));
  }

  /** `Modifier.PUBLIC` is present and the enclosing element is not the package
      `java.lang`. */
  predicate Importable(d: TypeDecl)
  {
    d.isPublic && d.enclosing != Package("java.lang")
  }

  /** The imports the import loop of `prepare` adds for the import-map values `vs`. */
  ghost function Importables(env: Env, vs: set<TypeName>): set<TypeName>
  {
    set t | t in vs && t in env && Importable(env[t])
  }

  lemma ImportablesAdd(env: Env, vs: set<TypeName>, t: TypeName)
    requires t in env
    ensures Importables(env, vs + {t}) == Importables(env, vs) + (if Importable(env[t]) then {t} else {})
  {
  }

  /** Putting a binding that names declared types keeps every binding naming them. */
  lemma ShadowsOkPut(env: Env, es: seq<Entry<ShadowInfo>>, k: string, info: ShadowInfo)
    requires KeysIncreasing(es) && ShadowsOk(env, es)
    requires InEnv(env, info.shadowType) && InEnv(env, info.actualType) && k == info.shadowType.qualifiedName
    ensures ShadowsOk(env, Put(es, k, info))
  {
    var r := Put(es, k, info);
    PutEntries(es, k, info);
    forall i | 0 <= i < |r| ensures ShadowOk(env, r[i]) {
      assert r[i] in r;
      if r[i] != Entry(k, info) {
        var j :| 0 <= j < |es| && es[j] == r[i];
      }
    }
  }

  lemma ResettersOkPut(env: Env, es: seq<Entry<ResetterInfo>>, k: string, info: ResetterInfo)
    requires KeysIncreasing(es) && ResettersOk(env, es)
    requires InEnv(env, info.shadowType) && k == info.shadowType.qualifiedName
    ensures ResettersOk(env, Put(es, k, info))
  {
    var r := Put(es, k, info);
    PutEntries(es, k, info);
    forall i | 0 <= i < |r| ensures ResetterOk(env, r[i]) {
      assert r[i] in r;
      if r[i] != Entry(k, info) {
        var j :| 0 <= j < |es| && es[j] == r[i];
      }
    }
  }

  /** A binding found in the shadow table names declared types. */
  lemma ShadowInEnv(env: Env, es: seq<Entry<ShadowInfo>>, x: ShadowInfo)
    requires ShadowsOk(env, es)
    requires exists i | 0 <= i < |es| :: es[i].value == x
    ensures InEnv(env, x.shadowType) && InEnv(env, x.actualType)
  {
    var i :| 0 <= i < |es| && es[i].value == x;
    assert ShadowOk(env, es[i]);
  }

  /** The maps of the builder are sorted and every binding names declared types. */
  ghost predicate TablesOk(env: Env, shadows: seq<Entry<ShadowInfo>>, extras: seq<Entry<string>>,
                           resetters: seq<Entry<ResetterInfo>>, packages: seq<Entry<DocumentedPackage>>)
  {
    && WellFormed(env)
    && KeysIncreasing(shadows) && KeysIncreasing(extras)
    && KeysIncreasing(resetters) && KeysIncreasing(packages)
    && ShadowsOk(env, shadows) && ResettersOk(env, resetters)
  }

  /** The bindings of a shadow table. */
  ghost function Bindings(es: seq<Entry<ShadowInfo>>): set<ShadowInfo>
  {
    set i | 0 <= i < |es| :: es[i].value
  }

  /** The resetters of a resetter table. */
  ghost function ResetterSet(es: seq<Entry<ResetterInfo>>): set<ResetterInfo>
  {
    set i | 0 <= i < |es| :: es[i].value
  }

  /** Every binding and every resetter carries the strings for the referents `refs`. */
  ghost predicate InfosPrepared(env: Env, shadows: seq<Entry<ShadowInfo>>, resetters: seq<Entry<ResetterInfo>>, refs: ReferentMap)
    reads Bindings(shadows), ResetterSet(resetters)
    requires WellFormed(env) && ShadowsOk(env, shadows)
  {
    && (forall i | 0 <= i < |shadows| :: ShadowOk(env, shadows[i]) && shadows[i].value.Prepared(env, refs))
    && (forall i | 0 <= i < |resetters| :: resetters[i].value.Prepared(refs))
  }

  /** Bookkeeping of the loop over a bucket `c` of several types, started after the
      types `done`: `handled` is `done` and the members taken so far, `rest` the others. */
  ghost predicate Handled(done: set<TypeName>, c: set<TypeName>, rest: set<TypeName>, handled: set<TypeName>)
  {
    done !! c && rest <= c && handled == done + (c - rest)
  }

  lemma HandledStep(done: set<TypeName>, c: set<TypeName>, rest: set<TypeName>, handled: set<TypeName>, t: TypeName)
    requires Handled(done, c, rest, handled) && t in rest
    ensures t !in handled && Handled(done, c, rest - {t}, handled + {t})
  {
  }

  lemma HandledAll(done: set<TypeName>, c: set<TypeName>, handled: set<TypeName>)
    requires Handled(done, c, {}, handled)
    ensures handled == done + c
  {
  }

  /** The imports every generated file needs. */
  const FixedImports: seq<string> := [
    "java.util.Map", "java.util.HashMap", "javax.annotation.Generated",
    "org.robolectric.internal.ShadowProvider", "org.robolectric.shadow.api.Shadow"]

  class Builder {
    const env: Env
    var imports: seq<string>
    var shadowTypes: seq<Entry<ShadowInfo>>
    var extraShadowTypes: seq<Entry<string>>
    var resetterMap: seq<Entry<ResetterInfo>>
    var documentedPackages: seq<Entry<DocumentedPackage>>
    var referentMap: ReferentMap
    var typeMap: TypeMap
    var importMap: ImportMap
    /** The types the last `Prepare` registered. */
    ghost var registered: set<TypeName>

    /** The sorted tables are sorted and every binding names declared types. */
    ghost predicate Tables()
      reads this`imports, this`shadowTypes, this`extraShadowTypes, this`resetterMap, this`documentedPackages
    {
      Increasing(imports) && TablesOk(env, shadowTypes, extraShadowTypes, resetterMap, documentedPackages)
    }

    ghost predicate Valid()
      reads this`imports, this`shadowTypes, this`extraShadowTypes, this`resetterMap, this`documentedPackages
      reads this`typeMap, this`importMap
    {
      && Tables()
      && typeMap == map[]
      && (forall t | t in importMap :: t in env && importMap[t] in env)
    }

    /** A builder with empty tables over the processing environment `env`. */
    constructor(env: Env)
      requires WellFormed(env)
      ensures this.env == env && Valid()
      ensures imports == [] && shadowTypes == [] && extraShadowTypes == [] && resetterMap == []
      ensures documentedPackages == [] && referentMap == map[] && importMap == map[]
    {
      this.env := env;
      imports := [];
      shadowTypes := [];
      extraShadowTypes := [];
      resetterMap := [];
      documentedPackages := [];
      referentMap := map[];
      typeMap := map[];
      importMap := map[];
      registered := {};
    }

    /** `addShadowType`: binds the shadow class to the class it shadows under the shadow's
        qualified name, replacing an earlier binding of the same shadow class and no other. */
    method AddShadowType(shadowType: TypeDecl, actualType: TypeDecl)
      requires Valid() && InEnv(env, shadowType) && InEnv(env, actualType)
      modifies this`shadowTypes
      ensures Valid()
      ensures KeySet(shadowTypes) == KeySet(old(shadowTypes)) + {shadowType.qualifiedName}
      ensures Get(shadowTypes, shadowType.qualifiedName).Some?
      ensures var info := Get(shadowTypes, shadowType.qualifiedName).value;
        fresh(info) && info.shadowType == shadowType && info.actualType == actualType
      ensures forall k | k != shadowType.qualifiedName :: Get(shadowTypes, k) == Get(old(shadowTypes), k)
    {
      var info := new ShadowInfo(shadowType, actualType);
      ShadowsOkPut(env, shadowTypes, shadowType.qualifiedName, info);
      shadowTypes := Put(shadowTypes, shadowType.qualifiedName, info);
    }

    /** `addExtraShadow`: maps the shadow class name to the SDK class name. */
    method AddExtraShadow(sdkClassName: string, shadowClassName: string)
      requires Valid()
      modifies this`extraShadowTypes
      ensures Valid()
      ensures KeySet(extraShadowTypes) == KeySet(old(extraShadowTypes)) + {shadowClassName}
      ensures Get(extraShadowTypes, shadowClassName) == Some(sdkClassName)
      ensures forall k | k != shadowClassName :: Get(extraShadowTypes, k) == Get(old(extraShadowTypes), k)
    {
      extraShadowTypes := Put(extraShadowTypes, shadowClassName, sdkClassName);
    }

    /** `addResetter`: records the reset method `methodName` of the shadow class under the
        shadow's qualified name, replacing an earlier one of the same class and no other. */
    method AddResetter(shadowType: TypeDecl, methodName: string)
      requires Valid() && InEnv(env, shadowType)
      modifies this`resetterMap
      ensures Valid()
      ensures KeySet(resetterMap) == KeySet(old(resetterMap)) + {shadowType.qualifiedName}
      ensures Get(resetterMap, shadowType.qualifiedName).Some?
      ensures var info := Get(resetterMap, shadowType.qualifiedName).value;
        fresh(info) && info.shadowType == shadowType && info.methodName == methodName
      ensures forall k | k != shadowType.qualifiedName :: Get(resetterMap, k) == Get(old(resetterMap), k)
    {
      var info := new ResetterInfo(shadowType, methodName);
      ResettersOkPut(env, resetterMap, shadowType.qualifiedName, info);
      resetterMap := Put(resetterMap, shadowType.qualifiedName, info);
    }

    /** `getDocumentedPackage(name)`: the package recorded under `name`, recorded first when
        there is none, so that no name ever has two packages. */
    method GetDocumentedPackage(name: string) returns (p: DocumentedPackage)
      requires Valid()
      modifies this`documentedPackages
      ensures Valid()
      ensures p == PackageOrNew(old(documentedPackages), name)
      ensures documentedPackages == Put(old(documentedPackages), name, p)
      ensures Get(old(documentedPackages), name).Some? ==> documentedPackages == old(documentedPackages)
    {
      var found := Get(documentedPackages, name);
      if found.None? {
        p := NewPackage(name);
        documentedPackages := Put(documentedPackages, name, p);
      } else {
        p := found.value;
        PutExisting(documentedPackages, name, p);
      }
    }

    /** `getDocumentedType(type)`: the package named by the element enclosing `ty`, got or
        created, and in it the type recorded under `ty`'s qualified name, got or created. */
    method GetDocumentedType(ty: TypeDecl) returns (pkg: string, p: DocumentedPackage, t: DocumentedType)
      requires Valid() && InEnv(env, ty)
      modifies this`documentedPackages
      ensures Valid()
      ensures pkg == EnclosingName(env, ty.qualifiedName)
      ensures t == TypeOrNew(PackageOrNew(old(documentedPackages), pkg), ty.qualifiedName)
      ensures p == SetType(PackageOrNew(old(documentedPackages), pkg), ty.qualifiedName, t)
      ensures documentedPackages == Put(old(documentedPackages), pkg, p)
    {
      pkg := EnclosingName(env, ty.qualifiedName);
      var p0 := GetDocumentedPackage(pkg);
      t := TypeOrNew(p0, ty.qualifiedName);
      p := SetType(p0, ty.qualifiedName, t);
      PutTwice(old(documentedPackages), pkg, p0, p);
      documentedPackages := Put(documentedPackages, pkg, p);
    }

    /** `documentPackage`. */
    method DocumentPackage(name: string, documentation: string)
      requires Valid()
      modifies this`documentedPackages
      ensures Valid()
      ensures documentedPackages == PackageDocumented(old(documentedPackages), name, documentation)
    {
      var p := GetDocumentedPackage(name);
      PutTwice(old(documentedPackages), name, p, p.(documentation := Some(documentation)));
      documentedPackages := Put(documentedPackages, name, p.(documentation := Some(documentation)));
    }

    /** `documentType`. */
    method DocumentType(ty: TypeDecl, documentation: string, imports: seq<string>)
      requires Valid() && InEnv(env, ty)
      modifies this`documentedPackages
      ensures Valid()
      ensures documentedPackages
        == TypeDocumented(old(documentedPackages), EnclosingName(env, ty.qualifiedName), ty.qualifiedName, documentation, imports)
    {
      var pkg, p, t := GetDocumentedType(ty);
      var p1 := SetType(p, ty.qualifiedName, t.(documentation := Some(documentation), imports := imports));
      SetTypeTwice(PackageOrNew(old(documentedPackages), pkg), ty.qualifiedName, t, t.(documentation := Some(documentation), imports := imports));
      PutTwice(old(documentedPackages), pkg, p, p1);
      documentedPackages := Put(documentedPackages, pkg, p1);
    }

    /** `documentMethod`. */
    method DocumentMethod(shadowClass: TypeDecl, dm: DocumentedMethod)
      requires Valid() && InEnv(env, shadowClass)
      modifies this`documentedPackages
      ensures Valid()
      ensures documentedPackages
        == MethodDocumented(old(documentedPackages), EnclosingName(env, shadowClass.qualifiedName), shadowClass.qualifiedName, dm)
    {
      var pkg, p, t := GetDocumentedType(shadowClass);
      var p1 := SetType(p, shadowClass.qualifiedName, t.(methods := t.methods[dm.name := dm]));
      SetTypeTwice(PackageOrNew(old(documentedPackages), pkg), shadowClass.qualifiedName, t, t.(methods := t.methods[dm.name := dm]));
      PutTwice(old(documentedPackages), pkg, p, p1);
      documentedPackages := Put(documentedPackages, pkg, p1);
    }

    ghost predicate Registering(known: set<TypeName>)
      reads this`importMap, this`typeMap
    {
      RegisteringAt(env, importMap, typeMap, known)
    }

    /** `registerType`: registers `t` and, depth first, every type named among the bounds
        of its type parameters. Exactly the least bound-closed set of new types that
        reaches `t` is added. */
    method RegisterType(t: TypeName, ghost known: set<TypeName>)
      requires Registering(known) && t in env
      modifies this`typeMap, this`importMap
      ensures unchanged(this`imports, this`shadowTypes, this`extraShadowTypes, this`resetterMap, this`documentedPackages, this`referentMap)
      ensures Registering(known)
      ensures forall u | u in old(importMap) :: u in importMap && importMap[u] == old(importMap)[u]
      ensures Registration(env, importMap.Keys - old(importMap).Keys, {t}, old(importMap).Keys)
      ensures t in old(importMap) ==> importMap == old(importMap) && typeMap == old(typeMap)
      decreases env.Keys - importMap.Keys, 1
    {
      if t !in importMap {
        RegisterOne(env, importMap, typeMap, known, t);
        typeMap := MultiPut(typeMap, env[t].simpleName, t);
        importMap := importMap[t := t];
        var params := env[t].typeParams;
        for i := 0 to |params|
          invariant Registering(known) && InProgress(env, importMap, t, old(importMap))
          invariant BoundsIn(env, t, i, importMap.Keys)
          invariant unchanged(this`imports, this`shadowTypes, this`extraShadowTypes, this`resetterMap, this`documentedPackages, this`referentMap)
        {
          ghost var keys := importMap.Keys;
          RegisterBounds(t, i, known, old(importMap));
          BoundsInStep(env, t, i, keys, importMap.Keys);
        }
        InProgressDone(env, importMap, t, old(importMap));
      }
    }

    /** The inner loop of `registerType(t)`: registers the bounds of the `i`-th type
        parameter of `t`, whose own registration began from `im0`. */
    method RegisterBounds(t: TypeName, i: nat, ghost known: set<TypeName>, ghost im0: ImportMap)
      requires Registering(known) && InProgress(env, importMap, t, im0)
      requires i < |env[t].typeParams|
      modifies this`typeMap, this`importMap
      ensures unchanged(this`imports, this`shadowTypes, this`extraShadowTypes, this`resetterMap, this`documentedPackages, this`referentMap)
      ensures Registering(known) && InProgress(env, importMap, t, im0)
      ensures old(importMap).Keys <= importMap.Keys
      ensures forall b | b in env[t].typeParams[i].bounds :: b in importMap
      decreases env.Keys - im0.Keys, 0
    {
      var bounds := env[t].typeParams[i].bounds;
      for j := 0 to |bounds|
        invariant Registering(known) && InProgress(env, importMap, t, im0)
        invariant old(importMap).Keys <= importMap.Keys
        invariant unchanged(this`imports, this`shadowTypes, this`extraShadowTypes, this`resetterMap, this`documentedPackages, this`referentMap)
        invariant forall k | 0 <= k < j :: bounds[k] in importMap
      {
        BoundOfParam(env, t, i, j);
        ghost var im1 := importMap;
        assert env.Keys - importMap.Keys < env.Keys - im0.Keys;
        RegisterType(bounds[j], known);
        InProgressStep(env, im1, importMap, t, im0, bounds[j]);
        assert im1.Keys <= importMap.Keys;
      }
    }

    /** The state the disambiguation rounds work on. */
    ghost function ResolverState(): State
      reads this`typeMap, this`importMap, this`referentMap
    {
      State(typeMap, importMap, referentMap)
    }

    /** One pass of `while (!typeMap.isEmpty())` in `prepare`: the buckets, and the types
        of a larger bucket, are taken in whatever order the multimap yields them, and
        whatever that order the new state is `Round` of the old one. */
    method RunRound()
      requires Ready(env, ResolverState())
      modifies this`typeMap, this`importMap, this`referentMap
      ensures unchanged(this`imports, this`shadowTypes, this`extraShadowTypes, this`resetterMap, this`documentedPackages, this`registered)
      ensures ResolverState() == Round(env, old(ResolverState()))
    {
      ghost var s0 := ResolverState();
      ghost var done: set<TypeName> := {};
      var nextRound: TypeMap := map[];
      var pending := typeMap.Keys;
      CoveredStart(typeMap);
      PartialStart(env, s0);
      while pending != {}
        invariant typeMap == s0.typeMap
        invariant Covered(typeMap, pending, done)
        invariant Partial(env, s0, done, State(nextRound, importMap, referentMap))
        decreases pending
      {
        var key :| key in pending;
        BucketFresh(typeMap, pending, done, key);
        nextRound := RunBucket(key, nextRound, s0, done);
        CoveredNext(typeMap, pending, done, key);
        done := done + typeMap[key];
        pending := pending - {key};
      }
      CoveredDone(typeMap, done);
      PartialEnd(env, s0, State(nextRound, importMap, referentMap));
      typeMap := nextRound;
    }

    /** The loop body for one bucket `key` of the round that started in `s0`, after the
        types `done` of other buckets. */
    method RunBucket(key: string, nextRound: TypeMap, ghost s0: State, ghost done: set<TypeName>)
      returns (next: TypeMap)
      requires typeMap == s0.typeMap && key in typeMap && done !! typeMap[key]
      requires Partial(env, s0, done, State(nextRound, importMap, referentMap))
      modifies this`importMap, this`referentMap
      ensures unchanged(this`typeMap)
      ensures Partial(env, s0, done + typeMap[key], State(next, importMap, referentMap))
    {
      next := nextRound;
      var c := typeMap[key];
      if |c| == 1 {
        var ty :| ty in c;
        SingletonOf(c, ty);
        NameAlone(key, ty, next, s0, done);
      } else {
        next := RunCollisions(key, next, s0, done);
      }
    }

    /** A type alone in its bucket is named by the bucket's key. */
    method NameAlone(key: string, ty: TypeName, next: TypeMap, ghost s0: State, ghost done: set<TypeName>)
      requires typeMap == s0.typeMap && key in typeMap && typeMap[key] == {ty} && ty !in done
      requires Partial(env, s0, done, State(next, importMap, referentMap))
      modifies this`referentMap
      ensures referentMap == old(referentMap)[ty := key]
      ensures Partial(env, s0, done + typeMap[key], State(next, importMap, referentMap))
    {
      NamedStep(env, s0, done, State(next, importMap, referentMap), key, ty);
      referentMap := referentMap[ty := key];
    }

    /** The inner loop of the round over a bucket `key` with several members. */
    method RunCollisions(key: string, nextRound: TypeMap, ghost s0: State, ghost done: set<TypeName>)
      returns (next: TypeMap)
      requires typeMap == s0.typeMap && key in typeMap && done !! typeMap[key] && |typeMap[key]| != 1
      requires Partial(env, s0, done, State(nextRound, importMap, referentMap))
      modifies this`importMap, this`referentMap
      ensures Partial(env, s0, done + typeMap[key], State(next, importMap, referentMap))
    {
      next := nextRound;
      ghost var handled := done;
      var rest := typeMap[key];
      while rest != {}
        invariant typeMap == s0.typeMap
        invariant Handled(done, typeMap[key], rest, handled)
        invariant Partial(env, s0, handled, State(next, importMap, referentMap))
        decreases rest
      {
        var ty :| ty in rest;
        HandledStep(done, typeMap[key], rest, handled, ty);
        next := RunMember(key, ty, next, s0, handled);
        handled := handled + {ty};
        rest := rest - {ty};
      }
      HandledAll(done, typeMap[key], handled);
    }

    /** The visitor of `prepare` applied to one type `ty` of a bucket with several
        members: it moves out to the outer type of its import owner, or is qualified when
        that owner is top-level. */
    method RunMember(key: string, ty: TypeName, nextRound: TypeMap, ghost s0: State, ghost handled: set<TypeName>)
      returns (next: TypeMap)
      requires typeMap == s0.typeMap && key in typeMap && ty in typeMap[key] && |typeMap[key]| != 1
      requires ty !in handled
      requires Partial(env, s0, handled, State(nextRound, importMap, referentMap))
      modifies this`importMap, this`referentMap
      ensures unchanged(this`typeMap)
      ensures Partial(env, s0, handled + {ty}, State(next, importMap, referentMap))
    {
      RoundOwner(env, s0, handled, State(nextRound, importMap, referentMap), key, ty);
      next := nextRound;
      var owner := importMap[ty];
      match env[owner].enclosing
      case Enclosing(parent) =>
        next := Defer(key, ty, parent, next, s0, handled);
      case Package(_) =>
        Qualify(key, ty, next, s0, handled);
    }

    /** A type whose import owner is nested competes next round through the outer type. */
    method Defer(key: string, ty: TypeName, parent: TypeName, nextRound: TypeMap, ghost s0: State, ghost handled: set<TypeName>)
      returns (next: TypeMap)
      requires typeMap == s0.typeMap && key in typeMap && ty in typeMap[key] && |typeMap[key]| != 1
      requires ty !in handled && ty in importMap && importMap[ty] in env
      requires env[importMap[ty]].enclosing == Enclosing(parent)
      requires Partial(env, s0, handled, State(nextRound, importMap, referentMap))
      modifies this`importMap
      ensures parent in env && ty in env
      ensures next == MultiPut(nextRound, env[parent].simpleName + "." + env[ty].simpleName, ty)
      ensures importMap == old(importMap)[ty := parent]
      ensures Partial(env, s0, handled + {ty}, State(next, importMap, referentMap))
    {
      DeferredStep(env, s0, handled, State(nextRound, importMap, referentMap), key, ty, parent);
      next := MultiPut(nextRound, env[parent].simpleName + "." + env[ty].simpleName, ty);
      importMap := importMap[ty := parent];
    }

    /** A type whose import owner is top-level is referred to by its qualified name. */
    method Qualify(key: string, ty: TypeName, next: TypeMap, ghost s0: State, ghost handled: set<TypeName>)
      requires typeMap == s0.typeMap && key in typeMap && ty in typeMap[key] && |typeMap[key]| != 1
      requires ty !in handled && ty in importMap && importMap[ty] in env
      requires env[importMap[ty]].enclosing.Package?
      requires Partial(env, s0, handled, State(next, importMap, referentMap))
      modifies this`importMap, this`referentMap
      ensures referentMap == old(referentMap)[ty := ty] && importMap == old(importMap) - {ty}
      ensures Partial(env, s0, handled + {ty}, State(next, importMap, referentMap))
    {
      QualifiedStep(env, s0, handled, State(next, importMap, referentMap), key, ty);
      referentMap := referentMap[ty := ty];
      importMap := importMap - {ty};
    }

    /** The types `prepare` starts registering from. */
    ghost function Roots(): set<TypeName>
      reads this`shadowTypes, this`resetterMap
    {
      ShadowRoots(VisibleShadowTypes(shadowTypes)) + ShadowNames(ResetterShadowTypes(shadowTypes, resetterMap))
    }

    /** `registerType(t)` for one more root, after the registration of `roots`. */
    method RegisterRoot(t: TypeName, ghost known: set<TypeName>, ghost roots: set<TypeName>)
      requires Registering(known) && t in env
      requires Registration(env, importMap.Keys - known, roots, known)
      modifies this`typeMap, this`importMap
      ensures unchanged(this`imports, this`shadowTypes, this`extraShadowTypes, this`resetterMap, this`documentedPackages, this`referentMap)
      ensures Registering(known)
      ensures forall u | u in old(importMap) :: u in importMap && importMap[u] == old(importMap)[u]
      ensures Registration(env, importMap.Keys - known, roots + {t}, known)
    {
      ghost var keys1 := importMap.Keys;
      RegisterType(t, known);
      RegistrationMore(env, known, keys1, importMap.Keys, roots, t);
    }

    /** The two registration loops of `prepare`: the shadow and actual class of every
        visible binding, then the shadow class of every binding with a resetter. What they
        add is the registration of those roots. */
    method RegisterRoots()
      requires Valid()
      modifies this`typeMap, this`importMap, this`registered
      ensures unchanged(this`imports, this`shadowTypes, this`extraShadowTypes, this`resetterMap, this`documentedPackages, this`referentMap)
      ensures registered <= env.Keys
      ensures Registration(env, registered, Roots(), old(importMap).Keys)
      ensures ResolverState() == RegisteredState(env, old(importMap), referentMap, registered)
      ensures Ready(env, ResolverState())
      ensures registered <= Resolve(env, ResolverState()).referents.Keys
    {
      ghost var im0 := importMap;
      assert Buckets(env, {}) == map[];
      var visible := VisibleShadowTypes(shadowTypes);
      RegisterEach(visible, true, im0.Keys, {});
      var withResetters := ResetterShadowTypes(shadowTypes, resetterMap);
      RegisterEach(withResetters, false, im0.Keys, ShadowRoots(visible));
      registered := importMap.Keys - im0.Keys;
      RegisteredResolves(env, im0, importMap, typeMap, referentMap);
    }

    /** One registration loop of `prepare` over bindings of the shadow table: the shadow
        class of each, and its actual class when `withActual` holds. */
    method RegisterEach(infos: seq<ShadowInfo>, withActual: bool, ghost known: set<TypeName>, ghost roots: set<TypeName>)
      requires Tables() && Registering(known)
      requires forall x | x in infos :: exists i | 0 <= i < |shadowTypes| :: shadowTypes[i].value == x
      requires Registration(env, importMap.Keys - known, roots, known)
      modifies this`typeMap, this`importMap
      ensures unchanged(this`imports, this`shadowTypes, this`extraShadowTypes, this`resetterMap, this`documentedPackages, this`referentMap)
      ensures Registering(known)
      ensures forall u | u in old(importMap) :: u in importMap && importMap[u] == old(importMap)[u]
      ensures Registration(env, importMap.Keys - known, roots + LoopRoots(infos, withActual), known)
    {
      for i := 0 to |infos|
        invariant Registering(known)
        invariant forall u | u in old(importMap) :: u in importMap && importMap[u] == old(importMap)[u]
        invariant Registration(env, importMap.Keys - known, roots + LoopRoots(infos[..i], withActual), known)
        invariant unchanged(this`imports, this`shadowTypes, this`extraShadowTypes, this`resetterMap, this`documentedPackages, this`referentMap)
      {
        var info := infos[i];
        assert info in infos;
        ShadowInEnv(env, shadowTypes, info);
        LoopRootsStep(infos, i, withActual);
        ghost var before := roots + LoopRoots(infos[..i], withActual);
        RegisterRoot(info.shadowType.qualifiedName, known, before);
        if withActual {
          RegisterRoot(info.actualType.qualifiedName, known, before + {info.ShadowName()});
        }
      }
      assert infos[..|infos|] == infos;
    }

    /** `while (!typeMap.isEmpty())`: rounds until no type competes any more. */
    method ResolveAll()
      requires Ready(env, ResolverState())
      modifies this`typeMap, this`importMap, this`referentMap
      ensures unchanged(this`imports, this`shadowTypes, this`extraShadowTypes, this`resetterMap, this`documentedPackages, this`registered)
      ensures ResolverState() == Resolve(env, old(ResolverState()))
      ensures typeMap == map[] && Ready(env, ResolverState())
    {
      while typeMap != map[]
        invariant Ready(env, ResolverState())
        invariant Resolve(env, ResolverState()) == Resolve(env, old(ResolverState()))
        decreases Measure(env, ResolverState())
      {
        RoundDecreases(env, ResolverState());
        RunRound();
      }
    }

    /** The import loop of `prepare` over the values of the import map, then the fixed
        imports. */
    method CollectImports()
      requires Increasing(imports)
      requires forall t | t in importMap :: importMap[t] in env
      modifies this`imports
      ensures unchanged(this`shadowTypes, this`extraShadowTypes, this`resetterMap, this`documentedPackages, this`typeMap, this`importMap, this`referentMap, this`registered)
      ensures Increasing(imports)
      ensures forall x :: x in imports <==>
        x in old(imports) || x in Importables(env, importMap.Values) || x in FixedImports
    {
      ghost var all := importMap.Values;
      var values := importMap.Values;
      while values != {}
        invariant values <= all
        invariant Increasing(imports)
        invariant forall x :: x in imports <==> x in old(imports) || x in Importables(env, all - values)
        decreases values
      {
        var imp :| imp in values;
        ImportablesAdd(env, all - values, imp);
        assert all - (values - {imp}) == (all - values) + {imp};
        AddImport(imp);
        values := values - {imp};
      }
      assert all - values == all;
      AddFixedImports();
    }

    /** The body of the import loop: the owner `imp` is imported when it is public and
        not in `java.lang`. */
    method AddImport(imp: TypeName)
      requires Increasing(imports) && imp in env
      modifies this`imports
      ensures Increasing(imports)
      ensures forall x :: x in imports <==> x in old(imports) || (x == imp && Importable(env[imp]))
    {
      if env[imp].isPublic && env[imp].enclosing != Package("java.lang") {
        imports := Insert(imports, imp);
      }
    }

    /** The imports every generated file needs are added. */
    method AddFixedImports()
      requires Increasing(imports)
      modifies this`imports
      ensures Increasing(imports)
      ensures forall x :: x in imports <==> x in old(imports) || x in FixedImports
    {
      imports := Insert(imports, "java.util.Map");
      imports := Insert(imports, "java.util.HashMap");
      imports := Insert(imports, "javax.annotation.Generated");
      imports := Insert(imports, "org.robolectric.internal.ShadowProvider");
      imports := Insert(imports, "org.robolectric.shadow.api.Shadow");
    }

    /** The two `forEach` calls at the end of `prepare`. */
    method PrepareInfos()
      requires Tables()
      modifies Bindings(shadowTypes), ResetterSet(resetterMap)
      ensures unchanged(this)
      ensures InfosPrepared(env, shadowTypes, resetterMap, referentMap)
    {
      PrepareShadows();
      PrepareResetters();
    }

    /** `shadowTypes.values().forEach(shadowInfo -> shadowInfo.prepare(...))`. */
    method PrepareShadows()
      requires Tables()
      modifies Bindings(shadowTypes)
      ensures unchanged(this)
      ensures forall j | 0 <= j < |shadowTypes| :: ShadowOk(env, shadowTypes[j]) && shadowTypes[j].value.Prepared(env, referentMap)
    {
      var infos := Values(shadowTypes);
      for i := 0 to |infos|
        modifies Bindings(shadowTypes)
        invariant forall j | 0 <= j < i :: ShadowOk(env, shadowTypes[j]) && infos[j].Prepared(env, referentMap)
      {
        assert ShadowOk(env, shadowTypes[i]);
        infos[i].Prepare(env, referentMap);
      }
    }

    /** `resetterMap.values().forEach(resetterInfo -> resetterInfo.prepare(...))`. */
    method PrepareResetters()
      requires Tables()
      modifies ResetterSet(resetterMap)
      ensures unchanged(this)
      ensures forall j | 0 <= j < |resetterMap| :: resetterMap[j].value.Prepared(referentMap)
    {
      var resetters := Values(resetterMap);
      for i := 0 to |resetters|
        modifies ResetterSet(resetterMap)
        invariant forall j | 0 <= j < i :: resetters[j].Prepared(referentMap)
      {
        resetters[i].Prepare(referentMap);
      }
    }

    /** What the registration loops and the rounds of `prepare` leave behind, for a
        builder whose import map and referents were `im0` and `refs0` before: the types
        `registered` are the least bound-closed set of new types reaching the shadow and
        actual classes of the visible bindings and the shadow classes with resetters, and
        the referents and import map are what the rounds make of the registration state. */
    ghost predicate Resolved(im0: ImportMap, refs0: ReferentMap)
      reads this`shadowTypes, this`resetterMap, this`typeMap, this`importMap, this`referentMap, this`registered
    {
      && Registration(env, registered, Roots(), im0.Keys)
      && registered <= env.Keys
      && Ready(env, RegisteredState(env, im0, refs0, registered))
      && ResolverState() == Resolve(env, RegisteredState(env, im0, refs0, registered))
    }

    /** What `prepare` leaves behind, for a builder whose import map, referents and imports
        were `im0`, `refs0` and `imports0` before: the state `Resolved` describes; the
        imports are the old ones, the importable import-map values and the fixed ones; and
        every binding and resetter carries the strings for the final referents. */
    ghost predicate PreparedFrom(im0: ImportMap, refs0: ReferentMap, imports0: seq<string>)
      reads this`imports, this`shadowTypes, this`extraShadowTypes, this`resetterMap, this`documentedPackages
      reads this`typeMap, this`importMap, this`referentMap, this`registered
      reads Bindings(shadowTypes), ResetterSet(resetterMap)
    {
      && Valid()
      && Resolved(im0, refs0)
      && (forall x :: x in imports <==> x in imports0 || x in Importables(env, importMap.Values) || x in FixedImports)
      && InfosPrepared(env, shadowTypes, resetterMap, referentMap)
    }

    /** `prepare()`. Besides what `PreparedFrom` states: every registered type has a
        referent, and on a builder prepared for the first time so has every root. */
    method Prepare()
      requires Valid()
      modifies this`typeMap, this`importMap, this`referentMap, this`imports, this`registered
      modifies Bindings(shadowTypes), ResetterSet(resetterMap)
      ensures PreparedFrom(old(importMap), old(referentMap), old(imports))
      ensures registered <= referentMap.Keys
      ensures old(importMap) == map[] ==> Roots() <= referentMap.Keys
    {
      RegisterAndResolve();
      CollectImports();
      PrepareInfos();
    }

    /** The registration loops and the rounds of `prepare`. */
    method RegisterAndResolve()
      requires Valid()
      modifies this`typeMap, this`importMap, this`referentMap, this`registered
      ensures unchanged(this`imports, this`shadowTypes, this`extraShadowTypes, this`resetterMap, this`documentedPackages)
      ensures Valid() && Resolved(old(importMap), old(referentMap))
      ensures registered <= referentMap.Keys
      ensures old(importMap) == map[] ==> Roots() <= referentMap.Keys
    {
      RegisterRoots();
      ResolveAll();
    }

    /** `build()`: prepares, then hands copies of the sorted tables to a new model. */
    method Build() returns (model: RobolectricModel)
      requires Valid()
      modifies this`typeMap, this`importMap, this`referentMap, this`imports, this`registered
      modifies Bindings(shadowTypes), ResetterSet(resetterMap)
      ensures PreparedFrom(old(importMap), old(referentMap), old(imports))
      ensures fresh(model)
      ensures model.imports == imports && model.shadowTypes == shadowTypes
      ensures model.extraShadowTypes == extraShadowTypes && model.resetterMap == resetterMap
      ensures model.documentedPackages == documentedPackages
      ensures model.Valid()
    {
      Prepare();
      model := NewModel();
    }

    /** The model `build` hands out: copies of the sorted tables. */
    method NewModel() returns (model: RobolectricModel)
      requires Tables() && forall x | x in FixedImports :: x in imports
      ensures unchanged(this) && unchanged(Bindings(shadowTypes)) && unchanged(ResetterSet(resetterMap))
      ensures fresh(model)
      ensures model.imports == imports && model.shadowTypes == shadowTypes
      ensures model.extraShadowTypes == extraShadowTypes && model.resetterMap == resetterMap
      ensures model.documentedPackages == documentedPackages
      ensures model.Valid()
    {
      model := new RobolectricModel(imports, shadowTypes, extraShadowTypes, resetterMap, documentedPackages);
    }
  }

  /** Robolectric's own packages, the full match of `org.robolectric(\..*)?`: `org`, any
      character but a line terminator (the first dot of the pattern is not escaped),
      `robolectric`, then nothing or a dot and characters that are not line terminators. */
  predicate Reserved(s: string)
  {
    && |s| >= 15
    && s[..3] == "org" && !LineTerminator(s[3]) && s[4..15] == "robolectric"
    && (|s| == 15 || (s[15] == '.' && forall i | 16 <= i < |s| :: !LineTerminator(s[i])))
  }

  /** The characters Java's `.` does not match by default. */
  predicate LineTerminator(c: char)
  {
    c == '\n' || c == '\r' || c == '\U{85}' || c == '\U{2028}' || c == '\U{2029}'
  }

  function Quoted(s: string): string
  {
    "\"" + s + "\""
  }

  /** The entry `getShadowedPackages` adds for a binding. */
  ghost predicate PackageEntry(info: ShadowInfo, x: string)
    reads info
  {
    !Reserved(info.actualTypePackage) && x == Quoted(info.actualTypePackage)
  }

  /** The model `build` hands out: the sorted tables of the builder, sharing its bindings
      and resetters. */
  class RobolectricModel {
    const imports: seq<string>
    const shadowTypes: seq<Entry<ShadowInfo>>
    const extraShadowTypes: seq<Entry<string>>
    const resetterMap: seq<Entry<ResetterInfo>>
    const documentedPackages: seq<Entry<DocumentedPackage>>

    constructor(imports: seq<string>, shadowTypes: seq<Entry<ShadowInfo>>, extraShadowTypes: seq<Entry<string>>,
                resetterMap: seq<Entry<ResetterInfo>>, documentedPackages: seq<Entry<DocumentedPackage>>)
      ensures this.imports == imports && this.shadowTypes == shadowTypes
      ensures this.extraShadowTypes == extraShadowTypes && this.resetterMap == resetterMap
      ensures this.documentedPackages == documentedPackages
    {
      this.imports := imports;
      this.shadowTypes := shadowTypes;
      this.extraShadowTypes := extraShadowTypes;
      this.resetterMap := resetterMap;
      this.documentedPackages := documentedPackages;
    }

    /** The tables are sorted, keyed by the shadow class names, and hold the fixed imports. */
    ghost predicate Valid()
    {
      && Increasing(imports) && (forall x | x in FixedImports :: x in imports)
      && KeysIncreasing(shadowTypes) && KeysIncreasing(extraShadowTypes)
      && KeysIncreasing(resetterMap) && KeysIncreasing(documentedPackages)
      && (forall i | 0 <= i < |shadowTypes| :: shadowTypes[i].key == shadowTypes[i].value.shadowType.qualifiedName)
      && (forall i | 0 <= i < |resetterMap| :: resetterMap[i].key == resetterMap[i].value.shadowType.qualifiedName)
    }

    /** `getImports()`: sorted, without repeats, holding the imports every generated file
        needs. */
    function Imports(): (r: seq<string>)
      requires Valid()
      ensures Increasing(r) && forall x | x in FixedImports :: x in r
    {
      imports
    }

    /** `getAllShadowTypes()`: one binding per shadow class, in shadow-name order. */
    function AllShadowTypes(): (r: seq<ShadowInfo>)
      requires Valid()
      ensures |r| == |shadowTypes|
      ensures forall i, j | 0 <= i < j < |r| :: Below(r[i].shadowType.qualifiedName, r[j].shadowType.qualifiedName)
      ensures forall i | 0 <= i < |shadowTypes| :: r[i] == shadowTypes[i].value
    {
      Values(shadowTypes)
    }

    /** `getResetters()`: one resetter per shadow class, in shadow-name order, including
        those whose shadow class has no binding. */
    function Resetters(): (r: seq<ResetterInfo>)
      requires Valid()
      ensures |r| == |resetterMap|
      ensures forall i, j | 0 <= i < j < |r| :: Below(r[i].shadowType.qualifiedName, r[j].shadowType.qualifiedName)
      ensures forall i | 0 <= i < |resetterMap| :: r[i] == resetterMap[i].value
    {
      Values(resetterMap)
    }

    /** `getShadowedPackages()`: the packages of the actual classes, each in double quotes,
        sorted and without repeats, leaving out Robolectric's own packages. */
    method ShadowedPackages() returns (packages: seq<string>)
      ensures Increasing(packages)
      ensures forall x :: x in packages <==> exists i | 0 <= i < |shadowTypes| :: PackageEntry(shadowTypes[i].value, x)
    {
      packages := [];
      var infos := Values(shadowTypes);
      for i := 0 to |infos|
        invariant Increasing(packages)
        invariant forall x :: x in packages <==> exists j | 0 <= j < i :: PackageEntry(infos[j], x)
      {
        var packageName := infos[i].actualTypePackage;
        if !Reserved(packageName) {
          packages := Insert(packages, "\"" + packageName + "\"");
        }
      }
    }
  }

  /** Which package names the filter of `getShadowedPackages` drops. */
  lemma ReservedExamples()
    ensures Reserved("org.robolectric") && Reserved("org.robolectric.shadows")
    ensures Reserved("org.robolectric.") && Reserved("orgXrobolectric")
    ensures !Reserved("org.robolectricx") && !Reserved("android.app") && !Reserved("org.robolectric\n")
  {
    assert "org.robolectric."[15] == '.';
    assert "org.robolectric\n"[15] != '.';
  }

  /** A quoted package name gives back the name between its quotes, so different packages
      give different entries. */
  lemma QuotedInverse(s: string, t: string)
    ensures Quoted(s)[1..|Quoted(s)| - 1] == s
    ensures Quoted(s) == Quoted(t) ==> s == t
  {
    assert Quoted(s)[1..|Quoted(s)| - 1] == s;
    if Quoted(s) == Quoted(t) {
      assert Quoted(t)[1..|Quoted(t)| - 1] == t;
    }
  }
}
