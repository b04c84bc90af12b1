/** The part of javax.lang.model the model builder reads: declared types with their
    qualified and simple names, enclosing element, visibility, type parameters with
    their bounds, and the annotation values the processor looks up on shadow types.
    A TypeElement is identified by its qualified name. */
module Elements {

  type TypeName = string

  /** `getEnclosingElement()` of a type: a package or another type. */
  datatype Scope = Package(name: string) | Enclosing(outer: TypeName)

  /** A type parameter: `getBounds()` (which lists the implicit `java.lang.Object` when
      nothing is declared) and the explicit bounds the processor's helpers report. */
  datatype TypeParam = TypeParam(name: string, bounds: seq<TypeName>, explicitBounds: seq<TypeName>)

  datatype TypeDecl = TypeDecl(
    qualifiedName: TypeName,
    simpleName: string,
    enclosing: Scope,
    isPublic: bool,
    typeParams: seq<TypeParam>,
    isInAndroidSdk: bool,   // @Implements(isInAndroidSdk = ...)
    isDeprecated: bool,     // @Deprecated is present
    minSdk: int,            // @Implements(minSdk = ...)
    maxSdk: int)            // @Implements(maxSdk = ...)

  /** The types the processing environment knows, by qualified name. */
  type Env = map<TypeName, TypeDecl>

  /** Qualified name of a top-level type in a package; the unnamed package adds no prefix. */
  function Qualify(pkg: string, simple: string): string
  {
    if pkg == "" then simple else pkg + "." + simple
  }

  /** What the model assumes of one declared type. Java guarantees that its qualified
      name is its identity and is built from its enclosing element and its simple name,
      and that simple names are identifiers (non-empty, no dot). The model further
      requires every bound to be a declared type of the same environment, among which the
      explicit bounds are found; Java also allows a type variable there, which the
      processor cannot handle. */
  ghost predicate DeclOk(env: Env, t: TypeName)
    requires t in env
  {
    var d := env[t];
    && d.qualifiedName == t
    && d.simpleName != [] && '.' !in d.simpleName
    && (match d.enclosing
        case Package(p) => t == Qualify(p, d.simpleName)
        case Enclosing(o) => o in env && t == o + "." + d.simpleName)
    && (forall p | p in d.typeParams :: forall b | b in p.bounds :: b in env)
    && (forall p | p in d.typeParams :: forall b | b in p.explicitBounds :: b in p.bounds)
  }

  /** `t` is declared in `env`; the trigger through which `WellFormed` is used, so that
      the facts about one declaration do not set off those about the next. */
  predicate Declared(env: Env, t: TypeName)
  {
    t in env
  }

  ghost predicate WellFormed(env: Env)
  {
    forall t {:trigger Declared(env, t)} | Declared(env, t) :: DeclOk(env, t)
  }

  /** Nesting depth: 1 for a top-level type, one more per enclosing type. */
  function Depth(env: Env, t: TypeName): (d: nat)
    requires WellFormed(env) && t in env
    ensures d >= 1
    decreases |t|
  {
    assert Declared(env, t) && DeclOk(env, t);
    match env[t].enclosing
    case Package(_) => 1
    case Enclosing(o) => 1 + Depth(env, o)
  }

  /** `a` is `t` itself or one of the types `t` is nested in. */
  ghost predicate OuterOrSelf(env: Env, a: TypeName, t: TypeName)
    requires WellFormed(env) && t in env
    decreases |t|
  {
    assert Declared(env, t) && DeclOk(env, t);
    a == t || (env[t].enclosing.Enclosing? && OuterOrSelf(env, a, env[t].enclosing.outer))
  }

  /** Every type named among the bounds of `t`'s type parameters. */
  ghost function BoundsOf(env: Env, t: TypeName): set<TypeName>
    requires t in env
  {
    set p, b | p in env[t].typeParams && b in p.bounds :: b
  }

  /** `Elements.getPackageOf(t)`, as its qualified name. */
  function PackageOf(env: Env, t: TypeName): string
    requires WellFormed(env) && t in env
    decreases |t|
  {
    assert Declared(env, t) && DeclOk(env, t);
    match env[t].enclosing
    case Package(p) => p
    case Enclosing(o) => PackageOf(env, o)
  }

  /** The qualified name of a type starts with its package's name and a dot (unless the
      package is the unnamed one). */
  lemma {:induction false} PackagePrefix(env: Env, t: TypeName)
    requires WellFormed(env) && t in env
    ensures var p := PackageOf(env, t);
      p == "" || (|p| < |t| && t[..|p|] == p && t[|p|] == '.')
    decreases |t|
  {
    assert Declared(env, t) && DeclOk(env, t);
    match env[t].enclosing
    case Package(p) =>
    case Enclosing(o) =>
      PackagePrefix(env, o);
      var p := PackageOf(env, o);
      if p != "" {
        assert t[..|o|] == o;
        assert t[..|p|] == o[..|p|];
      }
  }

  /** The binary name (section 13.1 of the Java Language Specification): a member type's
      simple name follows its outer type's binary name after a `$`. */
  function BinaryName(env: Env, t: TypeName): string
    requires WellFormed(env) && t in env
    decreases |t|
  {
    assert Declared(env, t) && DeclOk(env, t);
    match env[t].enclosing
    case Package(p) => t
    case Enclosing(o) => BinaryName(env, o) + "$" + env[t].simpleName
  }

  /** A type is nested in nothing longer than itself. */
  lemma {:induction false} OuterOrSelfShorter(env: Env, a: TypeName, t: TypeName)
    requires WellFormed(env) && t in env && OuterOrSelf(env, a, t)
    ensures |a| <= |t|
    decreases |t|
  {
    assert Declared(env, t) && DeclOk(env, t);
    if a != t {
      var o := env[t].enclosing.outer;
      OuterOrSelfShorter(env, a, o);
    }
  }

  /** The binary name is the qualified name with exactly the dots that end one of the
      type's outer types turned into `$`. */
  lemma {:induction false} BinaryNameOfQualified(env: Env, t: TypeName)
    requires WellFormed(env) && t in env
    ensures var b := BinaryName(env, t);
      && |b| == |t|
      && (forall i | 0 <= i < |t| :: b[i] == t[i] || (t[i] == '.' && b[i] == '$'))
      && (forall i | 0 <= i < |t| :: (b[i] != t[i] <==> t[..i] != t && OuterOrSelf(env, t[..i], t)))
    decreases |t|
  {
    assert Declared(env, t) && DeclOk(env, t);
    match env[t].enclosing
    case Package(p) =>
      forall i | 0 <= i < |t| ensures !OuterOrSelf(env, t[..i], t) {
        assert |t[..i]| < |t|;
      }
    case Enclosing(o) =>
      BinaryNameOfQualified(env, o);
      var b := BinaryName(env, t);
      var s := env[t].simpleName;
      assert b == BinaryName(env, o) + "$" + s;
      assert t == o + "." + s;
      forall i | 0 <= i < |t|
        ensures b[i] == t[i] || (t[i] == '.' && b[i] == '$')
        ensures b[i] != t[i] <==> t[..i] != t && OuterOrSelf(env, t[..i], t)
      {
        assert |t[..i]| == i < |t|;
        if i < |o| {
          assert b[i] == BinaryName(env, o)[i] && t[i] == o[i];
          assert t[..i] == o[..i];
        } else if i == |o| {
          assert t[..i] == o;
          assert OuterOrSelf(env, o, o);
        } else {
          assert b[i] == s[i - |o| - 1] && t[i] == s[i - |o| - 1];
          if OuterOrSelf(env, t[..i], o) {
            OuterOrSelfShorter(env, t[..i], o);
          }
        }
      }
  }

  /** `getEnclosingElement().toString()`: the package's name for a top-level type, the
      outer type's qualified name for a member type. */
  function EnclosingName(env: Env, t: TypeName): (r: string)
    requires WellFormed(env) && t in env
    ensures env[t].enclosing.Package? ==> t == Qualify(r, env[t].simpleName)
    ensures env[t].enclosing.Enclosing? ==> r in env && t == r + "." + env[t].simpleName
    ensures |r| < |t|
  {
    assert Declared(env, t) && DeclOk(env, t);
    match env[t].enclosing
    case Package(p) => p
    case Enclosing(o) => o
  }
}
