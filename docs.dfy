/** The documentation tree the builder fills in: packages own types keyed by qualified
    name, types own methods keyed by name. These classes are defined outside
    RobolectricModel.java, and they are plain keyed values here. */
module Docs {
  import opened Sorted

  datatype DocumentedMethod = DocumentedMethod(name: string, documentation: string)

  datatype DocumentedType = DocumentedType(
    name: string,
    documentation: Option<string>,
    imports: seq<string>,
    methods: map<string, DocumentedMethod>)

  datatype DocumentedPackage = DocumentedPackage(
    name: string,
    documentation: Option<string>,
    types: map<string, DocumentedType>)

  function NewPackage(name: string): DocumentedPackage
  {
    DocumentedPackage(name, None, map[])
  }

  function NewType(name: string): DocumentedType
  {
    DocumentedType(name, None, [], map[])
  }

  /** The package recorded under `name`, or the one a first lookup creates. */
  function PackageOrNew(m: seq<Entry<DocumentedPackage>>, name: string): DocumentedPackage
  {
    match Get(m, name)
    case Some(p) => p
    case None => NewPackage(name)
  }

  /** The type recorded under `name` in the package, or the one a first lookup creates. */
  function TypeOrNew(p: DocumentedPackage, name: string): DocumentedType
  {
    if name in p.types then p.types[name] else NewType(name)
  }

  /** `p` with the type `t` recorded under the name `name`. */
  function SetType(p: DocumentedPackage, name: string, t: DocumentedType): DocumentedPackage
  {
    p.(types := p.types[name := t])
  }

  /** The packages after `documentPackage(name, documentation)`: the package `name` has the
      documentation and keeps its types, whether it was recorded before or is created now;
      every other package stays as it was. */
  function PackageDocumented(m: seq<Entry<DocumentedPackage>>, name: string, documentation: string): (r: seq<Entry<DocumentedPackage>>)
    requires KeysIncreasing(m)
    ensures KeysIncreasing(r) && KeySet(r) == KeySet(m) + {name}
    ensures Get(r, name).Some?
    ensures Get(r, name).value.documentation == Some(documentation)
    ensures Get(r, name).value.types == (if Get(m, name).Some? then Get(m, name).value.types else map[])
    ensures forall k | k != name :: Get(r, k) == Get(m, k)
  {
    Put(m, name, PackageOrNew(m, name).(documentation := Some(documentation)))
  }

  /** The packages after `documentType` of the type `name` enclosed by `pkg`: that type has
      the documentation and the imports and keeps its methods; the package's documentation
      and other types, and every other package, stay as they were. */
  function TypeDocumented(m: seq<Entry<DocumentedPackage>>, pkg: string, name: string, documentation: string, imports: seq<string>): (r: seq<Entry<DocumentedPackage>>)
    requires KeysIncreasing(m)
    ensures KeysIncreasing(r) && KeySet(r) == KeySet(m) + {pkg} && Get(r, pkg).Some?
    ensures var p := PackageOrNew(m, pkg);
      var q := Get(r, pkg).value;
      && q.documentation == p.documentation
      && name in q.types && q.types[name].documentation == Some(documentation)
      && q.types[name].imports == imports
      && q.types[name].methods == TypeOrNew(p, name).methods
      && forall n | n in p.types && n != name :: n in q.types && q.types[n] == p.types[n]
    ensures forall k | k != pkg :: Get(r, k) == Get(m, k)
  {
    var p := PackageOrNew(m, pkg);
    Put(m, pkg, SetType(p, name, TypeOrNew(p, name).(documentation := Some(documentation), imports := imports)))
  }

  /** The packages after `documentMethod` of the type `name` enclosed by `pkg`: the method
      is recorded under its name in its type, and the type's other methods, documentation
      and imports, the package's documentation and other types, and every other package
      stay as they were. */
  function MethodDocumented(m: seq<Entry<DocumentedPackage>>, pkg: string, name: string, dm: DocumentedMethod): (r: seq<Entry<DocumentedPackage>>)
    requires KeysIncreasing(m)
    ensures KeysIncreasing(r) && KeySet(r) == KeySet(m) + {pkg} && Get(r, pkg).Some?
    ensures var p := PackageOrNew(m, pkg);
      var t := TypeOrNew(p, name);
      var q := Get(r, pkg).value;
      && q.documentation == p.documentation
      && name in q.types && q.types[name].methods == t.methods[dm.name := dm]
      && q.types[name].documentation == t.documentation && q.types[name].imports == t.imports
      && forall n | n in p.types && n != name :: n in q.types && q.types[n] == p.types[n]
    ensures forall k | k != pkg :: Get(r, k) == Get(m, k)
  {
    var p := PackageOrNew(m, pkg);
    var t := TypeOrNew(p, name);
    Put(m, pkg, SetType(p, name, t.(methods := t.methods[dm.name := dm])))
  }

  /** A later `documentMethod` for a method of the same name overwrites the earlier one. */
  lemma {:induction false} MethodDocumentedTwice(m: seq<Entry<DocumentedPackage>>, pkg: string, name: string, a: DocumentedMethod, b: DocumentedMethod)
    requires KeysIncreasing(m) && a.name == b.name
    ensures MethodDocumented(MethodDocumented(m, pkg, name, a), pkg, name, b) == MethodDocumented(m, pkg, name, b)
  {
    var p := PackageOrNew(m, pkg);
    var t := TypeOrNew(p, name);
    var ta := t.(methods := t.methods[a.name := a]);
    var tb := t.(methods := t.methods[b.name := b]);
    var pa := SetType(p, name, ta);
    var ma := Put(m, pkg, pa);
    assert MethodDocumented(m, pkg, name, a) == ma;
    assert PackageOrNew(ma, pkg) == pa;
    assert TypeOrNew(pa, name) == ta;
    assert ta.(methods := ta.methods[b.name := b]) == tb;
    assert MethodDocumented(ma, pkg, name, b) == Put(ma, pkg, SetType(pa, name, tb));
    SetTypeTwice(p, name, ta, tb);
    assert MethodDocumented(m, pkg, name, b) == Put(m, pkg, SetType(p, name, tb));
    PutTwice(m, pkg, pa, SetType(p, name, tb));
  }

  lemma SetTypeTwice(p: DocumentedPackage, name: string, t1: DocumentedType, t2: DocumentedType)
    ensures SetType(SetType(p, name, t1), name, t2) == SetType(p, name, t2)
  {
    assert p.types[name := t1][name := t2] == p.types[name := t2];
  }

  /** Packages are got or created by name: whatever is documented, in whatever order, no
      name has two packages, and documenting two different packages commutes. */
  lemma {:induction false} PackagesDocumentedCommute(m: seq<Entry<DocumentedPackage>>, n1: string, d1: string, n2: string, d2: string)
    requires KeysIncreasing(m) && n1 != n2
    ensures PackageDocumented(PackageDocumented(m, n1, d1), n2, d2) == PackageDocumented(PackageDocumented(m, n2, d2), n1, d1)
  {
    var a := PackageDocumented(PackageDocumented(m, n1, d1), n2, d2);
    var b := PackageDocumented(PackageDocumented(m, n2, d2), n1, d1);
    forall k ensures Get(a, k) == Get(b, k) {
    }
    GetDetermines(a, b);
  }
}
