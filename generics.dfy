/** The generic-parameter strings a shadow binding carries into the generated source:
    `<T,U>` where the parameters are used, `<T extends A & B,U>` where they are
    declared. */
module Generics {
  import opened Elements
  import opened Resolver

  /** A referent as string concatenation prints it: a type with no referent prints `null`. */
  function RefText(refs: ReferentMap, t: TypeName): string
  {
    if t in refs then refs[t] else "null"
  }

  /** The parts separated by commas, in order. */
  function Join(parts: seq<string>): string
    decreases |parts|
  {
    if |parts| == 0 then ""
    else if |parts| == 1 then parts[0]
    else Join(parts[..|parts| - 1]) + "," + parts[|parts| - 1]
  }

  /** ` extends A & B & C`, or nothing for a parameter without explicit bounds. */
  function BoundsClause(bounds: seq<TypeName>, refs: ReferentMap): string
    decreases |bounds|
  {
    if |bounds| == 0 then ""
    else
      BoundsClause(bounds[..|bounds| - 1], refs)
      + (if |bounds| == 1 then " extends " else " & ")
      + RefText(refs, bounds[|bounds| - 1])
  }

  /** One declared parameter: its name and the bounds clause. */
  function ParamText(p: TypeParam, refs: ReferentMap): string
  {
    p.name + BoundsClause(p.explicitBounds, refs)
  }

  function UseParts(ps: seq<TypeParam>): (r: seq<string>)
    ensures |r| == |ps|
    decreases |ps|
  {
    if ps == [] then [] else UseParts(ps[..|ps| - 1]) + [ps[|ps| - 1].name]
  }

  function DefParts(ps: seq<TypeParam>, refs: ReferentMap): (r: seq<string>)
    ensures |r| == |ps|
    decreases |ps|
  {
    if ps == [] then [] else DefParts(ps[..|ps| - 1], refs) + [ParamText(ps[|ps| - 1], refs)]
  }

  /** `paramUseStr`: empty for a non-generic type, else the parameter names in brackets. */
  function ParamUse(ps: seq<TypeParam>): string
  {
    if ps == [] then "" else "<" + Join(UseParts(ps)) + ">"
  }

  /** `paramDefStr`: empty for a non-generic type, else each parameter with the referents
      of its explicit bounds. */
  function ParamDef(ps: seq<TypeParam>, refs: ReferentMap): string
  {
    if ps == [] then "" else "<" + Join(DefParts(ps, refs)) + ">"
  }

  lemma JoinSnoc(parts: seq<string>, x: string)
    ensures Join(parts + [x]) == if parts == [] then x else Join(parts) + "," + x
  {
    assert (parts + [x])[..|parts|] == parts;
  }

  lemma DefStep(ps: seq<TypeParam>, i: nat, refs: ReferentMap)
    requires i < |ps|
    ensures Join(DefParts(ps[..i + 1], refs)) == Join(DefParts(ps[..i], refs)) + (if i > 0 then "," else "") + ParamText(ps[i], refs)
  {
    assert ps[..i + 1][..i] == ps[..i];
    JoinSnoc(DefParts(ps[..i], refs), ParamText(ps[i], refs));
  }

  lemma UseStep(ps: seq<TypeParam>, i: nat)
    requires i < |ps|
    ensures Join(UseParts(ps[..i + 1])) == Join(UseParts(ps[..i])) + (if i > 0 then "," else "") + ps[i].name
  {
    assert ps[..i + 1][..i] == ps[..i];
    JoinSnoc(UseParts(ps[..i]), ps[i].name);
  }

  lemma BoundsStep(bounds: seq<TypeName>, j: nat, refs: ReferentMap)
    requires j < |bounds|
    ensures BoundsClause(bounds[..j + 1], refs)
      == BoundsClause(bounds[..j], refs) + (if j == 0 then " extends " else " & ") + RefText(refs, bounds[j])
  {
    assert bounds[..j + 1][..j] == bounds[..j];
  }

  /** The inner loop of `ShadowInfo.prepare`: appends the bounds clause of one parameter. */
  lemma Regroup(a: string, b: string, c: string, d: string)
    ensures a + b + c + d == a + (b + c + d)
  {
  }

  lemma Assoc(a: string, b: string, c: string)
    ensures a + b + c == a + (b + c)
  {
  }

  method AppendBounds(s: string, bounds: seq<TypeName>, refs: ReferentMap) returns (r: string)
    ensures r == s + BoundsClause(bounds, refs)
  {
    r := s;
    var first := true;
    for j := 0 to |bounds|
      invariant first <==> j == 0
      invariant r == s + BoundsClause(bounds[..j], refs)
    {
      BoundsStep(bounds, j, refs);
      ghost var separator := if first then " extends " else " & ";
      Regroup(s, BoundsClause(bounds[..j], refs), separator, RefText(refs, bounds[j]));
      if first {
        r := r + " extends ";
        first := false;
      } else {
        r := r + " & ";
      }
      r := r + RefText(refs, bounds[j]);
    }
    assert bounds[..|bounds|] == bounds;
  }

  /** The StringBuilder loop of `ShadowInfo.prepare`. */
  method BuildParamStrings(ps: seq<TypeParam>, refs: ReferentMap) returns (paramDefStr: string, paramUseStr: string)
    ensures paramDefStr == ParamDef(ps, refs) && paramUseStr == ParamUse(ps)
    ensures paramDefStr == "" <==> ps == []
    ensures paramUseStr == "" <==> ps == []
  {
    var paramCount := 0;
    var paramDef := "<";
    var paramUse := "<";
    for i := 0 to |ps|
      invariant paramCount == i
      invariant paramDef == "<" + Join(DefParts(ps[..i], refs))
      invariant paramUse == "<" + Join(UseParts(ps[..i]))
    {
      ghost var separator := if i > 0 then "," else "";
      DefStep(ps, i, refs);
      UseStep(ps, i);
      Regroup("<", Join(DefParts(ps[..i], refs)), separator, ParamText(ps[i], refs));
      Regroup("<", Join(UseParts(ps[..i])), separator, ps[i].name);
      if paramCount > 0 {
        paramDef := paramDef + ",";
        paramUse := paramUse + ",";
      }
      assert paramDef == "<" + Join(DefParts(ps[..i], refs)) + separator;
      assert paramUse == "<" + Join(UseParts(ps[..i])) + separator;
      Assoc(paramDef, ps[i].name, BoundsClause(ps[i].explicitBounds, refs));
      paramDef := AppendBounds(paramDef + ps[i].name, ps[i].explicitBounds, refs);
      paramUse := paramUse + ps[i].name;
      paramCount := paramCount + 1;
    }
    assert ps[..|ps|] == ps;
    paramDefStr := "";
    paramUseStr := "";
    if paramCount > 0 {
      paramDefStr := paramDef + ">";
      paramUseStr := paramUse + ">";
    }
  }

  /** Without explicit bounds each declared parameter is just its name. */
  lemma {:induction false} PartsWithoutBounds(ps: seq<TypeParam>, refs: ReferentMap)
    requires forall i | 0 <= i < |ps| :: ps[i].explicitBounds == []
    ensures DefParts(ps, refs) == UseParts(ps)
    decreases |ps|
  {
    if ps != [] {
      var init := ps[..|ps| - 1];
      assert forall i | 0 <= i < |init| :: init[i] == ps[i];
      PartsWithoutBounds(init, refs);
      var last := ps[|ps| - 1];
      assert last.explicitBounds == [] && BoundsClause(last.explicitBounds, refs) == "";
      assert ParamText(last, refs) == last.name;
      assert DefParts(ps, refs) == DefParts(init, refs) + [ParamText(last, refs)];
      assert UseParts(ps) == UseParts(init) + [last.name];
    }
  }

  /** A type whose parameters have no explicit bounds declares them as it uses them. */
  lemma DefIsUseWithoutBounds(ps: seq<TypeParam>, refs: ReferentMap)
    requires forall i | 0 <= i < |ps| :: ps[i].explicitBounds == []
    ensures ParamDef(ps, refs) == ParamUse(ps)
  {
    PartsWithoutBounds(ps, refs);
  }

  /** The bounds clause is empty exactly when there are no explicit bounds, and otherwise
      opens with ` extends `. */
  lemma {:induction false} BoundsClauseShape(bounds: seq<TypeName>, refs: ReferentMap)
    ensures BoundsClause(bounds, refs) == "" <==> bounds == []
    ensures bounds != [] ==> |BoundsClause(bounds, refs)| >= 9 && BoundsClause(bounds, refs)[..9] == " extends "
    decreases |bounds|
  {
    if |bounds| > 1 {
      var init := bounds[..|bounds| - 1];
      BoundsClauseShape(init, refs);
      var a := BoundsClause(init, refs);
      var b := " & " + RefText(refs, bounds[|bounds| - 1]);
      assert BoundsClause(bounds, refs) == a + " & " + RefText(refs, bounds[|bounds| - 1]);
      assert (a + b)[..9] == a[..9];
      Assoc(a, " & ", RefText(refs, bounds[|bounds| - 1]));
    }
  }
}
