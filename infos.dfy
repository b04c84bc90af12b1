/** The two per-binding records of the model: a shadow binding and a resetter. Each is
    created with its elements and fills in its derived strings when `Prepare` is given the
    final referents. */
module Infos {
  import opened Elements
  import opened Resolver
  import opened Generics

  /** The declaration is the one the environment holds under its name. */
  ghost predicate InEnv(env: Env, d: TypeDecl)
  {
    d.qualifiedName in env && env[d.qualifiedName] == d
  }

  /** A shadow class bound to the class it shadows. */
  class ShadowInfo {
    const shadowType: TypeDecl
    const actualType: TypeDecl

    var paramDefStr: string
    var paramUseStr: string
    var actualTypeReferent: string
    var shadowTypeReferent: string
    var actualTypePackage: string
    var shadowBinaryName: string

    /** The derived strings stand for the referents `refs`. */
    ghost predicate Prepared(env: Env, refs: ReferentMap)
      reads this
      requires WellFormed(env) && InEnv(env, shadowType) && InEnv(env, actualType)
    {
      && paramDefStr == ParamDef(actualType.typeParams, refs)
      && paramUseStr == ParamUse(actualType.typeParams)
      && actualTypeReferent == RefText(refs, actualType.qualifiedName)
      && actualTypePackage == PackageOf(env, actualType.qualifiedName)
      && shadowTypeReferent == RefText(refs, shadowType.qualifiedName)
      && shadowBinaryName == BinaryName(env, shadowType.qualifiedName)
    }

    /** The derived strings start out unset; the empty string stands for Java's null. */
    constructor(shadowType: TypeDecl, actualType: TypeDecl)
      ensures this.shadowType == shadowType && this.actualType == actualType
      ensures paramDefStr == "" && paramUseStr == "" && actualTypeReferent == ""
      ensures shadowTypeReferent == "" && actualTypePackage == "" && shadowBinaryName == ""
    {
      this.shadowType := shadowType;
      this.actualType := actualType;
      paramDefStr := "";
      paramUseStr := "";
      actualTypeReferent := "";
      shadowTypeReferent := "";
      actualTypePackage := "";
      shadowBinaryName := "";
    }

    method Prepare(env: Env, refs: ReferentMap)
      requires WellFormed(env) && InEnv(env, shadowType) && InEnv(env, actualType)
      modifies this
      ensures Prepared(env, refs)
    {
      paramDefStr, paramUseStr := BuildParamStrings(actualType.typeParams, refs);
      actualTypeReferent := RefText(refs, actualType.qualifiedName);
      actualTypePackage := PackageOf(env, actualType.qualifiedName);
      shadowTypeReferent := RefText(refs, shadowType.qualifiedName);
      shadowBinaryName := BinaryName(env, shadowType.qualifiedName);
    }

    function ShadowName(): string
    {
      shadowType.qualifiedName
    }

    function ActualName(): string
    {
      actualType.qualifiedName
    }

    function IsInAndroidSdk(): bool
    {
      shadowType.isInAndroidSdk
    }

    function ShadowIsDeprecated(): bool
    {
      shadowType.isDeprecated
    }

    function ActualIsPublic(): bool
    {
      actualType.isPublic
    }

    function ActualTypeWithParams(): string
      reads this
    {
      actualTypeReferent + paramUseStr
    }

    function ShadowTypeWithParams(): string
      reads this
    {
      shadowTypeReferent + paramUseStr
    }

    /** Once prepared, the actual and the shadow class with parameters read as their
        referents followed by the parameter names of the actual class in brackets, or by
        nothing when it is not generic. */
    lemma WithParams(env: Env, refs: ReferentMap)
      requires WellFormed(env) && InEnv(env, shadowType) && InEnv(env, actualType) && Prepared(env, refs)
      ensures ActualTypeWithParams() == RefText(refs, actualType.qualifiedName) + ParamUse(actualType.typeParams)
      ensures ShadowTypeWithParams() == RefText(refs, shadowType.qualifiedName) + ParamUse(actualType.typeParams)
    {
    }
  }

  /** A static reset method of a shadow class. */
  class ResetterInfo {
    const shadowType: TypeDecl
    const methodName: string
    var shadowTypeReferent: string

    constructor(shadowType: TypeDecl, methodName: string)
      ensures this.shadowType == shadowType && this.methodName == methodName
      ensures shadowTypeReferent == ""
    {
      this.shadowType := shadowType;
      this.methodName := methodName;
      shadowTypeReferent := "";
    }

    /** The referent stands for the shadow class under the referents `refs`. */
    ghost predicate Prepared(refs: ReferentMap)
      reads this
    {
      shadowTypeReferent == RefText(refs, shadowType.qualifiedName)
    }

    method Prepare(refs: ReferentMap)
      modifies this
      ensures Prepared(refs)
    {
      shadowTypeReferent := RefText(refs, shadowType.qualifiedName);
    }

    /** The statement the generated reset code runs. */
    function MethodCall(): string
      reads this
    {
      shadowTypeReferent + "." + methodName + "();"
    }

    /** Once prepared, the reset call names the shadow class by its final referent. */
    lemma CallAfterPrepare(refs: ReferentMap)
      requires Prepared(refs)
      ensures MethodCall() == RefText(refs, shadowType.qualifiedName) + "." + methodName + "();"
    {
    }

    function MinSdk(): int
    {
      shadowType.minSdk
    }

    function MaxSdk(): int
    {
      shadowType.maxSdk
    }
  }
}
