# Robolectric's shadow-model builder, in Dafny

Robolectric's annotation processor collects every `@Implements` shadow class, its reset
hooks and its documentation into a `RobolectricModel.Builder`. `build()` then prepares
a `RobolectricModel`, from which the generated `Shadows` source file is written. The
preparation has four stages:

1. **Registration.** Every type the generated file must mention is registered: the
   shadow and actual class of each visible binding, the shadow class of each binding
   with a resetter, and, recursively, the bounds of their type parameters.
2. **Disambiguation.** Registered types are bucketed by simple name. A type alone in
   its bucket is referred to by the bucket's key.
   - In a larger bucket, a type whose import owner is top-level is referred to by its
     qualified name.
   - Any other type competes again in the next round under `Outer.Simple`, imported
     through the outer type.
3. **Imports.** The import owners that are public and not in `java.lang` are
   imported, together with five fixed imports.
4. **Derived strings.** Each shadow binding gets its generic-parameter strings and
   referents, and each resetter gets the text of its reset call.

The project models:
- the builder as a class, `Model.Builder`, whose methods update its tables as the
  Java methods do;
- Java's sorted collections as ordered sequences (module `Sorted`);
- the javax.lang.model elements the builder reads as a datatype (module `Elements`);
- one disambiguation round and all of them as functions (modules `Resolver`,
  `ResolverRounds`);
- the bindings and resetters as classes (module `Infos`);
- the documentation tree as values (module `Docs`);
- the built model as a class, `Model.RobolectricModel`.

The imperative round loop is proved to compute exactly the function `Round`, whatever
order the hash multimap yields its buckets and members in. The round loop is proved to
terminate: every round moves each competing type's import owner one nesting level
outward. It is also proved that every registered type ends up with a referent.

Type identity is the qualified name. The processing environment is a map `Env` from
qualified names to declarations. `WellFormed(env)` is what the model assumes of it. Most of
it the Java language guarantees: qualified names are built from the enclosing element
and the simple name, and simple names are dot-free identifiers. One part Java does not
guarantee: the model also requires that every bound is a declared type, which excludes
a type variable as a bound (`<T, U extends T>`). The source cannot handle that case
(see "Left out").

## Model

In the source column, `RobolectricModel.java` stands for
`processor/src/main/java/org/robolectric/annotation/processing/RobolectricModel.java`;
the cells spell the path out in full.

| member | source | states |
|---|---|---|
| Sorted.BelowTransitive | processor/src/main/java/org/robolectric/annotation/processing/RobolectricModel.java:77-82 | the order of `String.compareTo` that sorts the TreeSets and TreeMaps is transitive |
| Sorted.BelowTotal | processor/src/main/java/org/robolectric/annotation/processing/RobolectricModel.java:77-82 | any two different strings are ordered one way or the other |
| Sorted.BelowAsymmetric | processor/src/main/java/org/robolectric/annotation/processing/RobolectricModel.java:77-82 | no two strings are each below the other, and a string is not below itself |
| Sorted.IncreasingDistinct | processor/src/main/java/org/robolectric/annotation/processing/RobolectricModel.java:36 | a TreeSet iterated in ascending order holds no element twice |
| Sorted.Insert | processor/src/main/java/org/robolectric/annotation/processing/RobolectricModel.java:201 | `TreeSet.add` keeps the set sorted without repeats, adds exactly the new element, and changes nothing when it is present |
| Sorted.Put | processor/src/main/java/org/robolectric/annotation/processing/RobolectricModel.java:93-94 | `TreeMap.put` keeps the keys sorted, adds the key, maps it to the new value and leaves every other key's value as it was |
| Sorted.Get | processor/src/main/java/org/robolectric/annotation/processing/RobolectricModel.java:122 | `TreeMap.get` finds nothing exactly when the key is absent |
| Sorted.Values | processor/src/main/java/org/robolectric/annotation/processing/RobolectricModel.java:224 | `values()` lists one value per entry, the value of the entry at the same position |
| Sorted.ValuesInKeyOrder | processor/src/main/java/org/robolectric/annotation/processing/RobolectricModel.java:269-271 | on an ordered map, `values()` lists, in key order, what `get` finds under each key, and every value `get` finds is among them |
| Sorted.GetEntry | processor/src/main/java/org/robolectric/annotation/processing/RobolectricModel.java:230 | every entry of a sorted map is what a lookup of its key finds |
| Sorted.GetDetermines | processor/src/main/java/org/robolectric/annotation/processing/RobolectricModel.java:40-47 | two sorted maps on which every lookup agrees are the same map |
| Sorted.PutExisting | processor/src/main/java/org/robolectric/annotation/processing/RobolectricModel.java:122-126 | putting back the value a key already has changes nothing |
| Sorted.PutTwice | processor/src/main/java/org/robolectric/annotation/processing/RobolectricModel.java:93-94 | a second put under a key overrides the first, as if only the second had happened |
| Sorted.PutEntries | processor/src/main/java/org/robolectric/annotation/processing/RobolectricModel.java:102-103 | after a put every entry is the new one or one that was there before |
| Elements.PackagePrefix | processor/src/main/java/org/robolectric/annotation/processing/RobolectricModel.java:358 | `getPackageOf` gives the package whose name, then a dot, begins the type's qualified name |
| Elements.BinaryNameOfQualified | processor/src/main/java/org/robolectric/annotation/processing/RobolectricModel.java:360 | the binary name has the qualified name's length and differs from it exactly at the dots that end one of the type's outer types, where it has `$` |
| Elements.EnclosingName | processor/src/main/java/org/robolectric/annotation/processing/RobolectricModel.java:130-133 | the enclosing element's name followed by the simple name gives the qualified name; for a member type, that name is its outer type |
| Resolver.BucketsAdd | processor/src/main/java/org/robolectric/annotation/processing/RobolectricModel.java:240 | registering one more type puts it into the bucket of its simple name and adds nothing else |
| Resolver.BucketsShape | processor/src/main/java/org/robolectric/annotation/processing/RobolectricModel.java:239-241 | the buckets hold exactly the registered types, each once, under its own simple name, with no empty bucket |
| Resolver.RegistrationExtend | processor/src/main/java/org/robolectric/annotation/processing/RobolectricModel.java:152-160 | registering one more root after a registration gives the least bound-closed set reaching all the roots |
| Resolver.LeastStep | processor/src/main/java/org/robolectric/annotation/processing/RobolectricModel.java:242-249 | registering a bound inside `registerType(t)` keeps the registered set the least bound-closed one reaching `t` |
| Resolver.AfterAdd | processor/src/main/java/org/robolectric/annotation/processing/RobolectricModel.java:164-190 | handling one more type of the round gives the round's state for the larger set of handled types, in whatever order types are taken |
| ResolverRounds.FateFacts | processor/src/main/java/org/robolectric/annotation/processing/RobolectricModel.java:168-189 | a type alone in its bucket is named by the key; in a larger bucket it is qualified exactly when its import owner is top-level, and otherwise moves to `Outer.Simple` through the outer type |
| ResolverRounds.MembersOfNext | processor/src/main/java/org/robolectric/annotation/processing/RobolectricModel.java:176 | the types competing in the next round are exactly the ones this round deferred |
| ResolverRounds.RoundImportsOk | processor/src/main/java/org/robolectric/annotation/processing/RobolectricModel.java:177 | after a round every import-map entry still names declared types |
| ResolverRounds.RoundBucketsOk | processor/src/main/java/org/robolectric/annotation/processing/RobolectricModel.java:176-177 | after a round no type sits in two buckets, no bucket is empty, and every competing type has an import owner |
| ResolverRounds.RoundReady | processor/src/main/java/org/robolectric/annotation/processing/RobolectricModel.java:192 | a round leaves a state the next round can start from |
| ResolverRounds.RoundDecreases | processor/src/main/java/org/robolectric/annotation/processing/RobolectricModel.java:162-193 | each round lowers the deepest nesting level of the competing types' import owners, so the `while` loop ends |
| ResolverRounds.Resolve | processor/src/main/java/org/robolectric/annotation/processing/RobolectricModel.java:162 | the rounds end with no type competing |
| RoundSteps.RoundStep | processor/src/main/java/org/robolectric/annotation/processing/RobolectricModel.java:164-190 | a type not yet handled still has its import owner from the round's start, and handling it with the rule its bucket gives extends the handled set by it |
| RoundSteps.NamedStep | processor/src/main/java/org/robolectric/annotation/processing/RobolectricModel.java:168-170 | handling the only type of a bucket names it by the key |
| RoundSteps.QualifiedStep | processor/src/main/java/org/robolectric/annotation/processing/RobolectricModel.java:181-185 | handling a colliding type with a top-level owner gives it its qualified name and drops it from the import map |
| RoundSteps.DeferredStep | processor/src/main/java/org/robolectric/annotation/processing/RobolectricModel.java:174-178 | handling a colliding type with a nested owner puts it under `Outer.Simple` in the next round, imported through the outer type |
| ResolveFacts.RoundNamed | processor/src/main/java/org/robolectric/annotation/processing/RobolectricModel.java:168-170 | after a round, a type that was alone in its bucket has the key as referent, keeps its import owner and competes no more |
| ResolveFacts.RoundQualified | processor/src/main/java/org/robolectric/annotation/processing/RobolectricModel.java:182-185 | after a round, a colliding type with a top-level owner has its qualified name as referent, has no import and competes no more |
| ResolveFacts.RoundDeferred | processor/src/main/java/org/robolectric/annotation/processing/RobolectricModel.java:175-178 | after a round, a colliding type with a nested owner competes under its outer type's simple name joined to its own, imported through the outer type |
| ResolveFacts.RoundNamesDistinct | processor/src/main/java/org/robolectric/annotation/processing/RobolectricModel.java:168-170 | two different types named by bucket keys in the same round get different referents |
| ResolveFacts.FirstRound | processor/src/main/java/org/robolectric/annotation/processing/RobolectricModel.java:162-190 | in the first round a type whose simple name no other registered type shares is referred to by that bare simple name; any other is qualified or competes again |
| ResolveFacts.RoundCovers | processor/src/main/java/org/robolectric/annotation/processing/RobolectricModel.java:164-191 | a round gives a referent to every competing type it does not defer, keeps the other referents, and defers only competing types |
| ResolveFacts.ResolveCovers | processor/src/main/java/org/robolectric/annotation/processing/RobolectricModel.java:162-193 | when the loop ends, every type that competed has a referent, and a type that never competed keeps its old one |
| Docs.PackageDocumented | processor/src/main/java/org/robolectric/annotation/processing/RobolectricModel.java:106-108 | `documentPackage` sets the documentation of the package, got or created, keeping its types, and leaves other packages alone |
| Docs.TypeDocumented | processor/src/main/java/org/robolectric/annotation/processing/RobolectricModel.java:110-114 | `documentType` sets the documentation and imports of the type, got or created, keeping its methods, and leaves other types and packages alone |
| Docs.MethodDocumented | processor/src/main/java/org/robolectric/annotation/processing/RobolectricModel.java:116-119 | `documentMethod` records the method under its name in its type, and leaves the type's other methods, documentation and imports, and everything else, alone |
| Docs.MethodDocumentedTwice | processor/src/main/java/org/robolectric/annotation/processing/RobolectricModel.java:118 | a later `documentMethod` of a same-named method overwrites the earlier one |
| Docs.PackagesDocumentedCommute | processor/src/main/java/org/robolectric/annotation/processing/RobolectricModel.java:121-128 | packages are got or created by name, so documenting two different packages gives the same result in either order |
| Generics.AppendBounds | processor/src/main/java/org/robolectric/annotation/processing/RobolectricModel.java:338-346 | the bounds loop appends ` extends ` before the first bound's referent and ` & ` before each later one |
| Generics.BuildParamStrings | processor/src/main/java/org/robolectric/annotation/processing/RobolectricModel.java:327-355 | the loop builds `<T extends A & B,U>` and `<T,U>`, and both strings are empty exactly when the type has no type parameters |
| Generics.DefIsUseWithoutBounds | processor/src/main/java/org/robolectric/annotation/processing/RobolectricModel.java:336-338 | without explicit bounds the declared parameters read as the used ones |
| Generics.BoundsClauseShape | processor/src/main/java/org/robolectric/annotation/processing/RobolectricModel.java:339-344 | a bounds clause is empty exactly when there are no explicit bounds, and otherwise begins with ` extends ` |
| Infos.ShadowInfo.constructor | processor/src/main/java/org/robolectric/annotation/processing/RobolectricModel.java:321-324 | a binding holds its shadow and actual class, and its derived strings are not yet set |
| Infos.ShadowInfo.Prepare | processor/src/main/java/org/robolectric/annotation/processing/RobolectricModel.java:326-361 | `prepare` sets the parameter strings, the two referents, the actual class's package and the shadow's binary name for the given referents |
| Infos.ShadowInfo.WithParams | processor/src/main/java/org/robolectric/annotation/processing/RobolectricModel.java:391-397 | once prepared, the actual and shadow class with parameters read as their referents followed by the bracketed parameter names, or by nothing |
| Infos.ResetterInfo.constructor | processor/src/main/java/org/robolectric/annotation/processing/RobolectricModel.java:410-413 | a resetter holds its shadow class and reset method, and its referent is not yet set |
| Infos.ResetterInfo.Prepare | processor/src/main/java/org/robolectric/annotation/processing/RobolectricModel.java:415-417 | `prepare` sets the referent to what the referents hold for the shadow class |
| Infos.ResetterInfo.CallAfterPrepare | processor/src/main/java/org/robolectric/annotation/processing/RobolectricModel.java:423-425 | once prepared, the reset call is the shadow class's referent, a dot, the method name and `();` |
| Model.RegisterOne | processor/src/main/java/org/robolectric/annotation/processing/RobolectricModel.java:239-241 | a new type goes into the bucket of its simple name, is mapped to itself, and starts its registration |
| Model.VisibleShadowTypes | processor/src/main/java/org/robolectric/annotation/processing/RobolectricModel.java:233-236 | the bindings yielded are exactly those whose shadow is in the Android SDK |
| Model.ResetterShadowTypes | processor/src/main/java/org/robolectric/annotation/processing/RobolectricModel.java:228-231 | the bindings yielded are exactly those whose shadow class has a resetter |
| Model.VisibleInOrder | processor/src/main/java/org/robolectric/annotation/processing/RobolectricModel.java:233-236 | filtering a table sorted by shadow class name keeps the bindings in shadow-name order |
| Model.ResettersInOrder | processor/src/main/java/org/robolectric/annotation/processing/RobolectricModel.java:228-231 | filtering a table sorted by shadow class name by resetter keeps the bindings in shadow-name order |
| Model.ShadowRoots | processor/src/main/java/org/robolectric/annotation/processing/RobolectricModel.java:152-156 | the first registration loop starts from exactly the shadow and actual classes of the bindings |
| Model.ShadowNames | processor/src/main/java/org/robolectric/annotation/processing/RobolectricModel.java:158-160 | the second registration loop starts from exactly the shadow classes of the bindings |
| Model.RegisteredResolves | processor/src/main/java/org/robolectric/annotation/processing/RobolectricModel.java:152-193 | after registration the rounds can start, from the registered types each mapped to itself, and end with a referent for every registered type |
| Model.ImportablesAdd | processor/src/main/java/org/robolectric/annotation/processing/RobolectricModel.java:198-203 | one more import-map value adds itself to the imports exactly when it is public and not in `java.lang` |
| Model.Builder.constructor | processor/src/main/java/org/robolectric/annotation/processing/RobolectricModel.java:88-90 | a builder starts over its environment with every table and map empty |
| Model.Builder.AddShadowType | processor/src/main/java/org/robolectric/annotation/processing/RobolectricModel.java:92-95 | a new binding of the shadow and actual class is stored under the shadow's qualified name, replacing only an earlier binding of that name |
| Model.Builder.AddExtraShadow | processor/src/main/java/org/robolectric/annotation/processing/RobolectricModel.java:97-99 | the shadow class name maps to the SDK class name; other entries are unchanged |
| Model.Builder.AddResetter | processor/src/main/java/org/robolectric/annotation/processing/RobolectricModel.java:101-104 | a new resetter is stored under the shadow's qualified name, replacing only an earlier one of that name |
| Model.Builder.GetDocumentedPackage | processor/src/main/java/org/robolectric/annotation/processing/RobolectricModel.java:121-128 | the package under the name is returned, created and recorded first when there is none, and nothing changes when there is one |
| Model.Builder.GetDocumentedType | processor/src/main/java/org/robolectric/annotation/processing/RobolectricModel.java:130-138 | the package named by the enclosing element is got or created, and in it the type under its qualified name |
| Model.Builder.DocumentPackage | processor/src/main/java/org/robolectric/annotation/processing/RobolectricModel.java:106-108 | the packages become `PackageDocumented` of the old ones |
| Model.Builder.DocumentType | processor/src/main/java/org/robolectric/annotation/processing/RobolectricModel.java:110-114 | the packages become `TypeDocumented` of the old ones, under the package of the type's enclosing element |
| Model.Builder.DocumentMethod | processor/src/main/java/org/robolectric/annotation/processing/RobolectricModel.java:116-119 | the packages become `MethodDocumented` of the old ones, under the package of the class's enclosing element |
| Model.Builder.RegisterType | processor/src/main/java/org/robolectric/annotation/processing/RobolectricModel.java:238-251 | an already registered type changes nothing; otherwise exactly the least bound-closed set of new types reaching it is added, each mapped to itself and bucketed by simple name, and earlier entries stay |
| Model.Builder.RegisterBounds | processor/src/main/java/org/robolectric/annotation/processing/RobolectricModel.java:243-248 | after the inner loop every bound of the type parameter is registered and the registration in progress stays least |
| Model.Builder.RunRound | processor/src/main/java/org/robolectric/annotation/processing/RobolectricModel.java:163-192 | one pass of the loop body over all buckets, in any order, turns the state into `Round` of the old one |
| Model.Builder.RunBucket | processor/src/main/java/org/robolectric/annotation/processing/RobolectricModel.java:164-190 | handling one bucket handles its types by their round rule |
| Model.Builder.NameAlone | processor/src/main/java/org/robolectric/annotation/processing/RobolectricModel.java:168-170 | the only type of a bucket gets the key as referent |
| Model.Builder.RunCollisions | processor/src/main/java/org/robolectric/annotation/processing/RobolectricModel.java:171-190 | the loop over a colliding bucket, in any order, handles each of its types by its round rule |
| Model.Builder.RunMember | processor/src/main/java/org/robolectric/annotation/processing/RobolectricModel.java:173-188 | the visitor applied to the import owner's enclosing element handles the type by its round rule |
| Model.Builder.Defer | processor/src/main/java/org/robolectric/annotation/processing/RobolectricModel.java:174-179 | a type whose owner is nested goes under `Outer.Simple` in the next round and is imported through the outer type |
| Model.Builder.Qualify | processor/src/main/java/org/robolectric/annotation/processing/RobolectricModel.java:181-186 | a type whose owner is top-level gets its qualified name as referent and leaves the import map |
| Model.Builder.RegisterRoot | processor/src/main/java/org/robolectric/annotation/processing/RobolectricModel.java:153 | registering one more root extends the registration of the roots so far |
| Model.Builder.RegisterEach | processor/src/main/java/org/robolectric/annotation/processing/RobolectricModel.java:152-156 | one registration loop adds the registration of the shadow classes of the bindings, and of the actual classes too when asked |
| Model.Builder.RegisterRoots | processor/src/main/java/org/robolectric/annotation/processing/RobolectricModel.java:152-160 | the two registration loops register exactly the least bound-closed set of new types reaching the roots, each mapped to itself and bucketed, ready for rounds that name all of them |
| Model.Builder.ResolveAll | processor/src/main/java/org/robolectric/annotation/processing/RobolectricModel.java:162-193 | the `while` loop runs rounds until no type competes, ending in `Resolve` of the state it started from |
| Model.Builder.AddImport | processor/src/main/java/org/robolectric/annotation/processing/RobolectricModel.java:199-202 | an import owner is added exactly when it is public and not in `java.lang` |
| Model.Builder.AddFixedImports | processor/src/main/java/org/robolectric/annotation/processing/RobolectricModel.java:206-210 | exactly the five fixed imports are added, keeping the set sorted |
| Model.Builder.CollectImports | processor/src/main/java/org/robolectric/annotation/processing/RobolectricModel.java:198-210 | the imports become the old ones, the public import owners outside `java.lang` and the five fixed ones, sorted without repeats |
| Model.Builder.PrepareInfos | processor/src/main/java/org/robolectric/annotation/processing/RobolectricModel.java:224-225 | every binding and every resetter is prepared for the final referents |
| Model.Builder.PrepareShadows | processor/src/main/java/org/robolectric/annotation/processing/RobolectricModel.java:224 | every binding, in shadow-name order, carries the strings for the final referents, and the builder's own fields stay as they were |
| Model.Builder.PrepareResetters | processor/src/main/java/org/robolectric/annotation/processing/RobolectricModel.java:225 | every resetter carries the reset call for the final referents, and the builder's own fields stay as they were |
| Model.Builder.RegisterAndResolve | processor/src/main/java/org/robolectric/annotation/processing/RobolectricModel.java:152-193 | after registration and the rounds, every registered type has a referent, and on a first preparation so has every root |
| Model.Builder.Prepare | processor/src/main/java/org/robolectric/annotation/processing/RobolectricModel.java:151-226 | registration, rounds, imports and derived strings as above, from whatever state the builder was in |
| Model.Builder.NewModel | processor/src/main/java/org/robolectric/annotation/processing/RobolectricModel.java:143-144 | the new model holds the builder's sorted tables and the fixed imports |
| Model.Builder.Build | processor/src/main/java/org/robolectric/annotation/processing/RobolectricModel.java:140-145 | `build` prepares, then hands the prepared tables to a new model |
| Model.RobolectricModel.constructor | processor/src/main/java/org/robolectric/annotation/processing/RobolectricModel.java:53-63 | the model holds copies of the tables it is given |
| Model.RobolectricModel.Imports | processor/src/main/java/org/robolectric/annotation/processing/RobolectricModel.java:265-267 | the imports are sorted, without repeats, and hold the five fixed imports |
| Model.RobolectricModel.AllShadowTypes | processor/src/main/java/org/robolectric/annotation/processing/RobolectricModel.java:269-271 | one binding per shadow class, in shadow-name order |
| Model.RobolectricModel.Resetters | processor/src/main/java/org/robolectric/annotation/processing/RobolectricModel.java:261-263 | one resetter per shadow class, in shadow-name order, including resetters whose class has no binding |
| Model.RobolectricModel.ShadowedPackages | processor/src/main/java/org/robolectric/annotation/processing/RobolectricModel.java:282-295 | the actual classes' packages, each in double quotes, sorted and without repeats, leaving out exactly those that fully match `org.robolectric(\..*)?` |
| Model.ReservedExamples | processor/src/main/java/org/robolectric/annotation/processing/RobolectricModel.java:288 | the pattern drops `org.robolectric`, its subpackages and `orgXrobolectric` (its first dot matches any character), and keeps `org.robolectricx` and `android.app` |
| Model.QuotedInverse | processor/src/main/java/org/robolectric/annotation/processing/RobolectricModel.java:292 | quoting a package name can be undone, so different packages give different entries |

## Left out

- Uniqueness of referents is not proved, although the comment at lines 301-306 promises a referent unique in the generated file. What is proved: within one round, two types named by bucket keys get different referents (`ResolveFacts.RoundNamesDistinct`), and in the first round a type whose simple name no other registered type shares is named by that bare name (`ResolveFacts.FirstRound`). Distinctness from the qualified names given in the same round is not proved, and neither is distinctness across rounds. The source does not give it:
  - Nesting depth 2 is enough. `p.I` (top-level in package `p`) and `q.p.I` (a member of a class `p` in package `q`) share the bucket `I` in the first round. `p.I` is qualified as `p.I` (line 183). `q.p.I` moves to the key `p.I` (line 176) and, alone there in the second round, is named `p.I` too.
  - From depth 3, the re-key at line 176 joins only the outer type's simple name to the type's own, dropping the levels in between. `r.X.I` can be named `X.I` in the second round, while `p.X.A.I` moves to `A.I` and then to `X.I`, and is named `X.I` in the third round.
- No two imports are proved to have different simple names. Given the gap above, the source does not guarantee it.
- Java's `HashMultimap` and `HashMap` iteration orders are not modelled. Each loop over them takes its elements in an arbitrary order (`:|`), and the round loop is proved correct for every order.
- `String.compareTo` compares UTF-16 code units, while `Sorted.Below` compares Dafny characters (Unicode scalar values). The two orders differ only for characters outside the Basic Multilingual Plane.
- `ProcessingEnvironment` is replaced by the map `Env` of declarations.
- `Helpers.getPackageOf` and `Helpers.getBinaryName` are not part of this model. They are the functions `Elements.PackageOf` and `Elements.BinaryName` (binary names as in section 13.1 of the Java Language Specification).
- `Helpers.getExplicitBounds` is not part of this model either; its result is the field `explicitBounds` of a type parameter.
- Registration walks `getBounds()`, the field `bounds`, which includes the implicit `java.lang.Object` when nothing is declared.
- A bound that is a type variable makes the source's `typeElementVisitor` return null, and `registerType(null)` would fail. `WellFormed` therefore requires every bound to be a declared type.
- Local and anonymous classes, whose enclosing element is a method, are not modelled. `Elements.Scope` is a package or a type.
- The `java.lang` package element looked up at line 196 is taken to exist. The comparison at line 200 is modelled as comparing the enclosing element with the package named `java.lang`.
- Annotation reads (`@Implements` `isInAndroidSdk`, `minSdk` and `maxSdk`; `@Deprecated`) are fields of `Elements.TypeDecl`.
- A resetter's `ExecutableElement` is reduced to its simple name.
- The derived strings of a binding or resetter are null in Java until `prepare` runs. The model uses the empty string for that null.
- A type with no referent reads as `null` in the generated text, because Java string concatenation prints a null that way (`Generics.RefText`).
- `DocumentedPackage`, `DocumentedType` and `DocumentedMethod` are defined outside RobolectricModel.java, and they are values in maps here. `getDocumentedPackage` and `getDocumentedType` return the value they got or created, and the callers write the changed value back. Aliasing of the returned Java object is not modelled; the resulting tables are the same.
- `getDocumentedPackages` (lines 49-51) and `getExtraShadowTypes` (lines 273-275) hand out a table as it is. The model exposes the constant fields `documentedPackages` and `extraShadowTypes` instead.
- `getShadowBinaryName`, `getParamDefStr` and `getActualPackage` (lines 367-369, 379-381, 399-401) are reads of `ShadowInfo`'s fields. They have no member of their own.
- `Infos.ShadowInfo.ShadowName`, `ActualName`, `IsInAndroidSdk`, `ShadowIsDeprecated` and `ActualIsPublic` (lines 363-389), and `Infos.ResetterInfo.MinSdk` and `MaxSdk` (lines 427-433), are one-line reads of a name, modifier or annotation value of the element. They have no contract and no row, since the source promises nothing beyond the read.
- `Model.VisibleShadowTypes` stands for both `Builder.getVisibleShadowTypes` (lines 233-236) and `RobolectricModel.getVisibleShadowTypes` (lines 277-280), which filter the same table the same way.
- The source has no build-once guard, so `Model.Builder.Prepare` is stated for any starting state. On a second preparation, a type still in the import map from the first is not registered again. That covers the types named by a bucket key and the types imported through an outer type. A type qualified in the first preparation was removed from the import map at line 184, so line 239 registers it again. The model does the same. Its contract guarantees referents to the types registered in the current preparation, and to every root only on a first preparation.
