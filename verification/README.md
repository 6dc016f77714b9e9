# Dependency-alignment configuration state

A Dafny model of `DependencyState`, the configuration snapshot that POM
Manipulation Extension builds once per build from the user properties (the
`-D` options). The constructor reads four boolean flags, each with its own
default. It parses the `dependencyManagement` value into a list of
group:artifact:version references and starts an empty map of
version-property updates. `isEnabled()` says whether dependency alignment has
anything to do.

The model is functional. `ManipState.Construct` maps a `map<string, string>`
of properties to an immutable `DependencyState` datatype. The getters are
member functions of that datatype, so in the model nothing can change a flag
or the list after construction (in Java the list and the update map are
mutable objects handed out by their getters; see "## Left out"). Java `null` is `Option.None`.

Files:
- `wrappers.dfy`: the `Option` datatype.
- `jdk.dfy`: the Java platform routines the constructor calls. These are `Properties.getProperty` with and without a default, `String.equalsIgnoreCase` through `regionMatches`, and `Boolean.valueOf(String)`.
- `dependency_state.dfy`: the property keys (three are named constants of the class, `overrideTransitive` and `overrideDependencies` are literals in its constructor), the state datatype, the constructor, and the lemmas about defaults, flag parsing, key locality and `isEnabled()`.

`IdUtils.parseGAVs` is not part of this model. `Construct` takes it as a
parameter of type `GavParser`. Nothing is assumed about its format or what
it does with null; being a Dafny function, it always returns a value.

## Model

| member | source | states |
|---|---|---|
| `Jdk.GetProperty` | core/src/main/java/org/commonjava/maven/ext/manip/state/DependencyState.java:95 | `getProperty(key)` is non-null exactly when the key is present, and then it is the stored value. |
| `Jdk.GetPropertyOr` | core/src/main/java/org/commonjava/maven/ext/manip/state/DependencyState.java:90-93 | `getProperty(key, default)` is the stored value when the key is present and the default otherwise. |
| `Jdk.CharEqualsIgnoreCaseIsLowerEquality` | core/src/main/java/org/commonjava/maven/ext/manip/state/DependencyState.java:90-93 | Under ASCII case mapping, the per-character test of `regionMatches` (equal, equal upper case, or equal lower case of upper case) holds exactly when the lower-case forms agree. |
| `Jdk.RegionMatchesIgnoreCase` | core/src/main/java/org/commonjava/maven/ext/manip/state/DependencyState.java:90-93 | The case-insensitive region comparison behind `Boolean.valueOf` holds exactly when the lower-case forms agree at every position. |
| `Jdk.EqualsIgnoreCase` | core/src/main/java/org/commonjava/maven/ext/manip/state/DependencyState.java:90-93 | `equalsIgnoreCase` is false for null; otherwise it is true exactly when the two strings have the same lower-case form. |
| `Jdk.BooleanValueOf` | core/src/main/java/org/commonjava/maven/ext/manip/state/DependencyState.java:90-93 | `Boolean.valueOf` is true exactly for a non-null string equal to "true" ignoring case. |
| `Jdk.TrueSpellings` | core/src/main/java/org/commonjava/maven/ext/manip/state/DependencyState.java:90-93 | The strings accepted as true are exactly the four-character strings spelling t, r, u, e, each letter in either case. |
| `Jdk.BooleanValueOfExamples` | core/src/main/java/org/commonjava/maven/ext/manip/state/DependencyState.java:90-93 | "true", "TRUE" and "True" give true; "false", "yes", "1", "", " true" and null give false. |
| `ManipState.DependencyState.IsEnabled` | core/src/main/java/org/commonjava/maven/ext/manip/state/DependencyState.java:104-107 | Enabled exactly when the list is non-null and holds at least one reference. |
| `ManipState.Construct` | core/src/main/java/org/commonjava/maven/ext/manip/state/DependencyState.java:83-144 | Read through the getters of the constructed state: each override flag is true when its key is absent, and otherwise true exactly for a value equal to "true" ignoring case. Each strict flag is false when absent, with the same rule when present. The list is the parser's result for the `dependencyManagement` value, or for null when that key is absent. The update map starts empty. |
| `ManipState.FlagDefaultWhenAbsent` | core/src/main/java/org/commonjava/maven/ext/manip/state/DependencyState.java:90-93 | With its key absent, `overrideTransitive` and `overrideDependencies` read true, and `strictAlignment` and `strictViolationFails` read false. |
| `ManipState.FlagWhenPresent` | core/src/main/java/org/commonjava/maven/ext/manip/state/DependencyState.java:90-93 | With its key present, a flag is true exactly when the value spells "true" in some casing, whatever the flag's default. |
| `ManipState.PresentNonTrueValueIsFalse` | core/src/main/java/org/commonjava/maven/ext/manip/state/DependencyState.java:90-93 | A present value of "", "yes", "1" or "false" makes the flag false, even for the flags that default to true. |
| `ManipState.UpperCaseTrueIsTrue` | core/src/main/java/org/commonjava/maven/ext/manip/state/DependencyState.java:90-93 | A present value of "TRUE", "True" or "true" makes the flag true, even for the flags that default to false. |
| `ManipState.FlagDependsOnlyOnItsKey` | core/src/main/java/org/commonjava/maven/ext/manip/state/DependencyState.java:90-95 | Two property tables that agree on a flag's key give the same flag value, whatever their other keys and whichever parser is used. |
| `ManipState.OtherKeysDoNotAffectFlag` | core/src/main/java/org/commonjava/maven/ext/manip/state/DependencyState.java:90-95 | Setting or removing any other key, `dependencyManagement` included, leaves a flag unchanged. |
| `ManipState.DepMgmtDependsOnlyOnItsKey` | core/src/main/java/org/commonjava/maven/ext/manip/state/DependencyState.java:95-107 | The list and `isEnabled()` depend only on the `dependencyManagement` value. |
| `ManipState.EnabledIffSomeReferenceParsed` | core/src/main/java/org/commonjava/maven/ext/manip/state/DependencyState.java:95-107 | A constructed state is enabled exactly when the parser returns a list containing some reference. A null result counts as no references. |
| `ManipState.DisabledWithoutDependencyManagement` | core/src/main/java/org/commonjava/maven/ext/manip/state/DependencyState.java:95-107 | Without a `dependencyManagement` key, the state is disabled if the parser maps null to null or to the empty list. |
| `ManipState.EmptyPropertiesGiveDefaults` | core/src/main/java/org/commonjava/maven/ext/manip/state/DependencyState.java:83-96 | Empty properties give both overrides on, both strict checks off, the parser's result for null, and no recorded updates. |

## Left out

- `IdUtils.parseGAVs` and `ProjectVersionRef` internals are not part of this model. The parser is a parameter, and references are plain triples.
- The strict version-matching rule (`1.1` matches `1.1-rebuild-1`, `1.2` does not) appears here only as documentation of the `strictAlignment` key. Its implementation in `DependencyManipulator` is not part of this model.
- Writes to the returned `versionPropertyUpdateMap` are left out. They happen in callers outside this class, through the mutable `HashMap` the getter hands out. The model only states that the map starts empty.
- Writes through the list returned by `getRemoteDepMgmt()` are left out, and so is their effect on later `isEnabled()` calls, which re-read that list. Whether the list is mutable depends on `IdUtils.parseGAVs`, which is not part of this model; here it is an immutable sequence.
- Concurrency around that shared map is left out.
- `ManipState.Construct`: the parser is total here. A throwing `parseGAVs`, or a null `userProps` (a NullPointerException at the first `getProperty`), aborts the Java constructor so that no state is built; neither error path is modelled.
- `VersionPropertyFormat` and `DEPENDENCY_EXCLUSION_PREFIX` are left out. They are declared, but no logic in this class uses them.
- `Properties` is modelled as a flat string-to-string map. The chained default table and non-`String` values, which `getProperty` reports as null, are not modelled.
- `Jdk.RegionMatchesIgnoreCase`, `Jdk.EqualsIgnoreCase`: case mapping is ASCII only, not Java's full Unicode `Character.toUpperCase`/`toLowerCase`. This is exact for the one use here, comparison against the literal "true". No other character maps onto t, r, u or e.
- The JSON operation-string parser (`JSONState`) and the path patcher (`JSONManipulator`) are left out; their sources are not part of this model.
- `JSONManipulatorTest` is left out. Lines 53-93 drive file copies, temporary folders and a JSONPath library through `JSONManipulator`. Lines 95-113 build `JSONState` from in-memory properties, but only check that it rejects one operation string and accepts another, which is too little to reconstruct its escape grammar.
