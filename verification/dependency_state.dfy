/**
 The dependency-alignment configuration snapshot (`DependencyState`): a flat
 table of user properties turned, once, into four boolean flags, the parsed
 list of dependency-management references and an initially empty map of
 version-property updates.
 */
module ManipState {
  import opened Wrappers
  import opened Jdk

  /** Property keys read by the constructor. The first two are string literals in the class, not named constants. */
  const OVERRIDE_TRANSITIVE: string := "overrideTransitive"
  const OVERRIDE_DEPENDENCIES: string := "overrideDependencies"
  const STRICT_DEPENDENCIES: string := "strictAlignment"
  const STRICT_VIOLATION_FAILS: string := "strictViolationFails"
  const DEPENDENCY_MANAGEMENT_POM_PROPERTY: string := "dependencyManagement"

  /** A group:artifact:version coordinate; its parsing is not part of this model. */
  datatype ProjectVersionRef = ProjectVersionRef(groupId: string, artifactId: string, version: string)

  /**
   `IdUtils.parseGAVs`: maps the (possibly null) property value to a (possibly
   null) list of references. Its source is not part of this model, so the
   constructor takes it as a parameter and nothing is assumed about it.
   */
  type GavParser = Option<string> -> Option<seq<ProjectVersionRef>>

  /** The references a parsed list holds; a null list holds none. */
  function ReferencesOf(parsed: Option<seq<ProjectVersionRef>>): seq<ProjectVersionRef> {
    match parsed
    case Some(refs) => refs
    case None => []
  }

  datatype DependencyState = DependencyState(
    depMgmt: Option<seq<ProjectVersionRef>>,
    overrideTransitive: bool,
    overrideDependencies: bool,
    strict: bool,
    failOnStrictViolation: bool,
    /** Old property name to new version; written by the alignment phase, never here. */
    versionPropertyUpdateMap: map<string, string>)
  {
    /** Enabled only when a non-null, non-empty dependency-management list was given. */
    predicate IsEnabled()
      ensures IsEnabled() <==> exists ref :: depMgmt.Some? && ref in depMgmt.value
    {
      match depMgmt
      case None => false
      case Some(refs) =>
        assert refs != [] ==> refs[0] in refs;
        refs != []
    }

    function GetOverrideTransitive(): bool { overrideTransitive }

    function GetOverrideDependencies(): bool { overrideDependencies }

    function GetRemoteDepMgmt(): Option<seq<ProjectVersionRef>> { depMgmt }

    function GetStrict(): bool { strict }

    function GetVersionPropertyUpdateMap(): map<string, string> { versionPropertyUpdateMap }

    function GetFailOnStrictViolation(): bool { failOnStrictViolation }
  }

  /**
   The constructor `DependencyState(Properties)`. Each flag is read with its own
   default and parsed by `Boolean.valueOf`, so a present key is true only when
   its value is "true" in some casing (a present empty value is false, even for
   the keys that default to true); the list is the parser's result for the
   `dependencyManagement` value, or the parser's result for null when the key
   is absent.
   */
  function Construct(userProps: map<string, string>, parseGavs: GavParser): (s: DependencyState)
    ensures s.GetOverrideTransitive() <==>
              OVERRIDE_TRANSITIVE !in userProps || IsTrueIgnoringCase(userProps[OVERRIDE_TRANSITIVE])
    ensures s.GetOverrideDependencies() <==>
              OVERRIDE_DEPENDENCIES !in userProps || IsTrueIgnoringCase(userProps[OVERRIDE_DEPENDENCIES])
    ensures s.GetStrict() <==>
              STRICT_DEPENDENCIES in userProps && IsTrueIgnoringCase(userProps[STRICT_DEPENDENCIES])
    ensures s.GetFailOnStrictViolation() <==>
              STRICT_VIOLATION_FAILS in userProps && IsTrueIgnoringCase(userProps[STRICT_VIOLATION_FAILS])
    ensures DEPENDENCY_MANAGEMENT_POM_PROPERTY in userProps ==>
              s.GetRemoteDepMgmt() == parseGavs(Some(userProps[DEPENDENCY_MANAGEMENT_POM_PROPERTY]))
    ensures DEPENDENCY_MANAGEMENT_POM_PROPERTY !in userProps ==>
              s.GetRemoteDepMgmt() == parseGavs(None)
    ensures s.GetVersionPropertyUpdateMap() == map[]
  {
    assert IsTrueIgnoringCase("true") && !IsTrueIgnoringCase("false") by {
      TrueSpellings("true");
      TrueSpellings("false");
    }
    DependencyState(
      depMgmt := parseGavs(GetProperty(userProps, DEPENDENCY_MANAGEMENT_POM_PROPERTY)),
      overrideTransitive := BooleanValueOf(Some(GetPropertyOr(userProps, OVERRIDE_TRANSITIVE, "true"))),
      overrideDependencies := BooleanValueOf(Some(GetPropertyOr(userProps, OVERRIDE_DEPENDENCIES, "true"))),
      strict := BooleanValueOf(Some(GetPropertyOr(userProps, STRICT_DEPENDENCIES, "false"))),
      failOnStrictViolation := BooleanValueOf(Some(GetPropertyOr(userProps, STRICT_VIOLATION_FAILS, "false"))),
      versionPropertyUpdateMap := map[])
  }

  /** The four flags, so that facts common to all of them can be stated once. */
  datatype Flag = OverrideTransitive | OverrideDependencies | Strict | FailOnStrictViolation

  /** The property key each flag is read from. */
  function FlagKey(f: Flag): string {
    match f
    case OverrideTransitive => OVERRIDE_TRANSITIVE
    case OverrideDependencies => OVERRIDE_DEPENDENCIES
    case Strict => STRICT_DEPENDENCIES
    case FailOnStrictViolation => STRICT_VIOLATION_FAILS
  }

  /** The value a flag takes when its key is absent. */
  function FlagDefault(f: Flag): bool {
    f == OverrideTransitive || f == OverrideDependencies
  }

  /** The getter that reports a flag. */
  function FlagValue(s: DependencyState, f: Flag): bool {
    match f
    case OverrideTransitive => s.GetOverrideTransitive()
    case OverrideDependencies => s.GetOverrideDependencies()
    case Strict => s.GetStrict()
    case FailOnStrictViolation => s.GetFailOnStrictViolation()
  }

  /** With its key absent, a flag takes its default: true for the two override flags, false for the strict ones. */
  lemma {:induction false} FlagDefaultWhenAbsent(userProps: map<string, string>, parseGavs: GavParser, f: Flag)
    requires FlagKey(f) !in userProps
    ensures FlagValue(Construct(userProps, parseGavs), f) == FlagDefault(f)
    ensures f == OverrideTransitive || f == OverrideDependencies ==> FlagValue(Construct(userProps, parseGavs), f)
    ensures f == Strict || f == FailOnStrictViolation ==> !FlagValue(Construct(userProps, parseGavs), f)
  {
  }

  /** With its key present, a flag is true exactly for the spellings of "true", whatever its default. */
  lemma {:induction false} FlagWhenPresent(userProps: map<string, string>, parseGavs: GavParser, f: Flag)
    requires FlagKey(f) in userProps
    ensures FlagValue(Construct(userProps, parseGavs), f) <==>
              SpellsTrue(userProps[FlagKey(f)])
  {
    TrueSpellings(userProps[FlagKey(f)]);
  }

  /** A present but empty (or otherwise non-"true") value turns even a default-true flag off. */
  lemma PresentNonTrueValueIsFalse(userProps: map<string, string>, parseGavs: GavParser, f: Flag)
    requires FlagKey(f) in userProps
    requires userProps[FlagKey(f)] in ["", "yes", "1", "false"]
    ensures !FlagValue(Construct(userProps, parseGavs), f)
  {
    FlagWhenPresent(userProps, parseGavs, f);
  }

  /** Any casing of "true" turns even a default-false flag on. */
  lemma UpperCaseTrueIsTrue(userProps: map<string, string>, parseGavs: GavParser, f: Flag)
    requires FlagKey(f) in userProps
    requires userProps[FlagKey(f)] in ["TRUE", "True", "true"]
    ensures FlagValue(Construct(userProps, parseGavs), f)
  {
    FlagWhenPresent(userProps, parseGavs, f);
  }

  /**
   Each flag depends only on its own key: two property tables that agree on
   that key give the same flag, whatever else they hold (the list's key
   included) and whichever parser is used.
   */
  lemma {:induction false} FlagDependsOnlyOnItsKey(p1: map<string, string>, p2: map<string, string>,
                                                   parse1: GavParser, parse2: GavParser, f: Flag)
    requires GetProperty(p1, FlagKey(f)) == GetProperty(p2, FlagKey(f))
    ensures FlagValue(Construct(p1, parse1), f) == FlagValue(Construct(p2, parse2), f)
  {
  }

  /** Setting or removing any other key, `dependencyManagement` included, leaves a flag unchanged. */
  lemma {:induction false} OtherKeysDoNotAffectFlag(userProps: map<string, string>, parseGavs: GavParser,
                                                    f: Flag, key: string, value: string)
    requires key != FlagKey(f)
    ensures FlagValue(Construct(userProps[key := value], parseGavs), f) == FlagValue(Construct(userProps, parseGavs), f)
    ensures FlagValue(Construct(userProps - {key}, parseGavs), f) == FlagValue(Construct(userProps, parseGavs), f)
  {
    FlagDependsOnlyOnItsKey(userProps[key := value], userProps, parseGavs, parseGavs, f);
    FlagDependsOnlyOnItsKey(userProps - {key}, userProps, parseGavs, parseGavs, f);
  }

  /** The list depends only on the `dependencyManagement` value; the flag keys do not reach it. */
  lemma {:induction false} DepMgmtDependsOnlyOnItsKey(p1: map<string, string>, p2: map<string, string>,
                                                      parseGavs: GavParser)
    requires GetProperty(p1, DEPENDENCY_MANAGEMENT_POM_PROPERTY) == GetProperty(p2, DEPENDENCY_MANAGEMENT_POM_PROPERTY)
    ensures Construct(p1, parseGavs).GetRemoteDepMgmt() == Construct(p2, parseGavs).GetRemoteDepMgmt()
    ensures Construct(p1, parseGavs).IsEnabled() == Construct(p2, parseGavs).IsEnabled()
  {
  }

  /**
   The constructed state is enabled exactly when the parser returned a list
   holding at least one reference for the `dependencyManagement` value.
   */
  lemma {:induction false} EnabledIffSomeReferenceParsed(userProps: map<string, string>, parseGavs: GavParser)
    ensures Construct(userProps, parseGavs).IsEnabled() <==>
              exists ref :: ref in ReferencesOf(parseGavs(GetProperty(userProps, DEPENDENCY_MANAGEMENT_POM_PROPERTY)))
  {
    var parsed := parseGavs(GetProperty(userProps, DEPENDENCY_MANAGEMENT_POM_PROPERTY));
    assert Construct(userProps, parseGavs).depMgmt == parsed;
    match parsed
    case None =>
      assert ReferencesOf(parsed) == [];
    case Some(refs) =>
      assert ReferencesOf(parsed) == refs;
  }

  /**
   The class documentation's "enabled only if dependency management is
   provided", under the stated hypothesis about the parser: without a
   `dependencyManagement` key the state is disabled whenever the parser maps
   null to null or to the empty list.
   */
  lemma DisabledWithoutDependencyManagement(userProps: map<string, string>, parseGavs: GavParser)
    requires DEPENDENCY_MANAGEMENT_POM_PROPERTY !in userProps
    requires parseGavs(None) == None || parseGavs(None) == Some([])
    ensures !Construct(userProps, parseGavs).IsEnabled()
  {
  }

  /** An empty property table gives the documented defaults: overrides on, strict checks off, list from null. */
  lemma EmptyPropertiesGiveDefaults(parseGavs: GavParser)
    ensures var s := Construct(map[], parseGavs);
            && s.GetOverrideTransitive()
            && s.GetOverrideDependencies()
            && !s.GetStrict()
            && !s.GetFailOnStrictViolation()
            && s.GetRemoteDepMgmt() == parseGavs(None)
            && s.GetVersionPropertyUpdateMap() == map[]
  {
  }
}
