/** The `plan` command of the iac CLI: reading the required `--resource`
    setting, guarding on the resource file's existence, and deriving the
    name of the plan file from the resource path and the current time.

    Reading the clock, checking the file system and writing the plan are
    not computed here: the timestamp is an input string, the existence
    check is a function given by the caller, and `CreatePlan` is recorded
    as a call in a trace because the command ignores its result. */
module Plan {
  import opened Wrappers
  import opened Text
  import Rfc3339

  /** The only resource extension the name derivation strips. */
  const ResourceExtension := ".yaml"

  /** Fixed tail of every plan file name. */
  const PlanSuffix := ".plan.sw.json"

  /** Separates the resource base from the timestamp. */
  const Separator := '_'

  /** The settings of one `plan` run (`CreatePlanConfig`). */
  datatype PlanConfig = PlanConfig(resourceName: string)

  /** The errors the command produces. */
  datatype PlanError =
    | ResourceNotFound(resource: string)
    | MissingFlag(flag: string)
    | InitializingConfig(cause: PlanError)

  /** What `common.CheckIfPathExists` answers: a flag and a possible error. */
  datatype PathCheck = PathCheck(present: bool, err: Option<string>)

  /** A call the command makes to code outside this model. */
  datatype Call = CheckPath(path: string) | CreatePlan(planName: string)

  /** The command's returned error together with the calls it made, in order. */
  datatype Run = Run(outcome: Outcome<PlanError>, calls: seq<Call>)

  // ---------------------------------------------------------------------
  // Error messages

  const NotFoundLead := "resource file with name \""
  const NotFoundTail := "\" not found"
  const MissingFlagLead := "missing required flag: --"
  const InitializingLead := "initializing create config: "

  /** The text `Error()` gives for each error, as the `fmt.Errorf` formats
      write it (`%w` appends the wrapped error's text). */
  function Message(e: PlanError): string {
    match e
    case ResourceNotFound(r) => NotFoundLead + r + NotFoundTail
    case MissingFlag(f) => MissingFlagLead + f
    case InitializingConfig(c) => InitializingLead + Message(c)
  }

  /** The not-found diagnostic names the resource verbatim, between quotes. */
  lemma NotFoundNamesResource(r: string)
    ensures var m := Message(ResourceNotFound(r));
      && |m| == |r| + |NotFoundLead| + |NotFoundTail|
      && m[|NotFoundLead|..|NotFoundLead| + |r|] == r
      && m[|NotFoundLead| - 1] == '"' && m[|NotFoundLead| + |r|] == '"'
  {
  }

  /** The not-found error for one resource, as `generatePlan` words it. */
  lemma NotFoundText()
    ensures Message(ResourceNotFound("web.iac.yaml"))
         == "resource file with name \"web.iac.yaml\" not found"
  {
    assert Message(ResourceNotFound("web.iac.yaml")) == NotFoundLead + "web.iac.yaml" + NotFoundTail;
  }

  /** The missing-flag error, as `createPlanConfig` words it. */
  lemma MissingFlagText()
    ensures Message(MissingFlag("resource")) == "missing required flag: --resource"
  {
    assert Message(MissingFlag("resource")) == MissingFlagLead + "resource";
  }

  /** The missing-flag error after `runPlan` wraps it with `%w`. */
  lemma WrappedMissingFlagText()
    ensures Message(InitializingConfig(MissingFlag("resource")))
         == "initializing create config: missing required flag: --resource"
  {
    MissingFlagText();
    var inner := "missing required flag: --resource";
    assert Message(InitializingConfig(MissingFlag("resource"))) == InitializingLead + inner;
  }

  /** The three diagnostics a user can see, spelled out: the not-found
      error, and the missing-flag error before and after `runPlan` wraps it. */
  lemma DiagnosticTexts()
    ensures Message(ResourceNotFound("web.iac.yaml"))
         == "resource file with name \"web.iac.yaml\" not found"
    ensures Message(MissingFlag("resource")) == "missing required flag: --resource"
    ensures Message(InitializingConfig(MissingFlag("resource")))
         == "initializing create config: missing required flag: --resource"
  {
    NotFoundText();
    MissingFlagText();
    WrappedMissingFlagText();
  }

  // ---------------------------------------------------------------------
  // Plan names

  /** The resource path with one trailing `.yaml` removed, if present. */
  function BaseName(resourceName: string): (base: string)
    ensures HasSuffix(resourceName, ResourceExtension) ==> base + ResourceExtension == resourceName
    ensures !HasSuffix(resourceName, ResourceExtension) ==> base == resourceName
  {
    TrimSuffix(resourceName, ResourceExtension)
  }

  /** `getPlanName`, with the RFC 3339 rendering of `time.Now()` passed
      in as `timestamp`. */
  function PlanName(resourceName: string, timestamp: string): (name: string)
    ensures HasSuffix(name, PlanSuffix)
    ensures |name| == |BaseName(resourceName)| + 1 + |timestamp| + |PlanSuffix|
    ensures name[..|BaseName(resourceName)| + 1] == BaseName(resourceName) + [Separator]
  {
    BaseName(resourceName) + [Separator] + timestamp + PlanSuffix
  }

  /** The timestamp sits between the base's separator and the fixed tail. */
  lemma TimestampInPlanName(resourceName: string, timestamp: string)
    ensures var name := PlanName(resourceName, timestamp);
      var b := |BaseName(resourceName)|;
      name[b + 1..|name| - |PlanSuffix|] == timestamp
  {
  }

  /** For one resource, different timestamps give different plan names. */
  lemma PlanNameInjectiveInTimestamp(resourceName: string, t1: string, t2: string)
    ensures PlanName(resourceName, t1) == PlanName(resourceName, t2) ==> t1 == t2
  {
    TimestampInPlanName(resourceName, t1);
    TimestampInPlanName(resourceName, t2);
  }

  /** Exactly one `.yaml` is removed: a resource that is some `s` with
      `.yaml` appended has base `s`, even when `s` itself ends in `.yaml`. */
  lemma StripsOneYaml(s: string)
    ensures BaseName(s + ResourceExtension) == s
  {
    TrimAppendedSuffix(s, ResourceExtension);
  }

  /** The examples of stripping: only the final `.yaml`, and nothing else. */
  lemma StrippingExamples()
    ensures BaseName("x.yaml.yaml") == "x.yaml"
    ensures BaseName("web.iac.yaml") == "web.iac"
    ensures BaseName("web.yml") == "web.yml"
    ensures BaseName("yaml") == "yaml"
  {
  }

  /** Stripping makes the name non-injective in the resource: `a` and
      `a.yaml` collide for every timestamp. */
  lemma PlanNameCollidesAcrossResources(timestamp: string)
    ensures "a" != "a.yaml"
    ensures PlanName("a", timestamp) == PlanName("a.yaml", timestamp)
  {
  }

  /** Two resources give the same plan name at the same timestamp exactly
      when they have the same base. */
  lemma PlanNameSameInstant(r1: string, r2: string, timestamp: string)
    ensures PlanName(r1, timestamp) == PlanName(r2, timestamp)
        <==> BaseName(r1) == BaseName(r2)
  {
    var n1, n2 := PlanName(r1, timestamp), PlanName(r2, timestamp);
    if n1 == n2 {
      var b1, b2 := BaseName(r1), BaseName(r2);
      assert |b1| == |b2|;
      assert b1 == n1[..|b1|] == n2[..|b2|] == b2;
    }
  }

  // ---------------------------------------------------------------------
  // Reading a plan name back

  /** The two variable parts of a plan file name. */
  datatype PlanNameParts = PlanNameParts(base: string, timestamp: string)

  /** Splits a plan name at its last `_` after dropping the fixed tail.
      A timestamp without `_` (every RFC 3339 rendering) is recovered whole,
      whatever the base contains. */
  function ParsePlanName(name: string): (r: Option<PlanNameParts>)
    ensures r.Some? ==>
      name == r.value.base + [Separator] + r.value.timestamp + PlanSuffix
      && Separator !in r.value.timestamp
    ensures r.None? ==>
      !HasSuffix(name, PlanSuffix) || Separator !in name[..|name| - |PlanSuffix|]
  {
    if !HasSuffix(name, PlanSuffix) then None
    else
      var stem := name[..|name| - |PlanSuffix|];
      match LastIndexOf(stem, Separator)
      case None => None
      case Some(i) =>
        var parts := PlanNameParts(stem[..i], stem[i + 1..]);
        assert stem == parts.base + [Separator] + parts.timestamp;
        assert forall k :: 0 <= k < |parts.timestamp| ==> parts.timestamp[k] == stem[i + 1 + k];
        Some(parts)
  }

  /** In `base _ timestamp` with no `_` in the timestamp, the last `_` is
      the one after the base. */
  lemma LastSeparatorFollowsBase(base: string, timestamp: string)
    requires Separator !in timestamp
    ensures LastIndexOf(base + [Separator] + timestamp, Separator) == Some(|base|)
  {
    var stem := base + [Separator] + timestamp;
    assert stem[|base|] == Separator;
    var r := LastIndexOf(stem, Separator);
    assert r.Some?;
    var i := r.value;
    assert i >= |base|;
    if i > |base| {
      assert false;
    }
  }

  /** A name built from a timestamp without `_` reads back as its base and
      that timestamp. */
  lemma ParsePlanNameRoundTrip(resourceName: string, timestamp: string)
    requires Separator !in timestamp
    ensures ParsePlanName(PlanName(resourceName, timestamp))
         == Some(PlanNameParts(BaseName(resourceName), timestamp))
  {
    var base := BaseName(resourceName);
    var name := PlanName(resourceName, timestamp);
    var stem := base + [Separator] + timestamp;
    assert name[..|name| - |PlanSuffix|] == stem;
    LastSeparatorFollowsBase(base, timestamp);
    assert stem[..|base|] == base;
    assert stem[|base| + 1..] == timestamp;
  }

  /** Every name that reads back is the plan name of any resource with that
      base, at that timestamp. */
  lemma ParsedNameIsPlanName(name: string, resourceName: string)
    requires ParsePlanName(name).Some?
    requires BaseName(resourceName) == ParsePlanName(name).value.base
    ensures PlanName(resourceName, ParsePlanName(name).value.timestamp) == name
  {
  }

  /** With the clock rendered as RFC 3339, the plan name determines the
      instant it was made at, field by field. */
  lemma PlanNameRecoversInstant(resourceName: string, t: Rfc3339.DateTime)
    requires Rfc3339.Valid(t)
    ensures var parts := ParsePlanName(PlanName(resourceName, Rfc3339.Format(t)));
      && parts.Some?
      && parts.value.base == BaseName(resourceName)
      && Rfc3339.Parse(parts.value.timestamp) == Some(t)
  {
    Rfc3339.FormatHasNoUnderscore(t);
    ParsePlanNameRoundTrip(resourceName, Rfc3339.Format(t));
    Rfc3339.ParseFormat(t);
  }

  /** Two plans for one resource made at different instants (as rendered
      to the second) have different names. */
  lemma DistinctInstantsDistinctNames(resourceName: string, t1: Rfc3339.DateTime, t2: Rfc3339.DateTime)
    requires Rfc3339.Valid(t1) && Rfc3339.Valid(t2) && t1 != t2
    ensures PlanName(resourceName, Rfc3339.Format(t1)) != PlanName(resourceName, Rfc3339.Format(t2))
  {
    Rfc3339.FormatInjective(t1, t2);
    PlanNameInjectiveInTimestamp(resourceName, Rfc3339.Format(t1), Rfc3339.Format(t2));
  }

  // ---------------------------------------------------------------------
  // The command's control flow

  /** `createPlanConfig`: `resource` is the value the configuration layer
      resolved for the `resource` key, or `None` when it is unset. */
  function CreatePlanConfig(resource: Option<string>): (r: Result<PlanConfig, PlanError>)
    ensures r.Failure? <==> resource.None?
    ensures r.Failure? ==> r.error == MissingFlag("resource")
    ensures r.Success? ==> r.value.resourceName == resource.value
  {
    match resource
    case None => Failure(MissingFlag("resource"))
    case Some(v) => Success(PlanConfig(v))
  }

  /** Whether an existence-check answer lets the command go on. */
  predicate Found(c: PathCheck) {
    c.err.None? && c.present
  }

  /** `generatePlan`: check the resource path, then derive the plan name
      from `now` and hand it to `CreatePlan`, whose result is dropped. */
  function GeneratePlan(cfg: PlanConfig, checkPath: string -> PathCheck, now: string): (r: Run)
    ensures |r.calls| >= 1 && r.calls[0] == CheckPath(cfg.resourceName)
    ensures r.outcome.Fail? <==> !Found(checkPath(cfg.resourceName))
    ensures r.outcome.Fail? ==>
      r.outcome.error == ResourceNotFound(cfg.resourceName) && |r.calls| == 1
    ensures r.outcome.Pass? ==>
      r.calls == [CheckPath(cfg.resourceName), CreatePlan(PlanName(cfg.resourceName, now))]
  {
    var checked := [CheckPath(cfg.resourceName)];
    var answer := checkPath(cfg.resourceName);
    if answer.err.Some? || !answer.present then
      Run(Fail(ResourceNotFound(cfg.resourceName)), checked)
    else
      var planName := PlanName(cfg.resourceName, now);
      Run(Pass, checked + [CreatePlan(planName)])
  }

  /** How many `CreatePlan` calls a trace holds. */
  function CreateCount(calls: seq<Call>): nat {
    if |calls| == 0 then 0
    else (if calls[0].CreatePlan? then 1 else 0) + CreateCount(calls[1..])
  }

  /** `CreatePlan` is called once when the resource is found and never
      when it is not. */
  lemma GeneratePlanCreatesAtMostOnce(cfg: PlanConfig, checkPath: string -> PathCheck, now: string)
    ensures var r := GeneratePlan(cfg, checkPath, now);
      CreateCount(r.calls) == (if Found(checkPath(cfg.resourceName)) then 1 else 0)
  {
    var r := GeneratePlan(cfg, checkPath, now);
    if Found(checkPath(cfg.resourceName)) {
      assert r.calls[1..][1..] == [];
      assert CreateCount(r.calls[1..]) == 1;
    } else {
      assert r.calls[1..] == [];
    }
  }

  /** `runPlan` without its timing and printing: read the configuration,
      wrapping a failure as "initializing create config", then generate. */
  function RunPlan(resource: Option<string>, checkPath: string -> PathCheck, now: string): (r: Run)
    ensures resource.None? ==>
      r.outcome == Fail(InitializingConfig(MissingFlag("resource"))) && r.calls == []
    ensures resource.Some? ==> r == GeneratePlan(PlanConfig(resource.value), checkPath, now)
  {
    match CreatePlanConfig(resource)
    case Failure(e) => Run(Fail(InitializingConfig(e)), [])
    case Success(cfg) => GeneratePlan(cfg, checkPath, now)
  }
}
