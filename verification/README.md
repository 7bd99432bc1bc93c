# iac-cli `plan` command: plan naming and its guards

This project models the `plan` command of the iac CLI (`packages/iac-cli/pkg/command/plan.go`) in Dafny. It covers three things:

- **Plan naming** (`getPlanName`). One trailing `.yaml` is trimmed from the resource path, with Go `strings.TrimSuffix` semantics. Then `_`, the current time rendered with Go's `time.RFC3339` layout, and the fixed tail `.plan.sw.json` are appended.
- **The existence guard** (`generatePlan`). If the path check fails, the command returns a "resource file with name \"…\" not found" error and does nothing else. Otherwise it derives the plan name and calls `CreatePlan` once, ignoring that call's result.
- **The required-flag check** (`createPlanConfig`). It also covers the surrounding `runPlan` control flow, minus timing and printing.

Modules:

- `Wrappers` (`wrappers.dfy`): `Option`, `Result` and `Outcome`. These stand in for Go's `(value, error)` returns.
- `Text` (`text.dfy`): `HasSuffix`, `TrimSuffix` and `LastIndexOf` over `seq<char>`.
- `Rfc3339` (`rfc3339.dfy`): an **extension**. It is a renderer for the `date-time` production of section 5.6 of RFC 3339, in the shape of Go's `2006-01-02T15:04:05Z07:00` layout. Fields are zero-padded, there are no fractional seconds, and the offset is `Z` or `±hh:mm`. It comes with a parser that serves as its partner. Go's formatter is not part of this model, so the renderer is written from the layout and the RFC rather than from Go's code.
- `Plan` (`plan.dfy`): the command itself. `Plan.ParsePlanName` (and `Rfc3339.Parse`) are inverse definitions added to state round trips about the naming. The Go code never parses a plan name, and `executeApply` does not read one.

Effects are handled as follows:

- **Clock.** `time.Now()` becomes an explicit `now`/`timestamp` string. `Rfc3339.Format` can produce that string from a `DateTime`.
- **Existence check.** `common.CheckIfPathExists` becomes a function parameter `string -> PathCheck` that returns Go's `(bool, error)` pair.
- **Plan creation.** `CreatePlan` is recorded as a `Call` in the returned trace. This works because the command drops its result.
- **Configuration.** Viper's `IsSet` and `GetString` for `resource` become one `Option<string>`.

Only `.yaml` is stripped, so `web.iac.yaml` gives the base `web.iac`. Plan names are not promised to be filesystem-safe or to sort by time: RFC 3339 timestamps contain `:` and can carry different offsets. The code keeps no plan store and no change list, and `executeApply` in `apply.go` only sleeps, so there is no apply behaviour to model.

## Model

| member | source | states |
|---|---|---|
| Text.TrimSuffix | packages/iac-cli/pkg/command/plan.go:89 | if the string ends with the suffix, the result followed by the suffix is the string; otherwise the string comes back unchanged |
| Plan.BaseName | packages/iac-cli/pkg/command/plan.go:89 | a resource ending in `.yaml` is its base followed by `.yaml`; any other resource is its own base |
| Plan.StripsOneYaml | packages/iac-cli/pkg/command/plan.go:89 | exactly one `.yaml` is removed: any `s + ".yaml"` has base `s`, even when `s` itself ends in `.yaml` |
| Plan.StrippingExamples | packages/iac-cli/pkg/command/plan.go:89 | `x.yaml.yaml` gives `x.yaml`, `web.iac.yaml` gives `web.iac`, and `web.yml` and `yaml` are left unchanged |
| Plan.PlanName | packages/iac-cli/pkg/command/plan.go:88-93 | the plan name ends with `.plan.sw.json`, starts with the base followed by `_`, and is 14 characters longer than base and timestamp together |
| Plan.TimestampInPlanName | packages/iac-cli/pkg/command/plan.go:90-91 | the timestamp is exactly the text between the base's `_` and the fixed tail |
| Plan.PlanNameInjectiveInTimestamp | packages/iac-cli/pkg/command/plan.go:90-91 | for one resource, equal plan names imply equal timestamps |
| Plan.PlanNameCollidesAcrossResources | packages/iac-cli/pkg/command/plan.go:89-91 | the distinct resources `a` and `a.yaml` give the same plan name at every timestamp, so naming is not injective in the resource |
| Plan.PlanNameSameInstant | packages/iac-cli/pkg/command/plan.go:89-91 | at one timestamp, two resources give the same plan name if and only if they have the same base |
| Plan.ParsePlanName | packages/iac-cli/pkg/command/plan.go:91 | inverse of the concatenation, with no counterpart in the code: a name that reads back is base + `_` + timestamp + `.plan.sw.json` with no `_` in the timestamp; a name that does not read back lacks the tail or has no `_` before it |
| Plan.ParsePlanNameRoundTrip | packages/iac-cli/pkg/command/plan.go:89-91 | a plan name made with a timestamp that has no `_` reads back as the resource's base and that timestamp |
| Plan.ParsedNameIsPlanName | packages/iac-cli/pkg/command/plan.go:89-91 | every name that reads back is the plan name, at the parsed timestamp, of any resource with the parsed base |
| Plan.PlanNameRecoversInstant | packages/iac-cli/pkg/command/plan.go:90-91 | with an RFC 3339 clock, the plan name gives back the base and every field of the instant |
| Plan.DistinctInstantsDistinctNames | packages/iac-cli/pkg/command/plan.go:90-91 | two plans for one resource made at different instants, to the second and offset, have different names |
| Plan.DiagnosticTexts | packages/iac-cli/pkg/command/plan.go:62-97 | the exact texts of `Plan.Message`: the not-found error for `web.iac.yaml`, the missing `--resource` flag error, and that error wrapped as "initializing create config: …" |
| Plan.NotFoundNamesResource | packages/iac-cli/pkg/command/plan.go:80 | the not-found message holds the resource name verbatim, between double quotes |
| Plan.CreatePlanConfig | packages/iac-cli/pkg/command/plan.go:95-104 | it fails exactly when `resource` is unset, with the missing `--resource` flag error; otherwise the config carries the value that was set |
| Plan.GeneratePlan | packages/iac-cli/pkg/command/plan.go:77-86 | it always checks the path first; it fails with not-found for that resource if and only if the check errors or reports absent, and then makes no other call; otherwise it makes exactly the call `CreatePlan(PlanName(resource, now))` and succeeds |
| Plan.GeneratePlanCreatesAtMostOnce | packages/iac-cli/pkg/command/plan.go:78-85 | `CreatePlan` is called once when the resource is found and zero times when it is not |
| Plan.RunPlan | packages/iac-cli/pkg/command/plan.go:60-69 | with `resource` unset, it fails with the missing-flag error wrapped as "initializing create config" and makes no calls; otherwise it behaves as `GeneratePlan` on that value |
| Rfc3339.Format | packages/iac-cli/pkg/command/plan.go:90 | a rendered timestamp has 20 characters with `Z` and 25 with a numeric offset |
| Rfc3339.ParseFormat | packages/iac-cli/pkg/command/plan.go:90 | parsing a rendered valid timestamp gives back every field |
| Rfc3339.FormatParse | packages/iac-cli/pkg/command/plan.go:90 | every string that parses is exactly the rendering of what was parsed, unless it writes a zero offset as `+00:00` or `-00:00` |
| Rfc3339.FormatInjective | packages/iac-cli/pkg/command/plan.go:90 | distinct valid field values render to distinct strings |
| Rfc3339.FormatHasNoUnderscore | packages/iac-cli/pkg/command/plan.go:90 | a rendered timestamp contains no `_` |

## Left out

- `runPlan` (packages/iac-cli/pkg/command/plan.go:57-75): its wall-clock duration, its float seconds and its `fmt.Printf` output are left out. Only its control flow is modelled, in `Plan.RunPlan`.
- `NewPlanCommand` (packages/iac-cli/pkg/command/plan.go:32-55) is cobra command and flag registration, with no logic.
- `apply.go` is left out. `executeApply` only sleeps for ten seconds. `createApplyConfig` is the same required-flag pattern as `createPlanConfig`. `runApply` is timing and printing.
- `root.go` and `helper.go` are left out. They hold cobra wiring, viper `AutomaticEnv` binding and `html/template` help rendering.
- `common.CheckIfPathExists` and `CreatePlan` are filesystem I/O, and their code is not part of this model. The first is a function parameter. The second is a recorded call.
- Rfc3339.Format: Go's own formatter is not modelled. The renderer covers years 0 to 9999 and offsets in whole minutes no larger than ±23:59, and has no leap second (Go would write a 25-hour offset as `+25:00`). Go drops the seconds part of an offset and writes other years differently, and neither case is covered.
- Plan.PlanName: Go strings are byte strings and this model uses character sequences. The two agree here because `.yaml`, `_` and `.plan.sw.json` are ASCII, and an ASCII byte never occurs inside a multi-byte UTF-8 character.
- Sub-second collisions are not modelled. Two plans made in the same second, at the same offset, get the same name. `DateTime` has no field finer than the second.
