# SDKMAN Java migration, modelled in Dafny

This project models the reconciliation step of the SDKMAN disco integration. It is the
`JavaMigration` service, which decides whether one upstream (Foojay) Java package is
published to SDKMAN. One run does the following:

1. It merges the caller's query parameters with the Foojay client's defaults. A caller list
   wins unless it is empty.
2. It searches the Foojay catalogue.
3. It keeps the packages that pass the Liberica "lite" filter and takes one with the greatest
   `javaVersion`.
4. It derives the SDKMAN version of that package. If there is none, the run stops.
5. It composes `version-vendor` and asks the SDKMAN broker whether it exists on the broker
   platform. If it exists, the run stops.
6. Otherwise it looks up the package's detail record. If exactly one record comes back, the
   run publishes a version request on the release platform.

Files:

- `wrappers.dfy`: `Option`. It stands for Java's `Optional` and for nullable references.
- `wire.dfy`: the response records and the publish request.
- `query_params.dfy`: the parameter merge. `Collectors.toMap` is a left fold over the
  concatenated entry streams. The main lemma says what the merged map holds.
- `selection.dfy`: the payload filter, the eligibility filter, and `max` as the
  `BinaryOperator.maxBy` reduction. The lemmas prove that the result is a maximum.
- `java_migration.dfy`: the `JavaMigration` class. Its methods `Execute`, `ProcessVersion`
  and `FindAndPublish` append each remote call to a ghost `trace`. Each method is proved to
  append exactly what the specification functions `ExecuteTrace`, `ProcessVersionTrace` and
  `FindAndPublishTrace` give.
- `migration_properties.dfy`: lemmas over `ExecuteTrace`. They cover every early stop, the
  arguments of each call, and that a run publishes at most once.

The remote calls (`queryPackages`, `queryUrl`, `findVersion`) are function fields of the
client values the service holds. A run's answers are therefore fixed functions of the call
arguments, and each call happens at most once per run. The static helpers are fields of
`Adapters` and are left abstract:

- `Version.format`
- `Broker.platform`
- `Release.platform`
- the vendor mapping
- the lite filter
- the `javaVersion` order

The lemmas about the maximum assume only the part of `Comparator`'s contract that they use.
This is stated as `ComparatorContract`.

An unmapped distribution does not stop the run. `Map.get` yields null, and `"%s-%s"`
renders it as `null`. The run then goes on with `version-null`, and the request carries a
null vendor. `VendorOf` and `VersionWithVendor` model this, and `ExistenceCheckArguments`
states both cases.

The `max` reduction keeps the earlier package on a tie. No contract fixes which of several
equal maxima is chosen.

## Model

| member | source | states |
|---|---|---|
| `QueryParams.PreferNonEmpty` | src/main/java/io/sdkman/automigration/controllers/JavaMigration.java:53 | the merge function returns one of its two lists, and returns an empty list only when both are empty |
| `QueryParams.Accumulate` | src/main/java/io/sdkman/automigration/controllers/JavaMigration.java:52-53 | one `HashMap.merge` step of the collector; it has no contract of its own and is characterized by `CollectDistinct`: a key already present gets the merged value, a new key gets the entry's value |
| `QueryParams.Collect` | src/main/java/io/sdkman/automigration/controllers/JavaMigration.java:52 | the collector's left fold over the entry stream; it has no contract of its own and is characterized by `CollectAppend` and `CollectDistinct` |
| `QueryParams.MergeQueryParams` | src/main/java/io/sdkman/automigration/controllers/JavaMigration.java:50-53 | the merge itself; it has no contract of its own and is characterized by `MergeQueryParamsSpec`: key union, caller wins unless empty, one-sided keys keep their value |
| `QueryParams.CollectAppend` | src/main/java/io/sdkman/automigration/controllers/JavaMigration.java:50-52 | collecting the concatenated streams is the same as collecting the caller's entries and then the defaults |
| `QueryParams.CollectDistinct` | src/main/java/io/sdkman/automigration/controllers/JavaMigration.java:52-53 | collecting one map's entries into an accumulator merges each of its keys with the value already there and leaves every other key alone |
| `QueryParams.MergeQueryParamsSpec` | src/main/java/io/sdkman/automigration/controllers/JavaMigration.java:50-53 | the merged keys are the union of both key sets; on a shared key the caller's list wins unless it is empty; a key in only one map keeps that map's value, even an empty caller list |
| `QueryParams.MergeExamples` | src/main/java/io/sdkman/automigration/controllers/JavaMigration.java:50-53 | `{type:[jdk]}` over defaults `{type:[jre], arch:[x64]}` gives `{type:[jdk], arch:[x64]}`; with `{type:[]}` the default `[jre]` is used |
| `Selection.Payload` | src/main/java/io/sdkman/automigration/controllers/JavaMigration.java:57-60 | the flattened packages are the answer's list when the answer and its list are present, and nothing otherwise; the emptiness test changes nothing |
| `Selection.Filter` | src/main/java/io/sdkman/automigration/controllers/JavaMigration.java:61 | a package is kept exactly when it is in the input and passes the predicate |
| `Selection.MaxBy` | src/main/java/io/sdkman/automigration/controllers/JavaMigration.java:62 | the reduction returns the starting package or one of the remaining packages |
| `Selection.Max` | src/main/java/io/sdkman/automigration/controllers/JavaMigration.java:62 | `max` is empty exactly for an empty stream, and otherwise returns a member of it |
| `Selection.SelectCandidate` | src/main/java/io/sdkman/automigration/controllers/JavaMigration.java:57-62 | there is no candidate exactly when no package of the payload passes the filter; a candidate is a payload package that passes it |
| `Selection.MaxByIsMaximal` | src/main/java/io/sdkman/automigration/controllers/JavaMigration.java:62 | under the comparator contract, the reduction's result compares at least equal to every package it has seen |
| `Selection.SelectedIsMaximal` | src/main/java/io/sdkman/automigration/controllers/JavaMigration.java:60-62 | the selected package's `javaVersion` is at least that of every eligible package; which tie wins is not fixed |
| `Migration.VendorOf` | src/main/java/io/sdkman/automigration/controllers/JavaMigration.java:72 | the vendor lookup is present exactly for a mapped distribution, and then it is the mapped vendor; absent stands for Java's null |
| `Migration.VersionWithVendor` | src/main/java/io/sdkman/automigration/controllers/JavaMigration.java:73 | the composed string is the version, then one hyphen, then the vendor (or `null` when there is none), and nothing more |
| `Migration.SingleRecord` | src/main/java/io/sdkman/automigration/controllers/JavaMigration.java:92-93 | a detail record is resolved exactly when the answer and its list are present and the list has one element; the list is then exactly that record |
| `Migration.Candidate` | src/main/java/io/sdkman/automigration/controllers/JavaMigration.java:55-62 | a run has no candidate exactly when no package of the search answer for the merged parameters passes the lite filter; a candidate is an answer package that passes it |
| `Migration.ProcessVersionTrace` | src/main/java/io/sdkman/automigration/controllers/JavaMigration.java:70-75 | the first call for a versioned candidate is the existence check on the broker url and broker platform, for the version followed by the vendor the distribution maps to |
| `Migration.ExecuteTrace` | src/main/java/io/sdkman/automigration/controllers/JavaMigration.java:49-66 | the calls of one run; it has no contract of its own and is characterized by `ExecuteTraceFollowsPipeline` and the lemmas of `MigrationProperties` |
| `Migration.FindAndPublishTrace` | src/main/java/io/sdkman/automigration/controllers/JavaMigration.java:78-101 | the existence check comes first, followed at most by the detail lookup and then the publish, in that order |
| `MigrationProperties.ExecuteTraceFollowsPipeline` | src/main/java/io/sdkman/automigration/controllers/JavaMigration.java:49-66 | a run always searches first, with the merged parameters; every later call is made at most once and in pipeline order |
| `Migration.JavaMigration.constructor` | src/main/java/io/sdkman/automigration/controllers/JavaMigration.java:41-47 | the service holds the given clients, properties and helpers, and has made no call yet |
| `Migration.JavaMigration.Execute` | src/main/java/io/sdkman/automigration/controllers/JavaMigration.java:49-68 | a run appends exactly `ExecuteTrace` of its arguments to the trace |
| `Migration.JavaMigration.ProcessVersion` | src/main/java/io/sdkman/automigration/controllers/JavaMigration.java:70-76 | appends exactly the calls for the package with its mapped vendor and composed version |
| `Migration.JavaMigration.FindAndPublish` | src/main/java/io/sdkman/automigration/controllers/JavaMigration.java:78-102 | appends the existence check, and returns early when the version exists; otherwise the lookup, and the publish only for a single detail record |
| `MigrationProperties.AtMostOnePublish` | src/main/java/io/sdkman/automigration/controllers/JavaMigration.java:92-101 | no two calls of a run are publish calls, so a run publishes at most one request |
| `MigrationProperties.NoCandidateNoDownstreamCall` | src/main/java/io/sdkman/automigration/controllers/JavaMigration.java:57-63 | if the answer is absent, its list is null or empty, or no package passes the lite filter, then the search is the only call |
| `MigrationProperties.UnrepresentableVersionNoDownstreamCall` | src/main/java/io/sdkman/automigration/controllers/JavaMigration.java:64-65 | a selected package without an SDKMAN version leads to no call after the search |
| `MigrationProperties.CandidateIsEligibleMaximum` | src/main/java/io/sdkman/automigration/controllers/JavaMigration.java:57-62 | the selected package belongs to the answer, passes the lite filter, and has a `javaVersion` at least that of every eligible package |
| `MigrationProperties.ExistenceCheckArguments` | src/main/java/io/sdkman/automigration/controllers/JavaMigration.java:72-85 | the existence check goes to the broker url with `version + "-" + vendor` (vendor as mapped, or `null`) and the broker platform |
| `MigrationProperties.ExistingVersionStops` | src/main/java/io/sdkman/automigration/controllers/JavaMigration.java:84-90 | a version the broker already holds ends the run after the check: the whole trace is the search and the existence check, so there is no lookup and no publish |
| `MigrationProperties.UnresolvedDetailNoPublish` | src/main/java/io/sdkman/automigration/controllers/JavaMigration.java:91-93 | a detail answer that is absent, null, or does not hold exactly one record: the whole trace is the search, the check and the lookup, and nothing is published |
| `MigrationProperties.PublishWhenResolved` | src/main/java/io/sdkman/automigration/controllers/JavaMigration.java:81-99 | a new version with one detail record gives the full four-call trace; the check uses the broker platform and the request uses the separately computed release platform, the mapped vendor, the version, the record and the caller's flag |
| `MigrationProperties.PublishOnlyWithSingleDetail` | src/main/java/io/sdkman/automigration/controllers/JavaMigration.java:92-99 | a publish happens only with a selected and versioned package that the broker does not hold and that has a single detail record, and its request is built from that record |

## Left out

- HTTP transport is not modelled. `FoojayClient`, `SdkmanClient` and their URLs are reduced to
  the answers they give. Transport errors, which propagate uncaught, are not modelled either.
- Spring wiring and the configuration property classes are not modelled. Only the three URLs
  and the default query parameters appear.
- Logging (lines 80, 87-88, 97, 100) and the `newVersion` response are not modelled, because
  the response is only logged. The publish call is recorded in the trace, and its answer is
  not.
- The internals of these helpers are left abstract, since they are not part of this model:
  - `Version.format`
  - `Broker.platform`
  - `Release.platform`
  - `PackageAdapter.FOOJAY_SDKMAN_VENDOR_MAPPING`
  - `Package.libericaFilenameDoesNotContainLite`
  - `VersionAdapter.toVersionRequest`
  - the type and order of `javaVersion`
- The publish request is modelled as the five arguments `toVersionRequest` receives.
- Only the record fields the service reads, plus `filename`, are kept. The detail record is
  reduced to one id.
- Java null failure modes are not modelled: `Collectors.toMap` throws on a null value, and a
  list may hold null elements. Caller maps are entry sequences, and the merge lemma asks for
  distinct keys, as a `Map` has.
- The `defaultCandidate` flag is a `bool`, so a null `Boolean` is not modelled.
- Concurrent runs are not modelled. That includes the accepted race in which two runs both
  pass the existence check.
- The client answers are fixed for the lifetime of a `JavaMigration` object. Only a single run
  is meaningful. Two `Execute` calls with the same arguments append the same calls twice, a
  publish included. The real registry would instead report the version as existing on the
  second run. This is because the model does not say what the SDKMAN registry records after a
  publish. `ExistingVersionStops` covers the guard: once the broker reports the version, the
  run stops before any publish.
