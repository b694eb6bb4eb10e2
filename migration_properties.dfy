/**
 * What one migration run does, stated over the trace of remote calls it
 * leaves (`Migration.ExecuteTrace`, which `JavaMigration.Execute` is proved
 * to append): every way a run stops early, the arguments of each call, and
 * that it publishes at most once.
 */
module MigrationProperties {
  import opened Wrappers
  import opened Wire
  import opened QueryParams
  import opened Selection
  import opened Migration

  /** The version with vendor a run derives for package `p` with SDKMAN version `version`. */
  function CheckedVersion(env: Environment, p: PackageResponse, version: string): string {
    VersionWithVendor(version, VendorOf(env.adapters.vendorMapping, p.distribution))
  }

  /** Whether the broker reports the derived version as existing on the package's broker platform. */
  predicate AlreadyExists(env: Environment, p: PackageResponse, version: string) {
    env.sdkmanClient.findVersion(env.sdkmanProperties.brokerUrl, CheckedVersion(env, p, version),
                                 env.adapters.brokerPlatform(p.operatingSystem, p.architecture))
  }

  /**
   * A run always searches first, with the merged parameters; every later
   * call is made at most once and in pipeline order.
   */
  lemma ExecuteTraceFollowsPipeline(env: Environment, queryParams: seq<Entry>, defaultCandidate: bool)
    ensures var calls := ExecuteTrace(env, queryParams, defaultCandidate);
      && 1 <= |calls| <= 4
      && calls[0] == QueryPackages(env.foojayProperties.url, MergedParams(env, queryParams))
      && forall i :: 0 <= i < |calls| ==> Stage(calls[i]) == i
  {
  }

  /**
   * A trace whose calls sit at consecutive stages from `s` on publishes
   * once if it reaches the last stage and never otherwise.
   */
  lemma {:induction false} StagedTracePublishes(calls: seq<Call>, s: nat)
    requires forall i :: 0 <= i < |calls| ==> Stage(calls[i]) == s + i
    ensures |Published(calls)| == if calls != [] && s + |calls| == 4 then 1 else 0
    decreases |calls|
  {
    if calls != [] {
      assert Stage(calls[|calls| - 1]) == s + |calls| - 1;
      if calls[0].NewVersion? {
        assert |calls| == 1;
      } else {
        StagedTracePublishes(calls[1..], s + 1);
      }
    }
  }

  /** A run makes at most one publish call, so it publishes at most one request. */
  lemma AtMostOnePublish(env: Environment, queryParams: seq<Entry>, defaultCandidate: bool)
    ensures var calls := ExecuteTrace(env, queryParams, defaultCandidate);
      forall i, j :: 0 <= i < j < |calls| ==> !(calls[i].NewVersion? && calls[j].NewVersion?)
    ensures |Published(ExecuteTrace(env, queryParams, defaultCandidate))| <= 1
  {
    var calls := ExecuteTrace(env, queryParams, defaultCandidate);
    ExecuteTraceFollowsPipeline(env, queryParams, defaultCandidate);
    forall i, j | 0 <= i < j < |calls| ensures !(calls[i].NewVersion? && calls[j].NewVersion?) {
      assert Stage(calls[i]) == i && Stage(calls[j]) == j;
    }
    StagedTracePublishes(calls, 0);
  }

  /**
   * No search answer, a null or empty package list, or no package passing
   * the eligibility filter: the run makes no call after the search.
   */
  lemma NoCandidateNoDownstreamCall(env: Environment, queryParams: seq<Entry>, defaultCandidate: bool)
    requires var answer := SearchAnswer(env, queryParams);
      || answer.None?
      || answer.value.result.None?
      || answer.value.result.value == []
      || forall p :: p in answer.value.result.value ==> !env.adapters.libericaFilenameDoesNotContainLite(p)
    ensures ExecuteTrace(env, queryParams, defaultCandidate)
            == [QueryPackages(env.foojayProperties.url, MergedParams(env, queryParams))]
  {
    assert Candidate(env, queryParams).None?;
  }

  /** A selected package without an SDKMAN version: no call after the search. */
  lemma UnrepresentableVersionNoDownstreamCall(env: Environment, queryParams: seq<Entry>, defaultCandidate: bool,
                                              p: PackageResponse)
    requires Candidate(env, queryParams) == Some(p)
    requires env.adapters.format(p).None?
    ensures ExecuteTrace(env, queryParams, defaultCandidate)
            == [QueryPackages(env.foojayProperties.url, MergedParams(env, queryParams))]
  {
  }

  /**
   * The selected package is one of the answer's packages, passes the
   * filter, and no eligible package has a greater `javaVersion`.
   */
  lemma CandidateIsEligibleMaximum(env: Environment, queryParams: seq<Entry>, p: PackageResponse)
    requires ComparatorContract(env.adapters.compareJavaVersion)
    requires Candidate(env, queryParams) == Some(p)
    ensures p in Payload(SearchAnswer(env, queryParams))
    ensures env.adapters.libericaFilenameDoesNotContainLite(p)
    ensures forall q :: q in Payload(SearchAnswer(env, queryParams)) && env.adapters.libericaFilenameDoesNotContainLite(q)
              ==> env.adapters.compareJavaVersion(p.javaVersion, q.javaVersion) >= 0
  {
    SelectedIsMaximal(SearchAnswer(env, queryParams), env.adapters.libericaFilenameDoesNotContainLite,
                      env.adapters.compareJavaVersion, p);
  }

  /**
   * Once a package is selected and has a version, the second call is the
   * existence check: on the broker's url and broker platform, for the
   * version, a hyphen and the mapped vendor ("null" for an unmapped
   * distribution).
   */
  lemma ExistenceCheckArguments(env: Environment, queryParams: seq<Entry>, defaultCandidate: bool,
                                p: PackageResponse, version: string)
    requires Candidate(env, queryParams) == Some(p)
    requires env.adapters.format(p) == Some(version)
    ensures var calls := ExecuteTrace(env, queryParams, defaultCandidate);
      && |calls| >= 2
      && calls[1] == FindVersion(env.sdkmanProperties.brokerUrl,
                                 version + "-" + (if p.distribution in env.adapters.vendorMapping
                                                  then env.adapters.vendorMapping[p.distribution] else "null"),
                                 env.adapters.brokerPlatform(p.operatingSystem, p.architecture))
    ensures p.distribution in env.adapters.vendorMapping ==>
      ExecuteTrace(env, queryParams, defaultCandidate)[1].versionWithVendor
        == version + "-" + env.adapters.vendorMapping[p.distribution]
  {
  }

  /** A version the broker already holds: the run stops after the existence check. */
  lemma ExistingVersionStops(env: Environment, queryParams: seq<Entry>, defaultCandidate: bool,
                             p: PackageResponse, version: string)
    requires Candidate(env, queryParams) == Some(p)
    requires env.adapters.format(p) == Some(version)
    requires AlreadyExists(env, p, version)
    ensures ExecuteTrace(env, queryParams, defaultCandidate) == [
      QueryPackages(env.foojayProperties.url, MergedParams(env, queryParams)),
      FindVersion(env.sdkmanProperties.brokerUrl, CheckedVersion(env, p, version),
                  env.adapters.brokerPlatform(p.operatingSystem, p.architecture))]
    ensures Published(ExecuteTrace(env, queryParams, defaultCandidate)) == []
  {
    ExecuteTraceFollowsPipeline(env, queryParams, defaultCandidate);
    StagedTracePublishes(ExecuteTrace(env, queryParams, defaultCandidate), 0);
  }

  /**
   * A detail lookup that is absent, null, empty or holds two or more
   * records: the run looks it up and publishes nothing.
   */
  lemma UnresolvedDetailNoPublish(env: Environment, queryParams: seq<Entry>, defaultCandidate: bool,
                                  p: PackageResponse, version: string)
    requires Candidate(env, queryParams) == Some(p)
    requires env.adapters.format(p) == Some(version)
    requires !AlreadyExists(env, p, version)
    requires var detail := env.foojayClient.queryUrl(p.links.pkgInfoUri);
      detail.None? || detail.value.result.None? || |detail.value.result.value| != 1
    ensures ExecuteTrace(env, queryParams, defaultCandidate) == [
      QueryPackages(env.foojayProperties.url, MergedParams(env, queryParams)),
      FindVersion(env.sdkmanProperties.brokerUrl, CheckedVersion(env, p, version),
                  env.adapters.brokerPlatform(p.operatingSystem, p.architecture)),
      QueryUrl(p.links.pkgInfoUri)]
    ensures Published(ExecuteTrace(env, queryParams, defaultCandidate)) == []
  {
    ExecuteTraceFollowsPipeline(env, queryParams, defaultCandidate);
    StagedTracePublishes(ExecuteTrace(env, queryParams, defaultCandidate), 0);
  }

  /**
   * A new version whose detail lookup holds exactly one record: the run
   * makes all four calls and publishes, on the release service's url, the
   * request built from the mapped vendor, the version, the release
   * platform, that record and the caller's flag. The existence check used
   * the broker platform, looked up separately.
   */
  lemma PublishWhenResolved(env: Environment, queryParams: seq<Entry>, defaultCandidate: bool,
                            p: PackageResponse, version: string, ids: IdsResponse)
    requires Candidate(env, queryParams) == Some(p)
    requires env.adapters.format(p) == Some(version)
    requires !AlreadyExists(env, p, version)
    requires env.foojayClient.queryUrl(p.links.pkgInfoUri) == Some(ResultIdsResponse(Some([ids])))
    ensures ExecuteTrace(env, queryParams, defaultCandidate) == [
      QueryPackages(env.foojayProperties.url, MergedParams(env, queryParams)),
      FindVersion(env.sdkmanProperties.brokerUrl, CheckedVersion(env, p, version),
                  env.adapters.brokerPlatform(p.operatingSystem, p.architecture)),
      QueryUrl(p.links.pkgInfoUri),
      NewVersion(env.sdkmanProperties.releaseUrl,
                 VersionRequest(VendorOf(env.adapters.vendorMapping, p.distribution), version,
                                env.adapters.releasePlatform(p.operatingSystem, p.architecture), ids,
                                defaultCandidate))]
  {
    var vendor := VendorOf(env.adapters.vendorMapping, p.distribution);
    assert SingleRecord(env.foojayClient.queryUrl(p.links.pkgInfoUri)) == Some(ids);
    assert ExecuteTrace(env, queryParams, defaultCandidate)
      == [QueryPackages(env.foojayProperties.url, MergedParams(env, queryParams))]
         + FindAndPublishTrace(env, p, vendor, version, VersionWithVendor(version, vendor), defaultCandidate);
  }

  /**
   * A run that publishes did so only because a package was selected, had
   * a version, was not yet known to the broker and had exactly one detail
   * record; and it published the request built from that record.
   */
  lemma PublishOnlyWithSingleDetail(env: Environment, queryParams: seq<Entry>, defaultCandidate: bool,
                                    url: string, request: VersionRequest)
    requires NewVersion(url, request) in ExecuteTrace(env, queryParams, defaultCandidate)
    ensures Candidate(env, queryParams).Some?
    ensures var p := Candidate(env, queryParams).value;
      && env.adapters.format(p).Some?
      && !AlreadyExists(env, p, env.adapters.format(p).value)
      && SingleRecord(env.foojayClient.queryUrl(p.links.pkgInfoUri)).Some?
      && url == env.sdkmanProperties.releaseUrl
      && request == VersionRequest(VendorOf(env.adapters.vendorMapping, p.distribution), env.adapters.format(p).value,
                                   env.adapters.releasePlatform(p.operatingSystem, p.architecture),
                                   SingleRecord(env.foojayClient.queryUrl(p.links.pkgInfoUri)).value,
                                   defaultCandidate)
  {
  }
}
