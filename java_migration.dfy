/**
 * The migration service: one run merges the query parameters, searches
 * the upstream catalogue, selects a package, derives its SDKMAN version and
 * vendor, asks the SDKMAN broker whether that version already exists and,
 * if not, resolves the package's single detail record and publishes it to
 * the SDKMAN release service.
 *
 * The four remote calls are recorded, in order, in a ghost trace; their
 * answers come from the client values the service holds. The trace a run
 * leaves is specified by `ExecuteTrace`.
 */
module Migration {
  import opened Wrappers
  import opened Wire
  import opened QueryParams
  import opened Selection

  /** The static helpers the service calls; their bodies are not part of this model. */
  datatype Adapters = Adapters(
    // Version.format: the SDKMAN version of a package, if it has one
    format: PackageResponse -> Option<string>,
    // Broker.platform(os, arch): platform id in the broker's namespace
    brokerPlatform: (string, string) -> string,
    // Release.platform(os, arch): platform id in the release service's namespace
    releasePlatform: (string, string) -> string,
    // PackageAdapter.FOOJAY_SDKMAN_VENDOR_MAPPING: distribution to vendor
    vendorMapping: map<string, string>,
    // Package.libericaFilenameDoesNotContainLite: the eligibility filter
    libericaFilenameDoesNotContainLite: PackageResponse -> bool,
    // the natural order of javaVersion values
    compareJavaVersion: (string, string) -> int)

  /** The upstream catalogue client: its answers and its default query parameters. */
  datatype FoojayClient = FoojayClient(
    queryPackages: (string, map<string, Values>) -> Option<ResultPackageResponse>,
    queryUrl: string -> Option<ResultIdsResponse>,
    defaultQueryParams: seq<Entry>)

  /** The SDKMAN client: the broker's answer to an existence check. */
  datatype SdkmanClient = SdkmanClient(findVersion: (string, string, string) -> bool)

  datatype FoojayProperties = FoojayProperties(url: string)

  datatype SdkmanProperties = SdkmanProperties(brokerUrl: string, releaseUrl: string)

  /** Everything a run depends on besides its own arguments. */
  datatype Environment = Environment(
    foojayClient: FoojayClient,
    sdkmanClient: SdkmanClient,
    foojayProperties: FoojayProperties,
    sdkmanProperties: SdkmanProperties,
    adapters: Adapters)

  /** A remote call the service makes. */
  datatype Call =
    | QueryPackages(url: string, params: map<string, Values>)
    | FindVersion(url: string, versionWithVendor: string, platform: string)
    | QueryUrl(uri: string)
    | NewVersion(url: string, request: VersionRequest)

  /** The step of a run at which a call is made. */
  function Stage(c: Call): nat {
    match c
    case QueryPackages(_, _) => 0
    case FindVersion(_, _, _) => 1
    case QueryUrl(_) => 2
    case NewVersion(_, _) => 3
  }

  /**
   * The requests a trace publishes, in order: one per publish call, so a
   * trace without publish calls publishes nothing.
   */
  function Published(calls: seq<Call>): (rs: seq<VersionRequest>)
    ensures forall r :: r in rs <==> exists url :: NewVersion(url, r) in calls
    ensures |rs| <= |calls|
    ensures rs == [] <==> forall i :: 0 <= i < |calls| ==> !calls[i].NewVersion?
    decreases |calls|
  {
    if calls == [] then []
    else
      var rest := Published(calls[1..]);
      assert forall c :: c in calls <==> c == calls[0] || c in calls[1..];
      assert forall i :: 1 <= i < |calls| ==> calls[i] == calls[1..][i - 1];
      if calls[0].NewVersion? then [calls[0].request] + rest else rest
  }

  /** The vendor mapping's lookup: null (`None`) for an unmapped distribution. */
  function VendorOf(mapping: map<string, string>, distribution: string): (v: Option<string>)
    ensures v.Some? <==> distribution in mapping
    ensures v.Some? ==> v.value == mapping[distribution]
  {
    if distribution in mapping then Some(mapping[distribution]) else None
  }

  /**
   * The version with its vendor, as `"%s-%s"` renders it: the version, one
   * hyphen, then the vendor, or `null` when there is none; nothing else.
   */
  function VersionWithVendor(version: string, vendor: Option<string>): (r: string)
    ensures |r| > |version| && r[..|version|] == version && r[|version|] == '-'
    ensures vendor.Some? ==> r[|version| + 1..] == vendor.value
    ensures vendor.None? ==> r[|version| + 1..] == "null"
  {
    version + "-" + (if vendor.Some? then vendor.value else "null")
  }

  /** The detail record of a lookup answer holding exactly one record. */
  function SingleRecord(response: Option<ResultIdsResponse>): (ids: Option<IdsResponse>)
    ensures ids.Some? <==> response.Some? && response.value.result.Some? && |response.value.result.value| == 1
    ensures ids.Some? ==> response.value.result.value == [ids.value]
  {
    if response.Some? && response.value.result.Some? && |response.value.result.value| == 1
    then Some(response.value.result.value[0])
    else None
  }

  /** The query parameters of a run. */
  function MergedParams(env: Environment, queryParams: seq<Entry>): map<string, Values> {
    MergeQueryParams(queryParams, env.foojayClient.defaultQueryParams)
  }

  /** The catalogue's answer to a run's search. */
  function SearchAnswer(env: Environment, queryParams: seq<Entry>): Option<ResultPackageResponse> {
    env.foojayClient.queryPackages(env.foojayProperties.url, MergedParams(env, queryParams))
  }

  /**
   * The package a run selects from the catalogue's answer: there is none
   * exactly when no package of the answer passes the lite filter, and a
   * selected package is one of the answer's packages that passes it.
   */
  function Candidate(env: Environment, queryParams: seq<Entry>): (r: Option<PackageResponse>)
    ensures r.None? <==>
      forall p :: p in Payload(SearchAnswer(env, queryParams)) ==> !env.adapters.libericaFilenameDoesNotContainLite(p)
    ensures r.Some? ==>
      r.value in Payload(SearchAnswer(env, queryParams)) && env.adapters.libericaFilenameDoesNotContainLite(r.value)
  {
    SelectCandidate(SearchAnswer(env, queryParams), env.adapters.libericaFilenameDoesNotContainLite,
                    env.adapters.compareJavaVersion)
  }

  /** The calls made once the version and vendor of package `p` are known. */
  function FindAndPublishTrace(env: Environment, p: PackageResponse, vendor: Option<string>, version: string,
                               versionWithVendor: string, defaultCandidate: bool): (calls: seq<Call>)
    ensures 1 <= |calls| <= 3
    ensures forall i :: 0 <= i < |calls| ==> Stage(calls[i]) == i + 1
  {
    var brokerPlatform := env.adapters.brokerPlatform(p.operatingSystem, p.architecture);
    var releasePlatform := env.adapters.releasePlatform(p.operatingSystem, p.architecture);
    var brokerUrl := env.sdkmanProperties.brokerUrl;
    var check := FindVersion(brokerUrl, versionWithVendor, brokerPlatform);
    if env.sdkmanClient.findVersion(brokerUrl, versionWithVendor, brokerPlatform) then [check]
    else
      var lookup := QueryUrl(p.links.pkgInfoUri);
      match SingleRecord(env.foojayClient.queryUrl(p.links.pkgInfoUri))
      case None => [check, lookup]
      case Some(ids) =>
        var request := VersionRequest(vendor, version, releasePlatform, ids, defaultCandidate);
        [check, lookup, NewVersion(env.sdkmanProperties.releaseUrl, request)]
  }

  /**
   * The calls made for a selected package `p` whose SDKMAN version is
   * `version`: the first is the existence check, on the broker's url and
   * platform, of the version with the vendor the distribution maps to.
   */
  function ProcessVersionTrace(env: Environment, p: PackageResponse, defaultCandidate: bool, version: string): (calls: seq<Call>)
    ensures 1 <= |calls| <= 3
    ensures calls[0] == FindVersion(env.sdkmanProperties.brokerUrl,
                                    VersionWithVendor(version, VendorOf(env.adapters.vendorMapping, p.distribution)),
                                    env.adapters.brokerPlatform(p.operatingSystem, p.architecture))
  {
    var vendor := VendorOf(env.adapters.vendorMapping, p.distribution);
    FindAndPublishTrace(env, p, vendor, version, VersionWithVendor(version, vendor), defaultCandidate)
  }

  /**
   * The calls one run makes: the catalogue search, then the calls made for
   * the selected package when it has an SDKMAN version.
   */
  function ExecuteTrace(env: Environment, queryParams: seq<Entry>, defaultCandidate: bool): seq<Call> {
    var search := QueryPackages(env.foojayProperties.url, MergedParams(env, queryParams));
    match Candidate(env, queryParams)
    case None => [search]
    case Some(p) =>
      match env.adapters.format(p)
      case None => [search]
      case Some(version) => [search] + ProcessVersionTrace(env, p, defaultCandidate, version)
  }

  /** The migration service. */
  class JavaMigration {
    const foojayClient: FoojayClient
    const sdkmanClient: SdkmanClient
    const foojayProperties: FoojayProperties
    const sdkmanProperties: SdkmanProperties
    const adapters: Adapters

    /** The remote calls made so far, oldest first. */
    ghost var trace: seq<Call>

    constructor (foojayClient: FoojayClient, sdkmanClient: SdkmanClient, foojayProperties: FoojayProperties,
                 sdkmanProperties: SdkmanProperties, adapters: Adapters)
      ensures Env() == Environment(foojayClient, sdkmanClient, foojayProperties, sdkmanProperties, adapters)
      ensures trace == []
    {
      this.foojayClient := foojayClient;
      this.sdkmanClient := sdkmanClient;
      this.foojayProperties := foojayProperties;
      this.sdkmanProperties := sdkmanProperties;
      this.adapters := adapters;
      trace := [];
    }

    function Env(): Environment {
      Environment(foojayClient, sdkmanClient, foojayProperties, sdkmanProperties, adapters)
    }

    /** One migration run. */
    method Execute(queryParams: seq<Entry>, defaultCandidate: bool)
      modifies this
      ensures trace == old(trace) + ExecuteTrace(Env(), queryParams, defaultCandidate)
    {
      var foojayQueryParams := MergeQueryParams(queryParams, foojayClient.defaultQueryParams);
      ghost var search := QueryPackages(foojayProperties.url, foojayQueryParams);
      ghost var before := trace;
      trace := trace + [search];
      var resultPackageResponse := foojayClient.queryPackages(foojayProperties.url, foojayQueryParams);
      var packageResponse := SelectCandidate(resultPackageResponse, adapters.libericaFilenameDoesNotContainLite,
                                             adapters.compareJavaVersion);
      ghost var env := Env();
      assert MergedParams(env, queryParams) == foojayQueryParams;
      assert env.foojayClient.queryPackages(env.foojayProperties.url, MergedParams(env, queryParams)) == resultPackageResponse;
      assert packageResponse == Candidate(env, queryParams);
      if packageResponse.Some? {
        var sdkmanVersion := adapters.format(packageResponse.value);
        if sdkmanVersion.Some? {
          ghost var rest := ProcessVersionTrace(env, packageResponse.value, defaultCandidate, sdkmanVersion.value);
          ProcessVersion(packageResponse.value, defaultCandidate, sdkmanVersion.value);
          assert trace == before + ([search] + rest);
          assert ExecuteTrace(env, queryParams, defaultCandidate) == [search] + rest;
        } else {
          assert ExecuteTrace(env, queryParams, defaultCandidate) == [search];
        }
      } else {
        assert ExecuteTrace(env, queryParams, defaultCandidate) == [search];
      }
    }

    /** Composes the vendor and the version with vendor, then checks and publishes. */
    method ProcessVersion(packageResponse: PackageResponse, defaultCandidate: bool, version: string)
      modifies this
      ensures trace == old(trace) + ProcessVersionTrace(Env(), packageResponse, defaultCandidate, version)
    {
      var sdkmanVendor := VendorOf(adapters.vendorMapping, packageResponse.distribution);
      var sdkmanVersionWithVendor := VersionWithVendor(version, sdkmanVendor);
      FindAndPublish(packageResponse, sdkmanVendor, version, sdkmanVersionWithVendor, defaultCandidate);
    }

    /**
     * Asks the broker whether the version exists on the package's broker
     * platform; if not, looks up the package's detail and, when it holds
     * exactly one record, publishes a request on the release platform.
     */
    method FindAndPublish(packageResponse: PackageResponse, sdkmanVendor: Option<string>, version: string,
                          sdkmanVersionWithVendor: string, defaultCandidate: bool)
      modifies this
      ensures trace == old(trace) + FindAndPublishTrace(Env(), packageResponse, sdkmanVendor, version,
                                                        sdkmanVersionWithVendor, defaultCandidate)
    {
      var sdkmanBrokerPlatform := adapters.brokerPlatform(packageResponse.operatingSystem, packageResponse.architecture);
      var sdkmanReleasePlatform := adapters.releasePlatform(packageResponse.operatingSystem, packageResponse.architecture);

      trace := trace + [FindVersion(sdkmanProperties.brokerUrl, sdkmanVersionWithVendor, sdkmanBrokerPlatform)];
      var sdkmanVersionExists := sdkmanClient.findVersion(sdkmanProperties.brokerUrl, sdkmanVersionWithVendor,
                                                          sdkmanBrokerPlatform);
      if sdkmanVersionExists {
        return;
      }
      trace := trace + [QueryUrl(packageResponse.links.pkgInfoUri)];
      var ephemeralResponse := foojayClient.queryUrl(packageResponse.links.pkgInfoUri);
      var idsResponse := SingleRecord(ephemeralResponse);
      if idsResponse.Some? {
        var versionRequest := VersionRequest(sdkmanVendor, version, sdkmanReleasePlatform, idsResponse.value,
                                             defaultCandidate);
        trace := trace + [NewVersion(sdkmanProperties.releaseUrl, versionRequest)];
      }
    }
  }
}
