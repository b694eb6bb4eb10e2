/**
 * The records the two registries exchange with the migration service
 * (the `wire.in` response records of the upstream Foojay catalogue and the
 * publish request sent to SDKMAN). Only the fields the migration reads are
 * kept; a JSON `null` list is `None`.
 */
module Wire {
  import opened Wrappers

  /** The links block of a package; `pkgInfoUri` leads to its detail record. */
  datatype Links = Links(pkgInfoUri: string)

  /** One upstream package (a distributable artifact). */
  datatype PackageResponse = PackageResponse(
    distribution: string,
    javaVersion: string,
    operatingSystem: string,
    architecture: string,
    filename: string,
    links: Links)

  /** The answer of a package search: `result` may be null. */
  datatype ResultPackageResponse = ResultPackageResponse(result: Option<seq<PackageResponse>>)

  /** The detail ("ids") record of one package. */
  datatype IdsResponse = IdsResponse(id: string)

  /** The answer of a detail lookup: `result` may be null. */
  datatype ResultIdsResponse = ResultIdsResponse(result: Option<seq<IdsResponse>>)

  /**
   * The publish request, kept as the five arguments it is built from:
   * vendor (null when the distribution has no vendor), version, release
   * platform, detail record and the default-candidate flag.
   */
  datatype VersionRequest = VersionRequest(
    vendor: Option<string>,
    version: string,
    platform: string,
    ids: IdsResponse,
    defaultCandidate: bool)
}
