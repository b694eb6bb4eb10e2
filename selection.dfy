/**
 * Choosing the one upstream package a migration run works on: the package
 * list of the search answer (nothing when the answer or its list is
 * absent or empty), filtered by the eligibility predicate and reduced to a
 * package with the greatest `javaVersion`.
 */
module Selection {
  import opened Wrappers
  import opened Wire

  /**
   * The part of `java.util.Comparator`'s general contract the selection
   * relies on: the sign of `compare` is antisymmetric (so `compare(a, a)`
   * is 0) and "at least" is transitive.
   */
  ghost predicate ComparatorContract(compare: (string, string) -> int) {
    && (forall a, b :: compare(a, b) >= 0 <==> compare(b, a) <= 0)
    && (forall a, b, c :: compare(a, b) >= 0 && compare(b, c) >= 0 ==> compare(a, c) >= 0)
  }

  /**
   * The packages of a search answer, once the answer has been kept only if
   * its list is non-null and non-empty and that list has been flattened.
   * The emptiness test changes nothing: an empty list flattens to nothing.
   */
  function Payload(response: Option<ResultPackageResponse>): (ps: seq<PackageResponse>)
    ensures ps == if response.Some? && response.value.result.Some? then response.value.result.value else []
  {
    if response.Some? && response.value.result.Some? && response.value.result.value != []
    then response.value.result.value
    else []
  }

  /** The packages of `ps` that satisfy `keep`, in their order. */
  function Filter(ps: seq<PackageResponse>, keep: PackageResponse -> bool): (r: seq<PackageResponse>)
    ensures forall p :: p in r <==> p in ps && keep(p)
    ensures |r| <= |ps|
    decreases |ps|
  {
    if ps == [] then []
    else (if keep(ps[0]) then [ps[0]] else []) + Filter(ps[1..], keep)
  }

  /**
   * The reduction behind `max`: the accumulated package is kept when it
   * compares at least equal to the next one, otherwise the next one takes
   * its place.
   */
  function MaxBy(best: PackageResponse, rest: seq<PackageResponse>, compare: (string, string) -> int): (r: PackageResponse)
    ensures r == best || r in rest
    decreases |rest|
  {
    if rest == [] then best
    else
      var next := if compare(best.javaVersion, rest[0].javaVersion) >= 0 then best else rest[0];
      MaxBy(next, rest[1..], compare)
  }

  /** `max` by `javaVersion`: nothing for an empty stream. */
  function Max(ps: seq<PackageResponse>, compare: (string, string) -> int): (r: Option<PackageResponse>)
    ensures r.None? <==> ps == []
    ensures r.Some? ==> r.value in ps
  {
    if ps == [] then None else Some(MaxBy(ps[0], ps[1..], compare))
  }

  /** The package a run goes on with, if any. */
  function SelectCandidate(response: Option<ResultPackageResponse>, eligible: PackageResponse -> bool,
                           compare: (string, string) -> int): (r: Option<PackageResponse>)
    ensures r.None? <==> forall p :: p in Payload(response) ==> !eligible(p)
    ensures r.Some? ==> r.value in Payload(response) && eligible(r.value)
  {
    var ps := Filter(Payload(response), eligible);
    assert ps == [] <==> forall p :: p in Payload(response) ==> !eligible(p) by {
      if ps != [] {
        assert ps[0] in ps;
      }
    }
    Max(ps, compare)
  }

  /** The result of the reduction compares at least equal to every package it has seen. */
  lemma {:induction false} MaxByIsMaximal(best: PackageResponse, rest: seq<PackageResponse>, compare: (string, string) -> int)
    requires ComparatorContract(compare)
    ensures compare(MaxBy(best, rest, compare).javaVersion, best.javaVersion) >= 0
    ensures forall p :: p in rest ==> compare(MaxBy(best, rest, compare).javaVersion, p.javaVersion) >= 0
    decreases |rest|
  {
    var r := MaxBy(best, rest, compare);
    if rest == [] {
      assert compare(best.javaVersion, best.javaVersion) >= 0;
    } else {
      var next := if compare(best.javaVersion, rest[0].javaVersion) >= 0 then best else rest[0];
      MaxByIsMaximal(next, rest[1..], compare);
      assert compare(next.javaVersion, best.javaVersion) >= 0;
      assert compare(next.javaVersion, rest[0].javaVersion) >= 0;
      forall p | p in rest ensures compare(r.javaVersion, p.javaVersion) >= 0 {
        if p != rest[0] {
          assert p in rest[1..];
        }
      }
    }
  }

  /**
   * The selected package has a `javaVersion` at least that of every
   * eligible package of the answer. Which of several equal maxima is
   * chosen is left open.
   */
  lemma SelectedIsMaximal(response: Option<ResultPackageResponse>, eligible: PackageResponse -> bool,
                          compare: (string, string) -> int, p: PackageResponse)
    requires ComparatorContract(compare)
    requires SelectCandidate(response, eligible, compare) == Some(p)
    ensures forall q :: q in Payload(response) && eligible(q) ==> compare(p.javaVersion, q.javaVersion) >= 0
  {
    var ps := Filter(Payload(response), eligible);
    MaxByIsMaximal(ps[0], ps[1..], compare);
    forall q | q in Payload(response) && eligible(q) ensures compare(p.javaVersion, q.javaVersion) >= 0 {
      assert q in ps;
      if q != ps[0] {
        assert q in ps[1..];
      }
    }
  }
}
