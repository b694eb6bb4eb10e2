/**
 * Merging the caller's query parameters with the catalogue client's
 * defaults: the two entry streams are concatenated and collected into one
 * map, and on a key present in both the caller's list wins unless it is
 * empty.
 */
module QueryParams {

  /** The values of one query parameter, e.g. ["jdk"]. */
  type Values = seq<string>

  /** One entry of a `Map<String, List<String>>`. */
  datatype Entry = Entry(key: string, value: Values)

  /** No key occurs twice: the entries are those of one map. */
  predicate DistinctKeys(es: seq<Entry>) {
    forall i, j :: 0 <= i < j < |es| ==> es[i].key != es[j].key
  }

  /** The map whose entry set is `es`. */
  function AsMap(es: seq<Entry>): (m: map<string, Values>)
    ensures m.Keys == set i | 0 <= i < |es| :: es[i].key
    ensures DistinctKeys(es) ==> forall i :: 0 <= i < |es| ==> m[es[i].key] == es[i].value
    decreases |es|
  {
    if es == [] then map[]
    else
      var m := AsMap(es[1..])[es[0].key := es[0].value];
      assert forall i :: 1 <= i < |es| ==> es[i] == es[1..][i - 1];
      m
  }

  /** The merge function: the earlier (caller's) list unless it is empty. */
  function PreferNonEmpty(left: Values, right: Values): (v: Values)
    ensures v == left || v == right
    ensures v == [] ==> left == [] && right == []
  {
    if left == [] then right else left
  }

  /** One step of the collector: put the entry, merging with a value already present. */
  function Accumulate(acc: map<string, Values>, e: Entry): map<string, Values> {
    if e.key in acc then acc[e.key := PreferNonEmpty(acc[e.key], e.value)]
    else acc[e.key := e.value]
  }

  /** The collector run over a stream of entries, starting from `acc`. */
  function Collect(es: seq<Entry>, acc: map<string, Values>): map<string, Values>
    decreases |es|
  {
    if es == [] then acc else Collect(es[1..], Accumulate(acc, es[0]))
  }

  /** The caller's entries followed by the defaults, collected into one map. */
  function MergeQueryParams(caller: seq<Entry>, defaults: seq<Entry>): map<string, Values> {
    Collect(caller + defaults, map[])
  }

  /** Collecting a concatenation is collecting its two parts one after the other. */
  lemma {:induction false} CollectAppend(a: seq<Entry>, b: seq<Entry>, acc: map<string, Values>)
    ensures Collect(a + b, acc) == Collect(b, Collect(a, acc))
    decreases |a|
  {
    if a != [] {
      assert (a + b)[0] == a[0];
      assert (a + b)[1..] == a[1..] + b;
      CollectAppend(a[1..], b, Accumulate(acc, a[0]));
    } else {
      assert a + b == b;
    }
  }

  /**
   * Collecting the entries of one map into `acc`: each of its keys is merged
   * with the value `acc` already holds, every other key of `acc` is untouched.
   */
  lemma {:induction false} CollectDistinct(es: seq<Entry>, acc: map<string, Values>)
    requires DistinctKeys(es)
    ensures var r, m := Collect(es, acc), AsMap(es);
      && r.Keys == acc.Keys + m.Keys
      && (forall k :: k in m ==> r[k] == if k in acc then PreferNonEmpty(acc[k], m[k]) else m[k])
      && (forall k :: k in acc && k !in m ==> r[k] == acc[k])
    decreases |es|
  {
    if es != [] {
      var e, rest := es[0], es[1..];
      assert DistinctKeys(rest) by {
        forall i, j | 0 <= i < j < |rest| ensures rest[i].key != rest[j].key {
          assert rest[i] == es[i + 1] && rest[j] == es[j + 1];
        }
      }
      forall i | 0 <= i < |rest| ensures rest[i].key != e.key {
        assert rest[i] == es[i + 1];
      }
      assert e.key !in AsMap(rest);
      assert AsMap(es) == AsMap(rest)[e.key := e.value];
      CollectDistinct(rest, Accumulate(acc, e));
    }
  }

  /**
   * The merged map has the keys of both maps; on a shared key the caller's
   * list wins unless it is empty, and a key in one map only keeps that
   * map's value (an empty caller list with no default stays empty).
   */
  lemma MergeQueryParamsSpec(caller: seq<Entry>, defaults: seq<Entry>)
    requires DistinctKeys(caller) && DistinctKeys(defaults)
    ensures var m, c, d := MergeQueryParams(caller, defaults), AsMap(caller), AsMap(defaults);
      && m.Keys == c.Keys + d.Keys
      && (forall k :: k in c && k in d ==> m[k] == if c[k] == [] then d[k] else c[k])
      && (forall k :: k in c && k !in d ==> m[k] == c[k])
      && (forall k :: k !in c && k in d ==> m[k] == d[k])
  {
    CollectAppend(caller, defaults, map[]);
    CollectDistinct(caller, map[]);
    assert Collect(caller, map[]) == AsMap(caller);
    CollectDistinct(defaults, AsMap(caller));
  }

  /**
   * A caller's `type` list replaces the default one and the default `arch`
   * is added; an empty caller `type` list falls back to the default.
   */
  lemma MergeExamples()
    ensures MergeQueryParams([Entry("type", ["jdk"])], [Entry("type", ["jre"]), Entry("arch", ["x64"])])
            == map["type" := ["jdk"], "arch" := ["x64"]]
    ensures MergeQueryParams([Entry("type", [])], [Entry("type", ["jre"]), Entry("arch", ["x64"])])
            == map["type" := ["jre"], "arch" := ["x64"]]
  {
    var defaults := [Entry("type", ["jre"]), Entry("arch", ["x64"])];
    CollectAppend([Entry("type", ["jdk"])], defaults, map[]);
    assert Collect([Entry("type", ["jdk"])], map[]) == map["type" := ["jdk"]];
    CollectAppend([Entry("type", [])], defaults, map[]);
    assert Collect([Entry("type", [])], map[]) == map["type" := []];
    assert "type" != "arch";
    assert Collect(defaults, map["type" := ["jdk"]]) == Collect([defaults[1]], map["type" := ["jdk"]]);
    assert Collect(defaults, map["type" := []]) == Collect([defaults[1]], map["type" := ["jre"]]);
  }
}
