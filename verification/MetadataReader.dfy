/** The metadata message as a reader finds it by the names of the keys: every metric with what was registered for it. */
module MetadataReader {
  import opened Bytes
  import opened Cbor
  import opened CborReader
  import opened MetricsRegistry
  import opened MetaGroups

  predicate IsTextOf(i: Option<Item>, text: string) {
    i == Some(Leaf(Text(text)))
  }

  /** The entry of one metric: behind "m", what was registered, and a unit exactly if there is one. */
  predicate IsMetric(i: Item, m: Metric) {
    && GetGet(i, "m", "data_type") == Some(Leaf(UInt(m.dataType)))
    && IsTextOf(GetGet(i, "m", "label"), m.descr.text) && IsTextOf(GetGet(i, "m", "path"), m.path.text)
    && if m.unit.Some? then IsTextOf(GetGet(i, "m", "unit"), m.unit.value.text) else GetGet(i, "m", "unit") == None
  }

  lemma MetricReadsBack(m: Metric)
    ensures MetricItems(m)[0] == Leaf(Text(m.key.text)) && IsMetric(MetricItems(m)[1], m)
  {
    assert "label"[0] != "path"[0] && "label"[0] != "data_type"[0] && "label"[0] != "unit"[0];
    assert "path"[0] != "data_type"[0] && "path"[0] != "unit"[0] && "data_type"[0] != "unit"[0];
    var es := Described(m);
    NestedReadsBack(m.key.text, "m", es);
    LookupAt(es, "label", 0);
    LookupAt(es, "path", 1);
    LookupAt(es, "data_type", 2);
    if m.unit.Some? {
      LookupAt(es, "unit", 3);
    } else {
      LookupNone(es, "unit");
    }
  }

  lemma NestedReadsBack(key: string, inner: string, items: seq<Item>)
    ensures Get(Nested(key, inner, items)[1], inner) == Some(Map(items))
    ensures Lookup(Nested(key, inner, items), key) == Some(Nested(key, inner, items)[1])
  {
    LookupPair(inner, Map(items), inner);
    LookupPair(key, Nested(key, inner, items)[1], key);
  }

  /** The entries of these metrics under their keys, in their order. */
  predicate AreMetrics(es: seq<Item>, ms: seq<Metric>) {
    && |es| == 2 * |ms|
    && forall k :: 0 <= k < |ms| ==> es[2 * k] == Leaf(Text(ms[k].key.text)) && IsMetric(es[2 * k + 1], ms[k])
  }

  lemma {:induction false} MetricsReadBack(ms: seq<Metric>)
    ensures AreMetrics(AllMetricItems(ms), ms)
    decreases |ms|
  {
    hide IsMetric, MetricItems;
    if ms != [] {
      var rest, m := ms[..|ms| - 1], ms[|ms| - 1];
      MetricsReadBack(rest);
      MetricReadsBack(m);
      var es := AllMetricItems(ms);
      forall k | 0 <= k < |ms| ensures es[2 * k] == Leaf(Text(ms[k].key.text)) && IsMetric(es[2 * k + 1], ms[k]) {
        if k < |rest| {
          assert es[2 * k] == AllMetricItems(rest)[2 * k] && es[2 * k + 1] == AllMetricItems(rest)[2 * k + 1];
        }
      }
    }
  }

  /** The metrics whose tag is the string at one address, in registry order: those and no others. */
  function Tagged(ms: seq<Metric>, address: nat): seq<Metric> {
    if ms == [] then [] else (if ms[0].tag.address == address then [ms[0]] else []) + Tagged(ms[1..], address)
  }

  lemma {:induction false} TaggedSnoc(ms: seq<Metric>, m: Metric, address: nat)
    ensures Tagged(ms + [m], address) == Tagged(ms, address) + if m.tag.address == address then [m] else []
    decreases |ms|
  {
    if ms == [] {
      assert ms + [m] == [m] && [m][1..] == [];
    } else {
      assert (ms + [m])[1..] == ms[1..] + [m];
      TaggedSnoc(ms[1..], m, address);
      Grouped3(if ms[0].tag.address == address then [ms[0]] else [], Tagged(ms[1..], address),
               if m.tag.address == address then [m] else []);
    }
  }

  lemma Grouped3(a: seq<Metric>, b: seq<Metric>, c: seq<Metric>)
    ensures a + (b + c) == a + b + c
  {
  }

  lemma {:induction false} OfTagIsTagged(ms: seq<Metric>, address: nat)
    ensures OfTag(ms, address) == Tagged(ms, address)
    decreases |ms|
  {
    if ms != [] {
      var rest, m := ms[..|ms| - 1], ms[|ms| - 1];
      assert ms == rest + [m];
      OfTagIsTagged(rest, address);
      TaggedSnoc(rest, m, address);
    }
  }

  /** Group `k` of the map: behind "d" of its entry, the metrics with the tag's address. */
  predicate IsGroup(es: seq<Item>, k: nat, tag: CStr, ms: seq<Metric>)
    requires 2 * k + 1 < |es|
  {
    && es[2 * k] == Leaf(Text(tag.text))
    && var body := Get(es[2 * k + 1], "d");
       body.Some? && body.value.Map? && AreMetrics(body.value.entries, Tagged(ms, tag.address))
  }

  lemma {:induction false} GroupReadsBack(ms: seq<Metric>, tags: seq<CStr>, k: nat)
    requires k < |tags|
    ensures IsGroup(AllGroups(ms, tags), k, tags[k], ms)
    decreases |tags|
  {
    hide AllMetricItems, OfTag, AreMetrics, Tagged;
    var es, n := AllGroups(ms, tags), |tags| - 1;
    if k < n {
      GroupReadsBack(ms, tags[..n], k);
      assert es[2 * k] == AllGroups(ms, tags[..n])[2 * k] && es[2 * k + 1] == AllGroups(ms, tags[..n])[2 * k + 1];
    } else {
      var t := tags[n];
      NestedReadsBack(t.text, "d", AllMetricItems(OfTag(ms, t.address)));
      MetricsReadBack(OfTag(ms, t.address));
      OfTagIsTagged(ms, t.address);
    }
  }

  /** Some metric has the tag `a`, and none up to it has a tag with the address of `b`. */
  predicate OccursBefore(ms: seq<Metric>, a: CStr, b: CStr) {
    exists i :: 0 <= i < |ms| && ms[i].tag == a && forall j :: 0 <= j <= i ==> ms[j].tag.address != b.address
  }

  lemma OccursBeforeMore(ms: seq<Metric>, m: Metric, a: CStr, b: CStr)
    requires OccursBefore(ms, a, b)
    ensures OccursBefore(ms + [m], a, b)
  {
    var i :| 0 <= i < |ms| && ms[i].tag == a && forall j :: 0 <= j <= i ==> ms[j].tag.address != b.address;
    assert (ms + [m])[i] == ms[i];
  }

  /** The groups stand in the order in which their tags first occur in the registry. */
  lemma {:induction false} GroupsInOrder(ms: seq<Metric>, k: nat, l: nat)
    requires k < l < |FirstTags(ms)|
    ensures OccursBefore(ms, FirstTags(ms)[k], FirstTags(ms)[l])
    decreases |ms|
  {
    hide HasTag, OccursBefore;
    var rest, m := ms[..|ms| - 1], ms[|ms| - 1];
    var tags := FirstTags(rest);
    assert ms == rest + [m];
    if l < |tags| {
      GroupsInOrder(rest, k, l);
      OccursBeforeMore(rest, m, tags[k], tags[l]);
    } else {
      var i := FirstTagOccurs(rest, k);
      FirstTagsAre(rest);
      forall j | 0 <= j < |rest| ensures rest[j].tag.address != m.tag.address {
        assert HasTag(tags, rest[j].tag.address);
      }
      NewTagOccursLast(rest, m, i);
    }
  }

  lemma NewTagOccursLast(rest: seq<Metric>, m: Metric, i: nat)
    requires i < |rest| && forall j :: 0 <= j < |rest| ==> rest[j].tag.address != m.tag.address
    ensures OccursBefore(rest + [m], rest[i].tag, m.tag)
  {
    var all := rest + [m];
    assert all[i] == rest[i] && forall j :: 0 <= j <= i ==> all[j] == rest[j];
  }

  /** Whatever is registered: behind "M" and "d", one group for each tag address in order of first occurrence. */
  lemma MetadataReadsBack(ms: seq<Metric>)
    requires ms != []
    ensures var groups := GetGet(Map(MetaEntries(ms)), "M", "d");
      && groups.Some? && groups.value.Map? && |groups.value.entries| == 2 * |FirstTags(ms)|
      && forall k :: 0 <= k < |FirstTags(ms)| ==> IsGroup(groups.value.entries, k, FirstTags(ms)[k], ms)
  {
    hide AllGroups, FirstTags, IsGroup;
    NestedReadsBack("M", "d", AllGroups(ms, FirstTags(ms)));
    forall k | 0 <= k < |FirstTags(ms)| ensures IsGroup(AllGroups(ms, FirstTags(ms)), k, FirstTags(ms)[k], ms) {
      GroupReadsBack(ms, FirstTags(ms), k);
    }
  }
}
