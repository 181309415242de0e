/**
  The metadata message: registered metrics grouped under their tags. Tags are compared by address, so
  equal texts at two addresses make two groups.
 */
module MetaGroups {
  import opened Cbor
  import opened CborEncoder
  import opened MetricsRegistry

  /** The metrics whose tag is the string at `address`, in registry order. */
  function OfTag(ms: seq<Metric>, address: nat): seq<Metric> {
    if ms == [] then [] else
      OfTag(ms[..|ms| - 1], address) + if ms[|ms| - 1].tag.address == address then [ms[|ms| - 1]] else []
  }

  predicate HasTag(tags: seq<CStr>, address: nat) {
    tags != [] && (tags[|tags| - 1].address == address || HasTag(tags[..|tags| - 1], address))
  }

  predicate TagsDistinct(tags: seq<CStr>) {
    tags == [] || (!HasTag(tags[..|tags| - 1], tags[|tags| - 1].address) && TagsDistinct(tags[..|tags| - 1]))
  }

  /** One tag per address, in the order of first occurrence. */
  function FirstTags(ms: seq<Metric>): seq<CStr> {
    if ms == [] then [] else
      var tags := FirstTags(ms[..|ms| - 1]);
      var t := ms[|ms| - 1].tag;
      if HasTag(tags, t.address) then tags else tags + [t]
  }

  /** The shape of every entry: a key whose map has one entry, again a map. */
  function Nested(key: string, inner: string, items: seq<Item>): (es: seq<Item>)
    ensures |es| == 2 && es[0] == Leaf(Text(key))
  {
    [Leaf(Text(key)), Map([Leaf(Text(inner)), Map(items)])]
  }

  function Described(m: Metric): seq<Item> {
    [Leaf(Text("label")), Leaf(Text(m.descr.text)), Leaf(Text("path")), Leaf(Text(m.path.text)),
     Leaf(Text("data_type")), Leaf(UInt(m.dataType))]
    + if m.unit.Some? then [Leaf(Text("unit")), Leaf(Text(m.unit.value.text))] else []
  }

  function MetricItems(m: Metric): (es: seq<Item>)
    ensures |es| == 2
  {
    Nested(m.key.text, "m", Described(m))
  }

  function AllMetricItems(ms: seq<Metric>): (es: seq<Item>)
    ensures |es| == 2 * |ms|
  {
    if ms == [] then [] else AllMetricItems(ms[..|ms| - 1]) + MetricItems(ms[|ms| - 1])
  }

  /** A tag and the map of everything under it. */
  function GroupItems(ms: seq<Metric>, tag: CStr): (es: seq<Item>)
    ensures |es| == 2
  {
    Nested(tag.text, "d", AllMetricItems(OfTag(ms, tag.address)))
  }

  function AllGroups(ms: seq<Metric>, tags: seq<CStr>): (es: seq<Item>)
    ensures |es| == 2 * |tags|
  {
    if tags == [] then [] else AllGroups(ms, tags[..|tags| - 1]) + GroupItems(ms, tags[|tags| - 1])
  }

  function MetaEntries(ms: seq<Metric>): seq<Item> {
    if ms == [] then [] else Nested("M", "d", AllGroups(ms, FirstTags(ms)))
  }

  // ---- the groups are a partition ----

  lemma TagSnoc(tags: seq<CStr>, t: CStr, address: nat)
    ensures HasTag(tags + [t], address) <==> t.address == address || HasTag(tags, address)
    ensures TagsDistinct(tags + [t]) <==> !HasTag(tags, t.address) && TagsDistinct(tags)
  {
    assert (tags + [t])[..|tags|] == tags;
  }

  predicate AddressIn(ms: seq<Metric>, address: nat) {
    exists i :: 0 <= i < |ms| && ms[i].tag.address == address
  }

  lemma AddressSnoc(ms: seq<Metric>, m: Metric, address: nat)
    ensures AddressIn(ms + [m], address) <==> m.tag.address == address || AddressIn(ms, address)
  {
    var all := ms + [m];
    assert all[|ms|] == m;
    if AddressIn(ms, address) {
      var i :| 0 <= i < |ms| && ms[i].tag.address == address;
      assert all[i] == ms[i];
    }
  }

  lemma {:induction false} TagsAreAddresses(ms: seq<Metric>, address: nat)
    ensures HasTag(FirstTags(ms), address) <==> AddressIn(ms, address)
    decreases |ms|
  {
    hide HasTag, AddressIn;
    if ms == [] {
      NoTags(address);
    } else {
      var rest, m := ms[..|ms| - 1], ms[|ms| - 1];
      assert ms == rest + [m];
      TagsAreAddresses(rest, address);
      AddressSnoc(rest, m, address);
      TagSnoc(FirstTags(rest), m.tag, address);
    }
  }

  lemma NoTags(address: nat)
    ensures !HasTag([], address) && !AddressIn([], address) && TagsDistinct([])
  {
  }

  lemma {:induction false} FirstTagsDistinct(ms: seq<Metric>)
    ensures TagsDistinct(FirstTags(ms))
    decreases |ms|
  {
    hide HasTag;
    if ms != [] {
      var rest, t := ms[..|ms| - 1], ms[|ms| - 1].tag;
      FirstTagsDistinct(rest);
      TagSnoc(FirstTags(rest), t, t.address);
    }
  }

  /** Exactly the tag addresses that occur, each once. */
  lemma FirstTagsAre(ms: seq<Metric>)
    ensures TagsDistinct(FirstTags(ms))
    ensures forall i :: 0 <= i < |ms| ==> HasTag(FirstTags(ms), ms[i].tag.address)
    ensures forall a :: HasTag(FirstTags(ms), a) ==> AddressIn(ms, a)
  {
    hide HasTag, TagsDistinct, FirstTags;
    FirstTagsDistinct(ms);
    forall a ensures HasTag(FirstTags(ms), a) <==> AddressIn(ms, a) {
      TagsAreAddresses(ms, a);
    }
  }

  /** All metrics of the listed tags together. */
  function Grouped(ms: seq<Metric>, tags: seq<CStr>): seq<Metric> {
    if tags == [] then [] else Grouped(ms, tags[..|tags| - 1]) + OfTag(ms, tags[|tags| - 1].address)
  }

  lemma {:induction false} GroupedSnoc(ms: seq<Metric>, m: Metric, tags: seq<CStr>)
    requires TagsDistinct(tags)
    ensures multiset(Grouped(ms + [m], tags)) ==
      multiset(Grouped(ms, tags)) + if HasTag(tags, m.tag.address) then multiset{m} else multiset{}
    decreases |tags|
  {
    if tags != [] {
      var rest, a := tags[..|tags| - 1], tags[|tags| - 1].address;
      GroupedSnoc(ms, m, rest);
      OfTagSnoc(ms, m, a);
      assert Grouped(ms + [m], tags) == Grouped(ms + [m], rest) + OfTag(ms + [m], a);
      assert Grouped(ms, tags) == Grouped(ms, rest) + OfTag(ms, a);
    }
  }

  lemma OfTagSnoc(ms: seq<Metric>, m: Metric, a: nat)
    ensures OfTag(ms + [m], a) == OfTag(ms, a) + if m.tag.address == a then [m] else []
  {
    assert (ms + [m])[..|ms|] == ms;
  }

  lemma {:induction false} NoMember(ms: seq<Metric>, address: nat)
    requires forall i :: 0 <= i < |ms| ==> ms[i].tag.address != address
    ensures OfTag(ms, address) == []
    decreases |ms|
  {
    if ms != [] {
      NoMember(ms[..|ms| - 1], address);
    }
  }

  lemma NothingGrouped()
    ensures Grouped([], []) == []
  {
  }

  lemma GroupedUnderNew(ms: seq<Metric>, tags: seq<CStr>, t: CStr)
    ensures Grouped(ms, tags + [t]) == Grouped(ms, tags) + OfTag(ms, t.address)
  {
    assert (tags + [t])[..|tags|] == tags;
  }

  /** Every registered metric is in exactly one group, and nothing else is. */
  lemma {:induction false} GroupsPartition(ms: seq<Metric>)
    ensures multiset(Grouped(ms, FirstTags(ms))) == multiset(ms)
    decreases |ms|
  {
    hide Grouped, OfTag;
    if ms == [] {
      NothingGrouped();
    } else {
      var rest, m := ms[..|ms| - 1], ms[|ms| - 1];
      assert ms == rest + [m];
      GroupsPartition(rest);
      FirstTagsAre(rest);
      var tags := FirstTags(rest);
      GroupedSnoc(rest, m, tags);
      if !HasTag(tags, m.tag.address) {
        NoMember(rest, m.tag.address);
        OfTagSnoc(rest, m, m.tag.address);
        GroupedUnderNew(ms, tags, m.tag);
      }
    }
  }

  // ---- the groups as they are emitted ----

  /** The entries of the inner map of a `Nested` value. */
  function Body(i: Item): seq<Item> {
    if i.Map? && |i.entries| == 2 && i.entries[1].Map? then i.entries[1].entries else []
  }

  /** The entries of all groups of an emitted map, one after another. */
  function Bodies(es: seq<Item>): seq<Item>
    decreases |es|
  {
    if |es| < 2 then [] else Bodies(es[..|es| - 2]) + Body(es[|es| - 1])
  }

  lemma {:induction false} MetricItemsConcat(a: seq<Metric>, b: seq<Metric>)
    ensures AllMetricItems(a + b) == AllMetricItems(a) + AllMetricItems(b)
    decreases |b|
  {
    hide MetricItems;
    if b == [] {
      assert a + b == a;
    } else {
      var rest, m := b[..|b| - 1], b[|b| - 1];
      assert (a + b)[..|a + b| - 1] == a + rest && (a + b)[|a + b| - 1] == m;
      MetricItemsConcat(a, rest);
    }
  }

  lemma {:induction false} EmittedAreGrouped(ms: seq<Metric>, tags: seq<CStr>)
    ensures Bodies(AllGroups(ms, tags)) == AllMetricItems(Grouped(ms, tags))
    decreases |tags|
  {
    hide AllMetricItems, OfTag;
    if tags == [] {
      NoItems();
    } else {
      var rest, t := tags[..|tags| - 1], tags[|tags| - 1];
      EmittedAreGrouped(ms, rest);
      var es := AllGroups(ms, tags);
      assert es[..|es| - 2] == AllGroups(ms, rest) && es[|es| - 1] == GroupItems(ms, t)[1];
      MetricItemsConcat(Grouped(ms, rest), OfTag(ms, t.address));
    }
  }

  /** The emitted metadata holds the entry of every registered metric exactly once. */
  lemma EmittedExactlyOnce(ms: seq<Metric>)
    requires ms != []
    ensures var sent := Grouped(ms, FirstTags(ms));
      && MetaEntries(ms)[0] == Leaf(Text("M"))
      && Bodies(Body(MetaEntries(ms)[1])) == AllMetricItems(sent) && multiset(sent) == multiset(ms)
  {
    GroupsPartition(ms);
    EmittedAreGrouped(ms, FirstTags(ms));
  }

  /** Group `k` stands under the text of its tag and holds exactly the metrics with that tag, in registry order. */
  lemma {:induction false} GroupAt(ms: seq<Metric>, tags: seq<CStr>, k: nat)
    requires k < |tags|
    ensures AllGroups(ms, tags)[2 * k] == Leaf(Text(tags[k].text))
    ensures Body(AllGroups(ms, tags)[2 * k + 1]) == AllMetricItems(OfTag(ms, tags[k].address))
    decreases |tags|
  {
    hide AllMetricItems, OfTag;
    if k < |tags| - 1 {
      GroupAt(ms, tags[..|tags| - 1], k);
    }
  }

  // ---- keys ----

  lemma {:induction false} OfTagMembers(ms: seq<Metric>, address: nat)
    ensures forall m :: m in OfTag(ms, address) <==> m in ms && m.tag.address == address
    decreases |ms|
  {
    if ms != [] {
      OfTagMembers(ms[..|ms| - 1], address);
      assert ms == ms[..|ms| - 1] + [ms[|ms| - 1]];
    }
  }

  lemma {:induction false} OfTagDistinct(ms: seq<Metric>, address: nat)
    requires Distinct(ms)
    ensures Distinct(OfTag(ms, address))
    decreases |ms|
  {
    hide KeyOf;
    if ms != [] {
      var rest, m := ms[..|ms| - 1], ms[|ms| - 1];
      OfTagDistinct(rest, address);
      OfTagMembers(rest, address);
      var group := OfTag(rest, address);
      forall i | 0 <= i < |group| ensures KeyOf(group[i]) != KeyOf(m) {
        assert group[i] in rest;
      }
    }
  }

  lemma {:induction false} MetricKeyAt(ms: seq<Metric>, k: nat)
    requires k < |ms|
    ensures AllMetricItems(ms)[2 * k] == Leaf(Text(ms[k].key.text))
    decreases |ms|
  {
    if k < |ms| - 1 {
      MetricKeyAt(ms[..|ms| - 1], k);
    }
  }

  /** No key occurs twice within a group, given what the registry keeps. */
  lemma GroupKeysDistinct(ms: seq<Metric>, address: nat)
    requires Distinct(ms) && Coherent(ms)
    ensures UniqueKeys(AllMetricItems(OfTag(ms, address)))
  {
    hide AllMetricItems, OfTag;
    var group := OfTag(ms, address);
    OfTagDistinct(ms, address);
    OfTagMembers(ms, address);
    var es := AllMetricItems(group);
    forall i, j | 0 <= i < j < |es| && i % 2 == 0 && j % 2 == 0 ensures es[i] != es[j] {
      var a, b := group[i / 2], group[j / 2];
      MetricKeyAt(group, i / 2);
      MetricKeyAt(group, j / 2);
      assert a in ms && b in ms;
      SameTagSameText(ms, a, b);
      assert KeyOf(a) != KeyOf(b);
    }
  }

  lemma SameTagSameText(ms: seq<Metric>, a: Metric, b: Metric)
    requires Coherent(ms) && a in ms && b in ms && a.tag.address == b.tag.address
    ensures a.tag.text == b.tag.text
  {
    var i :| 0 <= i < |ms| && ms[i] == a;
    var j :| 0 <= j < |ms| && ms[j] == b;
    assert ms[i].tag.text == ms[j].tag.text;
  }

  /** A string address determines its text. */
  predicate Coherent(ms: seq<Metric>) {
    forall i, j ::
      0 <= i < |ms| && 0 <= j < |ms| && ms[i].tag.address == ms[j].tag.address ==> ms[i].tag.text == ms[j].tag.text
  }

  /** Equal tag texts are one string. */
  predicate TagsShared(ms: seq<Metric>) {
    forall i, j ::
      0 <= i < |ms| && 0 <= j < |ms| && ms[i].tag.text == ms[j].tag.text ==> ms[i].tag.address == ms[j].tag.address
  }

  lemma {:induction false} TagAt(tags: seq<CStr>, address: nat)
    ensures HasTag(tags, address) <==> exists k :: 0 <= k < |tags| && tags[k].address == address
    ensures TagsDistinct(tags) ==> forall k, l :: 0 <= k < l < |tags| ==> tags[k].address != tags[l].address
    decreases |tags|
  {
    if tags != [] {
      var rest := tags[..|tags| - 1];
      TagAt(rest, address);
      TagAt(rest, tags[|tags| - 1].address);
      if HasTag(rest, address) {
        var k :| 0 <= k < |rest| && rest[k].address == address;
        assert tags[k].address == address;
      }
    }
  }

  lemma {:induction false} FirstTagOccurs(ms: seq<Metric>, k: nat) returns (i: nat)
    requires k < |FirstTags(ms)|
    ensures i < |ms| && ms[i].tag == FirstTags(ms)[k]
    decreases |ms|
  {
    var rest := ms[..|ms| - 1];
    if k < |FirstTags(rest)| {
      i := FirstTagOccurs(rest, k);
    } else {
      i := |ms| - 1;
    }
  }

  predicate TextsDiffer(tags: seq<CStr>) {
    forall k, l :: 0 <= k < l < |tags| ==> tags[k].text != tags[l].text
  }

  lemma DistinctKeysDiffer(ms: seq<Metric>, tags: seq<CStr>, k: nat, l: nat)
    requires UniqueKeys(AllGroups(ms, tags)) && k < l < |tags|
    ensures tags[k].text != tags[l].text
  {
    hide AllGroups;
    GroupAt(ms, tags, k);
    GroupAt(ms, tags, l);
    assert AllGroups(ms, tags)[2 * k] != AllGroups(ms, tags)[2 * l];
  }

  lemma DifferingTextsAreKeys(ms: seq<Metric>, tags: seq<CStr>, i: nat, j: nat)
    requires TextsDiffer(tags) && i < j < |AllGroups(ms, tags)| && i % 2 == 0 && j % 2 == 0
    ensures AllGroups(ms, tags)[i] != AllGroups(ms, tags)[j]
  {
    hide AllGroups;
    GroupAt(ms, tags, i / 2);
    GroupAt(ms, tags, j / 2);
  }

  lemma KeysAreTexts(ms: seq<Metric>, tags: seq<CStr>)
    ensures UniqueKeys(AllGroups(ms, tags)) <==> TextsDiffer(tags)
  {
    hide AllGroups;
    if UniqueKeys(AllGroups(ms, tags)) {
      forall k, l | 0 <= k < l < |tags| ensures tags[k].text != tags[l].text {
        DistinctKeysDiffer(ms, tags, k, l);
      }
    }
    if TextsDiffer(tags) {
      var es := AllGroups(ms, tags);
      forall i, j | 0 <= i < j < |es| && i % 2 == 0 && j % 2 == 0 ensures es[i] != es[j] {
        DifferingTextsAreKeys(ms, tags, i, j);
      }
    }
  }

  /** The group map has no duplicate key exactly when equal tag texts come from one string. */
  lemma GroupKeysUniqueIff(ms: seq<Metric>)
    requires Coherent(ms)
    ensures UniqueKeys(AllGroups(ms, FirstTags(ms))) <==> TagsShared(ms)
  {
    var tags := FirstTags(ms);
    KeysAreTexts(ms, tags);
    FirstTagsAre(ms);
    TagAt(tags, 0);
    if TagsShared(ms) {
      forall k, l | 0 <= k < l < |tags| ensures tags[k].text != tags[l].text {
        var i := FirstTagOccurs(ms, k);
        var j := FirstTagOccurs(ms, l);
        assert tags[k].address != tags[l].address;
      }
    }
    if UniqueKeys(AllGroups(ms, tags)) {
      forall i, j | 0 <= i < |ms| && 0 <= j < |ms| && ms[i].tag.text == ms[j].tag.text
        ensures ms[i].tag.address == ms[j].tag.address
      {
        var k := TextOfFirst(ms, i);
        var l := TextOfFirst(ms, j);
        assert k == l;
      }
    }
  }

  lemma TextOfFirst(ms: seq<Metric>, i: nat) returns (k: nat)
    requires Coherent(ms) && i < |ms|
    ensures k < |FirstTags(ms)| && FirstTags(ms)[k].address == ms[i].tag.address
    ensures FirstTags(ms)[k].text == ms[i].tag.text
  {
    var tags := FirstTags(ms);
    FirstTagsAre(ms);
    TagAt(tags, ms[i].tag.address);
    k :| 0 <= k < |tags| && tags[k].address == ms[i].tag.address;
    var j := FirstTagOccurs(ms, k);
  }

  // ---- the encoder ----

  function Inside(fs: seq<Level>, key: string, inner: string): seq<Level>
    requires fs != []
  {
    Push(fs, [Leaf(Text(key))]) + [Level(OfMap, [Leaf(Text(inner))])]
  }

  method BeginNested(enc: Encoder, key: string, inner: string)
    requires enc.Ok()
    modifies enc
    ensures enc.Ok() && enc.open == Inside(old(enc.open), key, inner) + [Level(OfMap, [])]
  {
    hide Emitted, Push;
    enc.Put(Text(key));
    ghost var outer := enc.open;
    enc.Open(OfMap);
    PushInside(outer, OfMap, [], [Leaf(Text(inner))]);
    assert [] + [Leaf(Text(inner))] == [Leaf(Text(inner))];
    enc.Put(Text(inner));
    enc.Open(OfMap);
  }

  method EndNested(enc: Encoder, key: string, inner: string, ghost fs: seq<Level>, ghost items: seq<Item>)
    requires enc.Ok() && fs != [] && enc.open == Inside(fs, key, inner) + [Level(OfMap, items)]
    modifies enc
    ensures enc.Ok() && enc.open == Push(fs, Nested(key, inner, items))
  {
    hide Emitted, Push, CloseLast;
    ghost var outer := Push(fs, [Leaf(Text(key))]);
    CloseInside(Inside(fs, key, inner), OfMap, items);
    PushInside(outer, OfMap, [Leaf(Text(inner))], [Map(items)]);
    assert [Leaf(Text(inner))] + [Map(items)] == [Leaf(Text(inner)), Map(items)];
    enc.Close(OfMap);
    CloseInside(outer, OfMap, [Leaf(Text(inner)), Map(items)]);
    PushPush(fs, [Leaf(Text(key))], [Map([Leaf(Text(inner)), Map(items)])]);
    assert [Leaf(Text(key))] + [Map([Leaf(Text(inner)), Map(items)])] == Nested(key, inner, items);
    enc.Close(OfMap);
  }

  /** `encode_metrics_meta_element`. */
  method EncodeMetric(enc: Encoder, m: Metric)
    requires enc.Ok()
    modifies enc
    ensures enc.Ok() && enc.open == Push(old(enc.open), MetricItems(m))
  {
    hide Emitted, Inside;
    ghost var fs := enc.open;
    BeginNested(enc, m.key.text, "m");
    ghost var inside := Inside(fs, m.key.text, "m");
    enc.PutPair("label", Text(m.descr.text));
    enc.PutPair("path", Text(m.path.text));
    enc.PutPair("data_type", UInt(m.dataType));
    if m.unit.Some? {
      enc.PutPair("unit", Text(m.unit.value.text));
    }
    Gained(inside + [Level(OfMap, [])], enc.open, Described(m));
    PushInside(inside, OfMap, [], Described(m));
    assert [] + Described(m) == Described(m);
    EndNested(enc, m.key.text, "m", fs, Described(m));
  }

  /** The inner loop: every metric from `i` on whose tag has the address of the tag at `i`. */
  method EncodeGroup(enc: Encoder, ms: seq<Metric>, i: nat)
    requires enc.Ok() && i < |ms| && forall j :: 0 <= j < i ==> ms[j].tag.address != ms[i].tag.address
    modifies enc
    ensures enc.Ok() && enc.open == Push(old(enc.open), GroupItems(ms, ms[i].tag))
  {
    hide Emitted, Push, Inside, MetricItems, AllMetricItems, Nested, OfTag;
    ghost var fs := enc.open;
    var tag := ms[i].tag;
    BeginNested(enc, tag.text, "d");
    ghost var inside := Inside(fs, tag.text, "d");
    NoMember(ms[..i], tag.address);
    NoItems();
    var j := i;
    while j < |ms|
      invariant i <= j <= |ms| && enc.Ok()
      invariant enc.open == inside + [Level(OfMap, AllMetricItems(OfTag(ms[..j], tag.address)))]
    {
      assert ms[..j + 1] == ms[..j] + [ms[j]];
      ghost var done := OfTag(ms[..j], tag.address);
      OfTagSnoc(ms[..j], ms[j], tag.address);
      if ms[j].tag.address == tag.address {
        PushInside(inside, OfMap, AllMetricItems(done), MetricItems(ms[j]));
        MetricItemsSnoc(done, ms[j]);
        EncodeMetric(enc, ms[j]);
      } else {
        assert done + [] == done;
      }
      j := j + 1;
    }
    assert ms[..j] == ms;
    EndNested(enc, tag.text, "d", fs, AllMetricItems(OfTag(ms, tag.address)));
  }

  lemma NoItems()
    ensures AllMetricItems([]) == []
  {
  }

  lemma MetricItemsSnoc(ms: seq<Metric>, m: Metric)
    ensures AllMetricItems(ms + [m]) == AllMetricItems(ms) + MetricItems(m)
  {
    assert (ms + [m])[..|ms|] == ms;
  }

  /** `esp_insights_cbor_encode_meta_metrics`: skip a metric whose tag address has occurred, else encode its group. */
  method EncodeMetaMetrics(enc: Encoder, ms: seq<Metric>)
    requires enc.Ok()
    modifies enc
    ensures enc.Ok() && enc.open == Push(old(enc.open), MetaEntries(ms))
  {
    hide Emitted, Push, Inside, AllGroups, GroupItems, Nested;
    ghost var fs := enc.open;
    if |ms| == 0 {
      Gained(fs, fs, []);
      return;
    }
    BeginNested(enc, "M", "d");
    ghost var inside := Inside(fs, "M", "d");
    NoGroups(ms);
    var i := 0;
    while i < |ms|
      invariant i <= |ms| && enc.Ok()
      invariant enc.open == inside + [Level(OfMap, AllGroups(ms, FirstTags(ms[..i])))]
    {
      var encoded := false;
      var j := 0;
      while j < i
        invariant j <= i && !encoded && forall k :: 0 <= k < j ==> ms[k].tag.address != ms[i].tag.address
      {
        if ms[j].tag.address == ms[i].tag.address {
          encoded := true;
          break;
        }
        j := j + 1;
      }
      TagOccurs(ms, i, encoded, j);
      assert FirstTags(ms[..i]) + [] == FirstTags(ms[..i]);
      if !encoded {
        PushInside(inside, OfMap, AllGroups(ms, FirstTags(ms[..i])), GroupItems(ms, ms[i].tag));
        GroupsSnoc(ms, FirstTags(ms[..i]), ms[i].tag);
        EncodeGroup(enc, ms, i);
      }
      i := i + 1;
    }
    assert ms[..i] == ms;
    EndNested(enc, "M", "d", fs, AllGroups(ms, FirstTags(ms)));
  }

  lemma NoGroups(ms: seq<Metric>)
    ensures AllGroups(ms, FirstTags(ms[..0])) == []
  {
  }

  lemma GroupsSnoc(ms: seq<Metric>, tags: seq<CStr>, t: CStr)
    ensures AllGroups(ms, tags + [t]) == AllGroups(ms, tags) + GroupItems(ms, t)
  {
    assert (tags + [t])[..|tags|] == tags;
  }

  /** The search for an earlier metric of the same tag decides whether the tag is new. */
  lemma TagOccurs(ms: seq<Metric>, i: nat, encoded: bool, j: nat)
    requires i < |ms| && j <= i
    requires encoded ==> j < i && ms[j].tag.address == ms[i].tag.address
    requires !encoded ==> forall k :: 0 <= k < i ==> ms[k].tag.address != ms[i].tag.address
    ensures FirstTags(ms[..i + 1]) == FirstTags(ms[..i]) + if encoded then [] else [ms[i].tag]
  {
    FirstTagsAre(ms[..i]);
    assert ms[..i + 1][..i] == ms[..i] && ms[..i + 1][i] == ms[i];
    assert encoded ==> ms[..i][j] == ms[j];
    assert forall k :: 0 <= k < i ==> ms[..i][k] == ms[k];
  }
}
