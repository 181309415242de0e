/**
  The registry of metrics: a fixed array whose first `count` slots are in use, linear lookup by tag and
  key, removal by moving the last slot into the hole. It stands for a partial map.
 */
module MetricsRegistry {
  import opened Bytes

  datatype Status = Ok | InvalidArg | InvalidState | NoMem | Failed | NotFound

  /** A C string constant: where it is and what it says. Lookup compares the text. */
  datatype CStr = CStr(address: nat, text: string)

  datatype Metric = Metric(tag: CStr, key: CStr, descr: CStr, path: CStr, unit: Option<CStr>, dataType: nat)

  function KeyOf(m: Metric): (string, string) {
    (m.tag.text, m.key.text)
  }

  /** No two entries share tag and key. */
  predicate Distinct(ms: seq<Metric>) {
    forall i, j :: 0 <= i < j < |ms| ==> KeyOf(ms[i]) != KeyOf(ms[j])
  }

  /** The map the entries stand for. */
  ghost function AsMap(ms: seq<Metric>): map<(string, string), Metric>
    requires Distinct(ms)
  {
    map i | 0 <= i < |ms| :: KeyOf(ms[i]) := ms[i]
  }

  lemma AsMapEntries(ms: seq<Metric>)
    requires Distinct(ms)
    ensures forall i :: 0 <= i < |ms| ==> KeyOf(ms[i]) in AsMap(ms) && AsMap(ms)[KeyOf(ms[i])] == ms[i]
    ensures forall k :: k in AsMap(ms) ==> exists i :: 0 <= i < |ms| && KeyOf(ms[i]) == k
  {
  }

  lemma AddIsMapAdd(ms: seq<Metric>, m: Metric)
    requires Distinct(ms) && KeyOf(m) !in AsMap(ms)
    ensures Distinct(ms + [m]) && AsMap(ms + [m]) == AsMap(ms)[KeyOf(m) := m]
  {
    hide AsMap, KeyOf;
    AsMapEntries(ms);
    forall i, j | 0 <= i < j < |ms + [m]| ensures KeyOf((ms + [m])[i]) != KeyOf((ms + [m])[j]) {
      assert KeyOf(ms[i]) in AsMap(ms);
    }
    AsMapEntries(ms + [m]);
    var r, a, b := ms + [m], AsMap(ms + [m]), AsMap(ms)[KeyOf(m) := m];
    forall k | k in a ensures k in b {
      var i :| 0 <= i < |r| && KeyOf(r[i]) == k;
    }
    forall k | k in b ensures k in a && a[k] == b[k] {
      if k == KeyOf(m) {
        assert KeyOf(r[|ms|]) == k;
      } else {
        var i :| 0 <= i < |ms| && KeyOf(ms[i]) == k;
        assert r[i] == ms[i];
      }
    }
  }

  /** The entries after the one at `i` is removed: the last takes its place. */
  function SwapRemove(ms: seq<Metric>, i: nat): (r: seq<Metric>)
    requires i < |ms|
    ensures |r| == |ms| - 1
  {
    ms[i := ms[|ms| - 1]][..|ms| - 1]
  }

  lemma SwapRemoveDistinct(ms: seq<Metric>, i: nat)
    requires Distinct(ms) && i < |ms|
    ensures Distinct(SwapRemove(ms, i))
  {
    hide KeyOf;
  }

  lemma SwapRemoveIsMapRemove(ms: seq<Metric>, i: nat)
    requires Distinct(ms) && i < |ms|
    ensures Distinct(SwapRemove(ms, i)) && AsMap(SwapRemove(ms, i)) == AsMap(ms) - {KeyOf(ms[i])}
  {
    hide AsMap, KeyOf, Distinct, SwapRemove;
    SwapRemoveDistinct(ms, i);
    SwapRemoveAt(ms, i);
    var r, last := SwapRemove(ms, i), |ms| - 1;
    AsMapEntries(ms);
    AsMapEntries(r);
    var a, b := AsMap(r), AsMap(ms) - {KeyOf(ms[i])};
    forall k | k in b ensures k in a && a[k] == b[k] {
      var j :| 0 <= j < |ms| && KeyOf(ms[j]) == k;
      assert r[if j == last then i else j] == ms[j];
    }
    forall k | k in a ensures k in b {
      var j :| 0 <= j < |r| && KeyOf(r[j]) == k;
      KeyIsElsewhere(ms, i, if j == i then last else j);
    }
  }

  lemma SwapRemoveAt(ms: seq<Metric>, i: nat)
    requires i < |ms|
    ensures forall j :: 0 <= j < |ms| - 1 ==> SwapRemove(ms, i)[j] == ms[if j == i then |ms| - 1 else j]
  {
  }

  lemma KeyIsElsewhere(ms: seq<Metric>, i: nat, j: nat)
    requires Distinct(ms) && i < |ms| && j < |ms| && i != j
    ensures KeyOf(ms[i]) != KeyOf(ms[j])
  {
    hide KeyOf;
  }

  lemma UpdateIsMapUpdate(ms: seq<Metric>, i: nat, m: Metric)
    requires Distinct(ms) && i < |ms| && KeyOf(m) == KeyOf(ms[i])
    ensures Distinct(ms[i := m]) && AsMap(ms[i := m]) == AsMap(ms)[KeyOf(m) := m]
  {
    hide AsMap, KeyOf;
    AsMapEntries(ms);
    AsMapEntries(ms[i := m]);
    var r, a, b := ms[i := m], AsMap(ms[i := m]), AsMap(ms)[KeyOf(m) := m];
    forall k | k in b ensures k in a && a[k] == b[k] {
      var j :| 0 <= j < |ms| && KeyOf(ms[j]) == k;
      assert KeyOf(r[j]) == k && a[KeyOf(r[j])] == r[j];
    }
    forall k | k in a ensures k in b {
      var j :| 0 <= j < |r| && KeyOf(r[j]) == k;
      assert KeyOf(ms[j]) == k;
    }
  }

  class Registry {
    const slots: array<Option<Metric>>
    var count: nat
    var inited: bool

    ghost predicate Valid()
      reads this, slots
    {
      && count <= slots.Length
      && (forall i :: 0 <= i < slots.Length ==> (slots[i].Some? <==> i < count))
      && Distinct(Entries())
    }

    ghost function Entries(): seq<Metric>
      reads this, slots
      requires count <= slots.Length && forall i :: 0 <= i < count ==> slots[i].Some?
    {
      seq(count,
          i requires 0 <= i < count && count <= slots.Length && slots[i].Some? reads this, slots => slots[i].value)
    }

    ghost function Contents(): map<(string, string), Metric>
      reads this, slots
      requires Valid()
    {
      AsMap(Entries())
    }

    constructor (max: nat)
      ensures Valid() && !inited && Contents() == map[] && slots.Length == max && fresh(slots)
    {
      slots := new Option<Metric>[max](_ => None);
      count := 0;
      inited := false;
    }

    /** `esp_diag_metrics_init`, refused without a configuration or a second time. */
    method Init(configOk: bool) returns (err: Status)
      requires Valid()
      modifies this`inited
      ensures Valid() && Contents() == old(Contents()) && inited == (old(inited) || err.Ok?)
      ensures err == if !configOk then InvalidArg else if old(inited) then InvalidState else Ok
    {
      if !configOk {
        return InvalidArg;
      }
      if inited {
        return InvalidState;
      }
      ghost var ms := Entries();
      inited := true;
      assert Entries() == ms;
      return Ok;
    }

    /** `esp_diag_metrics_meta_get`: the index of the entry, or `count`. */
    method Find(tag: string, key: string) returns (i: nat)
      requires Valid()
      ensures i <= count
      ensures i < count ==> KeyOf(Entries()[i]) == (tag, key)
      ensures i < count ==> (tag, key) in Contents() && Contents()[(tag, key)] == Entries()[i]
      ensures i == count <==> (tag, key) !in Contents()
    {
      hide AsMap;
      AsMapEntries(Entries());
      i := 0;
      while i < count
        invariant i <= count
        invariant forall j :: 0 <= j < i ==> KeyOf(Entries()[j]) != (tag, key)
      {
        if slots[i].value.tag.text == tag && slots[i].value.key.text == key {
          return;
        }
        i := i + 1;
      }
    }

    method Register(tag: Option<CStr>, key: Option<CStr>, descr: Option<CStr>, path: Option<CStr>, dataType: nat)
      returns (err: Status)
      requires Valid()
      modifies this`count, slots
      ensures Valid()
      ensures err == if tag.None? || key.None? || descr.None? || path.None? then InvalidArg
                     else if !inited then InvalidState
                     else if old(count) >= slots.Length then NoMem
                     else if (tag.value.text, key.value.text) in old(Contents()) then Failed
                     else Ok
      ensures err.Ok? ==>
        Entries() == old(Entries()) + [Metric(tag.value, key.value, descr.value, path.value, None, dataType)]
      ensures err.Ok? ==> Contents() == old(Contents())[(tag.value.text, key.value.text) :=
        Metric(tag.value, key.value, descr.value, path.value, None, dataType)]
      ensures !err.Ok? ==> Entries() == old(Entries())
    {
      hide AsMap, Distinct;
      if tag.None? || key.None? || descr.None? || path.None? {
        return InvalidArg;
      }
      if !inited {
        return InvalidState;
      }
      if count >= slots.Length {
        return NoMem;
      }
      var i := Find(tag.value.text, key.value.text);
      if i < count {
        return Failed;
      }
      ghost var ms := Entries();
      var m := Metric(tag.value, key.value, descr.value, path.value, None, dataType);
      AddIsMapAdd(ms, m);
      slots[count] := Some(m);
      count := count + 1;
      assert Entries() == ms + [m];
      return Ok;
    }

    method AddUnit(tag: Option<CStr>, key: Option<CStr>, unit: Option<CStr>) returns (err: Status)
      requires Valid()
      modifies slots
      ensures Valid()
      ensures err == if tag.None? || key.None? then InvalidArg
                     else if !inited then InvalidState
                     else if (tag.value.text, key.value.text) !in old(Contents()) then NotFound
                     else Ok
      ensures count == old(count)
      ensures err.Ok? ==> var k := (tag.value.text, key.value.text);
        Contents() == old(Contents())[k := old(Contents())[k].(unit := unit)]
      ensures !err.Ok? ==> Entries() == old(Entries())
    {
      hide AsMap, Distinct;
      if tag.None? || key.None? {
        return InvalidArg;
      }
      if !inited {
        return InvalidState;
      }
      var i := Find(tag.value.text, key.value.text);
      if i == count {
        return NotFound;
      }
      ghost var ms := Entries();
      UpdateIsMapUpdate(ms, i, ms[i].(unit := unit));
      slots[i] := Some(slots[i].value.(unit := unit));
      assert Entries() == ms[i := ms[i].(unit := unit)];
      return Ok;
    }

    /** `esp_diag_metrics_unregister`: the last entry moves into the hole and its slot is cleared. */
    method Unregister(tag: Option<CStr>, key: Option<CStr>) returns (err: Status)
      requires Valid()
      modifies this`count, slots
      ensures Valid()
      ensures err == if tag.None? || key.None? then InvalidArg
                     else if (tag.value.text, key.value.text) !in old(Contents()) then NotFound
                     else Ok
      ensures err.Ok? ==> Contents() == old(Contents()) - {(tag.value.text, key.value.text)}
      ensures err.Ok? ==> exists i :: 0 <= i < old(count) && Entries() == SwapRemove(old(Entries()), i)
      ensures !err.Ok? ==> Entries() == old(Entries())
    {
      hide AsMap, Distinct;
      if tag.None? || key.None? {
        return InvalidArg;
      }
      var i := Find(tag.value.text, key.value.text);
      if i < count {
        ghost var ms := Entries();
        SwapRemoveIsMapRemove(ms, i);
        slots[i] := slots[count - 1];
        slots[count - 1] := None;
        count := count - 1;
        assert Entries() == SwapRemove(ms, i);
        return Ok;
      }
      return NotFound;
    }

    method UnregisterAll() returns (err: Status)
      requires Valid()
      modifies this`count, slots
      ensures Valid() && err == if inited then Ok else InvalidState
      ensures err.Ok? ==> Contents() == map[]
      ensures !err.Ok? ==> Entries() == old(Entries())
    {
      if !inited {
        return InvalidState;
      }
      for i := 0 to slots.Length
        invariant forall j :: 0 <= j < i ==> slots[j].None?
        invariant count == old(count)
      {
        slots[i] := None;
      }
      count := 0;
      return Ok;
    }
  }
}
