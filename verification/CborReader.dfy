/** Reading a tree by the keys of its maps. */
module CborReader {
  import opened Bytes
  import opened Cbor

  /** The value behind the first occurrence of a text key. */
  function Lookup(entries: seq<Item>, key: string): Option<Item> {
    if |entries| < 2 then None
    else if entries[0] == Leaf(Text(key)) then Some(entries[1])
    else Lookup(entries[2..], key)
  }

  function Get(i: Item, key: string): Option<Item> {
    match i
    case Map(entries) => Lookup(entries, key)
    case Map1(k, v) => if k == Leaf(Text(key)) then Some(v) else None
    case _ => None
  }

  /** The value of `outer` behind one key and then another. */
  function GetGet(i: Item, key: string, inner: string): Option<Item> {
    var o := Get(i, key);
    if o.None? then None else Get(o.value, inner)
  }

  predicate KeyAt(entries: seq<Item>, k: nat, key: string) {
    2 * k + 1 < |entries| && entries[2 * k] == Leaf(Text(key))
  }

  lemma {:induction false} LookupAt(entries: seq<Item>, key: string, k: nat)
    requires KeyAt(entries, k, key)
    requires forall j :: 0 <= j < k ==> entries[2 * j] != Leaf(Text(key))
    ensures Lookup(entries, key) == Some(entries[2 * k + 1])
    decreases k
  {
    if k > 0 {
      var rest := entries[2..];
      assert entries[2 * 0] != Leaf(Text(key));
      forall j | 0 <= j < k - 1 ensures rest[2 * j] != Leaf(Text(key)) {
        assert rest[2 * j] == entries[2 * (j + 1)];
      }
      LookupAt(rest, key, k - 1);
    }
  }

  lemma {:induction false} LookupNone(entries: seq<Item>, key: string)
    requires forall j :: 0 <= 2 * j < |entries| ==> entries[2 * j] != Leaf(Text(key))
    ensures Lookup(entries, key) == None
    decreases |entries|
  {
    if |entries| >= 2 {
      var rest := entries[2..];
      assert entries[2 * 0] != Leaf(Text(key));
      forall j | 0 <= 2 * j < |rest| ensures rest[2 * j] != Leaf(Text(key)) {
        assert rest[2 * j] == entries[2 * (j + 1)];
      }
      LookupNone(rest, key);
    }
  }

  /** In front of other entries, complete pairs are looked through first. */
  lemma {:induction false} LookupConcat(a: seq<Item>, b: seq<Item>, key: string)
    requires |a| % 2 == 0
    ensures Lookup(a + b, key) == if Lookup(a, key).Some? then Lookup(a, key) else Lookup(b, key)
    decreases |a|
  {
    if a == [] {
      assert a + b == b;
    } else {
      assert (a + b)[2..] == a[2..] + b;
      LookupConcat(a[2..], b, key);
    }
  }

  lemma LookupPair(name: string, v: Item, key: string)
    ensures Lookup([Leaf(Text(name)), v], key) == if name == key then Some(v) else None
  {
    assert [Leaf(Text(name)), v][2..] == [];
  }
}
