/**
  The encoder state: the stream emitted so far and, for the proof, the items of every container
  still open, outermost first. Closing a container turns its items into one item of its parent.
 */
module CborEncoder {
  import opened Cbor

  datatype Kind = Top | OfArray | OfMap | OfMap1

  datatype Level = Level(kind: Kind, items: seq<Item>)

  function Opener(k: Kind): seq<Token> {
    match k
    case Top => []
    case OfArray => [OpenArray]
    case OfMap => [OpenMap]
    case OfMap1 => [OpenMap1]
  }

  /** The stream that has been emitted when these containers are open. */
  function Emitted(fs: seq<Level>): seq<Token> {
    if fs == [] then [] else
      var last := fs[|fs| - 1];
      Emitted(fs[..|fs| - 1]) + Opener(last.kind) + SerializeAll(last.items)
  }

  function Push(fs: seq<Level>, items: seq<Item>): (r: seq<Level>)
    requires fs != []
    ensures |r| == |fs| && r[..|fs| - 1] == fs[..|fs| - 1] && r[|fs| - 1].items == fs[|fs| - 1].items + items
    ensures r[|fs| - 1].kind == fs[|fs| - 1].kind
  {
    var last := fs[|fs| - 1];
    fs[..|fs| - 1] + [last.(items := last.items + items)]
  }

  lemma PushPush(fs: seq<Level>, a: seq<Item>, b: seq<Item>)
    requires fs != []
    ensures Push(Push(fs, a), b) == Push(fs, a + b)
  {
    assert fs[|fs| - 1].items + a + b == fs[|fs| - 1].items + (a + b);
  }

  /** Several pushes are one push of what the innermost container gained. */
  lemma Gained(fs: seq<Level>, gs: seq<Level>, items: seq<Item>)
    requires fs != [] && |gs| == |fs| && gs[..|fs| - 1] == fs[..|fs| - 1]
    requires gs[|fs| - 1] == fs[|fs| - 1].(items := fs[|fs| - 1].items + items)
    ensures gs == Push(fs, items)
  {
    assert gs == gs[..|fs| - 1] + [gs[|fs| - 1]];
  }

  lemma PushInside(fs: seq<Level>, k: Kind, items: seq<Item>, more: seq<Item>)
    ensures Push(fs + [Level(k, items)], more) == fs + [Level(k, items + more)]
  {
    assert (fs + [Level(k, items)])[..|fs|] == fs;
  }

  lemma CloseInside(fs: seq<Level>, k: Kind, items: seq<Item>)
    requires fs != [] && Closable(Level(k, items))
    ensures CloseLast(fs + [Level(k, items)]) == Push(fs, [Closed(Level(k, items))])
  {
    assert (fs + [Level(k, items)])[..|fs|] == fs;
  }

  lemma EmittedPush(fs: seq<Level>, items: seq<Item>)
    requires fs != []
    ensures Emitted(Push(fs, items)) == Emitted(fs) + SerializeAll(items)
  {
    SerializeConcat(fs[|fs| - 1].items, items);
  }

  predicate Closable(f: Level) {
    f.kind == OfArray || f.kind == OfMap || (f.kind == OfMap1 && |f.items| == 2)
  }

  function Closed(f: Level): Item
    requires Closable(f)
  {
    match f.kind
    case OfArray => Array(f.items)
    case OfMap => Map(f.items)
    case OfMap1 => Map1(f.items[0], f.items[1])
  }

  function CloseLast(fs: seq<Level>): (r: seq<Level>)
    requires |fs| > 1 && Closable(fs[|fs| - 1])
    ensures |r| == |fs| - 1 && r[0].kind == fs[0].kind
  {
    Push(fs[..|fs| - 1], [Closed(fs[|fs| - 1])])
  }

  lemma SerializeClosed(f: Level)
    requires Closable(f)
    ensures Serialize(Closed(f)) == Opener(f.kind) + SerializeAll(f.items) + EndMark(f.kind)
  {
    if f.kind == OfMap1 {
      assert f.items == [f.items[0]] + [f.items[1]];
      SerializeConcat([f.items[0]], [f.items[1]]);
      SerializeOne(f.items[0]);
      SerializeOne(f.items[1]);
    }
  }

  function EndMark(k: Kind): seq<Token> {
    if k == OfMap1 then [] else [Break]
  }

  lemma Regrouped(a: seq<Token>, b: seq<Token>, c: seq<Token>, d: seq<Token>)
    ensures a + (b + c + d) == a + b + c + d
  {
  }

  lemma EmittedClose(fs: seq<Level>)
    requires |fs| > 1 && Closable(fs[|fs| - 1])
    ensures Emitted(CloseLast(fs)) == Emitted(fs) + EndMark(fs[|fs| - 1].kind)
  {
    var f := fs[|fs| - 1];
    var outer := fs[..|fs| - 1];
    EmittedPush(outer, [Closed(f)]);
    SerializeOne(Closed(f));
    SerializeClosed(f);
    assert Emitted(fs) == Emitted(outer) + Opener(f.kind) + SerializeAll(f.items);
    assert CloseLast(fs) == Push(outer, [Closed(f)]);
    hide *;
    Regrouped(Emitted(outer), Opener(f.kind), SerializeAll(f.items), EndMark(f.kind));
  }

  class Encoder {
    var out: seq<Token>
    ghost var open: seq<Level>

    ghost predicate Ok()
      reads this
    {
      open != [] && open[0].kind == Top && out == Emitted(open)
    }

    constructor ()
      ensures Ok() && open == [Level(Top, [])]
    {
      out := [];
      open := [Level(Top, [])];
    }

    method Put(s: Scalar)
      requires Ok()
      modifies this
      ensures Ok() && open == Push(old(open), [Leaf(s)])
    {
      EmittedPush(open, [Leaf(s)]);
      SerializeOne(Leaf(s));
      out := out + [Atom(s)];
      open := Push(open, [Leaf(s)]);
    }

    /** One key and its scalar value, as nearly every pair of calls emits them. */
    method PutPair(key: string, s: Scalar)
      requires Ok()
      modifies this
      ensures Ok() && open == Push(old(open), [Leaf(Text(key)), Leaf(s)])
    {
      Put(Text(key));
      PushPush(old(open), [Leaf(Text(key))], [Leaf(s)]);
      assert [Leaf(Text(key))] + [Leaf(s)] == [Leaf(Text(key)), Leaf(s)];
      Put(s);
    }

    method Open(k: Kind)
      requires Ok() && k != Top
      modifies this
      ensures Ok() && open == old(open) + [Level(k, [])]
    {
      out := out + Opener(k);
      open := open + [Level(k, [])];
      assert open[..|open| - 1] == old(open);
    }

    /** Only a container of indefinite length needs a break; the one-pair map ends by count. */
    method Close(k: Kind)
      requires Ok() && |open| > 1 && Closable(open[|open| - 1]) && k == open[|open| - 1].kind
      modifies this
      ensures Ok() && open == CloseLast(old(open))
    {
      hide Serialize, SerializeAll, Closed;
      EmittedClose(open);
      if k != OfMap1 {
        out := out + [Break];
      }
      open := CloseLast(open);
    }
  }
}
