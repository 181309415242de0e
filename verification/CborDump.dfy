/**
  The debug dump of a CBOR document: an explicit stack of suspended containers instead of recursion.
  It prints what a recursive printer prints, and a reader of the output gets the document back.
 */
module CborDump {
  import opened Bytes
  import opened Cbor

  datatype Container = ArrayType | MapType

  datatype Out =
    | Newline
    | CommaLine
    | Indent(level: nat)
    | Colon
    | Begin(c: Container)
    | End(c: Container)
    | Value(s: Scalar)

  // ---- the recursive printer ----

  /** In a map the values follow a colon; everything else starts a line, after a comma unless it is first. */
  function Separator(index: nat, level: nat, parent: Container): seq<Out> {
    if index % 2 == 0 || parent == ArrayType
    then [if index != 0 then CommaLine else Newline, Indent(level)]
    else [Colon]
  }

  function ContainerOf(i: Item): Container {
    if i.Array? then ArrayType else MapType
  }

  function Children(i: Item): seq<Item> {
    match i
    case Leaf(_) => []
    case Array(es) => es
    case Map(es) => es
    case Map1(k, v) => [k, v]
  }

  function Nodes(i: Item): nat
    decreases i, 0
  {
    match i
    case Leaf(_) => 1
    case Array(es) => 1 + AllNodes(es)
    case Map(es) => 1 + AllNodes(es)
    case Map1(k, v) => 1 + Nodes(k) + Nodes(v)
  }

  function AllNodes(es: seq<Item>): nat
    decreases es, 1
  {
    if es == [] then 0 else Nodes(es[0]) + AllNodes(es[1..])
  }

  lemma ChildrenNodes(i: Item)
    requires !i.Leaf?
    ensures Nodes(i) == 1 + AllNodes(Children(i))
  {
    if i.Map1? {
      assert [i.key, i.val][1..] == [i.val] && [i.val][1..] == [];
      assert AllNodes([i.val]) == Nodes(i.val);
    }
  }

  function Render(i: Item, level: nat): seq<Out>
    decreases Nodes(i), 0
  {
    if i.Leaf? then [Value(i.scalar)] else
      ChildrenNodes(i);
      var c := ContainerOf(i);
      [Begin(c)] + RenderFrom(Children(i), 0, level + 1, c) + [Newline, Indent(level), End(c)]
  }

  /** The items of one container from number `index` on. */
  function RenderFrom(es: seq<Item>, index: nat, level: nat, parent: Container): seq<Out>
    decreases AllNodes(es), 1
  {
    if es == [] then [] else
      NodesPositive(es[0]);
      Separator(index, level, parent) + Render(es[0], level) + RenderFrom(es[1..], index + 1, level, parent)
  }

  lemma NodesPositive(i: Item)
    ensures Nodes(i) > 0
  {
  }

  // ---- a reader of the output ----

  /**
    How many tokens introduce child `index` of a container whose children stand at `level`; none when there is no such
    child. In a map a colon stands before every second child, the values. Every other child starts a line, the first
    one of its container after a plain line end and the others after a comma.
   */
  function Lead(ts: seq<Out>, index: nat, level: nat, c: Container): nat {
    if c == MapType && index % 2 == 1 then if |ts| >= 1 && ts[0] == Colon then 1 else 0
    else if |ts| >= 2 && ts[0] == (if index == 0 then Newline else CommaLine) && ts[1] == Indent(level) then 2
    else 0
  }

  function ReadValue(ts: seq<Out>, level: nat): (r: Option<(Item, seq<Out>)>)
    ensures r.Some? ==> |r.value.1| < |ts|
    decreases |ts|, 0
  {
    if ts == [] then None else
      match ts[0]
      case Value(s) => Some((Leaf(s), ts[1..]))
      case Begin(c) =>
        var es := ReadChildren(ts[1..], 0, level + 1, c);
        if es.None? then None else
          var rest := es.value.1;
          if |rest| >= 3 && rest[..3] == [Newline, Indent(level), End(c)]
          then Some((if c == ArrayType then Array(es.value.0) else Map(es.value.0), rest[3..])) else None
      case _ => None
  }

  function ReadChildren(ts: seq<Out>, index: nat, level: nat, c: Container): (r: Option<(seq<Item>, seq<Out>)>)
    ensures r.Some? ==> |r.value.1| <= |ts|
    decreases |ts|, 1
  {
    var n := Lead(ts, index, level, c);
    if n == 0 then Some(([], ts)) else
      var e := ReadValue(ts[n..], level);
      if e.None? then None else
        var es := ReadChildren(e.value.1, index + 1, level, c);
        if es.None? then None else Some(([e.value.0] + es.value.0, es.value.1))
  }

  /** The tree as it can be told from the output: a map of one pair of definite length is a map like others. */
  function Told(i: Item): Item
    decreases i, 0
  {
    match i
    case Leaf(s) => Leaf(s)
    case Array(es) => Array(AllTold(es))
    case Map(es) => Map(AllTold(es))
    case Map1(k, v) => Map([Told(k), Told(v)])
  }

  function AllTold(es: seq<Item>): seq<Item>
    decreases es, 1
  {
    if es == [] then [] else [Told(es[0])] + AllTold(es[1..])
  }

  lemma ToldContainer(i: Item)
    requires !i.Leaf?
    ensures Told(i) == if i.Array? then Array(AllTold(Children(i))) else Map(AllTold(Children(i)))
  {
    if i.Map1? {
      assert [i.key, i.val][1..] == [i.val] && [i.val][1..] == [];
      assert AllTold([i.val]) == [Told(i.val)];
    }
  }

  lemma {:induction false} ReadRender(i: Item, level: nat, rest: seq<Out>)
    ensures ReadValue(Render(i, level) + rest, level) == Some((Told(i), rest))
    decreases Nodes(i), 0
  {
    hide RenderFrom, Told, AllTold, Children, ReadChildren, Lead;
    if i.Leaf? {
      LeafReads(i, level, rest);
    } else {
      ChildrenNodes(i);
      ToldContainer(i);
      RenderContainer(i, level);
      var c := ContainerOf(i);
      var close := [Newline] + [Indent(level), End(c)];
      var inner := RenderFrom(Children(i), 0, level + 1, c);
      CloseLeads(level, c, |Children(i)|, rest);
      ReadRenderFrom(Children(i), 0, level + 1, c, close + rest);
      ContainerReads(c, inner, AllTold(Children(i)), level, rest);
    }
  }

  lemma LeafReads(i: Item, level: nat, rest: seq<Out>)
    requires i.Leaf?
    ensures ReadValue(Render(i, level) + rest, level) == Some((Told(i), rest))
  {
    hide RenderFrom, ReadChildren;
    assert ([Value(i.scalar)] + rest)[1..] == rest;
  }

  lemma CloseLeads(level: nat, c: Container, index: nat, rest: seq<Out>)
    ensures Lead([Newline] + [Indent(level), End(c)] + rest, index, level + 1, c) == 0
  {
  }

  lemma ContainerReads(c: Container, inner: seq<Out>, es: seq<Item>, level: nat, rest: seq<Out>)
    requires var close := [Newline] + [Indent(level), End(c)];
      ReadChildren(inner + (close + rest), 0, level + 1, c) == Some((es, close + rest))
    ensures ReadValue([Begin(c)] + inner + ([Newline] + [Indent(level), End(c)]) + rest, level)
         == Some((if c == ArrayType then Array(es) else Map(es), rest))
  {
    hide ReadChildren;
    var close := [Newline] + [Indent(level), End(c)];
    var ts := [Begin(c)] + inner + close + rest;
    assert ts[1..] == inner + (close + rest);
    assert (close + rest)[..3] == [Newline, Indent(level), End(c)] && (close + rest)[3..] == rest;
  }

  lemma {:induction false} ReadRenderFrom(es: seq<Item>, index: nat, level: nat, c: Container, rest: seq<Out>)
    requires Lead(rest, index + |es|, level, c) == 0
    ensures ReadChildren(RenderFrom(es, index, level, c) + rest, index, level, c) == Some((AllTold(es), rest))
    decreases AllNodes(es), 1
  {
    hide Render, RenderFrom, Separator, Lead, ReadChildren, Told;
    if es == [] {
      NoChildReads(index, level, c, rest);
    } else {
      NodesPositive(es[0]);
      RenderSplits(es, index, level, c);
      var later := RenderFrom(es[1..], index + 1, level, c);
      ReadRender(es[0], level, later + rest);
      ReadRenderFrom(es[1..], index + 1, level, c, rest);
      ChildReads(Separator(index, level, c), Render(es[0], level), later, rest, Told(es[0]), AllTold(es[1..]), index,
                 level, c);
    }
  }

  lemma NoChildReads(index: nat, level: nat, c: Container, rest: seq<Out>)
    requires Lead(rest, index, level, c) == 0
    ensures ReadChildren(RenderFrom([], index, level, c) + rest, index, level, c) == Some(([], rest))
  {
    hide Lead, ReadValue;
    assert RenderFrom([], index, level, c) + rest == rest;
  }

  lemma ChildReads(sep: seq<Out>, first: seq<Out>, later: seq<Out>, rest: seq<Out>, e: Item, es: seq<Item>, index: nat,
                   level: nat, c: Container)
    requires sep == Separator(index, level, c)
    requires ReadValue(first + (later + rest), level) == Some((e, later + rest))
    requires ReadChildren(later + rest, index + 1, level, c) == Some((es, rest))
    ensures ReadChildren(sep + first + later + rest, index, level, c) == Some(([e] + es, rest))
  {
    hide ReadValue, Separator, Lead;
    var tail := first + (later + rest);
    SeparatorLeads(index, level, c, tail);
    assert sep + first + later + rest == sep + tail;
    assert (sep + tail)[|sep|..] == tail;
  }

  lemma SeparatorLeads(index: nat, level: nat, c: Container, rest: seq<Out>)
    ensures Lead(Separator(index, level, c) + rest, index, level, c) == |Separator(index, level, c)| > 0
  {
  }

  // ---- the explicit stack ----

  /** A suspended container: its remaining items, the entered one first, and where it stood. */
  datatype Frame = Frame(it: seq<Item>, cnt: int, level: nat, parent: Container)

  predicate FrameOk(f: Frame) {
    f.it != [] && !f.it[0].Leaf? && f.cnt >= 0
  }

  predicate StackOk(st: seq<Frame>) {
    forall i :: 0 <= i < |st| ==> FrameOk(st[i])
  }

  /** What is still printed after the current container ends. */
  function Unwind(st: seq<Frame>): seq<Out>
    requires StackOk(st)
  {
    if st == [] then [Newline] else
      var f := st[0];
      [Indent(f.level), End(ContainerOf(f.it[0]))]
      + RenderFrom(f.it[1..], f.cnt + 1, f.level, f.parent) + [Newline] + Unwind(st[1..])
  }

  /** What is still printed from item `index` of the current container on. */
  function Pending(it: seq<Item>, index: nat, level: nat, parent: Container, st: seq<Frame>): seq<Out>
    requires StackOk(st)
  {
    RenderFrom(it, index, level, parent) + [Newline] + Unwind(st)
  }

  function Suspended(st: seq<Frame>): nat
    requires StackOk(st)
  {
    if st == [] then 0 else 1 + 2 * AllNodes(st[0].it[1..]) + Suspended(st[1..])
  }

  /** `insights_dump_cbor_buffer` on the items of the top level. */
  method DumpCbor(items: seq<Item>) returns (out: seq<Out>)
    ensures out == RenderFrom(items, 0, 0, MapType) + [Newline, Newline]
    ensures ReadChildren(out, 0, 0, MapType) == Some((AllTold(items), [Newline, Newline]))
  {
    hide ReadChildren, AllTold, Pending, RenderFrom, Render, Separator, Unwind, Suspended, AllNodes, Nodes, Children,
         ContainerOf;
    out := [];
    var stack: seq<Frame> := [];
    var value := Frame(items, -1, 0, MapType);
    ghost var all := Pending(items, 0, 0, MapType, []);
    StartIsRender(items);
    OutputReadsBack(items);
    while true
      invariant StackOk(stack) && value.cnt >= -1
      invariant out + Pending(value.it, value.cnt + 1, value.level, value.parent, stack) == all
      decreases 2 * AllNodes(value.it) + Suspended(stack)
    {
      var cnt, it, level, parent := value.cnt, value.it, value.level, value.parent;
      ghost var before := 2 * AllNodes(it) + Suspended(stack);
      while it != []
        invariant StackOk(stack) && cnt >= -1
        invariant out + Pending(it, cnt + 1, level, parent, stack) == all
        invariant 2 * AllNodes(it) + Suspended(stack) <= before
        decreases 2 * AllNodes(it) + Suspended(stack)
      {
        ghost var out0, stack0 := out, stack;
        cnt := cnt + 1;
        out := out + Separator(cnt, level, parent);
        var item := it[0];
        if !item.Leaf? {
          EnterShrinks(it);
          UnwindSplits(Frame(it, cnt, level, parent), stack0);
          EnterIsRender(out0, stack0, it, cnt, level, parent);
          stack := [Frame(it, cnt, level, parent)] + stack;
          cnt := -1;
          level := level + 1;
          parent := ContainerOf(item);
          it := Children(item);
          out := out + [Begin(parent)];
        } else {
          LeafIsRender(out0, stack0, it, cnt, level, parent);
          LeafShrinks(it);
          out := out + [Value(item.scalar)];
          it := it[1..];
        }
      }
      EndIsRender(out, cnt + 1, level, parent, stack);
      out := out + [Newline];
      if stack == [] {
        out := out + [Newline];
        return;
      }
      value := stack[0];
      assert [value] + stack[1..] == stack;
      UnwindSplits(value, stack[1..]);
      LeaveIsRender(out, stack);
      out := out + [Indent(value.level), End(ContainerOf(value.it[0]))];
      value := value.(it := value.it[1..]);
      stack := stack[1..];
    }
  }

  lemma OutputReadsBack(items: seq<Item>)
    ensures ReadChildren(RenderFrom(items, 0, 0, MapType) + [Newline, Newline], 0, 0, MapType)
         == Some((AllTold(items), [Newline, Newline]))
  {
    hide ReadChildren, RenderFrom, AllTold;
    ReadRenderFrom(items, 0, 0, MapType, [Newline, Newline]);
  }

  lemma StartIsRender(items: seq<Item>)
    ensures [] + Pending(items, 0, 0, MapType, [])
         == Pending(items, 0, 0, MapType, [])
         == RenderFrom(items, 0, 0, MapType) + [Newline, Newline]
  {
  }

  lemma EnterShrinks(it: seq<Item>)
    requires it != [] && !it[0].Leaf?
    ensures AllNodes(it) == 1 + AllNodes(Children(it[0])) + AllNodes(it[1..])
  {
    ChildrenNodes(it[0]);
  }

  lemma LeafShrinks(it: seq<Item>)
    requires it != [] && it[0].Leaf?
    ensures AllNodes(it) == 1 + AllNodes(it[1..])
  {
  }

  lemma EndIsRender(out: seq<Out>, index: nat, level: nat, parent: Container, st: seq<Frame>)
    requires StackOk(st)
    ensures out + Pending([], index, level, parent, st) == out + [Newline] + Unwind(st)
    ensures Unwind([]) == [Newline] && AllNodes([]) == 0
  {
  }

  lemma RenderSplits(it: seq<Item>, index: nat, level: nat, parent: Container)
    requires it != []
    ensures RenderFrom(it, index, level, parent)
         == Separator(index, level, parent) + Render(it[0], level) + RenderFrom(it[1..], index + 1, level, parent)
  {
    hide Separator, Render;
  }

  lemma UnwindSplits(f: Frame, st: seq<Frame>)
    requires StackOk(st) && FrameOk(f)
    ensures StackOk([f] + st)
    ensures Unwind([f] + st)
         == [Indent(f.level), End(ContainerOf(f.it[0]))]
            + RenderFrom(f.it[1..], f.cnt + 1, f.level, f.parent) + [Newline] + Unwind(st)
    ensures Suspended([f] + st) == 1 + 2 * AllNodes(f.it[1..]) + Suspended(st)
  {
    hide RenderFrom, AllNodes;
    assert ([f] + st)[1..] == st;
  }

  lemma LeafGroups(out: seq<Out>, sep: seq<Out>, v: seq<Out>, rest: seq<Out>, end: seq<Out>, up: seq<Out>)
    ensures out + ((sep + v + rest) + end + up) == out + sep + v + (rest + end + up)
  {
  }

  lemma EnterGroups(out: seq<Out>, sep: seq<Out>, open: seq<Out>, inner: seq<Out>, end: seq<Out>, close: seq<Out>,
                    rest: seq<Out>, up: seq<Out>)
    ensures out + ((sep + (open + inner + (end + close)) + rest) + end + up)
         == out + sep + open + (inner + end + (close + rest + end + up))
  {
  }

  lemma LeafIsRender(out: seq<Out>, st: seq<Frame>, it: seq<Item>, cnt: nat, level: nat, parent: Container)
    requires StackOk(st) && it != [] && it[0].Leaf?
    ensures out + Pending(it, cnt, level, parent, st)
         == out + Separator(cnt, level, parent) + [Value(it[0].scalar)]
            + Pending(it[1..], cnt + 1, level, parent, st)
  {
    RenderSplits(it, cnt, level, parent);
    hide RenderFrom, Separator, Unwind;
    LeafGroups(out, Separator(cnt, level, parent), [Value(it[0].scalar)],
               RenderFrom(it[1..], cnt + 1, level, parent), [Newline], Unwind(st));
  }

  /** Entering a container prints its opening and leaves its closing on the stack. */
  lemma EnterIsRender(out: seq<Out>, st: seq<Frame>, it: seq<Item>, cnt: nat, level: nat, parent: Container)
    requires StackOk(st) && it != [] && !it[0].Leaf?
    ensures var f := Frame(it, cnt, level, parent);
      var c := ContainerOf(it[0]);
      && StackOk([f] + st)
      && out + Pending(it, cnt, level, parent, st)
         == out + Separator(cnt, level, parent) + [Begin(c)]
            + Pending(Children(it[0]), 0, level + 1, c, [f] + st)
  {
    var f := Frame(it, cnt, level, parent);
    var c := ContainerOf(it[0]);
    var inner := RenderFrom(Children(it[0]), 0, level + 1, c);
    var close := [Indent(level), End(c)];
    RenderSplits(it, cnt, level, parent);
    UnwindSplits(f, st);
    RenderContainer(it[0], level);
    hide RenderFrom, Separator, Unwind, Render, StackOk;
    EnterGroups(out, Separator(cnt, level, parent), [Begin(c)], inner, [Newline], close,
                RenderFrom(it[1..], cnt + 1, level, parent), Unwind(st));
  }

  lemma RenderContainer(i: Item, level: nat)
    requires !i.Leaf?
    ensures var c := ContainerOf(i);
      Render(i, level)
      == [Begin(c)] + RenderFrom(Children(i), 0, level + 1, c) + ([Newline] + [Indent(level), End(c)])
  {
    hide RenderFrom;
    assert [Newline] + [Indent(level), End(ContainerOf(i))] == [Newline, Indent(level), End(ContainerOf(i))];
  }

  lemma LeaveIsRender(out: seq<Out>, st: seq<Frame>)
    requires StackOk(st) && st != []
    ensures var f := st[0];
      out + Unwind(st) == out + [Indent(f.level), End(ContainerOf(f.it[0]))]
        + Pending(f.it[1..], f.cnt + 1, f.level, f.parent, st[1..])
  {
    hide RenderFrom;
  }
}
