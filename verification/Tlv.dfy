/**
  Log arguments as type-length-value bytes: the item list, its bytes, the parse of arbitrary bytes,
  and the CBOR scalar each item stands for on a 32-bit little-endian target.
 */
module Tlv {
  import opened Bytes
  import opened Cbor

  const CHAR: byte := 0
  const SHORT: byte := 1
  const INT: byte := 2
  const LONG: byte := 3
  const LLONG: byte := 4
  const INTMAX: byte := 5
  const PTRDIFF: byte := 6
  const UCHAR: byte := 7
  const USHORT: byte := 8
  const UINT: byte := 9
  const ULONG: byte := 10
  const ULLONG: byte := 11
  const UINTMAX: byte := 12
  const SIZE: byte := 13
  const DOUBLE: byte := 14
  const LDOUBLE: byte := 15
  const STR: byte := 16

  datatype Arg = Arg(kind: byte, value: seq<byte>)

  /** Room each kind takes in the value union; strings are not copied into it. */
  function Width(kind: byte): nat {
    if kind in {CHAR, UCHAR} then 1
    else if kind in {SHORT, USHORT} then 2
    else if kind in {INT, LONG, PTRDIFF, UINT, ULONG, SIZE} then 4
    else 8
  }

  predicate Signed(kind: byte) {
    kind in {SHORT, INT, LONG, LLONG, INTMAX, PTRDIFF}
  }

  predicate WellTyped(a: Arg) {
    && |a.value| < U8
    && (a.kind < STR ==> 0 < |a.value| <= Width(a.kind)) && (Signed(a.kind) ==> |a.value| == Width(a.kind))
  }

  predicate AllWellTyped(args: seq<Arg>) {
    forall i :: 0 <= i < |args| ==> WellTyped(args[i])
  }

  function EncodeArg(a: Arg): seq<byte>
    requires |a.value| < U8
  {
    [a.kind, |a.value|] + a.value
  }

  function EncodeArgs(args: seq<Arg>): seq<byte>
    requires AllWellTyped(args)
  {
    if args == [] then [] else EncodeArg(args[0]) + EncodeArgs(args[1..])
  }

  /** The items of a complete well-typed byte string. */
  function ParseArgs(s: seq<byte>): Option<seq<Arg>>
    decreases |s|
  {
    if s == [] then Some([])
    else if |s| < 2 || |s| - 2 < s[1] then None
    else
      var n: nat := s[1];
      var a := Arg(s[0], s[2..2 + n]);
      var rest := ParseArgs(s[2 + n..]);
      if !WellTyped(a) || rest.None? then None else Some([a] + rest.value)
  }

  lemma {:induction false} ParseEncode(args: seq<Arg>)
    requires AllWellTyped(args)
    ensures ParseArgs(EncodeArgs(args)) == Some(args)
    decreases |args|
  {
    if args != [] {
      var s := EncodeArgs(args);
      var n: nat := s[1];
      assert s[2..2 + n] == args[0].value && s[2 + n..] == EncodeArgs(args[1..]);
      ParseEncode(args[1..]);
      assert args == [args[0]] + args[1..];
    }
  }

  lemma {:induction false} EncodeConcat(a: seq<Arg>, b: seq<Arg>)
    requires AllWellTyped(a) && AllWellTyped(b)
    ensures AllWellTyped(a + b) && EncodeArgs(a + b) == EncodeArgs(a) + EncodeArgs(b)
    decreases |a|
  {
    hide WellTyped, EncodeArg;
    if a == [] {
      assert a + b == b;
    } else {
      assert (a + b)[1..] == a[1..] + b;
      EncodeConcat(a[1..], b);
    }
  }

  function TwosComplement(n: nat, width: nat): int {
    if 2 * n < Pow256(width) then n else n - Pow256(width)
  }

  /**
    The magnitude passed to the encoder for a negative value: the value negated in its own type, or in an
    `int` if that is wider, and the result converted to 64 unsigned bits.
   */
  function Magnitude(v: int, width: nat): nat
    requires v < 0
  {
    var w := if width < 4 then 4 else width;
    TwosComplement((0 - v) % Pow256(w), w) % Pow256(8)
  }

  function SignedScalar(v: int, width: nat): Scalar {
    if v < 0 then NInt(Magnitude(v, width)) else UInt(v)
  }

  function TextOf(s: seq<byte>): string {
    seq(|s|, i requires 0 <= i < |s| => s[i] as char)
  }

  /** What `encode_msg_args` emits for one item; an unknown type emits nothing. */
  function Render(a: Arg): seq<Item>
    requires WellTyped(a)
  {
    if a.kind in {CHAR, UCHAR} then [Leaf(Simple(a.value[0]))]
    else if Signed(a.kind) then
      [Leaf(SignedScalar(TwosComplement(LeValue(a.value), Width(a.kind)), Width(a.kind)))]
    else if a.kind in {USHORT, UINT, ULONG, ULLONG, SIZE, UINTMAX} then [Leaf(UInt(LeValue(a.value)))]
    else if a.kind in {DOUBLE, LDOUBLE} then [Leaf(Cbor.Double(a.value))]
    else if a.kind == STR then [Leaf(Text(TextOf(a.value)))]
    else []
  }

  function RenderAll(args: seq<Arg>): seq<Item>
    requires AllWellTyped(args)
  {
    if args == [] then [] else Render(args[0]) + RenderAll(args[1..])
  }
}
