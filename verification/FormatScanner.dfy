/**
  The printf-format scanner of the log hook. It walks the format, takes each argument with the width
  its conversion implies, and stores type, length and value, until one does not fit.
 */
module FormatScanner {
  import opened Bytes
  import opened Cbor
  import opened Tlv

  // ---- formats ----

  datatype Piece =
    | Literal(c: char)
    | Conversion(flags: string, width: string, precision: Option<string>, modifiers: string, spec: char)

  datatype CharClass = Flag | Digit | ModifierChar

  predicate In(c: char, cls: CharClass) {
    match cls
    case Flag => c in "#0- +'"
    case Digit => '0' <= c <= '9'
    case ModifierChar => c in "hljtzL"
  }

  predicate AllIn(s: string, cls: CharClass) {
    forall i :: 0 <= i < |s| ==> In(s[i], cls)
  }

  /** The printf grammar; a width does not start with 0, which is a flag. */
  predicate PieceOk(p: Piece) {
    match p
    case Literal(c) => c != '%' && c != '\0'
    case Conversion(flags, width, precision, modifiers, spec) =>
      && AllIn(flags, Flag) && AllIn(width, Digit) && (width != "" ==> width[0] != '0')
      && (precision.Some? ==> AllIn(precision.value, Digit)) && AllIn(modifiers, ModifierChar)
      && spec != '\0' && spec != '.' && !In(spec, Flag) && !In(spec, Digit) && !In(spec, ModifierChar)
  }

  function PrecisionText(p: Option<string>): string {
    if p.Some? then "." + p.value else ""
  }

  function Print(p: Piece): (s: string)
    ensures s != ""
  {
    match p
    case Literal(c) => [c]
    case Conversion(flags, width, precision, modifiers, spec) =>
      "%" + flags + width + PrecisionText(precision) + modifiers + [spec]
  }

  function PrintAll(ps: seq<Piece>): string {
    if ps == [] then "" else Print(ps[0]) + PrintAll(ps[1..])
  }

  predicate PiecesOk(ps: seq<Piece>) {
    forall i :: 0 <= i < |ps| ==> PieceOk(ps[i])
  }

  // ---- arguments ----

  /** One variadic argument by class; what a signed or unsigned type of some width makes of it comes later. */
  datatype VarArg = IntegerArg(n: int) | RealArg(bits: seq<byte>) | StringArg(text: Option<seq<byte>>)

  datatype Modifier = NoMod | ModHH | ModH | ModL | ModLL | ModJ | ModT | ModZ | ModLongDouble

  function Modify(m: Modifier, c: char): Modifier {
    match c
    case 'h' => if m == ModH then ModHH else ModH
    case 'l' => if m == ModL then ModLL else ModL
    case 'j' => ModJ
    case 't' => ModT
    case 'z' => ModZ
    case 'L' => ModLongDouble
    case _ => m
  }

  function ModifierOf(s: string): Modifier {
    if s == "" then NoMod else Modify(ModifierOf(s[..|s| - 1]), s[|s| - 1])
  }

  /** `sizeof` the type the modifier names, on a 32-bit target whose `long double` has 8 bytes. */
  function ModifierSize(m: Modifier): nat {
    match m
    case NoMod => 0
    case ModHH => 1
    case ModH => 2
    case ModL => 4
    case ModLL => 8
    case ModJ => 8
    case ModT => 4
    case ModZ => 4
    case ModLongDouble => 8
  }

  /** What a conversion does: store an argument, take one and drop it, or not touch the list. */
  datatype Action = Integer(kind: byte, size: nat) | Real(kind: byte) | Str | Drop | Leave

  function ActionOf(m: Modifier, spec: char): Action {
    if spec == 'D' then Integer(LONG, 4)
    else if spec in "di" then
      match m
      case NoMod => Integer(INT, 4)
      case ModZ => Integer(INT, 4)
      case ModHH => Integer(CHAR, 1)
      case ModH => Integer(SHORT, 2)
      case ModL => Integer(LONG, 4)
      case ModLL => Integer(LLONG, 8)
      case ModJ => Integer(INTMAX, 8)
      case ModT => Integer(PTRDIFF, 4)
      case ModLongDouble => Leave
    else if spec in "OU" then Integer(ULLONG, 4)
    else if spec in "ouxXp" then
      match m
      case NoMod => Integer(UINT, 4)
      case ModT => Integer(UINT, 4)
      case ModHH => Integer(UCHAR, 1)
      case ModH => Integer(USHORT, 2)
      case ModL => Integer(ULONG, 4)
      case ModLL => Integer(ULLONG, 8)
      case ModJ => Integer(UINTMAX, 8)
      case ModZ => Integer(SIZE, 4)
      case ModLongDouble => Leave
    else if spec in "aAeEfFgG" then
      match m
      case NoMod => Real(DOUBLE)
      case ModL => Real(DOUBLE)
      case ModLongDouble => Real(LDOUBLE)
      case _ => Leave
    else if spec == 'c' then Integer(CHAR, 1)
    else if spec == 's' then Str
    else Drop  // %n, %% and everything unknown take one int
  }

  predicate Takes(a: Action) {
    !a.Leave?
  }

  /** The argument is of the class the conversion reads. */
  predicate Fits(a: Action, v: VarArg) {
    match a
    case Integer(_, _) => v.IntegerArg?
    case Real(_) => v.RealArg? && |v.bits| == 8
    case Str => v.StringArg?
    case Drop => v.IntegerArg?
    case Leave => true
  }

  /** The stored item: integers cut to their width, strings to their length modulo 256. */
  function Stored(a: Action, v: VarArg): seq<Arg>
    requires Fits(a, v)
  {
    match a
    case Integer(kind, size) => [Arg(kind, LeBytes(v.n % Pow256(size), size))]
    case Real(kind) => [Arg(kind, v.bits)]
    case Str => [Arg(STR, if v.text.Some? then v.text.value[..|v.text.value| % U8] else [])]
    case Drop => []
    case Leave => []
  }

  /** Enough arguments, each of the class its conversion reads. */
  predicate Matches(ps: seq<Piece>, args: seq<VarArg>) {
    ps == [] ||
    match ps[0]
    case Literal(_) => Matches(ps[1..], args)
    case Conversion(_, _, _, modifiers, spec) =>
      var a := ActionOf(ModifierOf(modifiers), spec);
      if Takes(a) then args != [] && Fits(a, args[0]) && Matches(ps[1..], args[1..]) else Matches(ps[1..], args)
  }

  /** The items of all conversions in order, as if the buffer had no end. */
  function Items(ps: seq<Piece>, args: seq<VarArg>): seq<Arg>
    requires Matches(ps, args)
  {
    if ps == [] then [] else
      match ps[0]
      case Literal(_) => Items(ps[1..], args)
      case Conversion(_, _, _, modifiers, spec) =>
        var a := ActionOf(ModifierOf(modifiers), spec);
        if Takes(a) then Stored(a, args[0]) + Items(ps[1..], args[1..]) else Items(ps[1..], args)
  }

  lemma StoredIsTyped(m: Modifier, spec: char, v: VarArg)
    requires Fits(ActionOf(m, spec), v)
    ensures AllWellTyped(Stored(ActionOf(m, spec), v))
  {
  }

  /** The items stored: up to the first that does not fit behind what is there. */
  function Fitting(items: seq<Arg>, used: nat, room: nat): (r: seq<Arg>)
    ensures |r| <= |items| && r == items[..|r|]
  {
    if items == [] || used + 2 + |items[0].value| > room then []
    else [items[0]] + Fitting(items[1..], used + 2 + |items[0].value|, room)
  }

  /** They are the longest prefix whose bytes fit the buffer. */
  lemma {:induction false} FittingIsLongest(items: seq<Arg>, used: nat, room: nat)
    requires AllWellTyped(items) && used <= room
    ensures var k := |Fitting(items, used, room)|;
      && used + |EncodeArgs(items[..k])| <= room
      && (k < |items| ==> used + |EncodeArgs(items[..k + 1])| > room)
    decreases |items|
  {
    var k := |Fitting(items, used, room)|;
    if items != [] {
      assert items[..1][1..] == [];
      assert EncodeArgs(items[..1]) == EncodeArg(items[0]) + [];
      if k > 0 {
        FittingIsLongest(items[1..], used + 2 + |items[0].value|, room);
        assert items[..k][1..] == items[1..][..k - 1];
        if k < |items| {
          assert items[..k + 1][1..] == items[1..][..k];
        }
      }
    }
  }

  // ---- the scanner ----

  lemma HeadAndValue(s: seq<byte>, k: nat, kind: byte, value: seq<byte>)
    requires k + 2 <= |s| && |value| < U8 && s[k] == kind && s[k + 1] == |value| && s[k + 2..] == value
    ensures s == s[..k] + EncodeArg(Arg(kind, value))
  {
    assert s[k..] == [kind, |value|] + value;
  }

  /** `append_arg`: refused when type, length and value do not fit, otherwise appended. */
  method AppendArg(args: array<byte>, outSize: nat, kind: byte, value: seq<byte>) returns (ok: bool, newSize: nat)
    requires outSize <= args.Length < U8 && |value| < U8
    modifies args
    ensures ok == (outSize + 2 + |value| <= args.Length)
    ensures newSize == if ok then outSize + 2 + |value| else outSize
    ensures newSize <= args.Length
    ensures args[..newSize] == old(args[..outSize]) + if ok then EncodeArg(Arg(kind, value)) else []
  {
    hide EncodeArg, Cut8;
    if outSize + 2 + |value| > args.Length {
      return false, outSize;
    }
    args[outSize] := kind;
    args[outSize + 1] := |value|;
    for i := 0 to |value|
      invariant args[outSize] == kind && args[outSize + 1] == |value|
      invariant forall j :: 0 <= j < outSize ==> args[j] == old(args[j])
      invariant forall j :: 0 <= j < i ==> args[outSize + 2 + j] == value[j]
    {
      args[outSize + 2 + i] := value[i];
    }
    assert args[..outSize + 2 + |value|][..outSize] == old(args[..outSize]);
    assert args[outSize + 2..outSize + 2 + |value|] == value;
    HeadAndValue(args[..outSize + 2 + |value|], outSize, kind, value);
    return true, Cut8(outSize + (|value| + 2));
  }

  /** Skip the longest run of characters of one class; the terminating NUL is in none. */
  method Skip(format: string, p: nat, cls: CharClass) returns (q: nat)
    requires p <= |format|
    ensures p <= q <= |format| && AllIn(format[p..q], cls) && (q < |format| ==> !In(format[q], cls))
  {
    q := p;
    while q < |format| && In(format[q], cls)
      invariant p <= q <= |format| && forall i :: p <= i < q ==> In(format[i], cls)
    {
      q := q + 1;
    }
  }

  lemma NoModifiers()
    ensures ModifierOf("") == NoMod
  {
  }

  lemma MoreModifiers(format: string, p: nat, q: nat)
    requires p <= q < |format|
    ensures ModifierOf(format[p..q + 1]) == Modify(ModifierOf(format[p..q]), format[q])
    ensures AllIn(format[p..q], ModifierChar) && In(format[q], ModifierChar) ==> AllIn(format[p..q + 1], ModifierChar)
  {
    var s := format[p..q + 1];
    assert s[..|s| - 1] == format[p..q];
  }

  /** The length-modifier loop: every further character changes modifier and size. */
  method ScanModifiers(format: string, p: nat) returns (q: nat, m: Modifier, len: nat)
    requires p <= |format|
    ensures p <= q <= |format| && AllIn(format[p..q], ModifierChar) && (q < |format| ==> !In(format[q], ModifierChar))
    ensures m == ModifierOf(format[p..q]) && len == ModifierSize(m)
  {
    hide ModifierOf;
    NoModifiers();
    q, m, len := p, NoMod, 0;
    assert format[p..q] == "";
    while q < |format| && In(format[q], ModifierChar)
      invariant p <= q <= |format| && AllIn(format[p..q], ModifierChar)
      invariant m == ModifierOf(format[p..q]) && len == ModifierSize(m)
    {
      MoreModifiers(format, p, q);
      match format[q] {
        case 'h' => if m == ModH { m, len := ModHH, 1; } else { m, len := ModH, 2; }
        case 'l' => if m == ModL { m, len := ModLL, 8; } else { m, len := ModL, 4; }
        case 'j' => m, len := ModJ, 8;
        case 't' => m, len := ModT, 4;
        case 'z' => m, len := ModZ, 4;
        case _ => m, len := ModLongDouble, 8;
      }
      q := q + 1;
    }
  }

  /** What the cases of the outer specifier switch have in common for every modifier. */
  lemma ActionCases(m: Modifier, spec: char)
    ensures var a := ActionOf(m, spec);
      && (spec == 'D' ==> a == Integer(LONG, 4))
      && (spec in "OU" ==> a == Integer(ULLONG, 4))
      && (spec in "diouxXp" ==> if m == ModLongDouble then a == Leave else a.Integer?)
      && (spec == 'c' ==> a == Integer(CHAR, 1))
      && (spec == 's' ==> a == Str)
      && (spec !in "DdiOUouxXpaAeEfFgGcs" ==> a == Drop)
  {
  }

  /** The signed integer conversions of the specifier switch. */
  method StoreSigned(buf: array<byte>, outSize: nat, m: Modifier, len: nat, spec: char, n: int)
    returns (ok: bool, newSize: nat)
    requires outSize <= buf.Length < U8 && len == ModifierSize(m) && spec in "di" && m != ModLongDouble
    modifies buf
    ensures newSize <= buf.Length && ActionOf(m, spec).Integer?
    ensures var item := Stored(ActionOf(m, spec), IntegerArg(n))[0];
      && newSize == (if ok then outSize + 2 + |item.value| else outSize)
      && ok == (outSize + 2 + |item.value| <= buf.Length)
      && buf[..newSize] == old(buf[..outSize]) + if ok then EncodeArg(item) else []
  {
    hide LeBytes, Pow256, EncodeArg;
    match m {
      case NoMod => ok, newSize := AppendArg(buf, outSize, INT, LeBytes(n % Pow256(4), 4));
      case ModZ => ok, newSize := AppendArg(buf, outSize, INT, LeBytes(n % Pow256(4), 4));
      case ModHH => ok, newSize := AppendArg(buf, outSize, CHAR, LeBytes(n % Pow256(len), len));
      case ModH => ok, newSize := AppendArg(buf, outSize, SHORT, LeBytes(n % Pow256(len), len));
      case ModL => ok, newSize := AppendArg(buf, outSize, LONG, LeBytes(n % Pow256(len), len));
      case ModLL => ok, newSize := AppendArg(buf, outSize, LLONG, LeBytes(n % Pow256(len), len));
      case ModJ => ok, newSize := AppendArg(buf, outSize, INTMAX, LeBytes(n % Pow256(len), len));
      case ModT => ok, newSize := AppendArg(buf, outSize, PTRDIFF, LeBytes(n % Pow256(len), len));
    }
  }

  /** The unsigned ones. */
  method StoreUnsigned(buf: array<byte>, outSize: nat, m: Modifier, len: nat, spec: char, n: int)
    returns (ok: bool, newSize: nat)
    requires outSize <= buf.Length < U8 && len == ModifierSize(m) && spec in "ouxXp" && m != ModLongDouble
    modifies buf
    ensures newSize <= buf.Length && ActionOf(m, spec).Integer?
    ensures var item := Stored(ActionOf(m, spec), IntegerArg(n))[0];
      && newSize == (if ok then outSize + 2 + |item.value| else outSize)
      && ok == (outSize + 2 + |item.value| <= buf.Length)
      && buf[..newSize] == old(buf[..outSize]) + if ok then EncodeArg(item) else []
  {
    hide LeBytes, Pow256, EncodeArg;
    match m {
      case NoMod => ok, newSize := AppendArg(buf, outSize, UINT, LeBytes(n % Pow256(4), 4));
      case ModT => ok, newSize := AppendArg(buf, outSize, UINT, LeBytes(n % Pow256(4), 4));
      case ModHH => ok, newSize := AppendArg(buf, outSize, UCHAR, LeBytes(n % Pow256(len), len));
      case ModH => ok, newSize := AppendArg(buf, outSize, USHORT, LeBytes(n % Pow256(len), len));
      case ModL => ok, newSize := AppendArg(buf, outSize, ULONG, LeBytes(n % Pow256(len), len));
      case ModLL => ok, newSize := AppendArg(buf, outSize, ULLONG, LeBytes(n % Pow256(len), len));
      case ModJ => ok, newSize := AppendArg(buf, outSize, UINTMAX, LeBytes(n % Pow256(len), len));
      case ModZ => ok, newSize := AppendArg(buf, outSize, SIZE, LeBytes(n % Pow256(len), len));
    }
  }

  /** The floating-point conversions. */
  method StoreReal(buf: array<byte>, outSize: nat, m: Modifier, spec: char, args: seq<VarArg>, next: nat)
    returns (ok: bool, newSize: nat, newNext: nat)
    requires outSize <= buf.Length < U8 && next <= |args| && spec in "aAeEfFgG"
    requires Takes(ActionOf(m, spec)) ==> next < |args| && Fits(ActionOf(m, spec), args[next])
    modifies buf
    ensures newSize <= buf.Length && newNext == if Takes(ActionOf(m, spec)) then next + 1 else next
    ensures var items := if Takes(ActionOf(m, spec)) then Stored(ActionOf(m, spec), args[next]) else [];
      && newSize == (if ok && items != [] then outSize + 2 + |items[0].value| else outSize)
      && ok == (items == [] || outSize + 2 + |items[0].value| <= buf.Length)
      && buf[..newSize] == old(buf[..outSize]) + if ok && items != [] then EncodeArg(items[0]) else []
  {
    hide EncodeArg;
    ok, newSize, newNext := true, outSize, next;
    assert old(buf[..outSize]) + [] == old(buf[..outSize]);
    if m == NoMod || m == ModL {
      ok, newSize := AppendArg(buf, outSize, DOUBLE, args[next].bits);
      newNext := next + 1;
    } else if m == ModLongDouble {
      ok, newSize := AppendArg(buf, outSize, LDOUBLE, args[next].bits);
      newNext := next + 1;
    }
  }

  /**
    The specifier switch of `get_tlv_from_ap` for one conversion. `next` is the position in the
    argument list; `ok` turns false when the item does not fit.
   */
  method StoreArgument(buf: array<byte>, outSize: nat, m: Modifier, len: nat, spec: char, args: seq<VarArg>, next: nat)
    returns (ok: bool, newSize: nat, newNext: nat)
    requires outSize <= buf.Length < U8 && len == ModifierSize(m) && next <= |args|
    requires Takes(ActionOf(m, spec)) ==> next < |args| && Fits(ActionOf(m, spec), args[next])
    modifies buf
    ensures newSize <= buf.Length && newNext == if Takes(ActionOf(m, spec)) then next + 1 else next
    ensures var items := if Takes(ActionOf(m, spec)) then Stored(ActionOf(m, spec), args[next]) else [];
      && newSize == (if ok && items != [] then outSize + 2 + |items[0].value| else outSize)
      && ok == (items == [] || outSize + 2 + |items[0].value| <= buf.Length)
      && buf[..newSize] == old(buf[..outSize]) + if ok && items != [] then EncodeArg(items[0]) else []
  {
    hide LeBytes, Pow256, EncodeArg, ActionOf, ModifierSize;
    ActionCases(m, spec);
    ok, newSize, newNext := true, outSize, next;
    assert old(buf[..outSize]) + [] == old(buf[..outSize]);
    if spec == 'D' {
      ok, newSize := AppendArg(buf, outSize, LONG, LeBytes(args[next].n % Pow256(4), 4));
      newNext := next + 1;
    } else if spec == 'd' || spec == 'i' {
      if m != ModLongDouble {
        ok, newSize := StoreSigned(buf, outSize, m, len, spec, args[next].n);
        newNext := next + 1;
      }
    } else if spec == 'O' || spec == 'U' {
      ok, newSize := AppendArg(buf, outSize, ULLONG, LeBytes(args[next].n % Pow256(4), 4));
      newNext := next + 1;
    } else if spec in "ouxXp" {
      if m != ModLongDouble {
        ok, newSize := StoreUnsigned(buf, outSize, m, len, spec, args[next].n);
        newNext := next + 1;
      }
    } else if spec in "aAeEfFgG" {
      ok, newSize, newNext := StoreReal(buf, outSize, m, spec, args, next);
    } else if spec == 'c' {
      ok, newSize := AppendArg(buf, outSize, CHAR, LeBytes(args[next].n % Pow256(1), 1));
      newNext := next + 1;
    } else if spec == 's' {
      var text := args[next].text;
      var strLen := if text.Some? then |text.value| % U8 else 0;
      ok, newSize := AppendArg(buf, outSize, STR, if text.Some? then text.value[..strLen] else []);
      newNext := next + 1;
    } else {
      newNext := next + 1;
    }
  }

  /** A greedy skip ends where the run it was aimed at ends. */
  lemma RunEnd(format: string, p: nat, q: nat, run: string, rest: string, cls: CharClass)
    requires p <= q <= |format| && format[p..] == run + rest && AllIn(run, cls)
    requires rest != "" ==> !In(rest[0], cls)
    requires AllIn(format[p..q], cls) && (q < |format| ==> !In(format[q], cls))
    ensures q == p + |run| && format[q..] == rest && format[p..q] == run
  {
    var n := p + |run|;
    assert |format| - p == |run| + |rest|;
    assert forall i :: p <= i < |format| ==> format[i] == (run + rest)[i - p];
    assert forall i :: p <= i < n ==> format[i] == run[i - p];
    assert forall i :: p <= i < q ==> format[i] == format[p..q][i - p];
    assert rest != "" ==> format[n] == rest[0];
    assert q == n;
    assert format[n..] == format[p..][n - p..] == rest;
    assert format[p..n] == format[p..][..n - p] == run;
  }

  // what is left of a conversion after its flags, width, precision and modifiers

  function AfterModifiers(pc: Piece, rest: string): string
    requires pc.Conversion?
  {
    [pc.spec] + rest
  }

  function AfterPrecision(pc: Piece, rest: string): string
    requires pc.Conversion?
  {
    pc.modifiers + AfterModifiers(pc, rest)
  }

  function AfterWidth(pc: Piece, rest: string): string
    requires pc.Conversion?
  {
    PrecisionText(pc.precision) + AfterPrecision(pc, rest)
  }

  function AfterFlags(pc: Piece, rest: string): string
    requires pc.Conversion?
  {
    pc.width + AfterWidth(pc, rest)
  }

  /** Each part starts with a character that ends the run before it. */
  lemma PartsAreDelimited(pc: Piece, rest: string)
    requires pc.Conversion? && PieceOk(pc)
    ensures var s := AfterFlags(pc, rest); s != "" && !In(s[0], Flag)
    ensures var s := AfterWidth(pc, rest); s != "" && !In(s[0], Digit) && (s[0] == '.' <==> pc.precision.Some?)
    ensures pc.precision.Some? ==> AfterWidth(pc, rest)[1..] == pc.precision.value + AfterPrecision(pc, rest)
    ensures pc.precision.None? ==> AfterWidth(pc, rest) == AfterPrecision(pc, rest)
  {
  }

  lemma PrecisionIsDelimited(pc: Piece, rest: string)
    requires pc.Conversion? && PieceOk(pc)
    ensures var s := AfterPrecision(pc, rest); s != "" && !In(s[0], Digit)
  {
  }

  lemma LaterPartsAreDelimited(pc: Piece, rest: string)
    requires pc.Conversion? && PieceOk(pc)
    ensures var s := AfterModifiers(pc, rest); s != "" && !In(s[0], ModifierChar) && s[0] == pc.spec && s[1..] == rest
  {
  }

  lemma FlagsFollow(pc: Piece, rest: string)
    requires pc.Conversion?
    ensures (Print(pc) + rest)[1..] == pc.flags + AfterFlags(pc, rest)
  {
    hide PrecisionText;
  }

  /** From the '%' to the specifier: flags, width, precision, modifiers. */
  method ScanConversion(format: string, p: nat, ghost pc: Piece, ghost rest: string)
    returns (q: nat, m: Modifier, len: nat)
    requires p < |format| && pc.Conversion? && PieceOk(pc) && format[p..] == Print(pc) + rest
    ensures q < |format| && format[q] == pc.spec && format[q + 1..] == rest
    ensures m == ModifierOf(pc.modifiers) && len == ModifierSize(m)
  {
    hide ModifierOf, ModifierSize, In, Print, AfterFlags, AfterWidth, AfterPrecision, AfterModifiers;
    PartsAreDelimited(pc, rest);
    PrecisionIsDelimited(pc, rest);
    LaterPartsAreDelimited(pc, rest);
    FlagsFollow(pc, rest);
    assert format[p + 1..] == format[p..][1..];
    q := Skip(format, p + 1, Flag);
    RunEnd(format, p + 1, q, pc.flags, AfterFlags(pc, rest), Flag);
    ghost var at := q;
    q := Skip(format, q, Digit);
    WidthThen(pc, rest);
    RunEnd(format, at, q, pc.width, AfterWidth(pc, rest), Digit);
    assert format[q] == format[q..][0];
    if format[q] == '.' {
      assert format[q + 1..] == format[q..][1..];
      at := q + 1;
      q := Skip(format, q + 1, Digit);
      RunEnd(format, at, q, pc.precision.value, AfterPrecision(pc, rest), Digit);
    }
    at := q;
    q, m, len := ScanModifiers(format, q);
    ModifiersThen(pc, rest);
    RunEnd(format, at, q, pc.modifiers, AfterModifiers(pc, rest), ModifierChar);
    assert format[q..][0] == pc.spec && format[q..][1..] == format[q + 1..];
  }

  lemma WidthThen(pc: Piece, rest: string)
    requires pc.Conversion?
    ensures AfterFlags(pc, rest) == pc.width + AfterWidth(pc, rest)
  {
  }

  lemma ModifiersThen(pc: Piece, rest: string)
    requires pc.Conversion?
    ensures AfterPrecision(pc, rest) == pc.modifiers + AfterModifiers(pc, rest)
  {
  }

  /**
    `get_tlv_from_ap`. `pieces` says how the format was put together and `args` what was passed with it.
    The buffer ends up holding the items of the conversions in order, up to the first that does not fit.
   */
  method GetTlv(format: string, args: seq<VarArg>, buf: array<byte>, ghost pieces: seq<Piece>) returns (outSize: nat)
    requires PiecesOk(pieces) && format == PrintAll(pieces) && Matches(pieces, args) && buf.Length < U8
    modifies buf
    ensures outSize <= buf.Length && AllWellTyped(Fitting(Items(pieces, args), 0, buf.Length))
    ensures ParseArgs(buf[..outSize]) == Some(Fitting(Items(pieces, args), 0, buf.Length))
  {
    hide Print, PrintAll, PieceOk, ActionOf, ModifierOf, ModifierSize, Stored, Fits, WellTyped, EncodeArg, EncodeArgs,
         ParseArgs, Fitting, Items, Matches, Scanned;
    ghost var ps := pieces;
    ghost var done: seq<Arg> := [];
    ghost var all := Items(pieces, args);
    ghost var stopped := false;
    var next := 0;
    var p := 0;
    outSize := 0;
    assert args[0..] == args;
    NothingScanned(all, buf.Length);
    NothingEncoded();
    while p < |format|
      invariant p <= |format| && outSize <= buf.Length && next <= |args| && PiecesOk(ps)
      invariant format[p..] == PrintAll(ps) && Matches(ps, args[next..])
      invariant AllWellTyped(done) && buf[..outSize] == EncodeArgs(done)
      invariant Scanned(all, done, Items(ps, args[next..]), outSize, buf.Length)
      invariant !stopped
      decreases |format| - p
    {
      FirstPiece(format, p, ps);
      ghost var pc := ps[0];
      NextPiece(ps, args, next);
      if format[p] != '%' {
        ps := ps[1..];
        p := p + 1;
        continue;
      }
      var q, m, len := ScanConversion(format, p, pc, PrintAll(ps[1..]));
      ghost var used := outSize;
      ghost var items := if Takes(ActionOf(m, pc.spec)) then Stored(ActionOf(m, pc.spec), args[next]) else [];
      var ok;
      ok, outSize, next := StoreArgument(buf, outSize, m, len, format[q], args, next);
      OneScanned(all, done, items, Items(ps[1..], args[next..]), used, buf.Length);
      if !ok {
        assert buf[..outSize] == EncodeArgs(done);
        stopped := true;
        break;
      }
      AppendedItem(done, items);
      done := done + items;
      ps := ps[1..];
      p := q + 1;
    }
    if !stopped {
      assert format[p..] == "";
      AllScanned(all, done, ps, args[next..], outSize, buf.Length);
    }
    ParseEncode(done);
  }

  /** `done` is stored, and of the items `rest` those will be that still fit. */
  predicate Scanned(all: seq<Arg>, done: seq<Arg>, rest: seq<Arg>, used: nat, room: nat) {
    Fitting(all, 0, room) == done + Fitting(rest, used, room)
  }

  lemma NothingScanned(all: seq<Arg>, room: nat)
    ensures Scanned(all, [], all, 0, room)
  {
  }

  lemma OneScanned(all: seq<Arg>, done: seq<Arg>, items: seq<Arg>, more: seq<Arg>, used: nat, room: nat)
    requires |items| <= 1
    requires Scanned(all, done, items + more, used, room) || (items == [] && Scanned(all, done, more, used, room))
    ensures items != [] && used + 2 + |items[0].value| > room ==> Fitting(all, 0, room) == done
    ensures items != [] && used + 2 + |items[0].value| <= room ==>
      Scanned(all, done + items, more, used + 2 + |items[0].value|, room)
    ensures items == [] ==> Scanned(all, done + items, more, used, room)
  {
    FittingStep(items, more, used, room);
    if items == [] {
      assert items + more == more && done + items == done;
    } else {
      var n := used + 2 + |items[0].value|;
      assert done + [] == done;
      assert done + (items + Fitting(more, n, room)) == done + items + Fitting(more, n, room);
    }
  }

  lemma AllScanned(all: seq<Arg>, done: seq<Arg>, ps: seq<Piece>, args: seq<VarArg>, used: nat, room: nat)
    requires PrintAll(ps) == "" && Matches(ps, args) && Scanned(all, done, Items(ps, args), used, room)
    ensures Fitting(all, 0, room) == done
  {
    NothingLeft(ps, args, used, room);
    assert done + [] == done;
  }

  lemma NothingEncoded()
    ensures EncodeArgs([]) == []
  {
  }

  /** The first character tells a conversion from a literal. */
  lemma FirstPiece(format: string, p: nat, ps: seq<Piece>)
    requires p < |format| && PiecesOk(ps) && format[p..] == PrintAll(ps)
    ensures ps != [] && PieceOk(ps[0]) && PiecesOk(ps[1..])
    ensures format[p..] == Print(ps[0]) + PrintAll(ps[1..]) && (format[p] == '%' <==> ps[0].Conversion?)
    ensures ps[0].Literal? ==> format[p + 1..] == PrintAll(ps[1..])
  {
    assert format[p] == format[p..][0];
    assert format[p + 1..] == format[p..][1..];
  }

  /** What the head piece says about the argument list and the items. */
  lemma NextPiece(ps: seq<Piece>, args: seq<VarArg>, next: nat)
    requires ps != [] && next <= |args| && Matches(ps, args[next..])
    ensures ps[0].Literal? ==>
      Matches(ps[1..], args[next..]) && Items(ps, args[next..]) == Items(ps[1..], args[next..])
    ensures ps[0].Conversion? ==>
      var a := ActionOf(ModifierOf(ps[0].modifiers), ps[0].spec);
      if Takes(a) then
        && next < |args| && Fits(a, args[next]) && Matches(ps[1..], args[next + 1..])
        && Items(ps, args[next..]) == Stored(a, args[next]) + Items(ps[1..], args[next + 1..])
        && AllWellTyped(Stored(a, args[next])) && |Stored(a, args[next])| <= 1
      else Matches(ps[1..], args[next..]) && Items(ps, args[next..]) == Items(ps[1..], args[next..])
  {
    hide ActionOf, ModifierOf, WellTyped;
    if ps[0].Conversion? {
      var m := ModifierOf(ps[0].modifiers);
      if Takes(ActionOf(m, ps[0].spec)) {
        assert args[next..][1..] == args[next + 1..];
        StoredIsTyped(m, ps[0].spec, args[next]);
      }
    }
  }

  lemma FittingStep(stored: seq<Arg>, rest: seq<Arg>, used: nat, room: nat)
    requires |stored| <= 1
    ensures Fitting(stored + rest, used, room) ==
      if stored == [] then Fitting(rest, used, room)
      else if used + 2 + |stored[0].value| > room then []
      else stored + Fitting(rest, used + 2 + |stored[0].value|, room)
  {
    if stored == [] {
      assert stored + rest == rest;
    } else {
      assert (stored + rest)[1..] == rest && [stored[0]] == stored;
    }
  }

  lemma AppendedItem(done: seq<Arg>, items: seq<Arg>)
    requires AllWellTyped(done) && AllWellTyped(items) && |items| <= 1
    ensures AllWellTyped(done + items)
    ensures EncodeArgs(done + items) == EncodeArgs(done) + if items == [] then [] else EncodeArg(items[0])
  {
    EncodeConcat(done, items);
    if items != [] {
      assert items[1..] == [] && EncodeArgs(items) == EncodeArg(items[0]) + [];
    }
  }

  lemma NothingLeft(ps: seq<Piece>, args: seq<VarArg>, used: nat, room: nat)
    requires PrintAll(ps) == "" && Matches(ps, args)
    ensures Fitting(Items(ps, args), used, room) == []
  {
  }

  // ---- from the variadic argument to the CBOR value ----

  /** The conversions whose argument is of a signed C type; `%c` prints an unsigned character. */
  predicate SignedSpec(spec: char) {
    spec in "dDi"
  }

  /** `n` is a value of the C type the conversion takes. */
  predicate InCType(m: Modifier, spec: char, n: int)
    requires ActionOf(m, spec).Integer?
  {
    var p := Pow256(ActionOf(m, spec).size);
    if SignedSpec(spec) then 0 <= p + 2 * n < 2 * p else 0 <= n < p
  }

  lemma BytesSurvive(size: nat, n: int)
    requires size in {1, 2, 4, 8}
    ensures LeValue(LeBytes(n % Pow256(size), size)) == n % Pow256(size)
    ensures 0 <= n < Pow256(size) ==> n % Pow256(size) == n
    ensures 0 <= Pow256(size) + 2 * n < 2 * Pow256(size) ==> TwosComplement(n % Pow256(size), size) == n
  {
    hide LeBytes, LeValue, Pow256;
    Pow256Values();
    LeRoundTrip(n % Pow256(size), size);
    ReduceOnce(n, Pow256(size));
  }

  lemma ReduceOnce(n: int, p: nat)
    requires p in {U8, U16, U32, U32 * U32}
    ensures 0 <= n < p ==> n % p == n
    ensures n < 0 <= n + p ==> n % p == n + p
  {
    if p == U8 {
    } else if p == U16 {
    } else if p == U32 {
    } else {
      assert p == 0x1_0000_0000_0000_0000;
    }
  }

  /** The scalar the decoder makes of one stored integer. */
  function Sent(kind: byte, size: nat, n: int): Scalar {
    if kind in {CHAR, UCHAR} then Simple(n % U8)
    else if Signed(kind) then SignedScalar(TwosComplement(n % Pow256(size), size), size)
    else UInt(n % Pow256(size))
  }

  lemma RenderedInteger(kind: byte, size: nat, n: int)
    requires kind < DOUBLE && size in {1, 2, 4, 8} && WellTyped(Arg(kind, LeBytes(n % Pow256(size), size)))
    requires (kind in {CHAR, UCHAR} ==> size == 1) && (Signed(kind) ==> size == Width(kind))
    ensures Render(Arg(kind, LeBytes(n % Pow256(size), size))) == [Leaf(Sent(kind, size, n))]
  {
    hide SignedScalar, TwosComplement;
    BytesSurvive(size, n);
    if size == 1 {
      assert Pow256(1) == 256 && LeBytes(n % 256, 1) == [n % 256 % 256] + LeBytes(n % 256 / 256, 0);
    }
  }

  lemma ActionKinds(m: Modifier, spec: char)
    requires ActionOf(m, spec).Integer?
    ensures var a := ActionOf(m, spec);
      && a.kind < DOUBLE && a.size in {1, 2, 4, 8} && (a.kind in {CHAR, UCHAR} ==> a.size == 1)
      && (Signed(a.kind) ==> a.size == Width(a.kind) && SignedSpec(spec))
      && (SignedSpec(spec) ==> Signed(a.kind) || a.kind == CHAR)
  {
  }

  /** The number a scalar stands for. */
  function NumberOf(s: Scalar): int
    requires s.UInt? || s.NInt? || s.Simple?
  {
    match s
    case UInt(n) => n
    case NInt(abs) => 0 - abs
    case Simple(v) => v
  }

  /** A signed value reaches the reader unchanged except one: the least 32-bit number. */
  lemma OnlyLeastIntIsLost(v: int, width: nat)
    requires width in {2, 4, 8} && 0 <= Pow256(width) + 2 * v < 2 * Pow256(width)
    ensures NumberOf(SignedScalar(v, width)) == v <==> !(width == 4 && v == -0x8000_0000)
  {
    Pow256Values();
    hide Pow256;
    if v < 0 {
      var w := if width < 4 then 4 else width;
      ReduceOnce(0 - v, Pow256(w));
      ReduceOnce(TwosComplement((0 - v) % Pow256(w), w), Pow256(8));
    }
  }

  /**
    For every conversion and every value of the C type it takes, after the trip through the argument bytes:
    the number sent is that value, unless it is a negative `%hhd` or the least 32-bit integer.
   */
  lemma IntegerSurvives(m: Modifier, spec: char, n: int)
    requires ActionOf(m, spec).Integer? && InCType(m, spec, n)
    ensures var a := ActionOf(m, spec);
      var item := Stored(a, IntegerArg(n))[0];
      && WellTyped(item) && Render(item) == [Leaf(Sent(a.kind, a.size, n))]
      && (NumberOf(Sent(a.kind, a.size, n)) == n <==> !(a.kind == CHAR && n < 0) && !(a.size == 4 && n == -0x8000_0000))
  {
    hide ActionOf, Pow256, Magnitude, LeBytes, LeValue, TwosComplement, Render, WellTyped;
    var a := ActionOf(m, spec);
    StoredIsTyped(m, spec, IntegerArg(n));
    ActionKinds(m, spec);
    assert Stored(a, IntegerArg(n)) == [Arg(a.kind, LeBytes(n % Pow256(a.size), a.size))];
    assert WellTyped(Stored(a, IntegerArg(n))[0]);
    RenderedInteger(a.kind, a.size, n);
    BytesSurvive(a.size, n);
    Pow256Values();
    ReduceOnce(n, Pow256(a.size));
    if Signed(a.kind) {
      OnlyLeastIntIsLost(n, a.size);
    }
  }

  /** `%hhd` with -1: the reader gets 255. */
  lemma NegativeCharIsLost()
    ensures InCType(ModHH, 'd', -1)
    ensures var item := Stored(ActionOf(ModHH, 'd'), IntegerArg(-1))[0];
      WellTyped(item) && Render(item) == [Leaf(Simple(255))]
  {
    IntegerSurvives(ModHH, 'd', -1);
  }

  /** `%d` with the least integer: the reader gets a number below every 64-bit integer. */
  lemma LeastIntIsLost()
    ensures InCType(NoMod, 'd', -0x8000_0000)
    ensures var item := Stored(ActionOf(NoMod, 'd'), IntegerArg(-0x8000_0000))[0];
      WellTyped(item) && Render(item) == [Leaf(NInt(0xFFFF_FFFF_8000_0000))]
  {
    Pow256Values();
    IntegerSurvives(NoMod, 'd', -0x8000_0000);
  }

  // ---- widths and precisions taken from the argument list ----

  /**
    The scanner takes the star of `%*d` or `%8.*d` for an unknown specifier and what follows for text. It drops the
    number and leaves the value in the list, where the next conversion finds it.
   */
  lemma StarLeavesItsValue(star: Piece, c: char, rest: seq<Piece>, number: int, value: VarArg, args: seq<VarArg>)
    requires star.Conversion? && PieceOk(star) && star.modifiers == "" && star.spec == '*'
    requires Matches(rest, [value] + args)
    ensures var ps := [star, Literal(c)] + rest;
      && PrintAll(ps) == Print(star) + [c] + PrintAll(rest)
      && Matches(ps, [IntegerArg(number), value] + args)
      && Items(ps, [IntegerArg(number), value] + args) == Items(rest, [value] + args)
  {
    hide PieceOk, Print, PrintAll, ActionOf, ModifierOf, Fits, Stored;
    var all := [IntegerArg(number), value] + args;
    var ps := [star, Literal(c)] + rest;
    var text := [Literal(c)] + rest;
    assert all[1..] == [value] + args;
    assert ps[1..] == text && text[1..] == rest;
    StarIsDropped(number);
    StarText(star, c, rest);
  }

  lemma StarIsDropped(n: int)
    ensures ActionOf(ModifierOf(""), '*') == Drop && Fits(Drop, IntegerArg(n)) && Stored(Drop, IntegerArg(n)) == []
  {
  }

  lemma StarText(star: Piece, c: char, rest: seq<Piece>)
    ensures PrintAll([star, Literal(c)] + rest) == Print(star) + [c] + PrintAll(rest)
  {
    var text := [Literal(c)] + rest;
    assert ([star, Literal(c)] + rest)[1..] == text && text[1..] == rest;
    assert PrintAll(text) == Print(Literal(c)) + PrintAll(rest);
  }

  /** `%%` is an unknown specifier too: it drops an argument, the one that the next conversion was meant to have. */
  lemma PercentTakesAnArgument(rest: seq<Piece>, meant: int, args: seq<VarArg>)
    requires Matches(rest, args)
    ensures var ps := [Conversion("", "", None, "", '%')] + rest;
      && PieceOk(ps[0]) && PrintAll(ps) == "%%" + PrintAll(rest)
      && Matches(ps, [IntegerArg(meant)] + args) && Items(ps, [IntegerArg(meant)] + args) == Items(rest, args)
  {
    hide ActionOf, ModifierOf, Fits, Stored;
    var percent := Conversion("", "", None, "", '%');
    assert ([percent] + rest)[1..] == rest && ([IntegerArg(meant)] + args)[1..] == args;
    PercentIsDropped(meant);
    assert Print(percent) == "%%";
  }

  lemma PercentIsDropped(n: int)
    ensures ActionOf(ModifierOf(""), '%') == Drop && Fits(Drop, IntegerArg(n)) && Stored(Drop, IntegerArg(n)) == []
  {
  }

  // ---- strings ----

  /** The text sent is the text passed exactly when that is shorter than 256 bytes; the length is an 8-bit variable. */
  lemma StringSurvives(m: Modifier, text: seq<byte>)
    ensures ActionOf(m, 's') == Str
    ensures var item := Stored(Str, StringArg(Some(text)))[0];
      && WellTyped(item) && Render(item) == [Leaf(Text(TextOf(item.value)))]
      && (TextOf(item.value) == TextOf(text) <==> |text| < U8)
  {
    hide ActionOf, LeBytes, LeValue;
    ActionCases(m, 's');
    StoredIsTyped(m, 's', StringArg(Some(text)));
    var n := |text| % U8;
    assert |TextOf(text[..n])| == n && |TextOf(text)| == |text|;
    if |text| < U8 {
      assert text[..n] == text;
    }
  }
}
