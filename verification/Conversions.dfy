/**
  What the reader of a message gets for each conversion of a format, given by the characters of the format and by
  the C type the conversion takes on the target.
 */
module Conversions {
  import opened Bytes
  import opened Cbor
  import opened Tlv
  import opened FormatScanner

  // ---- the conversions of the C language ----

  /** A conversion as C has it: flags, a width that is a number, a precision, a modifier and a letter. */
  predicate InC(pc: Piece) {
    && pc.Conversion?
    && (forall i :: 0 <= i < |pc.flags| ==> pc.flags[i] in {'-', '+', ' ', '#', '0', '\''})
    && (forall i :: 0 <= i < |pc.width| ==> '0' <= pc.width[i] <= '9')
    && (pc.width != "" ==> pc.width[0] != '0')
    && (pc.precision.Some? ==> forall i :: 0 <= i < |pc.precision.value| ==> '0' <= pc.precision.value[i] <= '9')
    && pc.modifiers in ["", "hh", "h", "l", "ll", "j", "t", "z", "L"]
    && pc.spec in {'d', 'i', 'o', 'u', 'x', 'X', 'a', 'A', 'e', 'E', 'f', 'F', 'g', 'G', 'c', 's', 'p', 'n', '%', 'D',
                   'O', 'U'}
  }

  /** The scanner's own idea of a format covers all of them, and as they are written. */
  lemma FormatsOfC(pc: Piece)
    requires InC(pc)
    ensures PieceOk(pc)
    ensures Print(pc) == "%" + pc.flags + pc.width + (if pc.precision.Some? then "." + pc.precision.value else "")
                         + pc.modifiers + [pc.spec]
  {
    forall i | 0 <= i < |pc.modifiers| ensures In(pc.modifiers[i], ModifierChar) {
      ModifierCharacters(pc.modifiers, i);
    }
  }

  lemma ModifierCharacters(modifiers: string, i: nat)
    requires modifiers in ["", "hh", "h", "l", "ll", "j", "t", "z", "L"] && i < |modifiers|
    ensures In(modifiers[i], ModifierChar)
  {
  }

  /** Any character but the percent sign and the terminator stands for itself. */
  lemma LiteralsOfC(c: char)
    requires c != '%' && c != '\0'
    ensures PieceOk(Literal(c)) && Print(Literal(c)) == [c]
  {
  }

  lemma ModifiersAre()
    ensures ModifierOf("") == NoMod && ModifierOf("h") == ModH && ModifierOf("l") == ModL && ModifierOf("j") == ModJ
    ensures ModifierOf("t") == ModT && ModifierOf("z") == ModZ && ModifierOf("L") == ModLongDouble
    ensures ModifierOf("hh") == ModHH && ModifierOf("ll") == ModLL
  {
    assert "h"[..0] == "" && "l"[..0] == "" && "j"[..0] == "" && "t"[..0] == "" && "z"[..0] == "" && "L"[..0] == "";
    assert "hh"[..1] == "h" && "ll"[..1] == "l";
    assert ModifierOf("h") == ModH && ModifierOf("l") == ModL;
  }

  /** The values of the signed C type: `char`, `short`, `int`, `long`, `long long`, `intmax_t`, and so on. */
  predicate SignedValue(modifiers: string, n: int) {
    if modifiers == "hh" then -128 <= n < 128
    else if modifiers == "h" then -32768 <= n < 32768
    else if modifiers in ["", "l", "t", "z"] then -2147483648 <= n < 2147483648
    else modifiers in ["ll", "j"] && -9223372036854775808 <= n < 9223372036854775808
  }

  predicate UnsignedValue(modifiers: string, n: int) {
    if modifiers == "hh" then 0 <= n < 256
    else if modifiers == "h" then 0 <= n < 65536
    else if modifiers in ["", "l", "t", "z"] then 0 <= n < 4294967296
    else modifiers in ["ll", "j"] && 0 <= n < 18446744073709551616
  }

  /** `n` is a value of the type that this integer conversion takes. */
  predicate ValueOf(modifiers: string, spec: char, n: int) {
    if spec in "di" then SignedValue(modifiers, n)
    else if spec in "ouxXp" then UnsignedValue(modifiers, n)
    else if spec == 'D' then SignedValue("l", n)
    else if spec in "OU" then UnsignedValue("l", n)
    else spec == 'c' && 0 <= n < 256
  }

  /** The values that do not arrive: negative characters, and the least 32-bit integer. */
  predicate LostValue(modifiers: string, spec: char, n: int) {
    || (spec in "di" && modifiers == "hh" && n < 0)
    || ((spec == 'D' || (spec in "di" && modifiers in ["", "l", "t", "z"])) && n == -2147483648)
  }

  /** The reader gets one scalar for the item. */
  predicate Reads(item: Arg, s: Scalar) {
    WellTyped(item) && Render(item) == [Leaf(s)]
  }

  /** The head of the items is one that is read as `s`, the rest are those of the other pieces. */
  predicate FirstReads(items: seq<Arg>, s: Scalar, others: seq<Arg>) {
    items != [] && Reads(items[0], s) && items[1..] == others
  }

  lemma HeadItems(pc: Piece, v: VarArg, rest: seq<Piece>, args: seq<VarArg>)
    requires pc.Conversion? && Matches(rest, args)
    requires Takes(ActionOf(ModifierOf(pc.modifiers), pc.spec)) && Fits(ActionOf(ModifierOf(pc.modifiers), pc.spec), v)
    ensures Matches([pc] + rest, [v] + args)
    ensures Items([pc] + rest, [v] + args)
         == Stored(ActionOf(ModifierOf(pc.modifiers), pc.spec), v) + Items(rest, args)
  {
    hide ActionOf, ModifierOf, Fits, Stored;
    assert ([pc] + rest)[1..] == rest && ([v] + args)[1..] == args;
  }

  /** Bytes of the C type. */
  function TypeSize(modifiers: string, spec: char): nat {
    if spec == 'c' then 1
    else if spec in "DOU" then 4
    else if modifiers == "hh" then 1
    else if modifiers == "h" then 2
    else if modifiers in ["ll", "j"] then 8
    else 4
  }

  predicate IntegerConversion(modifiers: string, spec: char) {
    spec in "DOUc" || (spec in "diouxXp" && modifiers in ["", "hh", "h", "l", "ll", "j", "t", "z"])
  }

  function ModifierBytes(m: Modifier): nat {
    match m
    case ModHH => 1
    case ModH => 2
    case ModLL => 8
    case ModJ => 8
    case _ => 4
  }

  lemma ModifierIs(modifiers: string)
    requires modifiers in ["", "hh", "h", "l", "ll", "j", "t", "z"]
    ensures var m := ModifierOf(modifiers);
      && m != ModLongDouble && (m == ModHH <==> modifiers == "hh")
      && ModifierBytes(m) == if modifiers == "hh" then 1 else if modifiers == "h" then 2
                             else if modifiers in ["ll", "j"] then 8 else 4
  {
    ModifiersAre();
    hide ModifierOf;
    if modifiers == "" {
    } else if modifiers == "hh" {
    } else if modifiers == "h" {
    } else if modifiers == "l" {
    } else if modifiers == "ll" {
    } else if modifiers == "j" {
    } else if modifiers == "t" {
    } else {
      assert modifiers == "z";
    }
  }

  lemma ActionOfModifier(m: Modifier, spec: char)
    ensures spec in "diouxXp" && m != ModLongDouble ==>
      var a := ActionOf(m, spec);
      a.Integer? && a.size == ModifierBytes(m) && (a.kind == CHAR <==> spec in "di" && m == ModHH)
    ensures spec in "DOUc" ==>
      var a := ActionOf(m, spec);
      a.Integer? && a.size == (if spec == 'c' then 1 else 4) && (a.kind == CHAR <==> spec == 'c')
  {
  }

  lemma ActionIs(modifiers: string, spec: char)
    requires IntegerConversion(modifiers, spec)
    ensures var a := ActionOf(ModifierOf(modifiers), spec);
      && a.Integer? && a.size == TypeSize(modifiers, spec)
      && (a.kind == CHAR <==> spec == 'c' || (spec in "di" && modifiers == "hh"))
  {
    hide ActionOf, ModifierOf, ModifierBytes;
    ActionOfModifier(ModifierOf(modifiers), spec);
    if spec in "diouxXp" {
      ModifierIs(modifiers);
    }
  }

  lemma ValueIsOfType(modifiers: string, spec: char, n: int)
    requires ValueOf(modifiers, spec, n)
    ensures IntegerConversion(modifiers, spec)
    ensures var p := Pow256(TypeSize(modifiers, spec));
      if SignedSpec(spec) then 0 <= p + 2 * n < 2 * p else 0 <= n < p
  {
    Pow256Values();
    hide Pow256;
  }

  /** What the literal limits say about the action's own kind and size. */
  lemma LimitsAre(modifiers: string, spec: char, n: int)
    requires ValueOf(modifiers, spec, n)
    ensures var a := ActionOf(ModifierOf(modifiers), spec);
      && a.Integer? && InCType(ModifierOf(modifiers), spec, n)
      && (LostValue(modifiers, spec, n) <==> (a.kind == CHAR && n < 0) || (a.size == 4 && n == -0x8000_0000))
  {
    hide ActionOf, ModifierOf, Pow256;
    ValueIsOfType(modifiers, spec, n);
    ActionIs(modifiers, spec);
  }

  /**
    The law of the integer conversions: for every conversion with a modifier of the language and every value of the C
    type it takes, whatever flags, width and precision, the reader gets exactly that number, except for the lost values.
   */
  lemma IntegerArrives(pc: Piece, n: int, rest: seq<Piece>, args: seq<VarArg>)
    requires pc.Conversion? && ValueOf(pc.modifiers, pc.spec, n) && Matches(rest, args)
    ensures Matches([pc] + rest, [IntegerArg(n)] + args)
    ensures exists s: Scalar ::
      && FirstReads(Items([pc] + rest, [IntegerArg(n)] + args), s, Items(rest, args))
      && (s.UInt? || s.NInt? || s.Simple?)
      && (NumberOf(s) == n <==> !LostValue(pc.modifiers, pc.spec, n))
  {
    hide ActionOf, ModifierOf, Items, Matches, WellTyped, Render, SignedScalar, LostValue, ValueOf;
    var m := ModifierOf(pc.modifiers);
    var a := ActionOf(m, pc.spec);
    LimitsAre(pc.modifiers, pc.spec, n);
    IntegerSurvives(m, pc.spec, n);
    HeadItems(pc, IntegerArg(n), rest, args);
    var item := Stored(a, IntegerArg(n))[0];
    assert Stored(a, IntegerArg(n)) == [item];
    SentIsNumber(a.kind, a.size, n);
    assert FirstReads([item] + Items(rest, args), Sent(a.kind, a.size, n), Items(rest, args));
  }

  lemma SentIsNumber(kind: byte, size: nat, n: int)
    ensures var s := Sent(kind, size, n); s.UInt? || s.NInt? || s.Simple?
  {
  }

  /** Floating-point arguments arrive bit by bit; with any other modifier they are left in the list. */
  lemma RealArrives(pc: Piece, bits: seq<byte>, rest: seq<Piece>, args: seq<VarArg>)
    requires pc.Conversion? && pc.spec in "aAeEfFgG" && pc.modifiers in ["", "l", "L"] && |bits| == 8
    requires Matches(rest, args)
    ensures Matches([pc] + rest, [RealArg(bits)] + args)
    ensures FirstReads(Items([pc] + rest, [RealArg(bits)] + args), Scalar.Double(bits), Items(rest, args))
  {
    ModifiersAre();
    hide ModifierOf, Items, Matches;
    HeadItems(pc, RealArg(bits), rest, args);
  }

  /** Strings shorter than 256 bytes arrive whole, longer ones cut; no string arrives as the empty one. */
  lemma TextArrives(pc: Piece, text: Option<seq<byte>>, rest: seq<Piece>, args: seq<VarArg>)
    requires pc.Conversion? && pc.spec == 's' && Matches(rest, args)
    ensures Matches([pc] + rest, [StringArg(text)] + args)
    ensures var sent := if text.None? then [] else text.value[..|text.value| % 256];
      && FirstReads(Items([pc] + rest, [StringArg(text)] + args), Text(TextOf(sent)), Items(rest, args))
      && |TextOf(sent)| == |sent| && forall i :: 0 <= i < |sent| ==> TextOf(sent)[i] == sent[i] as char
  {
    hide ModifierOf, Items, Matches, LeValue, LeBytes;
    ActionCases(ModifierOf(pc.modifiers), 's');
    StoredIsTyped(ModifierOf(pc.modifiers), 's', StringArg(text));
    HeadItems(pc, StringArg(text), rest, args);
  }

  /** Integer conversions of `long double`, and floating-point ones with an integer modifier, take no argument. */
  lemma NothingTaken(pc: Piece, rest: seq<Piece>, args: seq<VarArg>)
    requires pc.Conversion? && Matches(rest, args)
    requires (pc.spec in "diouxXp" && pc.modifiers == "L")
          || (pc.spec in "aAeEfFgG" && pc.modifiers in ["h", "hh", "ll", "j", "t", "z"])
    ensures Matches([pc] + rest, args) && Items([pc] + rest, args) == Items(rest, args)
  {
    ModifiersAre();
    hide ModifierOf;
    assert ([pc] + rest)[1..] == rest;
  }

  /** Every other specifier takes one `int` and stores nothing. */
  lemma OthersDropOne(pc: Piece, n: int, rest: seq<Piece>, args: seq<VarArg>)
    requires pc.Conversion? && pc.spec !in "DdiOUouxXpaAeEfFgGcs" && Matches(rest, args)
    ensures Matches([pc] + rest, [IntegerArg(n)] + args)
    ensures Items([pc] + rest, [IntegerArg(n)] + args) == Items(rest, args)
  {
    hide ModifierOf, ActionOf, Items, Matches;
    ActionCases(ModifierOf(pc.modifiers), pc.spec);
    HeadItems(pc, IntegerArg(n), rest, args);
    assert Stored(Drop, IntegerArg(n)) == [];
  }
}
