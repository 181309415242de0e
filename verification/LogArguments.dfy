/** The way of the arguments of one log call: scanned into the record's buffer, later read back out of it. */
module LogArguments {
  import opened Bytes
  import opened Cbor
  import opened Tlv
  import opened CborEncoder
  import opened LogEncoder
  import opened FormatScanner

  /**
    For every format and every matching argument list the sender emits exactly the items of the
    conversions, in order, up to the first that did not fit the 64 bytes of the record.
   */
  method ScanThenEncode(format: string, args: seq<VarArg>, enc: Encoder, ghost pieces: seq<Piece>)
    requires PiecesOk(pieces) && format == PrintAll(pieces) && Matches(pieces, args) && enc.Ok()
    modifies enc
    ensures AllWellTyped(Fitting(Items(pieces, args), 0, ARGS_LEN_AT - ARGS_AT))
    ensures enc.Ok()
    ensures enc.open == Push(old(enc.open), [Array(RenderAll(Fitting(Items(pieces, args), 0, ARGS_LEN_AT - ARGS_AT)))])
  {
    hide ParseArgs, RenderAll, Fitting, Items, Matches, PrintAll, Push, WellTyped, Emitted;
    var msgArgs := new byte[ARGS_LEN_AT - ARGS_AT];
    var argsLen := GetTlv(format, args, msgArgs, pieces);
    var _ := EncodeMsgArgs(enc, msgArgs[..], argsLen);
  }
}
