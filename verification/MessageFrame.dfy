/** The three bytes before a message: its type and the length of the document behind them. */
module MessageFrame {
  import opened Bytes

  const INSIGHTS_DATA_TYPE: byte := 0x02
  const TLV_OFFSET := 3

  /**
    The second half of `esp_insights_encode_data_end`: `docLen` bytes of the document lie behind the room for the
    frame. The length is a `uint16_t`, in the frame and in the result.
   */
  method FrameMessage(outData: array<byte>, docLen: nat) returns (len: nat)
    requires TLV_OFFSET + docLen <= outData.Length
    modifies outData
    ensures outData[0] == INSIGHTS_DATA_TYPE && LeValue(outData[1..TLV_OFFSET]) == Cut16(docLen)
    ensures outData[TLV_OFFSET..] == old(outData[TLV_OFFSET..])
    ensures len == Cut16(TLV_OFFSET + docLen)
  {
    len := Cut16(docLen);
    outData[0] := INSIGHTS_DATA_TYPE;
    outData[1] := len % 256;
    outData[2] := len / 256;
    assert outData[1..TLV_OFFSET] == [len % 256, len / 256];
    TwoBytes(len);
    len := Cut16(len + TLV_OFFSET);
  }

  lemma TwoBytes(n: nat)
    requires n < U16
    ensures LeValue([n % 256, n / 256]) == n
  {
    assert [n % 256, n / 256][1..] == [n / 256] && [n / 256][1..] == [];
    assert LeValue([n / 256]) == n / 256 + 256 * LeValue([]);
  }

  /** A message as sent: the first `len` bytes, when there are that many. */
  function Sent(buf: seq<byte>, len: nat): seq<byte> {
    buf[..Min(len, |buf|)]
  }

  /** What a receiver takes out of a message: the bytes its length field counts. */
  function Received(msg: seq<byte>): Option<seq<byte>> {
    if |msg| < TLV_OFFSET || msg[0] != INSIGHTS_DATA_TYPE then None
    else
      var n := LeValue(msg[1..TLV_OFFSET]);
      if |msg| - TLV_OFFSET < n then None else Some(msg[TLV_OFFSET..TLV_OFFSET + n])
  }

  /**
    The receiver gets the document exactly when document and frame together are shorter than 2^16 bytes. Three
    bytes short of that the returned length wraps to almost nothing although the field still holds the length.
   */
  lemma FrameSurvivesExactly(buf: seq<byte>, doc: seq<byte>)
    requires |buf| >= TLV_OFFSET + |doc| && buf[0] == INSIGHTS_DATA_TYPE && buf[TLV_OFFSET..TLV_OFFSET + |doc|] == doc
    requires LeValue(buf[1..TLV_OFFSET]) == Cut16(|doc|)
    ensures Received(Sent(buf, Cut16(TLV_OFFSET + |doc|))) == Some(doc) <==> TLV_OFFSET + |doc| < U16
  {
    var len := Cut16(TLV_OFFSET + |doc|);
    var msg := Sent(buf, len);
    if len >= TLV_OFFSET {
      assert msg[1..TLV_OFFSET] == buf[1..TLV_OFFSET];
      if TLV_OFFSET + |doc| < U16 {
        assert msg[TLV_OFFSET..TLV_OFFSET + |doc|] == doc;
      }
    }
  }
}
