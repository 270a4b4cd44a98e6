/**
 * Locating the action byte and its payload in a received `s2c_raw` frame.
 * 0.4.0 first skips the continuation bytes of the length prefix and then
 * reads at offsets shifted by their number; 0.3.0 reads at fixed offsets,
 * which fit a one-byte length prefix only. Reads past the end of the frame
 * give `undefined` (None) and slices past the end are empty, as in the source.
 */
module Inbound {
  import opened Wrappers
  import opened Bytes
  import RemainingLength
  import opened SubFrame

  datatype Located = Located(action: Option<Byte>, payload: seq<Byte>)

  /** How many bytes from `i` on carry the continuation bit before the first that does not. */
  function ContinuationRun(raw: seq<Byte>, i: nat): nat
    decreases |raw| - i
  {
    if i < |raw| && RemainingLength.HasMore(raw[i]) then 1 + ContinuationRun(raw, i + 1) else 0
  }

  /** The 0.4.0 rule: skip `addIndex` continuation bytes after the version; if the
      command byte is the business command (0x93 in 0.4.0) the frame carries a
      sequence number before the action. */
  function LocateScan(raw: seq<Byte>, businessCmd: Byte): Located
  {
    var addIndex := ContinuationRun(raw, 4);
    if At(raw, 7 + addIndex) == Some(businessCmd) then
      Located(At(raw, 12 + addIndex), From(raw, 13 + addIndex))
    else
      Located(At(raw, 8 + addIndex), From(raw, 9 + addIndex))
  }

  /** The sequence number of a frame whose command byte (after the skipped
      continuation bytes) is the business command: the four bytes before the
      action, read as BE32. The SDK never reads it; it states what the
      outbound frames carry. */
  function SequenceNumber(raw: seq<Byte>, businessCmd: Byte): Option<nat>
  {
    var addIndex := ContinuationRun(raw, 4);
    if 12 + addIndex <= |raw| && raw[7 + addIndex] == businessCmd then Some(FromBe32(raw[8 + addIndex..12 + addIndex]))
    else None
  }

  /** The 0.3.0 rule: fixed offsets keyed on command byte 0x94 at offset 7. */
  function LocateFixed(raw: seq<Byte>): Located
  {
    if At(raw, 7) == Some(CMD_BUSINESS_RESP_V3) then Located(At(raw, 12), From(raw, 13))
    else Located(At(raw, 8), From(raw, 9))
  }

  /** The 0.4.0 scan loop over the length bytes, then the offset arithmetic. */
  method LocateAction(raw: seq<Byte>, businessCmd: Byte) returns (loc: Located)
    ensures loc == LocateScan(raw, businessCmd)
  {
    var addIndex := 0;
    var i := 4;
    while i < |raw|
      invariant i == 4 + addIndex
      invariant addIndex + ContinuationRun(raw, i) == ContinuationRun(raw, 4)
    {
      if raw[i] >= 0x80 {
        addIndex := addIndex + 1;
      } else {
        break;
      }
      i := i + 1;
    }
    if 7 + addIndex < |raw| && raw[7 + addIndex] == businessCmd {
      loc := Located(At(raw, 12 + addIndex), From(raw, 13 + addIndex));
    } else {
      loc := Located(At(raw, 8 + addIndex), From(raw, 9 + addIndex));
    }
  }

  /** The scan stops exactly at the first byte without the continuation bit. */
  lemma {:induction false} RunStops(raw: seq<Byte>, i: nat, k: nat)
    requires i + k < |raw|
    requires forall j :: i <= j < i + k ==> RemainingLength.HasMore(raw[j])
    requires !RemainingLength.HasMore(raw[i + k])
    ensures ContinuationRun(raw, i) == k
    decreases k
  {
    if k > 0 {
      RunStops(raw, i + 1, k - 1);
    }
  }

  /** In any frame the scan counts the length bytes but the last, and the body
      starts right after the prefix. */
  lemma ScanSkipsPrefix(f: P0Frame)
    ensures var p := RemainingLength.Encode(|Body(f)|);
            ContinuationRun(Wire(f), 4) == |p| - 1
            && From(Wire(f), 4 + |p|) == Body(f)
  {
    var b := Body(f);
    var p := RemainingLength.Encode(|b|);
    var raw := Wire(f);
    assert |b| > 0;
    RemainingLength.EncodeIsCanonical(|b|);
    var head := PROTOCOL_VER + p;
    assert raw == head + b;
    SplitAfter(head, b);
    var window := raw[4..4 + |p|];
    assert window == head[4..] == p;
    forall j | 4 <= j < 4 + |p| - 1
      ensures RemainingLength.HasMore(raw[j])
    {
      assert raw[j] == window[j - 4];
    }
    assert raw[4 + |p| - 1] == window[|p| - 1];
    RunStops(raw, 4, |p| - 1);
  }

  /** The scan finds the action and payload of every business frame with the
      command it is keyed on, whatever the width of its length prefix. */
  lemma ScanFindsBusinessAction(cmd: Byte, sn: int, action: Byte, payload: seq<Byte>)
    ensures LocateScan(Wire(Business(cmd, sn, action, payload)), cmd) == Located(Some(action), payload)
  {
    var f := Business(cmd, sn, action, payload);
    var raw := Wire(f);
    var p := RemainingLength.Encode(|Body(f)|);
    ScanSkipsPrefix(f);
    BusinessBodyLayout(cmd, sn, action, payload);
    var a := |p| - 1;
    var body := Body(f);
    assert From(raw, 5 + a) == body;
    assert raw[7 + a] == body[2];
    assert raw[12 + a] == body[7];
    assert raw[13 + a..] == body[8..];
  }

  /** A business frame keyed on its own command carries its sequence number modulo 2^32. */
  lemma ScanFindsSequenceNumber(cmd: Byte, sn: int, action: Byte, payload: seq<Byte>)
    ensures SequenceNumber(Wire(Business(cmd, sn, action, payload)), cmd) == Some(sn % TWO_32)
  {
    var f := Business(cmd, sn, action, payload);
    var raw := Wire(f);
    var p := RemainingLength.Encode(|Body(f)|);
    ScanSkipsPrefix(f);
    BusinessBodyLayout(cmd, sn, action, payload);
    BusinessBodySequence(cmd, sn, action, payload);
    var a := |p| - 1;
    var body := Body(f);
    assert From(raw, 5 + a) == body;
    assert raw[7 + a] == body[2];
    assert raw[8 + a..12 + a] == body[3..7] == Be32(sn);
    Be32RoundTrip(sn);
  }

  /** The scan finds the action and payload of every plain frame (no sequence
      number) whose command byte is not the one it is keyed on. */
  lemma ScanFindsPlainAction(businessCmd: Byte, cmd: Byte, action: Byte, payload: seq<Byte>)
    requires cmd != businessCmd
    ensures LocateScan(Wire(Plain(cmd, action, payload)), businessCmd) == Located(Some(action), payload)
  {
    var f := Plain(cmd, action, payload);
    var raw := Wire(f);
    var p := RemainingLength.Encode(|Body(f)|);
    ScanSkipsPrefix(f);
    var a := |p| - 1;
    var body := Body(f);
    assert body == [0x00, 0x00, cmd, action] + payload;
    assert |body| == 4 + |payload| && body[2] == cmd && body[3] == action && body[4..] == payload;
    assert From(raw, 5 + a) == body;
    assert raw[7 + a] == body[2];
    assert raw[8 + a] == body[3];
    assert raw[9 + a..] == body[4..];
    assert ContinuationRun(raw, 4) == a;
    assert At(raw, 7 + a) == Some(cmd) != Some(businessCmd);
    assert At(raw, 8 + a) == Some(action) && From(raw, 9 + a) == payload;
  }

  /** 0.3.0 finds the action and payload of a 0x94 business frame and of a plain
      frame with another command, as long as the length fits one byte. */
  lemma FixedFindsShortFrames(f: P0Frame)
    requires f.Business? ==> f.cmd == CMD_BUSINESS_RESP_V3
    requires f.Plain? ==> f.cmd != CMD_BUSINESS_RESP_V3
    requires |Body(f)| < 0x80
    ensures LocateFixed(Wire(f)) == Located(Some(f.action), f.payload)
  {
    var raw := Wire(f);
    var p := RemainingLength.Encode(|Body(f)|);
    ScanSkipsPrefix(f);
    RemainingLength.EncodeLength(|Body(f)|);
    assert |p| == 1;
    var body := Body(f);
    assert raw[5..] == body;
    assert raw[7] == body[2];
    if f.Business? {
      assert raw[12] == body[7];
      assert raw[13..] == body[8..];
    } else {
      assert raw[8] == body[3];
      assert raw[9..] == body[4..];
    }
  }

  /** 0.3.0 misreads every 0x94 business frame whose length needs two bytes:
      offset 7 then holds the command's high byte, so the action it reports is
      the command byte 0x94 itself. */
  lemma FixedMisreadsLongFrames(sn: int, action: Byte, payload: seq<Byte>)
    requires 0x80 <= |Body(Business(CMD_BUSINESS_RESP_V3, sn, action, payload))| < 0x4000
    ensures LocateFixed(Wire(Business(CMD_BUSINESS_RESP_V3, sn, action, payload))).action == Some(CMD_BUSINESS_RESP_V3)
  {
    var f := Business(CMD_BUSINESS_RESP_V3, sn, action, payload);
    var raw := Wire(f);
    var p := RemainingLength.Encode(|Body(f)|);
    ScanSkipsPrefix(f);
    BusinessBodyLayout(CMD_BUSINESS_RESP_V3, sn, action, payload);
    RemainingLength.EncodeLength(|Body(f)|);
    assert RemainingLength.Pow128(2) == 0x4000;
    assert |p| == 2;
    var body := Body(f);
    assert raw[6..] == body;
    assert raw[7] == body[1] == 0x00;
    assert raw[8] == body[2];
  }
}
