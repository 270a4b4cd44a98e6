/**
 * The binary sub-device frames carried in `c2s_raw` / `s2c_raw` messages:
 * the outbound layout the three frame builders write through an index cursor
 * into a fixed `Uint8Array`, and the inbound rules that find the action byte
 * and its payload in a received frame.
 *
 * Layout: 4-byte protocol version `[0,0,0,3]`, the remaining-length prefix,
 * then the remaining bytes: a flag byte, the 2-byte command, (for business
 * frames) a big-endian 32-bit sequence number, the action byte and the
 * action's payload.
 */
module SubFrame {
  import opened Wrappers
  import opened Bytes
  import RemainingLength

  const PROTOCOL_VER: seq<Byte> := [0x00, 0x00, 0x00, 0x03]

  /** Command 0x0093, "transparent business command", on every outbound frame. */
  const CMD_TRANS_BUSINESS: Byte := 0x93
  /** The business-response command 0.3.0 keys its fixed offsets on. */
  const CMD_BUSINESS_RESP_V3: Byte := 0x94

  const ACTION_REPORT_SUBDEVICE_STATUS: Byte := 0x10
  const ACTION_ADD_SUBDEVICE: Byte := 0x56
  const ACTION_ADD_SUBDEVICE_RESP: Byte := 0x57
  const ACTION_DELETE_SUBDEVICE: Byte := 0x58
  const ACTION_DELETE_SUBDEVICE_RESP: Byte := 0x59
  const ACTION_GET_SUBDEVICE_LIST: Byte := 0x5A
  const ACTION_GET_SUBDEVICE_LIST_RESP: Byte := 0x5B
  const ACTION_REPORT_SUBDEVICE_LIST: Byte := 0x5C

  /** The two shapes of P0 frame met on the wire: business frames carry a
      sequence number between the command and the action, plain ones do not. */
  datatype P0Frame =
    | Business(cmd: Byte, sn: int, action: Byte, payload: seq<Byte>)
    | Plain(cmd: Byte, action: Byte, payload: seq<Byte>)

  /** The bytes after the length prefix: flag 0, command `0x00 cmd`, ... */
  function Body(f: P0Frame): seq<Byte>
  {
    match f
    case Business(cmd, sn, action, payload) => [0x00, 0x00, cmd] + Be32(sn) + [action] + payload
    case Plain(cmd, action, payload) => [0x00, 0x00, cmd, action] + payload
  }

  /** A complete frame: version, length of the body, body. */
  function Wire(f: P0Frame): seq<Byte>
  {
    PROTOCOL_VER + RemainingLength.Encode(|Body(f)|) + Body(f)
  }

  /** Where the fields of a business body sit: command at 2, action at 7, payload from 8. */
  lemma BusinessBodyLayout(cmd: Byte, sn: int, action: Byte, payload: seq<Byte>)
    ensures var b := Body(Business(cmd, sn, action, payload));
            |b| == 8 + |payload| && b[1] == 0x00 && b[2] == cmd && b[7] == action && b[8..] == payload
  {
    var b := Body(Business(cmd, sn, action, payload));
    assert b == ([0x00, 0x00, cmd] + Be32(sn) + [action]) + payload;
  }

  /** The sequence number of a business body sits at 3..7, big-endian. */
  lemma BusinessBodySequence(cmd: Byte, sn: int, action: Byte, payload: seq<Byte>)
    ensures var b := Body(Business(cmd, sn, action, payload));
            |b| >= 7 && b[3..7] == Be32(sn)
  {
    var b := Body(Business(cmd, sn, action, payload));
    assert b == ([0x00, 0x00, cmd] + Be32(sn)) + ([action] + payload);
  }

  /** The outbound sub-device frame with sequence number `sn` (written modulo 2^32). */
  function Frame(sn: int, action: Byte, payload: seq<Byte>): seq<Byte>
  {
    Wire(Business(CMD_TRANS_BUSINESS, sn, action, payload))
  }

  /** The get-sub-device-list request is 13 bytes: a one-byte length 8 and no payload. */
  lemma ListRequestLayout(sn: int)
    ensures Frame(sn, ACTION_GET_SUBDEVICE_LIST, []) == [0x00, 0x00, 0x00, 0x03, 0x08, 0x00, 0x00, 0x93] + Be32(sn) + [0x5A]
    ensures |Frame(sn, ACTION_GET_SUBDEVICE_LIST, [])| == 13
  {
    RemainingLength.Examples();
  }

  /** The prefix of every frame states exactly how many bytes follow it. */
  lemma LengthFieldCountsRest(f: P0Frame)
    ensures var p := RemainingLength.Encode(|Body(f)|);
            Wire(f)[..4] == PROTOCOL_VER && Wire(f)[4..4 + |p|] == p
            && RemainingLength.Value(p) == |Wire(f)| - 4 - |p|
  {
    RemainingLength.EncodeIsCanonical(|Body(f)|);
    var p := RemainingLength.Encode(|Body(f)|);
    assert Wire(f) == PROTOCOL_VER + p + Body(f);
  }

  // ----- payloads -----

  /** One entry of the list handed to `addSubDevice`; the empty string stands for
      a MAC that is absent, null or empty (all falsy in the source). */
  datatype Candidate = Candidate(mac: string)

  predicate AsciiMacs(cs: seq<Candidate>)
  {
    forall i :: 0 <= i < |cs| ==> IsAscii(cs[i].mac)
  }

  /** What one candidate adds: its MAC length (a Uint8Array element, so modulo 256)
      and its bytes, or nothing when it has no MAC. */
  function MacEntry(c: Candidate): seq<Byte>
    requires IsAscii(c.mac)
  {
    if c.mac == "" then [] else [|c.mac| % 0x100] + AsciiBytes(c.mac)
  }

  /** The entries of all candidates, in input order. */
  function MacEntries(cs: seq<Candidate>): seq<Byte>
    requires AsciiMacs(cs)
  {
    if cs == [] then [] else MacEntries(cs[..|cs| - 1]) + MacEntry(cs[|cs| - 1])
  }

  /** The add-sub-device payload: the number of candidates as BE16, then their entries. */
  function AddPayload(cs: seq<Candidate>): seq<Byte>
    requires AsciiMacs(cs)
  {
    Be16(|cs|) + MacEntries(cs)
  }

  /** The MACs of the candidates that have one, in order. */
  function Macs(cs: seq<Candidate>): seq<string>
  {
    if cs == [] then [] else Macs(cs[..|cs| - 1]) + (if cs[|cs| - 1].mac == "" then [] else [cs[|cs| - 1].mac])
  }

  /** Reads `(length, bytes)` entries back as strings, the way the gateway on the
      other end reads them; None when an entry runs past the end. */
  function ParseMacEntries(b: seq<Byte>): Option<seq<string>>
    decreases |b|
  {
    if b == [] then Some([])
    else if 1 + b[0] > |b| then None
    else match ParseMacEntries(b[1 + b[0]..])
      case None => None
      case Some(rest) => Some([Chars(b, 1, b[0])] + rest)
  }

  /** The entries of a candidate list read back as exactly the MACs supplied,
      in order, MAC-less candidates contributing nothing. */
  lemma {:induction false} MacEntriesRoundTrip(cs: seq<Candidate>, b: seq<Byte>, tail: seq<string>)
    requires AsciiMacs(cs)
    requires forall i :: 0 <= i < |cs| ==> |cs[i].mac| < 0x100
    requires ParseMacEntries(b) == Some(tail)
    ensures ParseMacEntries(MacEntries(cs) + b) == Some(Macs(cs) + tail)
    decreases |cs|
  {
    if cs == [] {
      assert MacEntries(cs) + b == b;
      assert Macs(cs) + tail == tail;
    } else {
      var init, c := cs[..|cs| - 1], cs[|cs| - 1];
      var b' := MacEntry(c) + b;
      var tail' := (if c.mac == "" then [] else [c.mac]) + tail;
      if c.mac != "" {
        ParseOneEntry(c.mac, b, tail);
      } else {
        assert b' == b && tail' == tail;
      }
      MacEntriesRoundTrip(init, b', tail');
      Reassociate(MacEntries(init), MacEntry(c), b);
      Reassociate(Macs(init), if c.mac == "" then [] else [c.mac], tail);
    }
  }

  lemma ParseOneEntry(mac: string, b: seq<Byte>, tail: seq<string>)
    requires IsAscii(mac) && 0 < |mac| < 0x100
    requires ParseMacEntries(b) == Some(tail)
    ensures ParseMacEntries(MacEntry(Candidate(mac)) + b) == Some([mac] + tail)
  {
    var b' := MacEntry(Candidate(mac)) + b;
    assert b'[0] == |mac|;
    assert b'[1 + b'[0]..] == b;
    assert b' == [b'[0]] + AsciiBytes(mac) + b;
    CharsOfAscii(mac, [b'[0]], b);
  }

  /** The count field of the add payload is the number of candidates supplied,
      MAC-less ones included, and the rest reads back as their MACs. */
  lemma AddPayloadContents(cs: seq<Candidate>)
    requires AsciiMacs(cs)
    requires |cs| < 0x1_0000
    requires forall i :: 0 <= i < |cs| ==> |cs[i].mac| < 0x100
    ensures FromBe16(AddPayload(cs)[..2]) == |cs|
    ensures ParseMacEntries(AddPayload(cs)[2..]) == Some(Macs(cs))
  {
    var count, entries := Be16(|cs|), MacEntries(cs);
    assert AddPayload(cs) == count + entries;
    SplitAfter(count, entries);
    Be16RoundTrip(|cs|);
    DivModUnique(|cs|, TWO_16, 0, |cs|);
    assert FromBe16(count) == |cs|;
    MacEntriesRoundTrip(cs, [], []);
    assert entries + [] == entries;
    assert Macs(cs) + [] == Macs(cs);
  }

  // ----- the builders: a fixed buffer written through an index cursor -----

  /** Writes flag, command 0x0093, the sequence number and the action at the
      start of `buf`; returns the cursor, 8. */
  method WriteHeader(buf: array<Byte>, sn: int, action: Byte) returns (index: nat)
    requires buf.Length >= 8
    modifies buf
    ensures index == 8
    ensures buf[..8] == [0x00, 0x00, CMD_TRANS_BUSINESS] + Be32(sn) + [action]
    ensures buf[8..] == old(buf[8..])
  {
    index := 0;
    buf[index] := 0x00;
    index := index + 1;
    buf[index], buf[index + 1] := 0x00, CMD_TRANS_BUSINESS;
    index := index + 2;
    var snBytes := Be32(sn);
    buf[index], buf[index + 1], buf[index + 2], buf[index + 3] := snBytes[0], snBytes[1], snBytes[2], snBytes[3];
    index := index + 4;
    buf[index] := action;
    index := index + 1;
    assert buf[..8] == [0x00, 0x00, CMD_TRANS_BUSINESS] + snBytes + [action];
  }

  /** `TypedArray.prototype.set(bytes, at)`. */
  method WriteBytes(buf: array<Byte>, at: nat, bytes: seq<Byte>)
    requires at + |bytes| <= buf.Length
    modifies buf
    ensures buf[..at] == old(buf[..at])
    ensures buf[at..at + |bytes|] == bytes
    ensures buf[at + |bytes|..] == old(buf[at + |bytes|..])
  {
    forall k | 0 <= k < |bytes| {
      buf[at + k] := bytes[k];
    }
  }

  /** `PROTOCOL_VER.concat(_getMQTTLenArray(index)).concat(remainData.slice(0, index))`. */
  method Assemble(buf: array<Byte>, index: nat) returns (data: seq<Byte>)
    requires index <= buf.Length
    ensures data == PROTOCOL_VER + RemainingLength.Encode(index) + buf[..index]
  {
    var lenArray := RemainingLength.GetLenArray(index);
    data := PROTOCOL_VER + lenArray + buf[..index];
  }

  /** The get-sub-device-list frame of `updateSubDevices` (an 8-byte buffer). */
  method BuildListFrame(sn: int) returns (data: seq<Byte>)
    ensures data == Frame(sn, ACTION_GET_SUBDEVICE_LIST, [])
  {
    var buf := new Byte[8];
    var index := WriteHeader(buf, sn, ACTION_GET_SUBDEVICE_LIST);
    data := Assemble(buf, index);
    assert buf[..index] == Body(Business(CMD_TRANS_BUSINESS, sn, ACTION_GET_SUBDEVICE_LIST, []));
  }

  /** The delete-sub-device frame of `deleteSubDevice` (a 16-byte buffer) for one `subDid`. */
  method BuildDeleteFrame(sn: int, subDid: int) returns (data: seq<Byte>)
    ensures data == Frame(sn, ACTION_DELETE_SUBDEVICE, Be32(subDid))
  {
    var buf := new Byte[16];
    var index := WriteHeader(buf, sn, ACTION_DELETE_SUBDEVICE);
    WriteBytes(buf, index, Be32(subDid));
    index := index + 4;
    data := Assemble(buf, index);
    assert buf[..index] == buf[..8] + buf[8..12];
    assert buf[..index] == Body(Business(CMD_TRANS_BUSINESS, sn, ACTION_DELETE_SUBDEVICE, Be32(subDid)));
  }

  /** One pass of the `addSubDevice` loop: a candidate with a MAC gets its
      length byte and its bytes written at the cursor; one without gets nothing. */
  method WriteMacEntry(buf: array<Byte>, index: nat, c: Candidate) returns (next: nat)
    requires IsAscii(c.mac)
    requires index + |MacEntry(c)| <= buf.Length
    modifies buf
    ensures next == index + |MacEntry(c)|
    ensures buf[..next] == old(buf[..index]) + MacEntry(c)
  {
    next := index;
    var mac := c.mac;
    if mac != "" {
      buf[next] := |mac| % 0x100;
      next := next + 1;
      WriteBytes(buf, next, AsciiBytes(mac));
      assert buf[..next + |mac|] == buf[..next] + buf[next..next + |mac|];
      next := next + |mac|;
    }
  }

  /** The add-sub-device frame of `addSubDevice` (a 128-byte buffer): the count of
      candidates, then a length byte and the MAC bytes of each candidate that has one. */
  method BuildAddFrame(sn: int, cs: seq<Candidate>) returns (data: seq<Byte>)
    requires AsciiMacs(cs)
    requires 10 + |MacEntries(cs)| <= 128
    ensures data == Frame(sn, ACTION_ADD_SUBDEVICE, AddPayload(cs))
  {
    var buf := new Byte[128];
    var index := WriteHeader(buf, sn, ACTION_ADD_SUBDEVICE);
    ghost var header := buf[..8];
    WriteBytes(buf, index, Be16(|cs|));
    index := index + 2;
    assert buf[..index] == header + Be16(|cs|);
    index := WriteMacEntries(buf, index, cs);
    data := Assemble(buf, index);
    AddBody(sn, cs, header);
  }

  /** The loop of `addSubDevice` over the candidates: their MAC entries, one
      after the other, from `index` on. */
  method WriteMacEntries(buf: array<Byte>, index: nat, cs: seq<Candidate>) returns (next: nat)
    requires AsciiMacs(cs)
    requires index + |MacEntries(cs)| <= buf.Length
    modifies buf
    ensures next == index + |MacEntries(cs)|
    ensures buf[..next] == old(buf[..index]) + MacEntries(cs)
  {
    ghost var done := buf[..index];
    next := index;
    var i := 0;
    while i < |cs|
      invariant 0 <= i <= |cs|
      invariant next == index + |MacEntries(cs[..i])|
      invariant next <= buf.Length
      invariant buf[..next] == done + MacEntries(cs[..i])
    {
      MacEntriesPrefix(cs, i);
      next := WriteMacEntry(buf, next, cs[i]);
      Reassociate(done, MacEntries(cs[..i]), MacEntry(cs[i]));
      i := i + 1;
    }
    assert cs[..i] == cs;
  }

  lemma AddBody(sn: int, cs: seq<Candidate>, header: seq<Byte>)
    requires AsciiMacs(cs)
    requires header == [0x00, 0x00, CMD_TRANS_BUSINESS] + Be32(sn) + [ACTION_ADD_SUBDEVICE]
    ensures header + Be16(|cs|) + MacEntries(cs) == Body(Business(CMD_TRANS_BUSINESS, sn, ACTION_ADD_SUBDEVICE, AddPayload(cs)))
  {
  }

  lemma MacEntriesPrefix(cs: seq<Candidate>, i: nat)
    requires AsciiMacs(cs) && i < |cs|
    ensures MacEntries(cs[..i + 1]) == MacEntries(cs[..i]) + MacEntry(cs[i])
    ensures |MacEntries(cs[..i + 1])| <= |MacEntries(cs)|
  {
    assert cs[..i + 1][..i] == cs[..i];
    MacEntriesGrow(cs, i + 1);
  }

  lemma {:induction false} MacEntriesGrow(cs: seq<Candidate>, k: nat)
    requires AsciiMacs(cs) && k <= |cs|
    ensures |MacEntries(cs[..k])| <= |MacEntries(cs)|
    decreases |cs| - k
  {
    if k < |cs| {
      MacEntriesGrow(cs, k + 1);
      assert cs[..k + 1][..k] == cs[..k];
    } else {
      assert cs[..k] == cs;
    }
  }
}
