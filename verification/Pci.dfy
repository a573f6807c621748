/** Protocol control information: the header bytes of the four ISO-TP frame types
    (src/uds/isotp/pci-helper.cpp). */
module Pci {
  import opened IsoTpTypes

  const SF_CODE: Byte := 0x00
  const FF_CODE: Byte := 0x10
  const CF_CODE: Byte := 0x20
  const FC_CODE: Byte := 0x30

  datatype FlowState = FlowCts | FlowWait | FlowOverflow

  function FlowByte(state: FlowState): Byte {
    match state
    case FlowCts => 0
    case FlowWait => 1
    case FlowOverflow => 2
  }

  /** What a frame's header says. */
  datatype PciKind =
    | SF(dlen: Word)
    | FF(dlen: Word)
    | CF(sn: Byte)
    | FC(status: Byte, bs: Byte, stmin: Byte)
    | Error

  datatype PciMeta = PciMeta(kind: PciKind, pcilen: nat)

  /** Bytes, most significant first, as one number. */
  function BigEndian(bytes: seq<Byte>): (n: nat)
    ensures |bytes| == 1 ==> n < 0x100
    ensures |bytes| == 2 ==> n < 0x1_0000
    ensures |bytes| == 3 ==> n < 0x100_0000
    ensures |bytes| == 4 ==> n < WORD_RANGE
  {
    if bytes == [] then 0 else 256 * BigEndian(bytes[..|bytes| - 1]) + bytes[|bytes| - 1]
  }

  const INVALID: PciMeta := PciMeta(Error, 0)

  function UnpackSingle(data: seq<Byte>): PciMeta
    requires |data| > 0
  {
    if |data| <= CLASSICCAN_DL_MAX then
      var dlen := data[0] % 16;
      if dlen + 1 > |data| then INVALID else PciMeta(SF(dlen), 1)
    else if |data| <= CANFD_DL_MAX then
      if data[1] + 2 > |data| then INVALID else PciMeta(SF(data[1]), 2)
    else INVALID
  }

  function UnpackFirst(data: seq<Byte>): PciMeta
    requires |data| > 0
  {
    if |data| < MIN_FF_CANDL then INVALID
    else
      var short := BigEndian([data[0] % 16, data[1]]);
      if short == 0 then
        var long := BigEndian(data[2..6]);
        if long <= 0xfff then INVALID else PciMeta(FF(long), 6)
      else if short < MIN_FF_PAYLOAD_SIZE then INVALID
      else PciMeta(FF(short), 2)
  }

  predicate ReservedStMin(st: Byte) {
    0x7f < st <= 0xf0 || st > 0xf9
  }

  function UnpackFlow(data: seq<Byte>): PciMeta
    requires |data| > 0
  {
    var fs := data[0] % 16;
    if fs > 2 || |data| < 3 || ReservedStMin(data[2]) then INVALID
    else PciMeta(FC(fs, data[1], if data[2] > 0x7f then 1 else data[2]), 3)
  }

  /** Reads the header of a received data field. */
  function Unpack(data: seq<Byte>): PciMeta {
    if |data| == 0 then INVALID
    else match data[0] / 16
      case 0 => UnpackSingle(data)
      case 1 => UnpackFirst(data)
      case 2 => PciMeta(CF(data[0] % 16), 1)
      case 3 => UnpackFlow(data)
      case _ => INVALID
  }

  datatype FrameKind = SingleFrame | FirstFrame | NoFrame

  datatype Header = Header(kind: FrameKind, bytes: seq<Byte>)

  /** Length of the header of a single frame. */
  function SingleHeaderLength(candl: nat): nat {
    if candl > CLASSICCAN_DL_MAX then 2 else 1
  }

  /** The header for a payload of `length` bytes in frames of `candl` bytes; the sum that
      decides between single and first frame is a 32-bit one. */
  function DataHeader(length: Word, candl: nat): Header {
    if length == 0 then Header(NoFrame, [])
    else if Wrap(SingleHeaderLength(candl) + length) <= candl then
      Header(SingleFrame,
             if candl > CLASSICCAN_DL_MAX then [SF_CODE, length % 256] else [SF_CODE + length % 16])
    else if length <= 0xfff then
      Header(FirstFrame, [FF_CODE + length / 256, length % 256])
    else
      Header(FirstFrame, [FF_CODE, 0, length / 0x100_0000, length / 0x1_0000 % 256, length / 256 % 256, length % 256])
  }

  function FlowHeader(state: FlowState, bs: Byte, stmin: Byte): seq<Byte> {
    [FC_CODE + FlowByte(state), bs, stmin]
  }

  function ConsecutiveHeader(sn: Byte): Byte {
    CF_CODE + sn % 16
  }

  // ---- The buffer-writing form ----

  /** Reads a header; `ret` is its size, 0 for a frame that is to be ignored. */
  method UnpackPciInfo(data: seq<Byte>) returns (ret: nat, pci: PciKind)
    ensures PciMeta(pci, ret) == Unpack(data)
  {
    ret, pci := 0, Error;
    if |data| == 0 {
      return;
    }
    match data[0] / 16
    case 0 =>
      if |data| <= CLASSICCAN_DL_MAX {
        ret, pci := 1, SF(data[0] % 16);
        if pci.dlen + ret > |data| {
          ret, pci := 0, Error;
        }
      } else if |data| <= CANFD_DL_MAX {
        ret, pci := 2, SF(data[1]);
        if pci.dlen + ret > |data| {
          ret, pci := 0, Error;
        }
      }
    case 1 =>
      if |data| >= MIN_FF_CANDL {
        ret, pci := 2, FF(BigEndian([data[0] % 16, data[1]]));
        if pci.dlen == 0 {
          ret, pci := 6, FF(BigEndian(data[2..6]));
          if pci.dlen <= 0xfff {
            ret, pci := 0, Error;
          }
        } else if pci.dlen < MIN_FF_PAYLOAD_SIZE {
          ret, pci := 0, Error;
        }
      }
    case 2 =>
      ret, pci := 1, CF(data[0] % 16);
    case 3 =>
      var fs := data[0] % 16;
      if fs <= 2 && |data| >= 3 {
        ret, pci := 3, FC(fs, data[1], data[2]);
        if 0x7f < pci.stmin <= 0xf0 || pci.stmin > 0xf9 {
          ret, pci := 0, Error;
        } else if pci.stmin > 0x7f {
          pci := pci.(stmin := 1);
        }
      }
    case _ =>
  }

  method PackPciForData(data: array<Byte>, length: Word, candl: nat) returns (pciLen: nat, kind: FrameKind)
    requires data.Length >= 8
    modifies data
    ensures pciLen <= 6 && Header(kind, data[..pciLen]) == DataHeader(length, candl)
    ensures data[..] == Overlay(old(data[..]), 0, DataHeader(length, candl).bytes)
  {
    pciLen, kind := 0, NoFrame;
    if length > 0 {
      var isCanFd := candl > CLASSICCAN_DL_MAX;
      pciLen := if isCanFd then 2 else 1;
      if Wrap(pciLen + length) <= candl {
        kind := SingleFrame;
        data[0] := SF_CODE;
        if isCanFd {
          data[1] := length % 256;
          pciLen := 2;
        } else {
          data[0] := data[0] + length % 16;
          pciLen := 1;
        }
      } else {
        kind := FirstFrame;
        data[0] := FF_CODE;
        if length <= 0xfff {
          data[0] := data[0] + length / 256;
          data[1] := length % 256;
          pciLen := 2;
        } else {
          data[1] := 0;
          data[2] := length / 0x100_0000;
          data[3] := length / 0x1_0000 % 256;
          data[4] := length / 256 % 256;
          data[5] := length % 256;
          pciLen := 6;
        }
      }
    }
  }

  method PackFlowControl(data: array<Byte>, state: FlowState, bs: Byte, stmin: Byte) returns (pciLen: nat)
    requires data.Length >= 3
    modifies data
    ensures pciLen == 3 && data[..3] == FlowHeader(state, bs, stmin)
    ensures data[..] == Overlay(old(data[..]), 0, FlowHeader(state, bs, stmin))
  {
    data[0] := FC_CODE + FlowByte(state);
    data[1] := bs;
    data[2] := stmin;
    pciLen := 3;
  }

  method PackConseqFrame(data: array<Byte>, sn: Byte) returns (pciLen: nat)
    requires data.Length >= 1
    modifies data
    ensures pciLen == 1
    ensures data[..] == Overlay(old(data[..]), 0, [ConsecutiveHeader(sn)])
  {
    data[0] := CF_CODE + sn % 16;
    pciLen := 1;
  }

  // ---- The codec's properties ----

  lemma BigEndianOne(bytes: seq<Byte>)
    requires |bytes| == 1
    ensures BigEndian(bytes) == bytes[0]
  {
    assert bytes[..0] == [];
  }

  lemma BigEndianStep(bytes: seq<Byte>, k: nat)
    requires k < |bytes|
    ensures BigEndian(bytes[..k + 1]) == 256 * BigEndian(bytes[..k]) + bytes[k]
  {
    assert bytes[..k + 1][..k] == bytes[..k];
  }

  lemma BigEndianTwo(hi: Byte, lo: Byte)
    ensures BigEndian([hi, lo]) == 256 * (hi as int) + lo
  {
    var two := [hi, lo];
    BigEndianOne(two[..1]);
    BigEndianStep(two, 1);
    assert two[..2] == two;
  }

  /** For arbitrary bytes: the header lies inside the frame, a single frame's payload too,
      and a first frame that is not ignored announces at least eight bytes. */
  lemma HeaderInsideFrame(data: seq<Byte>)
    ensures var m := Unpack(data);
            && m.pcilen <= |data|
            && (m.pcilen == 0 <==> m.kind == Error)
            && (m.kind.SF? ==> m.pcilen + m.kind.dlen <= |data| <= CANFD_DL_MAX)
            && (m.kind.FF? ==>
                  && m.kind.dlen >= MIN_FF_PAYLOAD_SIZE && |data| >= MIN_FF_CANDL
                  && (m.pcilen == 6 <==> m.kind.dlen > 0xfff))
  {
    if |data| >= MIN_FF_CANDL {
      BigEndianTwo(data[0] % 16, data[1]);
    }
  }

  /** The bytes of a word give the word. */
  lemma LengthBytes(length: Word, bytes: seq<Byte>)
    requires |bytes| == 4 && bytes[0] == length / 0x100_0000 && bytes[1] == length / 0x1_0000 % 256
    requires bytes[2] == length / 256 % 256 && bytes[3] == length % 256
    ensures BigEndian(bytes) == length
  {
    var a := length / 256;
    var b := a / 256;
    assert b == length / 0x1_0000 && b / 256 == length / 0x100_0000;
    BigEndianOne(bytes[..1]);
    BigEndianStep(bytes, 1);
    BigEndianStep(bytes, 2);
    BigEndianStep(bytes, 3);
    assert bytes[..4] == bytes;
  }

  /** Whether the sum that chooses the frame type fits 32 bits. */
  predicate SumFits(length: Word, candl: nat) {
    SingleHeaderLength(candl) + length < WORD_RANGE
  }

  function KindFor(length: Word, candl: nat): PciKind {
    if SingleHeaderLength(candl) + length <= candl then SF(length) else FF(length)
  }

  /** A first frame's length, read back from its two-byte header. */
  lemma ShortFirstHeader(length: Word, data: seq<Byte>)
    requires 8 <= length && 8 <= |data|
    requires 16 <= data[0] < 32 && length == 256 * (data[0] as int - 16) + data[1]
    ensures Unpack(data) == PciMeta(FF(length), 2)
  {
    var q := data[0] - 16;
    assert data[0] / 16 == 1 && data[0] % 16 == q;
    BigEndianTwo(data[0] % 16, data[1]);
  }

  /** A first frame's length, read back from its six-byte header. */
  lemma LongFirstHeader(length: Word, data: seq<Byte>)
    requires length > 0xfff && 8 <= |data|
    requires data[0] == FF_CODE && data[1] == 0
    requires BigEndian(data[2..6]) == length
    ensures Unpack(data) == PciMeta(FF(length), 6)
  {
    BigEndianTwo(data[0] % 16, data[1]);
  }

  /** A sum that wraps makes a single-frame header which announces more than the frame holds. */
  lemma WrappedHeaderIgnored(length: Word, candl: nat, data: seq<Byte>)
    requires 8 <= candl <= 64 && |data| == candl && !SumFits(length, candl)
    requires |DataHeader(length, candl).bytes| <= candl && DataHeader(length, candl).bytes <= data
    ensures DataHeader(length, candl).kind == SingleFrame && Unpack(data) == INVALID
  {
    var h := DataHeader(length, candl).bytes;
    assert length >= WORD_RANGE - 2;
    assert length % 256 >= 254 && length % 16 >= 14;
    assert data[0] == h[0];
    if candl > CLASSICCAN_DL_MAX {
      assert data[1] == h[1] >= 254;
    } else {
      assert length == WORD_RANGE - 1;
      assert data[0] == 15;
    }
  }

  /** Packing a data header and reading it back gives the frame type, the length and the
      header size again - exactly when the 32-bit sum does not wrap. When it wraps, the
      receiver ignores the frame. */
  lemma DataHeaderRoundTrip(length: Word, candl: nat, body: seq<Byte>)
    requires 0 < length && 8 <= candl <= 64
    requires |DataHeader(length, candl).bytes| + |body| == candl
    ensures var h := DataHeader(length, candl);
            var m := Unpack(h.bytes + body);
            && (m == PciMeta(KindFor(length, candl), |h.bytes|) <==> SumFits(length, candl))
            && (!SumFits(length, candl) ==> m == INVALID)
  {
    var h := DataHeader(length, candl);
    var f := h.bytes + body;
    if !SumFits(length, candl) {
      WrappedHeaderIgnored(length, candl, f);
    } else if h.kind == FirstFrame {
      assert forall i :: 0 <= i < |h.bytes| ==> f[i] == h.bytes[i];
      if length <= 0xfff {
        ShortFirstHeader(length, f);
      } else {
        LengthBytes(length, f[2..6]);
        LongFirstHeader(length, f);
      }
    } else {
      assert f[0] == h.bytes[0];
      if candl > CLASSICCAN_DL_MAX {
        assert f[1] == length;
      } else {
        assert f[0] == length;
      }
    }
  }

  /** A single frame need not be padded: however much of the frame follows its header - up to the
      eight bytes of a classic frame, or the nine to 64 of a longer one - it is read as it was
      packed exactly when the bytes it announces are there, and ignored otherwise. */
  lemma SingleHeaderRoundTrip(length: Word, candl: nat, body: seq<Byte>)
    requires 0 < length && candl <= 64 && SumFits(length, candl) && DataHeader(length, candl).kind == SingleFrame
    requires var size := |DataHeader(length, candl).bytes| + |body|; if candl <= 8 then size <= 8 else 8 < size <= 64
    ensures var h := DataHeader(length, candl).bytes;
            Unpack(h + body) == if length <= |body| then PciMeta(SF(length), if candl <= 8 then 1 else 2) else INVALID
  {
    var h := DataHeader(length, candl).bytes;
    assert (h + body)[0] == h[0] && (candl > 8 ==> (h + body)[1] == h[1]);
  }

  /** The flow controls the codec reads: of three bytes or more, with a known status and an STmin that
      is not reserved. */
  lemma FlowHeadersRead(data: seq<Byte>)
    requires |data| > 0 && 0x30 <= data[0] <= 0x3f
    ensures Unpack(data).pcilen == 3 <==>
            data[0] <= 0x32 && |data| >= 3 && !(0x80 <= data[2] <= 0xf0 || 0xfa <= data[2])
    ensures Unpack(data).pcilen != 3 ==> Unpack(data) == INVALID
  {
  }

  /** A flow control survives the codec exactly when its STmin byte is not a reserved one: one of
      0x80 to 0xf0 or 0xfa to 0xff. */
  lemma FlowHeaderRoundTrip(state: FlowState, bs: Byte, stmin: Byte, body: seq<Byte>)
    ensures var f := FlowHeader(state, bs, stmin) + body;
            && f[..3] == [if state.FlowCts? then 0x30 else if state.FlowWait? then 0x31 else 0x32, bs, stmin]
            && Unpack(f) ==
               if 0x80 <= stmin <= 0xf0 || 0xfa <= stmin then INVALID
               else PciMeta(FC(f[0] - 0x30, bs, if stmin > 0x7f then 1 else stmin), 3)
  {
    var f := FlowHeader(state, bs, stmin) + body;
    assert f[0] == FC_CODE + FlowByte(state) && f[1] == bs && f[2] == stmin;
  }

  lemma ConsecutiveRoundTrip(sn: Byte, body: seq<Byte>)
    ensures var f := [ConsecutiveHeader(sn)] + body;
            f[0] == 0x20 + sn % 16 && Unpack(f) == PciMeta(CF(sn % 16), 1)
  {
    assert ([ConsecutiveHeader(sn)] + body)[0] == ConsecutiveHeader(sn);
  }
}
