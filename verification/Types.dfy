/** Vocabulary shared by the transport and the session layer: bytes, 32-bit words,
    the ISO-TP enumerations, CAN frames and the events a client is told about. */
module IsoTpTypes {

  type Byte = b: int | 0 <= b < 256

  const WORD_RANGE: int := 0x1_0000_0000

  type Word = w: int | 0 <= w < WORD_RANGE

  const MIN_FF_CANDL: nat := 8
  const MIN_FF_PAYLOAD_SIZE: nat := 8
  const CLASSICCAN_DL_MAX: nat := 8
  const CANFD_DL_MAX: nat := 64
  const MAX_CANDL: nat := 64

  datatype NEvent = Conf | Data | DataFF

  datatype NResult =
    | OkS
    | OkR
    | TimeoutAs
    | TimeoutAr
    | TimeoutBs
    | TimeoutCr
    | WrongSn
    | InvalidFs
    | UnexpPdu
    | WftOvrn
    | BufferOvflw
    | ErrorS
    | ErrorR

  datatype IsoTpResult = Ok | Busy | WrongState | Overflow

  datatype SetParamResult = ParamOk | RxOn | WrongParameter | WrongValue

  datatype ParName =
    | StMin
    | BlkSz
    | PhysAddr
    | FuncAddr
    | RespAddr
    | CanDl
    | AsTimMs
    | BsTimMs
    | BrTimMs
    | CrTimMs
    | PaddByte

  datatype TarAddress = Physical | Functional

  /** One call of the client's OnIsoEvent. `payload` is what the data pointer shows at that
      moment (empty for a null pointer), `length` the length handed over beside it. */
  datatype IsoEvent = IsoEvent(event: NEvent, result: NResult, payload: seq<Byte>, length: nat, address: TarAddress)

  /** A CAN frame: identifier and data field. */
  datatype CanFrame = CanFrame(id: Word, data: seq<Byte>)

  type CanLength = n: nat | n <= MAX_CANDL

  /** Static configuration of one DoCAN node. */
  datatype Config = Config(physId: Word, funcId: Word, respId: Word, candl: CanLength, padding: Byte)

  /** A frame buffer of the sender or the receiver. */
  type Message = m: seq<Byte> | |m| == MAX_CANDL witness Fill(0, MAX_CANDL)

  /** The largest message buffer for which no 32-bit sum of an offset and a frame length wraps. */
  const MAX_BUFFER: nat := 0xffff_ffc0

  type Buffer = b: seq<Byte> | |b| <= MAX_BUFFER

  function Wrap(x: int): (w: Word)
    ensures 0 <= x < WORD_RANGE ==> w == x
  {
    x % WORD_RANGE
  }

  function Inc8(b: Byte): (r: Byte)
    ensures b < 255 ==> r == b + 1
  {
    (b + 1) % 256
  }

  /** memcpy: `buf` with `chunk` written from offset `at` on. Bytes that would land
      outside `buf` are dropped; every method that copies proves that none does. */
  function Overlay(buf: seq<Byte>, at: nat, chunk: seq<Byte>): (r: seq<Byte>)
    ensures |r| == |buf|
    ensures forall i :: 0 <= i < |buf| ==> r[i] == if at <= i < at + |chunk| then chunk[i - at] else buf[i]
  {
    seq(|buf|, i requires 0 <= i < |buf| => if at <= i < at + |chunk| then chunk[i - at] else buf[i])
  }

  /** memcpy into an array; all of `chunk` has to fit. */
  method Copy(dst: array<Byte>, at: nat, chunk: seq<Byte>)
    requires at + |chunk| <= dst.Length
    modifies dst
    ensures dst[..] == Overlay(old(dst[..]), at, chunk)
  {
    forall i | 0 <= i < |chunk| {
      dst[at + i] := chunk[i];
    }
  }

  /** `n` copies of one byte. */
  function Fill(b: Byte, n: nat): (r: seq<Byte>)
    ensures |r| == n
    ensures forall i :: 0 <= i < n ==> r[i] == b
  {
    seq(n, i requires 0 <= i < n => b)
  }

  /** How many consecutive frames a block size lets through: both sides treat 0 like 1. */
  function BlockLimit(bs: Byte): (n: nat)
    ensures n >= 1
  {
    if bs == 0 then 1 else bs
  }

  function Min(a: nat, b: nat): nat {
    if a <= b then a else b
  }
}
