/** What DoCAN_TP offers to its sender and receiver: the configuration, the way to the CAN
    bus (PduToCan) and the way to the client (OnIsoRxEvent, OnIsoTxEvent). */
module TpPort {
  import opened IsoTpTypes

  /** Everything that has left a node. The bus accepts or refuses the k-th transmission
      attempt as `accept(k)` says; `accept` is arbitrary. */
  datatype Io = Io(accept: nat -> bool, sent: seq<CanFrame>, attempts: nat, log: seq<IsoEvent>) {

    predicate Accepts() {
      accept(attempts)
    }

    function Attempted(frame: CanFrame): Io {
      this.(attempts := attempts + 1, sent := if Accepts() then sent + [frame] else sent)
    }

    function Logged(event: IsoEvent): Io {
      this.(log := log + [event])
    }
  }

  function TxEvent(result: NResult): IsoEvent {
    IsoEvent(Conf, result, [], 0, Physical)
  }

  function RxEvent(event: NEvent, result: NResult, payload: seq<Byte>, length: nat): IsoEvent {
    IsoEvent(event, result, payload, length, Physical)
  }

  /** A frame buffer of which `len` bytes are used, padded up to the frame length. */
  function Padded(msg: Message, len: nat, cfg: Config): Message {
    if len < cfg.candl then Overlay(msg, len, Fill(cfg.padding, cfg.candl - len)) else msg
  }

  /** The frame that goes out for a padded buffer. */
  function FrameOf(msg: Message, cfg: Config): CanFrame {
    CanFrame(cfg.respId, msg[..cfg.candl])
  }

  class Port {
    var config: Config
    const accept: nat -> bool
    var sent: seq<CanFrame>
    var attempts: nat
    var log: seq<IsoEvent>

    function View(): Io
      reads this
    {
      Io(accept, sent, attempts, log)
    }

    constructor (accept: nat -> bool)
      ensures config == Config(0, 0, 0, 0, 0)
      ensures View() == Io(accept, [], 0, [])
    {
      config := Config(0, 0, 0, 0, 0);
      this.accept, sent, attempts, log := accept, [], 0, [];
    }

    /** One transmission attempt; the result is the length taken, 0 if the bus refused. */
    method SendFrame(data: array<Byte>, length: CanLength, msgid: Word) returns (taken: nat)
      requires length <= data.Length
      modifies this
      ensures taken == if old(View()).Accepts() then length else 0
      ensures View() == old(View()).Attempted(CanFrame(msgid, data[..length]))
      ensures config == old(config)
    {
      if accept(attempts) {
        sent := sent + [CanFrame(msgid, data[..length])];
        taken := length;
      } else {
        taken := 0;
      }
      attempts := attempts + 1;
    }

    method PduToCan(data: array<Byte>, used: nat) returns (taken: nat)
      requires data.Length == MAX_CANDL
      modifies this, data
      ensures data[..] == Padded(old(data[..]), used, config)
      ensures config == old(config)
      ensures taken == if old(View()).Accepts() then config.candl else 0
      ensures View() == old(View()).Attempted(FrameOf(data[..], config))
    {
      var len := used;
      while len < config.candl
        invariant used <= len && (len <= config.candl || len == used)
        invariant config == old(config) && View() == old(View())
        invariant forall i :: 0 <= i < data.Length ==>
                                data[i] == if used <= i < len then config.padding else old(data[i])
      {
        data[len] := config.padding;
        len := len + 1;
      }
      assert data[..] == Padded(old(data[..]), used, config);
      taken := SendFrame(data, config.candl, config.respId);
    }

    method OnIsoRxEvent(event: NEvent, result: NResult, payload: seq<Byte>, length: nat)
      modifies this
      ensures config == old(config)
      ensures View() == old(View()).Logged(RxEvent(event, result, payload, length))
    {
      log := log + [IsoEvent(event, result, payload, length, Physical)];
    }

    method OnIsoTxEvent(event: NEvent, result: NResult)
      modifies this
      ensures config == old(config)
      ensures View() == old(View()).Logged(IsoEvent(event, result, [], 0, Physical))
    {
      log := log + [IsoEvent(event, result, [], 0, Physical)];
    }
  }
}
