/** The CAN FD transport session: one process-wide slot, one device, one SDK handle. */
module CanfdSession {
  import opened Bytes
  import opened Wrappers

  datatype Device = Device(kind: nat, card: nat, channel: nat)

  datatype CanfdConfig = CanfdConfig(device: Device, rxBufferSize: nat, masterId: nat)

  /** What the SDK answers while a session opens. */
  datatype Answers = Answers(openOk: bool, initOk: bool, startOk: bool, handle: Option<nat>)

  datatype Event =
    | OpenDevice(device: Device, ok: bool)
    | InitCan(device: Device, ok: bool)
    | StartCan(device: Device, ok: bool)
    | ResetCan(device: Device)
    | CloseDevice(kind: nat, card: nat)
    | InitHandle(masterId: nat, handle: Option<nat>)
    | FreeHandle(freed: nat)

  /** The process-wide part: active_instance_, which callbacks the SDK holds, and the calls made so far. */
  datatype Bus = Bus(active: Option<nat>, forwarding: bool, trace: seq<Event>)

  /** A session's own fields; address stands for `this`. */
  datatype Session = Session(
    address: nat, started: bool, handle: Option<nat>, handler: Option<nat>, registered: bool, rxSize: nat)

  function NewSession(address: nat): Session {
    Session(address, false, None, None, false, 0)
  }

  function Emit(bus: Bus, e: Event): Bus {
    bus.(trace := bus.trace + [e])
  }

  function ReleaseSlot(bus: Bus, address: nat): Bus {
    if bus.active == Some(address) then bus.(active := None, forwarding := false) else bus
  }

  function FreeHandleStep(bus: Bus, handle: Option<nat>): Bus {
    if handle.Some? then Emit(bus, FreeHandle(handle.value)) else bus
  }

  function StopDevice(bus: Bus, started: bool, device: Device): Bus {
    if started then Emit(Emit(bus, ResetCan(device)), CloseDevice(device.kind, device.card)) else bus
  }

  function CloseBus(bus: Bus, s: Session, cfg: CanfdConfig): Bus {
    StopDevice(FreeHandleStep(ReleaseSlot(bus, s.address), s.handle), s.started, cfg.device)
  }

  datatype Outcome = Outcome(bus: Bus, session: Session, ok: bool)

  function RxSize(cfg: CanfdConfig): nat {
    if cfg.rxBufferSize < 1 then 1 else cfg.rxBufferSize
  }

  /** open() after its own close(). */
  function OpenClosed(bus: Bus, address: nat, cfg: CanfdConfig, a: Answers): Outcome {
    var d := cfg.device;
    var closed := NewSession(address);
    if bus.active.Some? && bus.active.value != address then Outcome(bus, closed, false)
    else
      var b1 := Emit(bus, OpenDevice(d, a.openOk));
      if !a.openOk then Outcome(b1, closed, false)
      else
        var b2 := Emit(b1, InitCan(d, a.initOk));
        if !a.initOk then Outcome(Emit(b2, CloseDevice(d.kind, d.card)), closed, false)
        else
          var b3 := Emit(b2, StartCan(d, a.startOk));
          if !a.startOk then Outcome(StopDevice(b3, true, d), closed, false)
          else
            var b4 := Emit(b3.(active := Some(address), forwarding := true), InitHandle(cfg.masterId, a.handle));
            if a.handle.None? then
              Outcome(CloseBus(b4, closed.(started := true), cfg), closed, false)
            else
              Outcome(b4, Session(address, true, a.handle, a.handle, true, RxSize(cfg)), true)
  }

  function OpenStep(bus: Bus, s: Session, cfg: CanfdConfig, a: Answers): Outcome {
    OpenClosed(CloseBus(bus, s, cfg), s.address, cfg, a)
  }

  // ------------------------------------------------------------------ the ledger of device calls

  /** Which device is open and which handle is alive. */
  datatype Ledger = Ledger(device: Option<Device>, handle: Option<nat>)

  /** The calls the SDK may see: nothing is opened twice, used or closed unless open, and what is
      closed has the type and card that were opened. */
  function Charge(l: Ledger, e: Event): Option<Ledger> {
    match e
    case OpenDevice(d, ok) =>
      if l != Ledger(None, None) then None else Some(if ok then Ledger(Some(d), None) else l)
    case InitCan(d, _) => if l == Ledger(Some(d), None) then Some(l) else None
    case StartCan(d, _) => if l == Ledger(Some(d), None) then Some(l) else None
    case ResetCan(d) => if l == Ledger(Some(d), None) then Some(l) else None
    case CloseDevice(kind, card) =>
      if l.device.Some? && l.device.value.kind == kind && l.device.value.card == card && l.handle.None?
      then Some(Ledger(None, None)) else None
    case InitHandle(_, h) => if l.device.Some? && l.handle.None? then Some(l.(handle := h)) else None
    case FreeHandle(h) => if l.handle == Some(h) then Some(l.(handle := None)) else None
  }

  function Scan(trace: seq<Event>): Option<Ledger> {
    if |trace| == 0 then Some(Ledger(None, None))
    else
      var before := Scan(trace[..|trace| - 1]);
      if before.None? then None else Charge(before.value, trace[|trace| - 1])
  }

  lemma ScanEmit(bus: Bus, e: Event)
    ensures Scan(Emit(bus, e).trace)
            == (if Scan(bus.trace).None? then None else Charge(Scan(bus.trace).value, e))
  {
    assert Emit(bus, e).trace[..|bus.trace|] == bus.trace;
  }

  predicate Opens(e: Event, kind: nat, card: nat) {
    e.OpenDevice? && e.ok && e.device.kind == kind && e.device.card == card
  }

  predicate Closes(e: Event, kind: nat, card: nat) {
    e.CloseDevice? && e.kind == kind && e.card == card
  }

  function CountOpens(trace: seq<Event>, kind: nat, card: nat): nat {
    if |trace| == 0 then 0
    else CountOpens(trace[..|trace| - 1], kind, card) + (if Opens(trace[|trace| - 1], kind, card) then 1 else 0)
  }

  function CountCloses(trace: seq<Event>, kind: nat, card: nat): nat {
    if |trace| == 0 then 0
    else CountCloses(trace[..|trace| - 1], kind, card) + (if Closes(trace[|trace| - 1], kind, card) then 1 else 0)
  }

  /** In an orderly trace every successful open of a type and card has its close, except the one still open. */
  lemma {:induction false} OpensMatchCloses(trace: seq<Event>, kind: nat, card: nat)
    requires Scan(trace).Some?
    ensures var d := Scan(trace).value.device;
            CountOpens(trace, kind, card)
            == CountCloses(trace, kind, card)
               + (if d.Some? && d.value.kind == kind && d.value.card == card then 1 else 0)
  {
    if |trace| > 0 {
      OpensMatchCloses(trace[..|trace| - 1], kind, card);
    }
  }

  // ------------------------------------------------------------------ one session on the bus

  /** All marks of being open agree: the slot, the started flag, the handle, the raw handler, the
      callbacks and the receive buffer. */
  predicate Coherent(bus: Bus, s: Session, cfg: CanfdConfig) {
    && (s.started <==> bus.active == Some(s.address))
    && (s.handle.Some? <==> s.started)
    && s.handler == s.handle
    && (s.registered <==> s.started)
    && s.rxSize == (if s.started then RxSize(cfg) else 0)
  }

  /** The ledger as this session leaves it: its device and handle, or nothing. */
  predicate Settled(bus: Bus) {
    && bus.active.None?
    && !bus.forwarding
    && Scan(bus.trace) == Some(Ledger(None, None))
  }

  predicate Holds(bus: Bus, s: Session, cfg: CanfdConfig) {
    && bus.active == Some(s.address)
    && bus.forwarding
    && Scan(bus.trace) == Some(Ledger(Some(cfg.device), s.handle))
  }

  /** Closing a coherent session settles the bus if it was the active one and changes nothing otherwise. */
  lemma CloseSettles(bus: Bus, s: Session, cfg: CanfdConfig)
    requires Coherent(bus, s, cfg)
    requires s.started ==> Holds(bus, s, cfg)
    ensures s.started ==> Settled(CloseBus(bus, s, cfg))
    ensures !s.started ==> CloseBus(bus, s, cfg) == bus
  {
    if s.started {
      var b1 := ReleaseSlot(bus, s.address);
      ScanEmit(b1, FreeHandle(s.handle.value));
      var b2 := FreeHandleStep(b1, s.handle);
      ScanEmit(b2, ResetCan(cfg.device));
      ScanEmit(Emit(b2, ResetCan(cfg.device)), CloseDevice(cfg.device.kind, cfg.device.card));
    }
  }

  lemma StopSettles(bus: Bus, d: Device)
    requires Scan(bus.trace) == Some(Ledger(Some(d), None))
    ensures Scan(StopDevice(bus, true, d).trace) == Some(Ledger(None, None))
    ensures StopDevice(bus, true, d).active == bus.active && StopDevice(bus, true, d).forwarding == bus.forwarding
  {
    ScanEmit(bus, ResetCan(d));
    ScanEmit(Emit(bus, ResetCan(d)), CloseDevice(d.kind, d.card));
  }

  lemma StartedSettles(b3: Bus, address: nat, cfg: CanfdConfig, a: Answers)
    requires b3.active.None? && !b3.forwarding && Scan(b3.trace) == Some(Ledger(Some(cfg.device), None))
    ensures Settled(StopDevice(b3, true, cfg.device))
    ensures var b4 := Emit(b3.(active := Some(address), forwarding := true), InitHandle(cfg.masterId, a.handle));
            if a.handle.Some? then Scan(b4.trace) == Some(Ledger(Some(cfg.device), a.handle))
            else Settled(CloseBus(b4, NewSession(address).(started := true), cfg))
  {
    StopSettles(b3, cfg.device);
    var claimed := b3.(active := Some(address), forwarding := true);
    ScanEmit(claimed, InitHandle(cfg.masterId, a.handle));
    var b4 := Emit(claimed, InitHandle(cfg.masterId, a.handle));
    if a.handle.None? {
      StopSettles(ReleaseSlot(b4, address), cfg.device);
    }
  }

  /** Opening on a settled bus ends settled, or with this session holding the device and the handle. */
  lemma OpenSettles(bus: Bus, address: nat, cfg: CanfdConfig, a: Answers)
    requires Settled(bus)
    ensures var o := OpenClosed(bus, address, cfg, a);
            && (o.ok <==> a.openOk && a.initOk && a.startOk && a.handle.Some?)
            && (if o.ok then Holds(o.bus, o.session, cfg) else Settled(o.bus))
            && Coherent(o.bus, o.session, cfg)
            && o.session.address == address
  {
    var d := cfg.device;
    ScanEmit(bus, OpenDevice(d, a.openOk));
    if a.openOk {
      var b1 := Emit(bus, OpenDevice(d, true));
      ScanEmit(b1, InitCan(d, a.initOk));
      var b2 := Emit(b1, InitCan(d, a.initOk));
      if !a.initOk {
        ScanEmit(b2, CloseDevice(d.kind, d.card));
      } else {
        ScanEmit(b2, StartCan(d, a.startOk));
        StartedSettles(Emit(b2, StartCan(d, a.startOk)), address, cfg, a);
      }
    }
  }

  /** On every bus: an open succeeds exactly if no other session holds the slot and all four calls do, and exactly
      then the session is started; a busy slot means no call at all; a success made these four calls. */
  lemma OpenOutcome(bus: Bus, s: Session, cfg: CanfdConfig, a: Answers)
    ensures var closed, o, d := CloseBus(bus, s, cfg), OpenStep(bus, s, cfg, a), cfg.device;
            var busy := bus.active.Some? && bus.active.value != s.address;
            && (o.ok <==> o.session.started)
            && (o.ok <==> !busy && a.openOk && a.initOk && a.startOk && a.handle.Some?)
            && (busy ==> o.bus == closed)
            && (!o.ok ==> o.session == NewSession(s.address))
            && (o.ok ==>
                  && o.bus.active == Some(s.address) && o.bus.forwarding
                  && o.bus.trace == closed.trace + [OpenDevice(d, true), InitCan(d, true), StartCan(d, true),
                                                    InitHandle(cfg.masterId, a.handle)]
                  && o.session.handle == o.session.handler == a.handle
                  && o.session.rxSize == if cfg.rxBufferSize >= 1 then cfg.rxBufferSize else 1)
  {
  }

  /** Why configure must close first: closing with a config that names another type or card is a close
      without its open. */
  lemma ForeignConfigBreaksLedger(bus: Bus, s: Session, cfg: CanfdConfig, other: CanfdConfig)
    requires Coherent(bus, s, cfg) && s.started && Holds(bus, s, cfg)
    ensures Scan(CloseBus(bus, s, other).trace).Some? <==> other.device == cfg.device
  {
    var b1 := ReleaseSlot(bus, s.address);
    ScanEmit(b1, FreeHandle(s.handle.value));
    var b2 := FreeHandleStep(b1, s.handle);
    ScanEmit(b2, ResetCan(other.device));
    ScanEmit(Emit(b2, ResetCan(other.device)), CloseDevice(other.device.kind, other.device.card));
  }

  // ------------------------------------------------------------------ the objects

  class CanBus {
    var active: Option<nat>
    var forwarding: bool
    ghost var trace: seq<Event>

    ghost function Value(): Bus
      reads this
    {
      Bus(active, forwarding, trace)
    }

    constructor ()
      ensures Value() == Bus(None, false, [])
    {
      active, forwarding, trace := None, false, [];
    }

    /** A call into the SDK, with its answer already known. */
    ghost method Record(e: Event)
      modifies this`trace
      ensures Value() == Emit(old(Value()), e)
    {
      trace := trace + [e];
    }
  }

  /** The config member of the API object; sessions only hold a reference to it. */
  class ConfigCell {
    var canfd: CanfdConfig

    constructor (canfd: CanfdConfig)
      ensures this.canfd == canfd
    {
      this.canfd := canfd;
    }
  }

  datatype Frame = Frame(id: nat, channel: nat, length: byte, data: seq<byte>)

  class CanSession {
    const address: nat
    const bus: CanBus
    const config: ConfigCell
    var deviceStarted: bool
    var handle: Option<nat>
    var handler: Option<nat>
    var callbacksRegistered: bool
    var rxBuffer: seq<Frame>

    function Value(): Session
      reads this
    {
      Session(address, deviceStarted, handle, handler, callbacksRegistered, |rxBuffer|)
    }

    constructor (address: nat, bus: CanBus, config: ConfigCell)
      ensures this.address == address && this.bus == bus && this.config == config
      ensures Value() == NewSession(address)
    {
      this.address, this.bus, this.config := address, bus, config;
      deviceStarted, handle, handler, callbacksRegistered, rxBuffer := false, None, None, false, [];
    }

    method Close()
      modifies this, bus
      ensures Value() == NewSession(address)
      ensures bus.Value() == CloseBus(old(bus.Value()), old(Value()), config.canfd)
    {
      if bus.active == Some(address) {
        bus.active := None;
        bus.forwarding := false;
      }
      callbacksRegistered := false;
      if handle.Some? {
        bus.Record(FreeHandle(handle.value));
        handle := None;
      }
      handler := None;
      if deviceStarted {
        var d := config.canfd.device;
        bus.Record(ResetCan(d));
        bus.Record(CloseDevice(d.kind, d.card));
        deviceStarted := false;
      }
      rxBuffer := [];
    }

    method Start(a: Answers) returns (ok: bool)
      requires Value() == NewSession(address)
      requires !(bus.active.Some? && bus.active.value != address)
      modifies this, bus
      ensures Outcome(bus.Value(), Value(), ok) == OpenClosed(old(bus.Value()), address, config.canfd, a)
    {
      var d := config.canfd.device;
      bus.Record(OpenDevice(d, a.openOk));
      if !a.openOk {
        return false;
      }
      bus.Record(InitCan(d, a.initOk));
      if !a.initOk {
        bus.Record(CloseDevice(d.kind, d.card));
        return false;
      }
      bus.Record(StartCan(d, a.startOk));
      if !a.startOk {
        bus.Record(ResetCan(d));
        bus.Record(CloseDevice(d.kind, d.card));
        return false;
      }
      deviceStarted := true;
      rxBuffer := seq(RxSize(config.canfd), _ => Frame(0, 0, 0, []));
      bus.active := Some(address);
      bus.forwarding := true;
      callbacksRegistered := true;
      bus.Record(InitHandle(config.canfd.masterId, a.handle));
      if a.handle.None? {
        Close();
        return false;
      }
      handle := a.handle;
      handler := a.handle;
      ok := true;
    }

    method Open(a: Answers) returns (ok: bool)
      modifies this, bus
      ensures Outcome(bus.Value(), Value(), ok) == OpenStep(old(bus.Value()), old(Value()), config.canfd, a)
    {
      Close();
      if bus.active.Some? && bus.active.value != address {
        return false;
      }
      ok := Start(a);
    }

    /** handle_tx: the frame handed to VCI_TransmitFD carries at most the first 64 bytes. */
    method HandleTx(canId: nat, data: array<byte>, transmitted: int) returns (code: int, sent: Option<Frame>)
      ensures sent.Some? <==> deviceStarted
      ensures code == (if deviceStarted && transmitted == 1 then 0 else -1)
      ensures var n := if data.Length < 64 then data.Length else 64;
              sent.Some? ==> sent.value == Frame(canId, config.canfd.device.channel % 256, n, data[..n])
    {
      if !deviceStarted {
        return -1, None;
      }
      var n := if data.Length < 64 then data.Length else 64;
      var payload := [];
      for index := 0 to n
        invariant payload == data[..index]
      {
        payload := payload + [data[index]];
      }
      sent := Some(Frame(canId, config.canfd.device.channel % 256, n, payload));
      code := if transmitted == 1 then 0 else -1;
    }

    /** handle_rx: the first received frame's id and at most 64 of its bytes, if every output has a place. */
    method HandleRx(received: int, front: Frame, hasId: bool, dataOut: array?<byte>, hasLength: bool)
      returns (code: int, canId: nat, length: nat)
      requires |front.data| == 64 && (dataOut != null ==> dataOut.Length >= 64)
      modifies dataOut
      ensures var accepted := hasId && dataOut != null && hasLength;
              code == if accepted && deviceStarted && |rxBuffer| > 0 && received >= 1 then 0 else -1
      ensures code == 0 ==> canId == front.id && length == if front.length < 64 then front.length as int else 64
      ensures code != 0 && dataOut != null ==> dataOut[..] == old(dataOut[..])
      ensures code == 0 ==> dataOut[..] == front.data[..length] + old(dataOut[length..])
    {
      canId, length := 0, 0;
      if !hasId || dataOut == null || !hasLength {
        return -1, canId, length;
      }
      if !deviceStarted || |rxBuffer| == 0 || received < 1 {
        return -1, canId, length;
      }
      canId := front.id;
      length := if front.length < 64 then front.length as int else 64;
      for index := 0 to length
        invariant dataOut[..] == front.data[..index] + old(dataOut[index..])
      {
        dataOut[index] := front.data[index];
      }
      code := 0;
    }
  }
}
