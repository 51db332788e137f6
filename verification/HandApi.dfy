/** The hand API objects of one process: each owns a config that its transport session refers to. */
module HandApi {
  import opened CanfdSession
  import opened Wrappers

  datatype Protocol = Modbus | Canfd

  datatype DriverConfig = DriverConfig(protocol: Protocol, canfd: CanfdConfig)

  /** A Modbus session makes no CAN call, so only a CAN FD session is spelled out. */
  datatype Api = Api(config: DriverConfig, session: Option<Session>)

  datatype World = World(bus: Bus, apis: seq<Api>)

  /** A call on one API object; address is where configure's new session lands, modbusOk what a Modbus
      session answers to open. */
  datatype Call =
    | Configure(config: DriverConfig, address: nat)
    | Open(answers: Answers, modbusOk: bool)
    | Close

  function CloseApi(bus: Bus, api: Api): (Bus, Api) {
    if api.session.None? then (bus, api)
    else
      (CloseBus(bus, api.session.value, api.config.canfd),
       api.(session := Some(NewSession(api.session.value.address))))
  }

  function ConfigureApi(bus: Bus, api: Api, config: DriverConfig, address: nat): (Bus, Api) {
    (CloseApi(bus, api).0, Api(config, if config.protocol.Canfd? then Some(NewSession(address)) else None))
  }

  function OpenApi(bus: Bus, api: Api, a: Answers): (Bus, Api) {
    if api.session.None? then (bus, api)
    else
      var o := OpenStep(bus, api.session.value, api.config.canfd, a);
      (o.bus, api.(session := Some(o.session)))
  }

  function Perform(bus: Bus, api: Api, call: Call): (Bus, Api) {
    match call
    case Configure(config, address) => ConfigureApi(bus, api, config, address)
    case Open(a, _) => OpenApi(bus, api, a)
    case Close => CloseApi(bus, api)
  }

  function Step(w: World, i: nat, call: Call): World
    requires i < |w.apis|
  {
    var (bus, api) := Perform(w.bus, w.apis[i], call);
    World(bus, w.apis[i := api])
  }

  predicate At(api: Api, address: nat) {
    api.session.Some? && api.session.value.address == address
  }

  /** No allocator hands out the address of an object that is still alive. */
  predicate Allocates(w: World, call: Call) {
    call.Configure? ==> forall j | 0 <= j < |w.apis| :: !At(w.apis[j], call.address)
  }

  // ------------------------------------------------------------------ the invariant

  predicate ApiFine(bus: Bus, api: Api) {
    api.session.Some? ==>
      && Coherent(bus, api.session.value, api.config.canfd)
      && (api.session.value.started ==> CanfdSession.Holds(bus, api.session.value, api.config.canfd))
  }

  predicate Distinct(apis: seq<Api>) {
    forall i, j | 0 <= i < j < |apis| && apis[i].session.Some? :: !At(apis[j], apis[i].session.value.address)
  }

  /** The active session, if any, belongs to an API object: no callback runs into a freed session. */
  predicate SlotOwned(w: World) {
    w.bus.active.Some? ==> exists i | 0 <= i < |w.apis| :: At(w.apis[i], w.bus.active.value)
  }

  predicate Inv(w: World) {
    && Distinct(w.apis)
    && (forall i | 0 <= i < |w.apis| :: ApiFine(w.bus, w.apis[i]))
    && SlotOwned(w)
    && (w.bus.active.None? ==> Settled(w.bus))
  }

  /** What a call on one API does to the bus: nothing, a settled bus, or the bus in that API's hands. */
  predicate Effect(bus: Bus, api: Api, bus': Bus, api': Api) {
    && ApiFine(bus', api')
    && (bus'.active.None? ==> Settled(bus'))
    && (bus'.active.Some? ==> bus' == bus || At(api', bus'.active.value))
    && (bus'.active.Some? && api.session.Some? && At(api, bus'.active.value) ==> At(api', bus'.active.value))
  }

  lemma PerformEffect(bus: Bus, api: Api, call: Call)
    requires ApiFine(bus, api)
    requires bus.active.None? ==> Settled(bus)
    requires call.Configure? ==> bus.active != Some(call.address) || At(api, call.address)
    ensures Effect(bus, api, Perform(bus, api, call).0, Perform(bus, api, call).1)
  {
    if api.session.Some? {
      var s := api.session.value;
      CloseSettles(bus, s, api.config.canfd);
      var closed := CloseBus(bus, s, api.config.canfd);
      if call.Open? && closed.active.None? {
        OpenSettles(closed, s.address, api.config.canfd, call.answers);
      }
    }
  }

  /** Another API's session sees nothing of a call: if it is active the bus is the same, and if the bus
      changed, neither the old nor the new active session is that one. */
  lemma OthersUntouched(bus: Bus, api: Api, bus': Bus, api': Api, other: Api)
    requires ApiFine(bus, other) && Effect(bus, api, bus', api')
    requires other.session.Some? ==> !At(api, other.session.value.address) && !At(api', other.session.value.address)
    requires other.session.Some? && other.session.value.started ==> bus' == bus
    ensures ApiFine(bus', other)
  {
  }

  /** A call made while another session is active leaves the bus as it is. */
  lemma BusyUntouched(bus: Bus, api: Api, call: Call)
    requires ApiFine(bus, api) && bus.active.Some? && !At(api, bus.active.value)
    ensures Perform(bus, api, call).0 == bus
  {
    if api.session.Some? {
      CloseSettles(bus, api.session.value, api.config.canfd);
    }
  }

  lemma OtherFine(w: World, i: nat, call: Call, j: nat)
    requires Inv(w) && i < |w.apis| && Allocates(w, call) && j < |w.apis| && j != i
    requires Effect(w.bus, w.apis[i], Step(w, i, call).bus, Step(w, i, call).apis[i])
    ensures ApiFine(Step(w, i, call).bus, w.apis[j])
    ensures w.apis[j].session.Some? ==> !At(Step(w, i, call).apis[i], w.apis[j].session.value.address)
  {
    var other := w.apis[j];
    if other.session.Some? {
      assert !At(w.apis[i], other.session.value.address);
      assert call.Configure? ==> !At(other, call.address);
      if other.session.value.started {
        BusyUntouched(w.bus, w.apis[i], call);
      }
      OthersUntouched(w.bus, w.apis[i], Step(w, i, call).bus, Step(w, i, call).apis[i], other);
    }
  }

  lemma SlotStaysOwned(w: World, i: nat, call: Call)
    requires Inv(w) && i < |w.apis|
    requires Effect(w.bus, w.apis[i], Step(w, i, call).bus, Step(w, i, call).apis[i])
    ensures SlotOwned(Step(w, i, call))
  {
    var w' := Step(w, i, call);
    if w'.bus.active.Some? {
      var a := w'.bus.active.value;
      if At(w'.apis[i], a) {
      } else {
        var k :| 0 <= k < |w.apis| && At(w.apis[k], w.bus.active.value);
        assert k != i;
        assert At(w'.apis[k], a);
      }
    }
  }

  lemma StepKeepsInv(w: World, i: nat, call: Call)
    requires Inv(w) && i < |w.apis| && Allocates(w, call)
    ensures Inv(Step(w, i, call))
  {
    var w' := Step(w, i, call);
    var api, api' := w.apis[i], w'.apis[i];
    if call.Configure? && w.bus.active.Some? {
      var k :| 0 <= k < |w.apis| && At(w.apis[k], w.bus.active.value);
    }
    PerformEffect(w.bus, api, call);
    assert api'.session.Some? ==> At(api, api'.session.value.address) || call.Configure?;
    forall j | 0 <= j < |w.apis| && j != i
      ensures ApiFine(w'.bus, w'.apis[j])
      ensures w.apis[j].session.Some? ==> !At(api', w.apis[j].session.value.address)
    {
      OtherFine(w, i, call, j);
    }
    assert Distinct(w'.apis);
    SlotStaysOwned(w, i, call);
  }

  // ------------------------------------------------------------------ whole runs

  datatype Op = Op(api: nat, call: Call)

  predicate Legal(w: World, ops: seq<Op>)
    decreases |ops|
  {
    |ops| > 0 ==>
      && ops[0].api < |w.apis|
      && Allocates(w, ops[0].call)
      && Legal(Step(w, ops[0].api, ops[0].call), ops[1..])
  }

  function Run(w: World, ops: seq<Op>): (r: World)
    requires Legal(w, ops)
    decreases |ops|
  {
    if |ops| == 0 then w else Run(Step(w, ops[0].api, ops[0].call), ops[1..])
  }

  /** n API objects before their first configure, which their constructors call. */
  function Init(n: nat, config: DriverConfig): World {
    World(Bus(None, false, []), seq(n, _ => Api(config, None)))
  }

  lemma {:induction false} RunKeepsInv(w: World, ops: seq<Op>)
    requires Inv(w) && Legal(w, ops)
    ensures Inv(Run(w, ops)) && |Run(w, ops).apis| == |w.apis|
    decreases |ops|
  {
    if |ops| > 0 {
      StepKeepsInv(w, ops[0].api, ops[0].call);
      RunKeepsInv(Step(w, ops[0].api, ops[0].call), ops[1..]);
    }
  }

  /** After every run of configure, open and close on any number of API objects all marks of an open
      session agree, and the callbacks forward exactly while a session is active. */
  lemma Ownership(n: nat, config: DriverConfig, ops: seq<Op>, i: nat)
    requires Legal(Init(n, config), ops) && i < n
    ensures var w := Run(Init(n, config), ops);
            && |w.apis| == n
            && (w.apis[i].session.Some? ==> Coherent(w.bus, w.apis[i].session.value, w.apis[i].config.canfd))
            && (w.bus.forwarding <==> w.bus.active.Some?)
  {
    RunKeepsInv(Init(n, config), ops);
    var w := Run(Init(n, config), ops);
    if w.bus.active.Some? {
      var k :| 0 <= k < n && At(w.apis[k], w.bus.active.value);
      assert ApiFine(w.bus, w.apis[k]);
    }
    assert ApiFine(w.bus, w.apis[i]);
  }

  /** At most one session is active. */
  lemma OneActive(n: nat, config: DriverConfig, ops: seq<Op>, i: nat, j: nat)
    requires Legal(Init(n, config), ops) && i < n && j < n
    requires |Run(Init(n, config), ops).apis| == n
    requires Run(Init(n, config), ops).apis[i].session.Some? && Run(Init(n, config), ops).apis[i].session.value.started
    requires Run(Init(n, config), ops).apis[j].session.Some? && Run(Init(n, config), ops).apis[j].session.value.started
    ensures i == j
  {
    RunKeepsInv(Init(n, config), ops);
    var w := Run(Init(n, config), ops);
    assert ApiFine(w.bus, w.apis[i]) && ApiFine(w.bus, w.apis[j]);
  }

  /** A callback made by the SDK while it forwards reaches a session of some API that has its device
      started and room to receive. */
  lemma CallbackReachesStarted(n: nat, config: DriverConfig, ops: seq<Op>)
    requires Legal(Init(n, config), ops) && Run(Init(n, config), ops).bus.active.Some?
    ensures var w := Run(Init(n, config), ops);
            exists i | 0 <= i < |w.apis| ::
              && At(w.apis[i], w.bus.active.value)
              && w.apis[i].session.value.started && w.apis[i].session.value.rxSize >= 1
  {
    RunKeepsInv(Init(n, config), ops);
    var w := Run(Init(n, config), ops);
    var k :| 0 <= k < |w.apis| && At(w.apis[k], w.bus.active.value);
    assert ApiFine(w.bus, w.apis[k]);
  }

  predicate Configures(op: Op, i: nat) {
    op.api == i && op.call.Configure?
  }

  /** The config an API had last, after these calls. */
  function LastConfig(config: DriverConfig, ops: seq<Op>, i: nat): DriverConfig {
    if |ops| == 0 then config
    else
      var last := ops[|ops| - 1];
      if Configures(last, i) then last.call.config else LastConfig(config, ops[..|ops| - 1], i)
  }

  predicate Configured(ops: seq<Op>, i: nat) {
    exists k | 0 <= k < |ops| :: Configures(ops[k], i)
  }

  lemma StepConfig(w: World, j: nat, call: Call, i: nat)
    requires j < |w.apis| && i < |w.apis|
    ensures var before, after := w.apis[i], Step(w, j, call).apis[i];
            if i == j && call.Configure? then
              after.config == call.config && (after.session.Some? <==> call.config.protocol.Canfd?)
            else after.config == before.config && (after.session.Some? <==> before.session.Some?)
  {
  }

  lemma {:induction false} ConfigCons(config: DriverConfig, op: Op, ops: seq<Op>, i: nat)
    ensures var first := if Configures(op, i) then op.call.config else config;
            LastConfig(config, [op] + ops, i) == LastConfig(first, ops, i)
    ensures Configured([op] + ops, i) <==> Configures(op, i) || Configured(ops, i)
  {
    var all := [op] + ops;
    if |ops| > 0 {
      ConfigCons(config, op, ops[..|ops| - 1], i);
      assert all[..|all| - 1] == [op] + ops[..|ops| - 1];
    } else {
      assert all[..0] == [];
    }
    assert all[0] == op && forall k | 0 < k < |all| :: all[k] == ops[k - 1];
    if k :| 0 <= k < |ops| && Configures(ops[k], i) {
      assert Configures(all[k + 1], i);
    }
  }

  lemma {:induction false} UnchangedConfig(config: DriverConfig, ops: seq<Op>, i: nat)
    requires !Configured(ops, i)
    ensures LastConfig(config, ops, i) == config
  {
    if |ops| > 0 {
      assert !Configures(ops[|ops| - 1], i);
      assert forall k | 0 <= k < |ops| - 1 :: ops[..|ops| - 1][k] == ops[k];
      UnchangedConfig(config, ops[..|ops| - 1], i);
    }
  }

  /** After every run each API object has the config of its last configure, and a CAN FD session exactly if that
      config asks for one. */
  lemma {:induction false} ConfigTakesEffect(w: World, ops: seq<Op>, i: nat)
    requires Legal(w, ops) && i < |w.apis|
    ensures |Run(w, ops).apis| == |w.apis|
    ensures Run(w, ops).apis[i].config == LastConfig(w.apis[i].config, ops, i)
    ensures Run(w, ops).apis[i].session.Some?
            <==> if Configured(ops, i) then LastConfig(w.apis[i].config, ops, i).protocol.Canfd?
                 else w.apis[i].session.Some?
    decreases |ops|
  {
    if |ops| > 0 {
      var w' := Step(w, ops[0].api, ops[0].call);
      StepConfig(w, ops[0].api, ops[0].call, i);
      ConfigTakesEffect(w', ops[1..], i);
      ConfigCons(w.apis[i].config, ops[0], ops[1..], i);
      assert [ops[0]] + ops[1..] == ops;
      if !Configured(ops[1..], i) {
        UnchangedConfig(w'.apis[i].config, ops[1..], i);
      }
    }
  }

  predicate StartedOn(w: World, i: nat, kind: nat, card: nat) {
    && i < |w.apis|
    && w.apis[i].session.Some? && w.apis[i].session.value.started
    && w.apis[i].config.canfd.device.kind == kind && w.apis[i].config.canfd.device.card == card
  }

  /** Device conservation: every successful VCI_OpenDevice of a type and card has exactly one close of
      that type and card, unless it is the device of the one started session, under its API's config. */
  lemma DevicesConserved(n: nat, config: DriverConfig, ops: seq<Op>, kind: nat, card: nat)
    requires Legal(Init(n, config), ops)
    ensures var w := Run(Init(n, config), ops);
            var open := CountOpens(w.bus.trace, kind, card) - CountCloses(w.bus.trace, kind, card);
            && Scan(w.bus.trace).Some?
            && (open == 0 || open == 1)
            && (open == 1 <==> exists i :: StartedOn(w, i, kind, card))
  {
    RunKeepsInv(Init(n, config), ops);
    var w := Run(Init(n, config), ops);
    if w.bus.active.Some? {
      var k :| 0 <= k < |w.apis| && At(w.apis[k], w.bus.active.value);
      assert ApiFine(w.bus, w.apis[k]);
      assert StartedOn(w, k, w.apis[k].config.canfd.device.kind, w.apis[k].config.canfd.device.card);
    }
    forall i: nat | StartedOn(w, i, kind, card)
      ensures Scan(w.bus.trace).value.device == Some(w.apis[i].config.canfd.device)
    {
      assert ApiFine(w.bus, w.apis[i]);
    }
    OpensMatchCloses(w.bus.trace, kind, card);
  }

  // ------------------------------------------------------------------ the object

  class BraincoHandApi {
    const bus: CanBus
    const canfd: ConfigCell
    var protocol: Protocol
    var session: CanSession?

    predicate Valid()
      reads this, session
    {
      session != null ==> session.bus == bus && session.config == canfd
    }

    function Value(): Api
      reads this, session, canfd
    {
      Api(DriverConfig(protocol, canfd.canfd), if session == null then None else Some(session.Value()))
    }

    method RebuildSession(address: nat)
      modifies this`session
      ensures Valid() && (session != null ==> fresh(session))
      ensures Value() == Api(DriverConfig(protocol, canfd.canfd),
                             if protocol.Canfd? then Some(NewSession(address)) else None)
    {
      if protocol.Modbus? {
        session := null;
      } else {
        session := new CanSession(address, bus, canfd);
      }
    }

    /** The constructor's configure. */
    constructor (bus: CanBus, config: DriverConfig, address: nat)
      ensures Valid() && this.bus == bus && fresh(canfd) && (session != null ==> fresh(session))
      ensures Value() == Api(config, if config.protocol.Canfd? then Some(NewSession(address)) else None)
    {
      this.bus := bus;
      canfd := new ConfigCell(config.canfd);
      protocol := config.protocol;
      session := null;
      new;
      RebuildSession(address);
    }

    method Close()
      requires Valid()
      modifies session, bus
      ensures Valid()
      ensures (bus.Value(), Value()) == CloseApi(old(bus.Value()), old(Value()))
    {
      if session != null {
        session.Close();
      }
    }

    /** The old session is closed while the config it refers to is still its own. */
    method Configure(config: DriverConfig, address: nat)
      requires Valid()
      modifies this, session, bus, canfd
      ensures Valid() && (session != null ==> fresh(session))
      ensures (bus.Value(), Value()) == ConfigureApi(old(bus.Value()), old(Value()), config, address)
    {
      Close();
      canfd.canfd := config.canfd;
      protocol := config.protocol;
      RebuildSession(address);
    }

    method Open(a: Answers, modbusOk: bool) returns (ok: bool)
      requires Valid()
      modifies session, bus
      ensures Valid()
      ensures (bus.Value(), Value()) == OpenApi(old(bus.Value()), old(Value()), a)
      ensures old(Value()).session.Some? ==>
                ok == OpenStep(old(bus.Value()), old(Value()).session.value, canfd.canfd, a).ok
      ensures old(Value()).session.None? ==> ok == modbusOk
    {
      if session == null {
        return modbusOk;
      }
      ok := session.Open(a);
    }
  }
}
