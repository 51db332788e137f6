/** A bus cycle over all entries of a domain: with channels that are disjoint across the entries each slave's
    cycle is that of its own channels alone. */
module DomainCycle {
  import opened Numbers
  import opened Bytes
  import opened Revo2Codec
  import opened Revo2Slave
  import opened BusCycle

  /** An entry of the domain: a slave, with the places of its channels in the shared image. */
  datatype Member = Member(
    cfg: Config, commands: seq<Double>, states: seq<Double>, positions: seq<real>, offsets: seq<nat>)

  function StateOf(image: seq<byte>, m: Member): SlaveState {
    SlaveState(image, m.states, m.positions)
  }

  predicate Placed(image: seq<byte>, m: Member) {
    Mapped(m.cfg, m.offsets, StateOf(image, m))
  }

  predicate AllPlaced(image: seq<byte>, ms: seq<Member>) {
    forall k | 0 <= k < |ms| :: Placed(image, ms[k])
  }

  /** The member's own cycle on an image. */
  function Own(image: seq<byte>, m: Member): (r: SlaveState)
    requires Placed(image, m)
    ensures |r.image| == |image| && |r.states| == |m.states| && |r.positions| == |m.positions|
  {
    Cycle(m.cfg, m.commands, StateOf(image, m), m.offsets, |m.offsets|)
  }

  /** Turns taken one after the other on an image. */
  function InTurns(image: seq<byte>, turn: (seq<byte>, nat) -> seq<byte>, n: nat): seq<byte> {
    if n == 0 then image else turn(InTurns(image, turn, n - 1), n - 1)
  }

  function TurnOf(ms: seq<Member>): (seq<byte>, nat) -> seq<byte> {
    (image: seq<byte>, k: nat) => if k < |ms| && Placed(image, ms[k]) then Own(image, ms[k]).image else image
  }

  lemma {:induction false} TurnsKeepLength(image: seq<byte>, ms: seq<Member>, n: nat)
    ensures |InTurns(image, TurnOf(ms), n)| == |image|
  {
    if n > 0 {
      TurnsKeepLength(image, ms, n - 1);
    }
  }

  /** The image after the first n entries, one after the other. */
  function ImageAfter(image: seq<byte>, ms: seq<Member>, n: nat): (r: seq<byte>)
    requires n <= |ms| && AllPlaced(image, ms)
    ensures |r| == |image|
  {
    TurnsKeepLength(image, ms, n);
    InTurns(image, TurnOf(ms), n)
  }

  // ------------------------------------------------------------------ a cycle sees only its own channels

  predicate SameChannels(a: seq<byte>, b: seq<byte>, offsets: seq<nat>) {
    && |a| == |b|
    && (forall c | 0 <= c < |offsets| :: offsets[c] + ChannelBytes(c) <= |a|)
    && (forall c | 0 <= c < |offsets| :: ChannelAt(a, offsets, c) == ChannelAt(b, offsets, c))
  }

  lemma {:induction false} DecodedSame(
    cfg: Config, a: seq<byte>, b: seq<byte>, offsets: seq<nat>, c: nat, states: seq<Double>, n: nat)
    requires 7 <= c <= 9 && c < |offsets| && n <= NUM_FINGER_MOTORS && |states| >= 18
    requires |a| == |b| && offsets[c] + 12 <= |a| && ChannelAt(a, offsets, c) == ChannelAt(b, offsets, c)
    ensures Decoded(cfg, c, a, offsets[c], states, n) == Decoded(cfg, c, b, offsets[c], states, n)
  {
    if n > 0 {
      DecodedSame(cfg, a, b, offsets, c, states, n - 1);
      SameChannelSameWord(a, b, offsets, c, n - 1);
    }
  }

  lemma DecodedAllSame(cfg: Config, a: seq<byte>, b: seq<byte>, offsets: seq<nat>, states: seq<Double>)
    requires |offsets| >= 10 && |states| >= 18 && SameChannels(a, b, offsets)
    ensures DecodedAll(cfg, a, offsets, states) == DecodedAll(cfg, b, offsets, states)
  {
    DecodedSame(cfg, a, b, offsets, 7, states, NUM_FINGER_MOTORS);
    var pos := Decoded(cfg, 7, a, offsets[7], states, NUM_FINGER_MOTORS);
    DecodedSame(cfg, a, b, offsets, 8, pos, NUM_FINGER_MOTORS);
    var vel := Decoded(cfg, 8, a, offsets[8], pos, NUM_FINGER_MOTORS);
    DecodedSame(cfg, a, b, offsets, 9, vel, NUM_FINGER_MOTORS);
  }

  lemma PositionsSame(cfg: Config, a: seq<byte>, b: seq<byte>, offsets: seq<nat>)
    requires |offsets| >= 10 && SameChannels(a, b, offsets)
    ensures DecodedPositions(cfg, a, offsets[7]) == DecodedPositions(cfg, b, offsets[7])
  {
    forall i | 0 <= i < NUM_FINGER_MOTORS
      ensures DecodedPositions(cfg, a, offsets[7])[i] == DecodedPositions(cfg, b, offsets[7])[i]
    {
      SameChannelSameWord(a, b, offsets, 7, i);
    }
  }

  /** What the n first channels leave in the member's channels does not depend on the rest of the image. */
  lemma CycleKeepsSame(a: seq<byte>, b: seq<byte>, m: Member, n: nat)
    requires Placed(a, m) && Placed(b, m) && Disjoint(m.offsets) && SameChannels(a, b, m.offsets)
    requires NUM_RX_CHANNELS <= n <= |m.offsets|
    ensures SameChannels(Cycle(m.cfg, m.commands, StateOf(a, m), m.offsets, n).image,
                         Cycle(m.cfg, m.commands, StateOf(b, m), m.offsets, n).image, m.offsets)
  {
    CycleImage(m.cfg, m.commands, StateOf(a, m), m.offsets, n);
    CycleImage(m.cfg, m.commands, StateOf(b, m), m.offsets, n);
  }

  /** Two images that agree on a member's channels give the same states, the same positions and the same
      channels after its cycle. */
  lemma OwnChannelsOnly(a: seq<byte>, b: seq<byte>, m: Member)
    requires Placed(a, m) && Placed(b, m) && Disjoint(m.offsets) && SameChannels(a, b, m.offsets)
    ensures Own(a, m).states == Own(b, m).states && Own(a, m).positions == Own(b, m).positions
    ensures SameChannels(Own(a, m).image, Own(b, m).image, m.offsets)
  {
    var s, t := StateOf(a, m), StateOf(b, m);
    var n := |m.offsets|;
    CycleKeepsSame(a, b, m, NUM_RX_CHANNELS);
    CycleKeepsSame(a, b, m, n);
    var x := Cycle(m.cfg, m.commands, s, m.offsets, NUM_RX_CHANNELS).image;
    var y := Cycle(m.cfg, m.commands, t, m.offsets, NUM_RX_CHANNELS).image;
    CycleStates(m.cfg, m.commands, s, m.offsets, n);
    CycleStates(m.cfg, m.commands, t, m.offsets, n);
    DecodedAllSame(m.cfg, x, y, m.offsets, m.states);
    CyclePositions(m.cfg, m.commands, s, m.offsets);
    CyclePositions(m.cfg, m.commands, t, m.offsets);
    PositionsSame(m.cfg, x, y, m.offsets);
  }

  // ------------------------------------------------------------------ all entries

  /** No channel of one entry overlaps one of the other. */
  predicate Apart(m: Member, o: Member) {
    forall c, d | 0 <= c < |m.offsets| && 0 <= d < |o.offsets| ::
      m.offsets[c] + ChannelBytes(c) <= o.offsets[d] || o.offsets[d] + ChannelBytes(d) <= m.offsets[c]
  }

  predicate AllApart(ms: seq<Member>) {
    && (forall k | 0 <= k < |ms| :: Disjoint(ms[k].offsets))
    && (forall j, k | 0 <= j < |ms| && 0 <= k < |ms| && j != k :: Apart(ms[j], ms[k]))
  }

  /** A byte outside an entry's channels is not written by its cycle. */
  lemma OwnStaysInside(image: seq<byte>, m: Member, p: nat)
    requires Placed(image, m) && Disjoint(m.offsets) && p < |image|
    requires forall c | 0 <= c < |m.offsets| :: !InChannel(m.offsets, c, p)
    ensures Own(image, m).image[p] == image[p]
  {
    CycleImage(m.cfg, m.commands, StateOf(image, m), m.offsets, |m.offsets|);
  }

  /** Another entry's cycle leaves an entry's channels alone. */
  lemma OthersLeaveChannels(image: seq<byte>, m: Member, o: Member)
    requires Placed(image, m) && Placed(image, o) && Disjoint(o.offsets) && Apart(m, o)
    ensures SameChannels(image, Own(image, o).image, m.offsets)
  {
    forall c | 0 <= c < |m.offsets|
      ensures ChannelAt(image, m.offsets, c) == ChannelAt(Own(image, o).image, m.offsets, c)
    {
      forall p | m.offsets[c] <= p < m.offsets[c] + ChannelBytes(c) ensures Own(image, o).image[p] == image[p] {
        assert forall d | 0 <= d < |o.offsets| :: !InChannel(o.offsets, d, p);
        OwnStaysInside(image, o, p);
      }
    }
  }

  lemma OthersTurn(expected: seq<byte>, before: seq<byte>, m: Member, o: Member)
    requires Placed(before, m) && Placed(before, o) && Disjoint(o.offsets) && Apart(m, o)
    requires SameChannels(expected, before, m.offsets)
    ensures SameChannels(expected, Own(before, o).image, m.offsets)
  {
    OthersLeaveChannels(before, m, o);
  }

  lemma PlacedAnywhere(image: seq<byte>, before: seq<byte>, ms: seq<Member>)
    requires AllPlaced(image, ms) && |before| == |image|
    ensures AllPlaced(before, ms)
  {
    forall k | 0 <= k < |ms| ensures Placed(before, ms[k]) {
      assert Placed(image, ms[k]);
    }
  }

  /** Entry k's channels are as received until its turn, and after it as its own turn alone leaves them. */
  function Expected(image: seq<byte>, turn: (seq<byte>, nat) -> seq<byte>, k: nat, n: nat): seq<byte> {
    if n <= k then image else turn(image, k)
  }

  lemma ChannelsNextTurn(image: seq<byte>, before: seq<byte>, ms: seq<Member>, k: nat, n: nat)
    requires AllPlaced(image, ms) && |before| == |image| && AllApart(ms) && k < |ms| && n < |ms|
    requires SameChannels(Expected(image, TurnOf(ms), k, n), before, ms[k].offsets)
    ensures SameChannels(Expected(image, TurnOf(ms), k, n + 1), TurnOf(ms)(before, n), ms[k].offsets)
  {
    PlacedAnywhere(image, before, ms);
    if n == k {
      OwnChannelsOnly(image, before, ms[k]);
    } else {
      OthersTurn(Expected(image, TurnOf(ms), k, n), before, ms[k], ms[n]);
    }
  }

  lemma NothingTurned(image: seq<byte>, ms: seq<Member>, k: nat)
    requires AllPlaced(image, ms) && k < |ms|
    ensures SameChannels(image, image, ms[k].offsets)
  {
    assert Placed(image, ms[k]);
  }

  lemma {:induction false} ChannelsOverTurns(
    image: seq<byte>, ms: seq<Member>, turn: (seq<byte>, nat) -> seq<byte>, k: nat, n: nat)
    requires AllPlaced(image, ms) && AllApart(ms) && k < |ms| && n <= |ms| && turn == TurnOf(ms)
    ensures SameChannels(Expected(image, turn, k, n), InTurns(image, turn, n), ms[k].offsets)
  {
    if n == 0 {
      NothingTurned(image, ms, k);
    } else {
      ChannelsOverTurns(image, ms, turn, k, n - 1);
      TurnsKeepLength(image, ms, n - 1);
      ChannelsNextTurn(image, InTurns(image, turn, n - 1), ms, k, n - 1);
    }
  }

  /** With channels disjoint across the entries, each slave's states, last positions and channels after a
      cycle over the whole domain are those of the cycle of its own channels alone. */
  lemma EachAsIfAlone(image: seq<byte>, ms: seq<Member>, k: nat)
    requires AllPlaced(image, ms) && AllApart(ms) && k < |ms|
    ensures var turn, alone := Own(ImageAfter(image, ms, k), ms[k]), Own(image, ms[k]);
            && turn.states == alone.states && turn.positions == alone.positions
            && SameChannels(alone.image, ImageAfter(image, ms, |ms|), ms[k].offsets)
  {
    ChannelsOverTurns(image, ms, TurnOf(ms), k, k);
    OwnChannelsOnly(image, ImageAfter(image, ms, k), ms[k]);
    ChannelsOverTurns(image, ms, TurnOf(ms), k, |ms|);
  }

  predicate Outside(ms: seq<Member>, p: nat) {
    forall k, c | 0 <= k < |ms| && 0 <= c < |ms[k].offsets| :: !InChannel(ms[k].offsets, c, p)
  }

  lemma TurnStaysInside(image: seq<byte>, ms: seq<Member>, n: nat, p: nat)
    requires n < |ms| && AllApart(ms) && Outside(ms, p) && p < |image|
    ensures |TurnOf(ms)(image, n)| == |image| && TurnOf(ms)(image, n)[p] == image[p]
  {
    if Placed(image, ms[n]) {
      OwnStaysInside(image, ms[n], p);
    }
  }

  /** Bytes that belong to no entry are as received. */
  lemma {:induction false} TurnsStayInside(
    image: seq<byte>, ms: seq<Member>, turn: (seq<byte>, nat) -> seq<byte>, n: nat, p: nat)
    requires n <= |ms| && AllApart(ms) && Outside(ms, p) && p < |image| && turn == TurnOf(ms)
    ensures |InTurns(image, turn, n)| == |image| && InTurns(image, turn, n)[p] == image[p]
  {
    if n > 0 {
      TurnsStayInside(image, ms, turn, n - 1, p);
      TurnStaysInside(InTurns(image, turn, n - 1), ms, n - 1, p);
    }
  }

  lemma DomainStaysInside(image: seq<byte>, ms: seq<Member>, p: nat)
    requires AllPlaced(image, ms) && AllApart(ms) && Outside(ms, p) && p < |image|
    ensures ImageAfter(image, ms, |ms|)[p] == image[p]
  {
    TurnsStayInside(image, ms, TurnOf(ms), |ms|, p);
  }

  // ------------------------------------------------------------------ the loop over the entries

  ghost predicate AllSeparate(slaves: seq<Slave>) {
    && (forall j, k | 0 <= j < |slaves| && 0 <= k < |slaves| ::
          slaves[j].states != slaves[k].commands)
    && (forall j, k | 0 <= j < |slaves| && 0 <= k < |slaves| && j != k ::
          slaves[j] != slaves[k] && slaves[j].states != slaves[k].states)
  }

  ghost function MemberOf(slave: Slave, offsets: seq<nat>): Member
    reads slave, slave.commands, slave.states
  {
    Member(slave.cfg, slave.commands[..], slave.states[..], slave.positions, offsets)
  }

  /** Every slave of ms stands as its member says, from the i-th on. */
  ghost predicate Await(slaves: seq<Slave>, places: seq<seq<nat>>, ms: seq<Member>, i: nat)
    requires |slaves| == |places| == |ms|
    reads slaves, set k | 0 <= k < |slaves| :: slaves[k].commands, set k | 0 <= k < |slaves| :: slaves[k].states
  {
    forall k | i <= k < |slaves| :: MemberOf(slaves[k], places[k]) == ms[k]
  }

  /** The first i slaves have had their turn on the image that was left to them. */
  ghost predicate HadTurn(slaves: seq<Slave>, image: seq<byte>, ms: seq<Member>, i: nat)
    requires i <= |slaves| == |ms| && AllPlaced(image, ms)
    reads slaves, set k | 0 <= k < |slaves| :: slaves[k].states
  {
    forall k | 0 <= k < i ::
      var turn := Own(ImageAfter(image, ms, k), ms[k]);
      slaves[k].states[..] == turn.states && slaves[k].positions == turn.positions
  }

  /** One slave's turn. */
  method Turn(
    slaves: seq<Slave>, image: array<byte>, places: seq<seq<nat>>, ghost ms: seq<Member>,
    ghost received: seq<byte>, i: nat)
    requires i < |slaves| == |places| == |ms| && AllSeparate(slaves)
    requires forall k | 0 <= k < |slaves| :: slaves[k].Valid()
    requires AllPlaced(received, ms) && image[..] == ImageAfter(received, ms, i)
    requires Await(slaves, places, ms, i) && HadTurn(slaves, received, ms, i)
    modifies image, slaves[i], slaves[i].states
    ensures slaves[i].Valid()
    ensures image[..] == ImageAfter(received, ms, i + 1)
    ensures Await(slaves, places, ms, i + 1) && HadTurn(slaves, received, ms, i + 1)
  {
    assert MemberOf(slaves[i], places[i]) == ms[i];
    RunCycle(slaves[i], image, places[i]);
  }

  /** The processing loop of update, readData and writeData. */
  method RunDomain(slaves: seq<Slave>, image: array<byte>, places: seq<seq<nat>>, ghost ms: seq<Member>)
    requires |slaves| == |places| == |ms| && AllSeparate(slaves) && forall k | 0 <= k < |slaves| :: slaves[k].Valid()
    requires Await(slaves, places, ms, 0) && AllPlaced(image[..], ms)
    modifies image, slaves, set k | 0 <= k < |slaves| :: slaves[k].states
    ensures image[..] == ImageAfter(old(image[..]), ms, |ms|)
    ensures HadTurn(slaves, old(image[..]), ms, |ms|)
  {
    ghost var received := image[..];
    for i := 0 to |slaves|
      invariant forall k | 0 <= k < |slaves| :: slaves[k].Valid()
      invariant image[..] == ImageAfter(received, ms, i)
      invariant Await(slaves, places, ms, i) && HadTurn(slaves, received, ms, i)
    {
      Turn(slaves, image, places, ms, received, i);
    }
  }
}
