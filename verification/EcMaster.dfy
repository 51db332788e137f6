/** The EtherCAT master's bookkeeping: PDO registrations that point into the entries' own cells. */
module EcMaster {
  import opened Flattening
  import opened Revo2Codec

  /** A C++ pointer to an element of a heap array. */
  datatype Pointer = Null | ElementOf(cells: array<nat>, i: nat)

  /** ec_pdo_entry_reg_t. */
  datatype PdoReg = PdoReg(
    alias: nat, position: nat, vendor: nat, product: nat, index: nat, subindex: nat,
    offset: Pointer, bitPosition: Pointer)

  const EMPTY := PdoReg(0, 0, 0, 0, 0, 0, Null, Null)

  /** DomainInfo::Entry. */
  datatype Entry = Entry(numPdos: nat, offset: array<nat>, bitPosition: array<nat>)

  datatype SlaveType = SlaveType(vendor: nat, product: nat, channels: seq<PdoEntry>)

  /** One registerPDOInDomain call: which channels of which slave. */
  datatype Request = Request(alias: nat, position: nat, slave: SlaveType, channels: seq<nat>)

  predicate Answerable(r: Request) {
    forall i | 0 <= i < |r.channels| :: r.channels[i] < |r.slave.channels|
  }

  /** The registration of the i-th channel of a request, into the i-th cells of its entry. */
  function Registration(r: Request, e: Entry, i: nat): PdoReg
    requires Answerable(r) && i < |r.channels|
  {
    var channel := r.slave.channels[r.channels[i]];
    PdoReg(r.alias, r.position, r.slave.vendor, r.slave.product, channel.index, channel.subindex,
      ElementOf(e.offset, i), ElementOf(e.bitPosition, i))
  }

  function Registrations(r: Request, e: Entry): (row: seq<PdoReg>)
    requires Answerable(r)
    ensures |row| == |r.channels|
  {
    seq(|r.channels|, i requires 0 <= i < |r.channels| => Registration(r, e, i))
  }

  predicate Matching(requests: seq<Request>, entries: seq<Entry>) {
    && |requests| == |entries|
    && forall k | 0 <= k < |requests| :: Answerable(requests[k])
  }

  function Sizes(requests: seq<Request>): (counts: seq<nat>)
    ensures |counts| == |requests|
  {
    seq(|requests|, k requires 0 <= k < |requests| => |requests[k].channels|)
  }

  function Rows(requests: seq<Request>, entries: seq<Entry>): (m: seq<seq<PdoReg>>)
    requires Matching(requests, entries)
    ensures HasShape(m, Sizes(requests))
  {
    seq(|requests|, k requires 0 <= k < |requests| => Registrations(requests[k], entries[k]))
  }

  lemma RowsPush(requests: seq<Request>, entries: seq<Entry>, r: Request, e: Entry)
    requires Matching(requests, entries) && Answerable(r)
    ensures Matching(requests + [r], entries + [e])
    ensures Gather(Rows(requests + [r], entries + [e])) == Gather(Rows(requests, entries)) + Registrations(r, e)
  {
    assert Rows(requests + [r], entries + [e]) == Rows(requests, entries) + [Registrations(r, e)];
    GatherPush(Rows(requests, entries), Registrations(r, e));
  }

  predicate Resolves(p: Pointer) {
    p.ElementOf? && p.i < p.cells.Length
  }

  function Deref(p: Pointer): nat
    requires Resolves(p)
    reads p.cells
  {
    p.cells[p.i]
  }

  /** How many registrations stand before the first of index 0, which the library takes for the end. */
  function Listed(regs: seq<PdoReg>, p: nat): (n: nat)
    requires p < |regs| && regs[|regs| - 1] == EMPTY
    ensures p <= n < |regs| && regs[n].index == 0
    ensures forall q | p <= q < n :: regs[q].index != 0
    decreases |regs| - p
  {
    if regs[p].index == 0 then p else Listed(regs, p + 1)
  }

  class DomainInfo {
    var domainRegs: seq<PdoReg>
    var entries: seq<Entry>
    ghost var requests: seq<Request>   // all calls so far, in order

    /** Every entry has its own cells, and no two entries share any. */
    ghost predicate OwnCells()
      reads this
    {
      && (forall k | 0 <= k < |entries| ::
            && entries[k].offset != entries[k].bitPosition
            && entries[k].offset.Length == entries[k].bitPosition.Length == entries[k].numPdos)
      && (forall j, k | 0 <= j < k < |entries| ::
            && entries[j].offset != entries[k].offset && entries[j].offset != entries[k].bitPosition
            && entries[j].bitPosition != entries[k].offset && entries[j].bitPosition != entries[k].bitPosition)
    }

    /** domain_regs is every request's registrations in order, then one empty element. */
    ghost predicate Valid()
      reads this
    {
      && Matching(requests, entries) && OwnCells()
      && (forall k | 0 <= k < |entries| :: entries[k].numPdos == |requests[k].channels|)
      && domainRegs == Gather(Rows(requests, entries)) + [EMPTY]
    }

    ghost function Cells(): set<array<nat>>
      reads this
    {
      (set k | 0 <= k < |entries| :: entries[k].offset) + (set k | 0 <= k < |entries| :: entries[k].bitPosition)
    }

    /** The domain was created. */
    constructor ()
      ensures Valid() && requests == [] && entries == [] && domainRegs == [EMPTY]
    {
      domainRegs, entries, requests := [EMPTY], [], [];
    }

    /** The filling loop of registerPDOInDomain, over the freshly grown tail of the list. */
    method Fill(r: Request, entry: Entry, ghost before: seq<PdoReg>)
      requires Answerable(r)
      requires domainRegs == before + seq(|r.channels| + 1, _ => EMPTY)
      modifies this`domainRegs
      ensures domainRegs == before + Registrations(r, entry) + [EMPTY]
    {
      var start := |domainRegs| - 1 - |r.channels|;
      for i := 0 to |r.channels|
        invariant domainRegs == before + Registrations(r, entry)[..i] + seq(|r.channels| + 1 - i, _ => EMPTY)
      {
        var channel := r.slave.channels[r.channels[i]];
        domainRegs := domainRegs[start + i := PdoReg(r.alias, r.position, r.slave.vendor, r.slave.product,
          channel.index, channel.subindex, ElementOf(entry.offset, i), ElementOf(entry.bitPosition, i))];
        assert Registrations(r, entry)[..i + 1] == Registrations(r, entry)[..i] + [Registration(r, entry, i)];
      }
      domainRegs := domainRegs[|domainRegs| - 1 := EMPTY];
    }

    /** registerPDOInDomain. */
    method Register(r: Request)
      requires Valid() && Answerable(r)
      modifies this
      ensures Valid()
      ensures requests == old(requests) + [r]
      ensures |entries| == old(|entries|) + 1 && entries[..|entries| - 1] == old(entries)
      ensures fresh(Cells() - old(Cells()))
    {
      ghost var before := domainRegs[..|domainRegs| - 1];
      domainRegs := domainRegs + seq(|r.channels|, _ => EMPTY);
      var offset := new nat[|r.channels|];
      var bitPosition := new nat[|r.channels|];
      var entry := Entry(|r.channels|, offset, bitPosition);
      entries := entries + [entry];
      assert domainRegs == before + seq(|r.channels| + 1, _ => EMPTY);
      Fill(r, entry, before);
      requests := requests + [r];
      RowsPush(old(requests), old(entries), r, entry);
    }

    /** Where the registrations of request k start. */
    ghost function Base(k: nat): nat
      reads this
      requires k <= |requests|
    {
      Offset(Sizes(requests), k)
    }

    /** Every registration's pointers name cells of this domain's entries. */
    ghost predicate AllResolve()
      reads this
    {
      forall p | 0 <= p < |domainRegs| - 1 ::
        && Resolves(domainRegs[p].offset) && domainRegs[p].offset.cells in Cells()
        && Resolves(domainRegs[p].bitPosition) && domainRegs[p].bitPosition.cells in Cells()
    }

    /** Registration i of request k names its slave and its own channel's object, and points into its own
        entry's i-th cells. */
    lemma RegistrationAt(k: nat, i: nat)
      requires Valid() && k < |requests| && i < |requests[k].channels|
      ensures Base(k) + i < |domainRegs| - 1
      ensures var reg, r := domainRegs[Base(k) + i], requests[k];
              var channel := r.slave.channels[r.channels[i]];
              && reg.alias == r.alias && reg.position == r.position
              && reg.vendor == r.slave.vendor && reg.product == r.slave.product
              && reg.index == channel.index && reg.subindex == channel.subindex
      ensures domainRegs[Base(k) + i].offset == ElementOf(entries[k].offset, i)
      ensures domainRegs[Base(k) + i].bitPosition == ElementOf(entries[k].bitPosition, i)
    {
      var m := Rows(requests, entries);
      GatherLength(m, Sizes(requests));
      GatherPart(m, Sizes(requests), k);
      var b := Base(k);
      assert Gather(m)[b..b + |requests[k].channels|][i] == m[k][i];
    }

    /** The list holds exactly one empty element, at its end, and as many others as channels were asked
        for; every pointer in them resolves. */
    lemma OneTerminator()
      requires Valid()
      ensures |domainRegs| == Sum(Sizes(requests)) + 1 && domainRegs[|domainRegs| - 1] == EMPTY
      ensures AllResolve()
    {
      GatherLength(Rows(requests, entries), Sizes(requests));
      forall p | 0 <= p < |domainRegs| - 1
        ensures Resolves(domainRegs[p].offset) && Resolves(domainRegs[p].bitPosition)
                && domainRegs[p].offset.cells in Cells() && domainRegs[p].bitPosition.cells in Cells()
      {
        var k, i := CellsCover(Sizes(requests), p);
        RegistrationAt(k, i);
      }
    }

    /** No two registrations share a cell. */
    lemma NoSharedCells(p: nat, q: nat)
      requires Valid() && p < |domainRegs| - 1 && q < |domainRegs| - 1
      ensures p != q ==> domainRegs[p].offset != domainRegs[q].offset
      ensures p != q ==> domainRegs[p].bitPosition != domainRegs[q].bitPosition
      ensures domainRegs[p].offset != domainRegs[q].bitPosition
    {
      OneTerminator();
      var j, i := CellsCover(Sizes(requests), p);
      var k, m := CellsCover(Sizes(requests), q);
      RegistrationAt(j, i);
      RegistrationAt(k, m);
      if j < k { assert entries[j].offset != entries[k].offset; }
      if k < j { assert entries[k].offset != entries[j].offset; }
    }

    /** What the cells of registration q hold: an offset and a bit position. */
    ghost function PlaceOf(q: nat): (nat, nat)
      requires AllResolve() && q < |domainRegs| - 1
      reads this, Cells()
    {
      (Deref(domainRegs[q].offset), Deref(domainRegs[q].bitPosition))
    }

    ghost function Places(): (r: seq<(nat, nat)>)
      requires |domainRegs| > 0 && AllResolve()
      reads this, Cells()
      ensures |r| == |domainRegs| - 1 && forall q | 0 <= q < |r| :: r[q] == PlaceOf(q)
    {
      seq(|domainRegs| - 1, q requires 0 <= q < |domainRegs| - 1 && AllResolve() reads this, Cells() => PlaceOf(q))
    }

    /** Stores one place through the pointers of registration p; no other registration notices. */
    method StorePlace(p: nat, offset: nat, bit: nat)
      requires Valid() && AllResolve() && p < |domainRegs| - 1
      modifies Cells()
      ensures Places() == old(Places())[p := (offset, bit)]
    {
      forall q | 0 <= q < |domainRegs| - 1
        ensures q != p ==> domainRegs[p].offset != domainRegs[q].offset
        ensures q != p ==> domainRegs[p].bitPosition != domainRegs[q].bitPosition
        ensures domainRegs[p].offset != domainRegs[q].bitPosition
        ensures domainRegs[q].offset != domainRegs[p].bitPosition
      {
        NoSharedCells(p, q);
        NoSharedCells(q, p);
      }
      var reg := domainRegs[p];
      reg.offset.cells[reg.offset.i] := offset;
      reg.bitPosition.cells[reg.bitPosition.i] := bit;
    }

    /** The place that registration i of request k holds is what its own entry's i-th cells hold. */
    lemma PlacesReachEntries(k: nat, i: nat)
      requires Valid() && AllResolve()
      requires k < |requests| && i < |requests[k].channels|
      ensures Base(k) + i < |domainRegs| - 1
      ensures PlaceOf(Base(k) + i) == (entries[k].offset[i], entries[k].bitPosition[i])
    {
      RegistrationAt(k, i);
    }

    /** The whole list is taken exactly if no channel of it has index 0. */
    lemma AllListedIff()
      requires Valid()
      ensures Listed(domainRegs, 0) == |domainRegs| - 1
              <==> forall p | 0 <= p < |domainRegs| - 1 :: domainRegs[p].index != 0
    {
      var n := Listed(domainRegs, 0);
    }

    /** The first p registrations hold the chosen places, the others what they held before. */
    ghost predicate Filled(before: seq<(nat, nat)>, offsets: seq<nat>, bits: seq<nat>, p: nat)
      requires AllResolve() && |before| == |offsets| == |bits| == |domainRegs| - 1
      reads this, Cells()
    {
      forall q | 0 <= q < |before| :: Places()[q] == if q < p then (offsets[q], bits[q]) else before[q]
    }

    method StoreNext(ghost before: seq<(nat, nat)>, offsets: seq<nat>, bits: seq<nat>, p: nat)
      requires Valid() && AllResolve() && |before| == |offsets| == |bits| == |domainRegs| - 1 && p < |before|
      requires Filled(before, offsets, bits, p)
      modifies Cells()
      ensures Filled(before, offsets, bits, p + 1)
    {
      StorePlace(p, offsets[p], bits[p]);
    }

    /** Storing goes on from registration p. */
    method StoreFrom(ghost before: seq<(nat, nat)>, offsets: seq<nat>, bits: seq<nat>, p: nat)
      requires Valid() && AllResolve() && |before| == |offsets| == |bits| == |domainRegs| - 1 && p < |domainRegs|
      requires Filled(before, offsets, bits, p)
      modifies Cells()
      ensures Filled(before, offsets, bits, Listed(domainRegs, p))
      decreases |domainRegs| - p
    {
      if domainRegs[p].index != 0 {
        StoreNext(before, offsets, bits, p);
        StoreFrom(before, offsets, bits, p + 1);
      }
    }

    /** What ecrt_domain_reg_pdo_entry_list does with the list: up to the first zero index it stores the
        place it chose for each registration through the registration's pointers, and no other
        registration's cells change. */
    method StorePlaces(offsets: seq<nat>, bits: seq<nat>)
      requires Valid() && |offsets| == |bits| == |domainRegs| - 1
      modifies Cells()
      ensures AllResolve() && old(AllResolve()) && Filled(old(Places()), offsets, bits, Listed(domainRegs, 0))
    {
      OneTerminator();
      StoreFrom(Places(), offsets, bits, 0);
    }
  }

  /** Undefined: a domain could not be created, and the original computes an index before its list. */
  datatype Outcome = Added | NoSlaveConfig | PdoSetupFailed | Undefined

  class Master {
    var domains: map<nat, DomainInfo>
    var slaveCount: nat

    ghost predicate Valid()
      reads this, domains.Values
    {
      && (forall d | d in domains :: domains[d].Valid())
      && (forall d, e | d in domains && e in domains && d != e :: domains[d] != domains[e])
    }

    /** All requests a domain has seen. */
    ghost function RequestsOf(d: nat): seq<Request>
      reads this, domains.Values
    {
      if d in domains then domains[d].requests else []
    }

    constructor ()
      ensures Valid() && domains == map[]
    {
      domains, slaveCount := map[], 0;
    }

    /** Creates a domain if necessary. */
    method EnsureDomain(d: nat)
      requires Valid()
      modifies this`domains
      ensures Valid() && d in domains && fresh(domains.Values - old(domains.Values))
      ensures forall e :: RequestsOf(e) == old(RequestsOf(e))
    {
      if d !in domains {
        var info := new DomainInfo();
        domains := domains[d := info];
      }
    }

    /** addSlave's share for one domain. */
    method RegisterIn(d: nat, r: Request)
      requires Valid() && Answerable(r)
      modifies this`domains, domains.Values
      ensures Valid() && fresh(domains.Values - old(domains.Values))
      ensures forall e :: RequestsOf(e) == old(RequestsOf(e)) + if e == d then [r] else []
    {
      EnsureDomain(d);
      domains[d].Register(r);
    }

    /** What a domain gains once the requests outside todo are registered. */
    static ghost function Gained(asked: map<nat, Request>, todo: set<nat>, d: nat): seq<Request> {
      if d in asked && d !in todo then [asked[d]] else []
    }

    /** addSlave's loop over the slave's domain map, one request for each domain.  It stops at a domain whose
        creation fails: the list is empty there, so that the index of its last element, which the original
        computes next, does not exist. */
    method RegisterAll(asked: map<nat, Request>, failing: set<nat>) returns (ghost missed: set<nat>)
      requires Valid() && failing <= asked.Keys && forall d | d in asked :: Answerable(asked[d])
      modifies this`domains, domains.Values
      ensures Valid() && fresh(domains.Values - old(domains.Values))
      ensures failing <= missed <= asked.Keys && (missed == {} <==> failing == {})
      ensures forall d :: RequestsOf(d) == old(RequestsOf(d)) + Gained(asked, missed, d)
    {
      var todo := asked.Keys;
      while todo != {}
        invariant Valid() && failing <= todo <= asked.Keys
        invariant fresh(domains.Values - old(domains.Values))
        invariant forall d :: RequestsOf(d) == old(RequestsOf(d)) + Gained(asked, todo, d)
        decreases todo
      {
        var d :| d in todo;
        if d in failing {
          return todo;
        }
        RegisterIn(d, asked[d]);
        todo := todo - {d};
      }
      return {};
    }

    /** The domains that addSlave needs, does not have and can not create. */
    function Failing(needed: set<nat>, creatable: nat -> bool): set<nat>
      reads this
    {
      set d | d in needed && d !in domains && !creatable(d)
    }

    /** addSlave.  configured, pdosAccepted and creatable are the answers of the EtherCAT library; missed are
        the domains that were not reached. */
    method AddSlave(
      alias: nat, position: nat, slave: SlaveType, domainMap: map<nat, seq<nat>>,
      configured: bool, pdosAccepted: bool, creatable: nat -> bool)
      returns (outcome: Outcome, ghost missed: set<nat>)
      requires Valid()
      requires forall d | d in domainMap :: Answerable(Request(alias, position, slave, domainMap[d]))
      modifies this, domains.Values
      ensures Valid() && fresh(domains.Values - old(domains.Values))
      ensures outcome == if !configured then NoSlaveConfig
                         else if !pdosAccepted then PdoSetupFailed
                         else if old(Failing(domainMap.Keys, creatable)) == {} then Added
                         else Undefined
      ensures slaveCount == old(slaveCount) + if configured then 1 else 0
      ensures missed == {} <== outcome.Added?
      ensures missed == domainMap.Keys <== outcome.NoSlaveConfig? || outcome.PdoSetupFailed?
      ensures outcome.Undefined? ==> old(Failing(domainMap.Keys, creatable)) <= missed <= domainMap.Keys
      ensures forall d :: RequestsOf(d) ==
                old(RequestsOf(d))
                + if d in domainMap && d !in missed then [Request(alias, position, slave, domainMap[d])] else []
    {
      missed := domainMap.Keys;
      if !configured {
        return NoSlaveConfig, missed;
      }
      slaveCount := slaveCount + 1;
      if !pdosAccepted {
        return PdoSetupFailed, missed;
      }
      var failing := Failing(domainMap.Keys, creatable);
      missed := RegisterAll(map d | d in domainMap :: Request(alias, position, slave, domainMap[d]), failing);
      outcome := if failing == {} then Added else Undefined;
    }
  }
}
