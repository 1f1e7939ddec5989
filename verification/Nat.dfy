/**
 The simulated elastic IPs, NAT gateways and SNAT entries. The `n`-th id drawn names a resource, and an
 elastic IP's address is that number too; a gateway's one SNAT table is named after the gateway.
 */
module Nat {
  import opened Wrappers

  /** An elastic IP and what it is associated with, if anything; `asNat` records the type it was given. */
  datatype Eip = Eip(address: nat, instanceId: Option<nat>, asNat: bool)

  datatype Gateway = Gateway(name: string)

  datatype Snat = Snat(table: nat, vSwitchId: string, address: nat)

  datatype Issued = Issued(sequence: nat, tokens: map<Option<string>, nat>)

  datatype State = State(issued: Issued, eips: map<nat, Eip>, nats: map<nat, Gateway>, snats: map<nat, Snat>)

  datatype Error =
    | AllocationNotFound
    | IncorrectEipStatus
    | NatGatewayNotFound
    | DependencyViolationSnat
    | DependencyViolationEip
    | InvalidSnatIp
    | SnatEntryNotFound

  type Reply = Result<Option<nat>, Error>

  const DONE: Reply := Ok(None)

  datatype EipRequest =
    | Allocate(token: Option<string>)
    | Associate(eip: nat, target: nat, asNat: bool)
    | Unassociate(eip: nat)
    | Release(eip: nat)

  datatype NatRequest =
    | CreateNat(token: Option<string>, name: string)
    | DeleteNat(gateway: nat)
    | CreateSnat(token: Option<string>, table: nat, vSwitchId: string, address: nat)
    | ModifySnat(entry: nat, newAddress: Option<nat>)
    | DeleteSnat(entry: nat)

  datatype Request = ForEip(eip: EipRequest) | ForNat(gateway: NatRequest)

  function Issue(i: Issued, token: Option<string>): Issued {
    Issued(i.sequence + 1, i.tokens[token := i.sequence + 1])
  }

  predicate AddressUsed(snats: map<nat, Snat>, address: nat) {
    exists e | e in snats :: snats[e].address == address
  }

  /** Some elastic IP is associated with `id`. */
  predicate Occupied(eips: map<nat, Eip>, id: nat) {
    exists e | e in eips :: eips[e].instanceId == Some(id)
  }

  /** The address belongs to an elastic IP associated with the gateway. */
  predicate Serves(eips: map<nat, Eip>, gateway: nat, address: nat) {
    exists e | e in eips :: eips[e].instanceId == Some(gateway) && eips[e].address == address
  }

  function HandleEip(s: State, r: EipRequest): (State, Reply) {
    match r
    case Allocate(token) =>
      if token in s.issued.tokens then (s, Ok(Some(s.issued.tokens[token])))
      else
        var id := s.issued.sequence + 1;
        (s.(issued := Issue(s.issued, token), eips := s.eips[id := Eip(id, None, false)]), Ok(Some(id)))
    case Associate(eip, target, asNat) =>
      if eip !in s.eips then (s, Err(AllocationNotFound))
      else if s.eips[eip].instanceId.Some? && s.eips[eip].instanceId != Some(target) then (s, Err(IncorrectEipStatus))
      else if asNat && target !in s.nats then (s, Err(NatGatewayNotFound))
      else (s.(eips := s.eips[eip := s.eips[eip].(instanceId := Some(target), asNat := asNat)]), DONE)
    case Unassociate(eip) =>
      if eip !in s.eips then (s, Err(AllocationNotFound))
      else if AddressUsed(s.snats, s.eips[eip].address) then (s, Err(DependencyViolationSnat))
      else (s.(eips := s.eips[eip := s.eips[eip].(instanceId := None, asNat := false)]), DONE)
    case Release(eip) =>
      if eip in s.eips && s.eips[eip].instanceId.Some? then (s, Err(IncorrectEipStatus))
      else (s.(eips := s.eips - {eip}), DONE)
  }

  function HandleNat(s: State, r: NatRequest): (State, Reply) {
    match r
    case CreateNat(token, name) =>
      if token in s.issued.tokens then (s, Ok(Some(s.issued.tokens[token])))
      else
        var id := s.issued.sequence + 1;
        (s.(issued := Issue(s.issued, token), nats := s.nats[id := Gateway(name)]), Ok(Some(id)))
    case DeleteNat(id) =>
      if Occupied(s.eips, id) then (s, Err(DependencyViolationEip)) else (s.(nats := s.nats - {id}), DONE)
    case CreateSnat(token, table, vSwitchId, address) =>
      if table !in s.nats || !Serves(s.eips, table, address) then (s, Err(InvalidSnatIp))
      else if token in s.issued.tokens then (s, Ok(Some(s.issued.tokens[token])))
      else
        var id := s.issued.sequence + 1;
        (s.(issued := Issue(s.issued, token), snats := s.snats[id := Snat(table, vSwitchId, address)]), Ok(Some(id)))
    case ModifySnat(entry, address) =>
      if entry !in s.snats then (s, Err(SnatEntryNotFound))
      else
        var v := s.snats[entry];
        (s.(snats := s.snats[entry := v.(address := if address.Some? then address.value else v.address)]), DONE)
    case DeleteSnat(entry) => (s.(snats := s.snats - {entry}), DONE)
  }

  function Handle(s: State, r: Request): (State, Reply) {
    match r
    case ForEip(e) => HandleEip(s, e)
    case ForNat(n) => HandleNat(s, n)
  }

  function HandleAll(s: State, requests: seq<Request>): State
    decreases |requests|
  {
    if requests == [] then s else HandleAll(Handle(s, requests[0]).0, requests[1..])
  }

  const EMPTY := State(Issued(0, map[]), map[], map[], map[])

  // ---- What every request keeps ----

  /** Addresses are the numbers elastic IPs were issued under, so no two share one. */
  ghost predicate AddressesOk(s: State) {
    && (forall e | e in s.eips :: s.eips[e].address == e && e <= s.issued.sequence)
    && (forall n | n in s.nats :: n <= s.issued.sequence)
    && (forall e | e in s.snats :: e <= s.issued.sequence)
  }

  /** The entry's table belongs to a gateway that exists, and its address to an elastic IP associated with it. */
  ghost predicate EntryOk(s: State, e: Snat) {
    e.table in s.nats && Serves(s.eips, e.table, e.address)
  }

  ghost predicate Valid(s: State) {
    AddressesOk(s) && forall e | e in s.snats :: EntryOk(s, s.snats[e])
  }

  /** A change of address that stays on the entry's own gateway; every other request is proper. */
  ghost predicate Proper(s: State, r: Request) {
    r.ForNat? && r.gateway.ModifySnat? && r.gateway.newAddress.Some? && r.gateway.entry in s.snats ==>
      Serves(s.eips, s.snats[r.gateway.entry].table, r.gateway.newAddress.value)
  }

  lemma EipKeepsServing(s: State, r: EipRequest, gateway: nat, address: nat)
    requires AddressesOk(s) && Serves(s.eips, gateway, address) && AddressUsed(s.snats, address)
    ensures Serves(HandleEip(s, r).0.eips, gateway, address)
  {
    var t := HandleEip(s, r).0;
    var e :| e in s.eips && s.eips[e].instanceId == Some(gateway) && s.eips[e].address == address;
    assert e in t.eips && t.eips[e].instanceId == Some(gateway) && t.eips[e].address == address;
  }

  lemma EipKeepsValid(s: State, r: EipRequest)
    requires Valid(s)
    ensures Valid(HandleEip(s, r).0)
  {
    var t := HandleEip(s, r).0;
    forall e | e in t.snats
      ensures EntryOk(t, t.snats[e])
    {
      assert EntryOk(s, s.snats[e]);
      EipKeepsServing(s, r, s.snats[e].table, s.snats[e].address);
    }
  }

  /** A gateway request keeps every entry right exactly when it is proper. */
  lemma NatKeepsValidIff(s: State, r: NatRequest)
    requires Valid(s)
    ensures Valid(HandleNat(s, r).0) <==> Proper(s, ForNat(r))
  {
    var t := HandleNat(s, r).0;
    if Proper(s, ForNat(r)) {
      forall e | e in t.snats
        ensures EntryOk(t, t.snats[e])
      {
        if e in s.snats {
          assert EntryOk(s, s.snats[e]);
        }
      }
    } else {
      assert !EntryOk(t, t.snats[r.entry]);
    }
  }

  ghost predicate AllProper(s: State, requests: seq<Request>)
    decreases |requests|
  {
    requests == [] || (Proper(s, requests[0]) && AllProper(Handle(s, requests[0]).0, requests[1..]))
  }

  /** Over every run of proper requests each entry keeps its gateway and its address. */
  lemma {:induction false} EveryRunStaysValid(s: State, requests: seq<Request>)
    requires Valid(s) && AllProper(s, requests)
    ensures Valid(HandleAll(s, requests))
    decreases |requests|
  {
    if requests != [] {
      match requests[0] {
        case ForEip(e) => EipKeepsValid(s, e);
        case ForNat(n) => NatKeepsValidIff(s, n);
      }
      EveryRunStaysValid(Handle(s, requests[0]).0, requests[1..]);
    }
  }

  /** No gateway is deleted, and no elastic IP unassociated or released, while an entry needs it. */
  lemma NeededResourcesAreKept(s: State, entry: nat)
    requires Valid(s) && entry in s.snats
    ensures HandleNat(s, DeleteNat(s.snats[entry].table)) == (s, Err(DependencyViolationEip))
    ensures s.snats[entry].address in s.eips
    ensures HandleEip(s, Unassociate(s.snats[entry].address)) == (s, Err(DependencyViolationSnat))
    ensures HandleEip(s, Release(s.snats[entry].address)) == (s, Err(IncorrectEipStatus))
  {
    assert EntryOk(s, s.snats[entry]);
  }

  /**
   One improper change of address strips an entry's gateway of its protection: where nothing else holds
   the elastic IP or the gateway, both can then be given up while the entry still names the gateway.
   */
  lemma ImproperModifyLosesTheGateway(s: State, entry: nat, other: nat)
    requires Valid(s) && entry in s.snats && other != s.snats[entry].address
    requires forall e | e in s.snats && e != entry :: s.snats[e].address != s.snats[entry].address
    requires forall e | e in s.eips && s.eips[e].instanceId == Some(s.snats[entry].table) :: e == s.snats[entry].address
    ensures var modified := HandleNat(s, ModifySnat(entry, Some(other))).0;
            var (freed, unassociated) := HandleEip(modified, Unassociate(s.snats[entry].address));
            var (gone, deleted) := HandleNat(freed, DeleteNat(s.snats[entry].table));
            && unassociated == DONE && deleted == DONE
            && entry in gone.snats && gone.snats[entry].table !in gone.nats
  {
    assert EntryOk(s, s.snats[entry]);
    var address := s.snats[entry].address;
    var modified := HandleNat(s, ModifySnat(entry, Some(other))).0;
    assert !AddressUsed(modified.snats, address);
    var freed := HandleEip(modified, Unassociate(address)).0;
    assert freed.eips == s.eips[address := s.eips[address].(instanceId := None, asNat := false)];
    assert !Occupied(freed.eips, s.snats[entry].table);
  }

  // ---- What each request brings about ----

  lemma RefusedChangesNothing(s: State, r: Request)
    ensures Handle(s, r).1.Err? ==> Handle(s, r).0 == s
  {
  }

  /** An elastic IP goes exactly when it is associated with nothing, and nothing else does. */
  lemma EipGoesIff(s: State, eip: nat)
    requires eip in s.eips
    ensures var (t, reply) := HandleEip(s, Release(eip));
            && (eip !in t.eips <==> s.eips[eip].instanceId.None?) && (reply.Ok? <==> eip !in t.eips)
            && t == s.(eips := t.eips) && t.eips - {eip} == s.eips - {eip}
  {
  }

  /**
   A free elastic IP is associated with anything, or as a NAT one with a gateway there is; while no entry uses its
   address, unassociating it undoes that.
   */
  lemma UnassociateUndoesAssociate(s: State, eip: nat, target: nat, asNat: bool)
    requires eip in s.eips && s.eips[eip] == Eip(s.eips[eip].address, None, false)
    ensures var (t, reply) := HandleEip(s, Associate(eip, target, asNat));
            && (reply.Ok? <==> asNat ==> target in s.nats)
            && (reply.Ok? ==>
                  && Serves(t.eips, target, s.eips[eip].address)
                  && HandleEip(t, Release(eip)) == (t, Err(IncorrectEipStatus))
                  && (!AddressUsed(s.snats, s.eips[eip].address) ==> HandleEip(t, Unassociate(eip)) == (s, DONE)))
  {
    var (t, reply) := HandleEip(s, Associate(eip, target, asNat));
    if reply.Ok? {
      assert t.eips[eip].instanceId == Some(target) && t.eips[eip].address == s.eips[eip].address;
      assert t.eips[eip := s.eips[eip]] == s.eips;
    }
  }

  /** A gateway goes exactly when no elastic IP is associated with it. */
  lemma GatewayGoesIff(s: State, gateway: nat)
    requires gateway in s.nats
    ensures var (t, reply) := HandleNat(s, DeleteNat(gateway));
            && (gateway !in t.nats <==> forall e | e in s.eips :: s.eips[e].instanceId != Some(gateway))
            && (reply.Ok? <==> gateway !in t.nats)
            && t == s.(nats := t.nats) && t.nats - {gateway} == s.nats - {gateway}
  {
  }

  /** An entry is made exactly for a gateway with the address, once under one token, and goes when it is deleted. */
  lemma EntryRequests(s: State, token: Option<string>, table: nat, vSwitchId: string, address: nat)
    requires Valid(s) && token !in s.issued.tokens
    ensures var entry := s.issued.sequence + 1;
            var (t, reply) := HandleNat(s, CreateSnat(token, table, vSwitchId, address));
            && (reply.Ok? <==> table in s.nats && Serves(s.eips, table, address))
            && (reply.Ok? ==>
                  && reply == Ok(Some(entry)) && t.snats == s.snats[entry := Snat(table, vSwitchId, address)]
                  && HandleNat(t, CreateSnat(token, table, vSwitchId, address)) == (t, reply)
                  && HandleNat(t, DeleteSnat(entry)) == (t.(snats := s.snats), DONE))
  {
    var entry := s.issued.sequence + 1;
    var (t, reply) := HandleNat(s, CreateSnat(token, table, vSwitchId, address));
    assert entry !in s.snats;
    if reply.Ok? {
      assert t.snats - {entry} == s.snats;
    }
  }

  /** Elastic IPs and gateways are made once under one token, under a new id. */
  lemma CreatesReplay(s: State, token: Option<string>, name: string)
    requires token !in s.issued.tokens
    ensures var (t, reply) := HandleEip(s, Allocate(token));
            && reply == Ok(Some(s.issued.sequence + 1))
            && t.eips == s.eips[s.issued.sequence + 1 := Eip(s.issued.sequence + 1, None, false)]
            && HandleEip(t, Allocate(token)) == (t, reply)
    ensures var (t, reply) := HandleNat(s, CreateNat(token, name));
            && reply == Ok(Some(s.issued.sequence + 1)) && t.nats == s.nats[s.issued.sequence + 1 := Gateway(name)]
            && HandleNat(t, CreateNat(token, name)) == (t, reply)
  {
  }

  // ---- The machine itself ----

  /** The simulator's maps, changed in place by each request. */
  class VpcConnectivity {
    var eips: map<nat, Eip>
    var nats: map<nat, Gateway>
    var snats: map<nat, Snat>
    var tokens: map<Option<string>, nat>
    var sequence: nat

    ghost function Contents(): State
      reads this
    {
      State(Issued(sequence, tokens), eips, nats, snats)
    }

    constructor ()
      ensures Contents() == EMPTY && Valid(Contents())
    {
      eips, nats, snats, tokens, sequence := map[], map[], map[], map[], 0;
    }

    method NextId(token: Option<string>) returns (id: nat)
      modifies this`sequence, this`tokens
      ensures id == sequence == old(sequence) + 1 && tokens == old(tokens)[token := id]
    {
      sequence := sequence + 1;
      id := sequence;
      tokens := tokens[token := id];
    }

    method DispatchEip(r: EipRequest) returns (reply: Reply)
      modifies this
      ensures (Contents(), reply) == HandleEip(old(Contents()), r)
      ensures old(Valid(Contents())) ==> Valid(Contents())
    {
      if Valid(Contents()) {
        EipKeepsValid(Contents(), r);
      }
      match r {
        case Allocate(token) =>
          if token in tokens {
            return Ok(Some(tokens[token]));
          }
          var id := NextId(token);
          eips := eips[id := Eip(id, None, false)];
          return Ok(Some(id));
        case Associate(eip, target, asNat) =>
          if eip !in eips {
            return Err(AllocationNotFound);
          }
          var v := eips[eip];
          if v.instanceId.Some? && v.instanceId.value != target {
            return Err(IncorrectEipStatus);
          }
          if asNat && target !in nats {
            return Err(NatGatewayNotFound);
          }
          eips := eips[eip := v.(instanceId := Some(target), asNat := asNat)];
        case Unassociate(eip) =>
          if eip !in eips {
            return Err(AllocationNotFound);
          }
          if AddressUsed(snats, eips[eip].address) {
            return Err(DependencyViolationSnat);
          }
          eips := eips[eip := eips[eip].(instanceId := None, asNat := false)];
        case Release(eip) =>
          if eip in eips && eips[eip].instanceId.Some? {
            return Err(IncorrectEipStatus);
          }
          eips := eips - {eip};
      }
      reply := DONE;
    }

    /** An improper change of address is carried out too, and only then is a valid state left. */
    method DispatchNat(r: NatRequest) returns (reply: Reply)
      modifies this
      ensures (Contents(), reply) == HandleNat(old(Contents()), r)
      ensures old(Valid(Contents())) ==> (Valid(Contents()) <==> Proper(old(Contents()), ForNat(r)))
    {
      if Valid(Contents()) {
        NatKeepsValidIff(Contents(), r);
      }
      match r {
        case CreateNat(token, name) =>
          if token in tokens {
            return Ok(Some(tokens[token]));
          }
          var id := NextId(token);
          nats := nats[id := Gateway(name)];
          return Ok(Some(id));
        case DeleteNat(id) =>
          if Occupied(eips, id) {
            return Err(DependencyViolationEip);
          }
          nats := nats - {id};
        case CreateSnat(token, table, vSwitchId, address) =>
          if table !in nats || !Serves(eips, table, address) {
            return Err(InvalidSnatIp);
          }
          if token in tokens {
            return Ok(Some(tokens[token]));
          }
          var id := NextId(token);
          snats := snats[id := Snat(table, vSwitchId, address)];
          return Ok(Some(id));
        case ModifySnat(entry, newAddress) =>
          if entry !in snats {
            return Err(SnatEntryNotFound);
          }
          var v := snats[entry];
          if newAddress.Some? {
            v := v.(address := newAddress.value);
          }
          snats := snats[entry := v];
        case DeleteSnat(entry) =>
          snats := snats - {entry};
      }
      reply := DONE;
    }

    method ServeOne(r: Request)
      modifies this
      ensures Contents() == Handle(old(Contents()), r).0
    {
      match r {
        case ForEip(e) => var _ := DispatchEip(e);
        case ForNat(n) => var _ := DispatchNat(n);
      }
    }

    /** Any run of requests on the object is the run the lemmas are about, and a proper one keeps it valid. */
    method Serve(requests: seq<Request>)
      modifies this
      ensures Contents() == HandleAll(old(Contents()), requests)
      ensures old(Valid(Contents()) && AllProper(Contents(), requests)) ==> Valid(Contents())
    {
      if Valid(Contents()) && AllProper(Contents(), requests) {
        EveryRunStaysValid(Contents(), requests);
      }
      for i := 0 to |requests|
        invariant HandleAll(Contents(), requests[i..]) == HandleAll(old(Contents()), requests)
      {
        assert requests[i..][1..] == requests[i + 1..];
        ServeOne(requests[i]);
      }
    }
  }
}
