/** The table of the router's own addresses, one per attached network. */
module RouterAddresses {
  import opened Options
  import opened RouterPrefix

  datatype Address = Address(id: nat, nw: Ip, mask: nat, gw: Ip)

  /** A key is the canonical text of a network: its address and its prefix length. */
  type Table = map<(Ip, nat), Address>

  const UINT32_MAX: nat := 0xffff_ffff

  /** The address begins with the network's prefix. */
  predicate Contains(a: Address, ip: Ip)
    requires a.mask <= 32
  {
    SamePrefix(ip, a.nw, a.mask)
  }

  /** A registered network is named by the router's own address in it. */
  lemma ContainsIff(a: Address, ip: Ip)
    requires a.mask <= 32 && a.nw == ApplyMask(a.gw, a.mask)
    ensures Contains(a, ip) <==> SamePrefix(ip, a.gw, a.mask)
    ensures Contains(a, ip) <==> ApplyMask(ip, a.mask) == a.nw
  {
    MaskingKeepsPrefix(a.gw, a.mask);
    MaskTestIff(ip, a.gw, a.mask);
  }

  predicate Sound(t: Table) {
    forall k :: k in t ==>
      t[k].mask <= 32 && k == (t[k].nw, t[k].mask) && t[k].nw == ApplyMask(t[k].gw, t[k].mask)
  }

  /** No two registered networks share an address. */
  ghost predicate Disjoint(t: Table)
    requires Sound(t)
  {
    forall j, k, ip: Ip :: j in t && k in t && Contains(t[j], ip) && Contains(t[k], ip) ==> j == k
  }

  ghost predicate Covers(t: Table, ip: Ip)
    requires Sound(t)
  {
    exists k :: k in t && Contains(t[k], ip)
  }

  datatype AddError = IllegalNetmask | Overlaps(id: nat)

  datatype AddResult = Added(address: Address) | Refused(error: AddError)

  /** Identifiers count up to the largest 32-bit number and start again at one. */
  function NextId(id: nat): (r: nat)
    requires 1 <= id <= UINT32_MAX
    ensures 1 <= r <= UINT32_MAX && (r == id + 1 || (id == UINT32_MAX && r == 1))
  {
    if (id + 1) % (UINT32_MAX + 1) == 0 then 1 else (id + 1) % (UINT32_MAX + 1)
  }

  /** Adding a network that meets none of the registered ones keeps them disjoint. */
  lemma AddingKeepsDisjoint(t: Table, a: Address)
    requires Sound(t) && Disjoint(t)
    requires a.mask <= 32 && a.nw == ApplyMask(a.gw, a.mask)
    requires forall k :: k in t ==> !OverlapTest(a.gw, a.mask, t[k].gw, t[k].mask)
    ensures (a.nw, a.mask) !in t
    ensures Sound(t[(a.nw, a.mask) := a]) && Disjoint(t[(a.nw, a.mask) := a])
  {
    forall k, ip: Ip | k in t && Contains(t[k], ip) ensures !Contains(a, ip) {
      OverlapTestIsIntersection(a.gw, a.mask, t[k].gw, t[k].mask);
      ContainsIff(a, ip);
      ContainsIff(t[k], ip);
    }
    MaskingKeepsPrefix(a.gw, a.mask);
    assert Contains(a, a.gw);
  }

  class AddressData {
    var table: Table
    var nextId: nat

    ghost predicate Valid()
      reads this
    {
      Sound(table) && Disjoint(table) && 1 <= nextId <= UINT32_MAX
    }

    constructor ()
      ensures Valid() && table == map[] && nextId == 1
    {
      table, nextId := map[], 1;
    }

    /** Registers a network exactly when its prefix length is legal and it shares no address
        with a registered one; otherwise nothing changes. */
    method Add(gw: Ip, mask: int) returns (r: AddResult)
      requires Valid()
      modifies this
      ensures Valid()
      ensures r == Refused(IllegalNetmask) <==> !(0 <= mask <= 32)
      ensures r.Added? <==> 0 <= mask <= 32
                            && forall k :: k in old(table) ==>
                                 !Intersect(gw, mask, old(table)[k].gw, old(table)[k].mask)
      ensures r.Added? ==>
                && r.address == Address(old(nextId), ApplyMask(gw, mask), mask, gw)
                && (r.address.nw, r.address.mask) !in old(table)
                && table == old(table)[(r.address.nw, r.address.mask) := r.address]
                && nextId == NextId(old(nextId))
      ensures r.Refused? ==> table == old(table) && nextId == old(nextId)
      ensures r.Refused? && r.error.Overlaps? ==>
                exists k :: k in table && table[k].id == r.error.id
                            && Intersect(gw, mask, table[k].gw, table[k].mask)
    {
      if mask < 0 || mask > 32 {
        return Refused(IllegalNetmask);
      }
      var nw := ApplyMask(gw, mask);
      var todo := table.Keys;
      while todo != {}
        invariant table == old(table) && nextId == old(nextId) && todo <= table.Keys
        invariant forall k :: k in table.Keys - todo ==> !OverlapTest(gw, mask, table[k].gw, table[k].mask)
      {
        var k :| k in todo;
        todo := todo - {k};
        var other := table[k];
        OverlapTestIsIntersection(gw, mask, other.gw, other.mask);
        if other.nw == ApplyMask(gw, other.mask) || nw == ApplyMask(other.gw, mask) {
          return Refused(Overlaps(other.id));
        }
      }
      forall k | k in table ensures !Intersect(gw, mask, table[k].gw, table[k].mask) {
        OverlapTestIsIntersection(gw, mask, table[k].gw, table[k].mask);
      }
      var address := Address(nextId, nw, mask, gw);
      AddingKeepsDisjoint(table, address);
      table := table[(nw, mask) := address];
      nextId := NextId(nextId);
      return Added(address);
    }

    /** Removes one address with the identifier, if there is any. */
    method Delete(id: nat)
      requires Valid()
      modifies this`table
      ensures Valid()
      ensures (forall k :: k in old(table) ==> old(table)[k].id != id) ==> table == old(table)
      ensures (exists k :: k in old(table) && old(table)[k].id == id) ==>
                exists k :: k in old(table) && old(table)[k].id == id && table == old(table) - {k}
    {
      var todo := table.Keys;
      while todo != {}
        invariant todo <= table.Keys && table == old(table)
        invariant forall k :: k in table.Keys - todo ==> table[k].id != id
      {
        var k :| k in todo;
        todo := todo - {k};
        if table[k].id == id {
          table := table - {k};
          return;
        }
      }
    }

    /** The one registered network that contains `ip`, if any. */
    method GetByIp(ip: Ip) returns (r: Option<Address>)
      requires Valid()
      ensures r.Some? <==> Covers(table, ip)
      ensures forall k :: k in table && Contains(table[k], ip) ==> r == Some(table[k])
    {
      var todo := table.Keys;
      while todo != {}
        invariant todo <= table.Keys
        invariant forall k :: k in table.Keys - todo ==> !Contains(table[k], ip)
      {
        var k :| k in todo;
        todo := todo - {k};
        ContainsIff(table[k], ip);
        if ApplyMask(ip, table[k].mask) == table[k].nw {
          return Some(table[k]);
        }
      }
      return None;
    }

    method GetById(id: nat) returns (r: Option<Address>)
      ensures r.Some? <==> exists k :: k in table && table[k].id == id
      ensures r.Some? ==> r.value.id == id && exists k :: k in table && table[k] == r.value
    {
      var todo := table.Keys;
      while todo != {}
        invariant todo <= table.Keys
        invariant forall k :: k in table.Keys - todo ==> table[k].id != id
      {
        var k :| k in todo;
        todo := todo - {k};
        if table[k].id == id {
          return Some(table[k]);
        }
      }
      return None;
    }
  }
}
