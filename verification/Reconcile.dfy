/** Merging discovered services into a policy, and what the merged policy then resolves to. */
module Reconcile {
  import opened Bytes
  import opened Wrappers
  import opened Net
  import opened Sequences
  import opened Policy

  datatype DiscoveredService = DiscoveredService(addr: IpAddr, proto: L4Proto, port: u16, target: Target)

  const DISCOVERED_TENANT := "discovered"

  function RuleOf(d: DiscoveredService): AllowRule {
    AllowRule(d.proto, d.port, d.target, Some(d.addr))
  }

  // ---- The code ------------------------------------------------------------------------

  predicate RuleCovers(allows: seq<AllowRule>, d: DiscoveredService) {
    exists j :: 0 <= j < |allows| && allows[j].proto == d.proto && allows[j].port == d.port && Applies(allows[j], d.addr)
  }

  predicate ServiceExists(ts: seq<Tenant>, d: DiscoveredService) {
    exists i :: 0 <= i < |ts| && d.addr in ts[i].owned && RuleCovers(ts[i].allows, d)
  }

  /** The first tenant that owns the address. */
  function OwningTenant(ts: seq<Tenant>, a: IpAddr): (r: Option<nat>)
    ensures r.Some? ==> r.value < |ts| && a in ts[r.value].owned
    ensures r.Some? ==> forall i :: 0 <= i < r.value ==> a !in ts[i].owned
    ensures r.None? ==> !OwnedBy(ts, a)
  {
    if ts == [] then None
    else
      var before := OwningTenant(ts[..|ts| - 1], a);
      if before.Some? then before else if a in ts[|ts| - 1].owned then Some(|ts| - 1) else None
  }

  /** The first tenant of a name. */
  function Named(ts: seq<Tenant>, name: string): (r: Option<nat>)
    ensures r.Some? ==> r.value < |ts| && ts[r.value].name == name
    ensures r.Some? ==> forall i :: 0 <= i < r.value ==> ts[i].name != name
    ensures r.None? ==> forall i :: 0 <= i < |ts| ==> ts[i].name != name
  {
    if ts == [] then None
    else
      var before := Named(ts[..|ts| - 1], name);
      if before.Some? then before else if ts[|ts| - 1].name == name then Some(|ts| - 1) else None
  }

  function AttachToSynthetic(ts: seq<Tenant>, a: IpAddr, rule: AllowRule): seq<Tenant> {
    match Named(ts, DISCOVERED_TENANT)
    case Some(i) =>
      var t := ts[i];
      ts[i := t.(owned := if a in t.owned then t.owned else t.owned + [a], allows := t.allows + [rule])]
    case None => ts + [Tenant(DISCOVERED_TENANT, [a], [rule])]
  }

  /** One discovered service. */
  function Merge(p: Policy, d: DiscoveredService): Policy {
    if !Inside(p.prefixes, d.addr) || ServiceExists(p.tenants, d) then p
    else
      match OwningTenant(p.tenants, d.addr)
      case Some(i) =>
        var t := p.tenants[i];
        p.(tenants := p.tenants[i := t.(allows := t.allows + [RuleOf(d)])])
      case None => p.(tenants := AttachToSynthetic(p.tenants, d.addr, RuleOf(d)))
  }

  function MergeAll(base: Policy, ds: seq<DiscoveredService>): Policy {
    if ds == [] then base else Merge(MergeAll(base, ds[..|ds| - 1]), ds[|ds| - 1])
  }

  method Reconcile(base: Policy, discovered: seq<DiscoveredService>) returns (effective: Policy)
    ensures effective == MergeAll(base, discovered)
  {
    effective := base;
    for i := 0 to |discovered|
      invariant effective == MergeAll(base, discovered[..i])
    {
      assert discovered[..i + 1][..i] == discovered[..i];
      var d := discovered[i];
      if !Inside(effective.prefixes, d.addr) {
        continue;
      }
      if ServiceExists(effective.tenants, d) {
        continue;
      }
      var rule := RuleOf(d);
      match OwningTenant(effective.tenants, d.addr) {
        case Some(idx) =>
          var t := effective.tenants[idx];
          effective := effective.(tenants := effective.tenants[idx := t.(allows := t.allows + [rule])]);
        case None =>
          effective := effective.(tenants := AttachToSynthetic(effective.tenants, d.addr, rule));
      }
    }
    assert discovered[..|discovered|] == discovered;
  }

  // ---- A policy address by address ------------------------------------------------------

  /** The services on one address, in order. */
  function At(ss: seq<ResolvedService>, a: IpAddr): seq<ResolvedService> {
    if ss == [] then []
    else
      var s := ss[|ss| - 1];
      At(ss[..|ss| - 1], a) + if s.addr == a then [s] else []
  }

  lemma {:induction false} AtConcat(x: seq<ResolvedService>, y: seq<ResolvedService>, a: IpAddr)
    ensures At(x + y, a) == At(x, a) + At(y, a)
  {
    if y == [] {
      assert x + y == x;
    } else {
      AtConcat(x, y[..|y| - 1], a);
      assert (x + y)[..|x + y| - 1] == x + y[..|y| - 1];
    }
  }

  lemma {:induction false} AtMembers(ss: seq<ResolvedService>, a: IpAddr)
    ensures forall s :: s in At(ss, a) <==> s in ss && s.addr == a
  {
    if ss == [] {
    } else {
      AtMembers(ss[..|ss| - 1], a);
      assert ss == ss[..|ss| - 1] + [ss[|ss| - 1]];
    }
  }

  lemma KeysApartStep(ss: seq<ResolvedService>, s: ResolvedService)
    ensures KeysApart(ss + [s]) <==> KeysApart(ss) && forall x :: x in ss ==> !SameKey(x, s)
  {
    var all := ss + [s];
    if KeysApart(all) {
      forall i, j | 0 <= i < j < |ss|
        ensures !SameKey(ss[i], ss[j])
      {
        assert !SameKey(all[i], all[j]);
      }
      forall x | x in ss
        ensures !SameKey(x, s)
      {
        var i :| 0 <= i < |ss| && ss[i] == x;
        assert !SameKey(all[i], all[|ss|]);
      }
    }
  }

  /** Keys clash within one address or not at all. */
  lemma {:induction false} KeysApartByAddress(ss: seq<ResolvedService>)
    ensures KeysApart(ss) <==> forall a :: KeysApart(At(ss, a))
  {
    hide KeysApart;
    if ss == [] {
      NothingClashes();
      assert forall a :: At(ss, a) == [];
    } else {
      var before, s := ss[..|ss| - 1], ss[|ss| - 1];
      KeysApartByAddress(before);
      KeysApartStep(before, s);
      assert before + [s] == ss;
      AtMembers(before, s.addr);
      KeysApartStep(At(before, s.addr), s);
      assert (forall x :: x in before ==> !SameKey(x, s)) <==> (forall x :: x in At(before, s.addr) ==> !SameKey(x, s));
      forall a: IpAddr
        ensures At(ss, a) == if a == s.addr then At(before, a) + [s] else At(before, a)
      {
        assert At(before, a) + [] == At(before, a);
      }
      if KeysApart(ss) {
        forall a: IpAddr
          ensures KeysApart(At(ss, a))
        {
          assert KeysApart(At(before, a));
        }
      } else if KeysApart(before) {
        assert !KeysApart(At(ss, s.addr));
      } else {
        var a :| !KeysApart(At(before, a));
        KeysApartStep(At(before, a), s);
        assert !KeysApart(At(ss, a));
      }
    }
  }

  lemma NothingClashes()
    ensures KeysApart([])
  {
  }

  lemma {:induction false} AtExpand(allows: seq<AllowRule>, x: IpAddr, name: string, a: IpAddr)
    ensures At(Expand(allows, x, name), a) == if x == a then Expand(allows, x, name) else []
  {
    if allows == [] {
    } else {
      var before := Expand(allows[..|allows| - 1], x, name);
      AtExpand(allows[..|allows| - 1], x, name, a);
      var r := allows[|allows| - 1];
      if Applies(r, x) {
        var s := ServiceOf(r, x, name);
        AtConcat(before, [s], a);
        assert [s][..0] == [];
      } else {
        assert before + [] == before;
      }
    }
  }

  lemma AtNothing(a: IpAddr)
    ensures At([], a) == []
  {
  }

  lemma LastIsApart(owned: seq<IpAddr>)
    requires owned != [] && Distinct(owned)
    ensures var before, x := owned[..|owned| - 1], owned[|owned| - 1];
            Distinct(before) && x !in before && forall a :: a in owned <==> a in before || a == x
  {
    assert owned == owned[..|owned| - 1] + [owned[|owned| - 1]];
  }

  lemma {:induction false} AtOver(owned: seq<IpAddr>, allows: seq<AllowRule>, name: string, a: IpAddr)
    requires Distinct(owned)
    ensures At(OverAddresses(owned, allows, name), a) == if a in owned then Expand(allows, a, name) else []
  {
    hide Expand, At;
    if owned == [] {
      AtNothing(a);
    } else {
      var before, x := owned[..|owned| - 1], owned[|owned| - 1];
      AtOver(before, allows, name, a);
      var some := OverAddresses(before, allows, name);
      assert OverAddresses(owned, allows, name) == some + Expand(allows, x, name);
      hide OverAddresses;
      AtConcat(some, Expand(allows, x, name), a);
      AtExpand(allows, x, name, a);
      LastIsApart(owned);
      assert At(some, a) + [] == At(some, a) && [] + Expand(allows, x, name) == Expand(allows, x, name);
    }
  }

  /** On an address that tenant `k` owns, its rules and nobody else's; on an unowned address nothing. */
  lemma {:induction false} AtOwner(ts: seq<Tenant>, a: IpAddr)
    requires OwnersApart(ts)
    ensures !OwnedBy(ts, a) ==> At(Services(ts), a) == []
    ensures forall k :: 0 <= k < |ts| && a in ts[k].owned ==>
                          At(Services(ts), a) == Expand(ts[k].allows, a, ts[k].name)
  {
    hide Expand, Distinct;
    if ts == [] {
    } else {
      var before, t := ts[..|ts| - 1], ts[|ts| - 1];
      OwnersApartStep(ts);
      AtOwner(before, a);
      AtConcat(Services(before), OverAddresses(t.owned, t.allows, t.name), a);
      AtOver(t.owned, t.allows, t.name, a);
      if a in t.owned {
        assert !OwnedBy(before, a);
        assert forall k :: 0 <= k < |before| ==> before[k] == ts[k];
        assert [] + Expand(t.allows, a, t.name) == Expand(t.allows, a, t.name);
      } else {
        assert OwnedBy(before, a) <==> OwnedBy(ts, a) by {
          assert forall k :: 0 <= k < |before| ==> before[k] == ts[k];
        }
        assert At(Services(before), a) + [] == At(Services(before), a);
        forall k | 0 <= k < |ts| && a in ts[k].owned
          ensures At(Services(ts), a) == Expand(ts[k].allows, a, ts[k].name)
        {
          assert before[k] == ts[k];
        }
      }
    }
  }

  // ---- One merge, seen from every address ---------------------------------------------------

  /** The name under which an address is, or would be, served. */
  function NameAt(ts: seq<Tenant>, a: IpAddr): string {
    match OwningTenant(ts, a)
    case Some(i) => ts[i].name
    case None => "discovered"
  }

  /** What the rules of a configured tenant called `discovered` would open on an address it came to own. */
  function Dormant(ts: seq<Tenant>, a: IpAddr): seq<ResolvedService> {
    match Named(ts, "discovered")
    case Some(i) => Expand(ts[i].allows, a, "discovered")
    case None => []
  }

  function NewService(d: DiscoveredService, tenant: string): ResolvedService {
    ResolvedService(d.addr, d.proto, d.port, d.target, tenant)
  }

  /** The effect of one merge on the services of one address. */
  function StepAt(p: Policy, d: DiscoveredService, a: IpAddr): seq<ResolvedService> {
    var cur := At(Services(p.tenants), a);
    if a != d.addr || !Inside(p.prefixes, a) then cur
    else if !OwnedBy(p.tenants, a) then Dormant(p.tenants, a) + [NewService(d, DISCOVERED_TENANT)]
    else if Serves(cur, a, d.proto, d.port) then cur
    else cur + [NewService(d, NameAt(p.tenants, a))]
  }

  lemma {:induction false} ExpandMore(allows: seq<AllowRule>, r: AllowRule, a: IpAddr, name: string)
    ensures Expand(allows + [r], a, name) ==
            Expand(allows, a, name) + if Applies(r, a) then [ServiceOf(r, a, name)] else []
  {
    assert (allows + [r])[..|allows|] == allows;
  }

  lemma {:induction false} ExpandServes(allows: seq<AllowRule>, d: DiscoveredService, name: string)
    ensures Serves(Expand(allows, d.addr, name), d.addr, d.proto, d.port) <==> RuleCovers(allows, d)
  {
    if allows == [] {
    } else {
      var before, r := allows[..|allows| - 1], allows[|allows| - 1];
      ExpandServes(before, d, name);
      var ss, ss' := Expand(before, d.addr, name), Expand(allows, d.addr, name);
      if Serves(ss', d.addr, d.proto, d.port) {
        var i :| 0 <= i < |ss'| && ss'[i].addr == d.addr && ss'[i].proto == d.proto && ss'[i].port == d.port;
        if i < |ss| {
          assert ss[i] == ss'[i];
          var j :| 0 <= j < |before| && before[j].proto == d.proto && before[j].port == d.port && Applies(before[j], d.addr);
          assert allows[j] == before[j];
        }
      }
      if RuleCovers(allows, d) {
        var j :| 0 <= j < |allows| && allows[j].proto == d.proto && allows[j].port == d.port && Applies(allows[j], d.addr);
        if j < |before| {
          assert before[j] == allows[j];
          var i :| 0 <= i < |ss| && ss[i].addr == d.addr && ss[i].proto == d.proto && ss[i].port == d.port;
          assert ss'[i] == ss[i];
        } else {
          assert ss'[|ss|] == ServiceOf(r, d.addr, name);
        }
      }
    }
  }

  /** The code's test for an existing service is the resolved one. */
  lemma ExistsIsServed(ts: seq<Tenant>, d: DiscoveredService)
    requires OwnersApart(ts)
    ensures ServiceExists(ts, d) <==> Serves(At(Services(ts), d.addr), d.addr, d.proto, d.port)
  {
    hide Expand, RuleCovers, Services, Serves;
    AtOwner(ts, d.addr);
    forall k | 0 <= k < |ts|
      ensures Serves(Expand(ts[k].allows, d.addr, ts[k].name), d.addr, d.proto, d.port) <==> RuleCovers(ts[k].allows, d)
    {
      ExpandServes(ts[k].allows, d, ts[k].name);
    }
    if OwnedBy(ts, d.addr) {
      var k :| 0 <= k < |ts| && d.addr in ts[k].owned;
      assert At(Services(ts), d.addr) == Expand(ts[k].allows, d.addr, ts[k].name);
    } else {
      NothingServed(d);
    }
  }

  lemma NothingServed(d: DiscoveredService)
    ensures !Serves([], d.addr, d.proto, d.port)
  {
  }

  lemma ReplaceKeepsApart(ts: seq<Tenant>, i: nat, t: Tenant, x: IpAddr)
    requires OwnersApart(ts) && i < |ts|
    requires t.owned == ts[i].owned || (t.owned == ts[i].owned + [x] && !OwnedBy(ts, x))
    ensures OwnersApart(ts[i := t])
    ensures forall a :: OwnedBy(ts[i := t], a) <==> OwnedBy(ts, a) || a in t.owned
  {
    var ts' := ts[i := t];
    forall k, j, a | 0 <= k < j < |ts'| && a in ts'[k].owned
      ensures a !in ts'[j].owned
    {
      if a == x && !OwnedBy(ts, x) {
        assert forall m :: 0 <= m < |ts| ==> a !in ts[m].owned;
      } else {
        assert a in ts[k].owned;
      }
    }
    forall a
      ensures OwnedBy(ts', a) <==> OwnedBy(ts, a) || a in t.owned
    {
      if OwnedBy(ts, a) {
        var k :| 0 <= k < |ts| && a in ts[k].owned;
        assert a in ts'[k].owned;
      }
      if a in t.owned {
        assert a in ts'[i].owned;
      }
      if OwnedBy(ts', a) {
        var k :| 0 <= k < |ts'| && a in ts'[k].owned;
        assert k != i ==> a in ts[k].owned;
      }
    }
  }

  lemma OwnerIsUnique(ts: seq<Tenant>, a: IpAddr, k: nat)
    requires OwnersApart(ts) && k < |ts| && a in ts[k].owned
    ensures OwningTenant(ts, a) == Some(k)
  {
    assert OwnedBy(ts, a);
  }

  lemma {:induction false} NamedSame(ts: seq<Tenant>, ts': seq<Tenant>, name: string)
    requires |ts| == |ts'| && forall i :: 0 <= i < |ts| ==> ts[i].name == ts'[i].name
    ensures Named(ts, name) == Named(ts', name)
  {
    if ts == [] {
    } else {
      NamedSame(ts[..|ts| - 1], ts'[..|ts| - 1], name);
    }
  }

  /** How the tenants before and after a merge compare at one address. */
  ghost predicate MergedAt(ts: seq<Tenant>, ts': seq<Tenant>, x: IpAddr, added: seq<ResolvedService>, a: IpAddr) {
    && (OwnedBy(ts', a) <==> OwnedBy(ts, a) || a == x)
    && At(Services(ts'), a) == (if a == x then added else At(Services(ts), a))
    && NameAt(ts', a) == NameAt(ts, a)
    && (!OwnedBy(ts', a) ==> Dormant(ts', a) == Dormant(ts, a))
  }

  /** The services of an address are those its owner's rules make. */
  lemma AtIs(ts: seq<Tenant>, a: IpAddr)
    requires OwnersApart(ts)
    ensures OwnedBy(ts, a) <==> OwningTenant(ts, a).Some?
    ensures At(Services(ts), a) ==
            match OwningTenant(ts, a)
            case Some(k) => Expand(ts[k].allows, a, ts[k].name)
            case None => []
  {
    hide Expand, Services, At, OwningTenant, OwnersApart;
    AtOwner(ts, a);
  }

  lemma {:induction false} SameOwner(ts: seq<Tenant>, ts': seq<Tenant>, a: IpAddr)
    requires |ts| == |ts'| && forall i :: 0 <= i < |ts| ==> (a in ts[i].owned <==> a in ts'[i].owned)
    ensures OwningTenant(ts, a) == OwningTenant(ts', a)
  {
    if ts == [] {
    } else {
      SameOwner(ts[..|ts| - 1], ts'[..|ts| - 1], a);
    }
  }

  lemma NewRule(allows: seq<AllowRule>, d: DiscoveredService, a: IpAddr, name: string)
    ensures Expand(allows + [RuleOf(d)], a, name) ==
            if a == d.addr then Expand(allows, a, name) + [NewService(d, name)] else Expand(allows, a, name)
  {
    hide Expand;
    ExpandMore(allows, RuleOf(d), a, name);
  }

  lemma MergeIntoOwner(ts: seq<Tenant>, d: DiscoveredService, i: nat, a: IpAddr)
    requires OwnersApart(ts) && OwningTenant(ts, d.addr) == Some(i)
    ensures var ts' := ts[i := ts[i].(allows := ts[i].allows + [RuleOf(d)])];
            && OwnersApart(ts')
            && MergedAt(ts, ts', d.addr, At(Services(ts), d.addr) + [NewService(d, NameAt(ts, d.addr))], a)
  {
    hide Expand, Services, OwningTenant, Named, At, NewService, RuleOf, OwnedBy;
    var t := ts[i].(allows := ts[i].allows + [RuleOf(d)]);
    var ts' := ts[i := t];
    ReplaceKeepsApart(ts, i, t, d.addr);
    hide OwnersApart;
    SameOwner(ts, ts', a);
    NamedSame(ts, ts', DISCOVERED_TENANT);
    AtIs(ts, a);
    AtIs(ts', a);
    NewRule(ts[i].allows, d, a, ts[i].name);
    NewRule(ts[i].allows, d, a, DISCOVERED_TENANT);
  }

  lemma MergeIntoSynthetic(ts: seq<Tenant>, d: DiscoveredService, i: nat, a: IpAddr)
    requires OwnersApart(ts) && !OwnedBy(ts, d.addr) && Named(ts, DISCOVERED_TENANT) == Some(i)
    ensures var ts' := AttachToSynthetic(ts, d.addr, RuleOf(d));
            && OwnersApart(ts')
            && MergedAt(ts, ts', d.addr, Dormant(ts, d.addr) + [NewService(d, DISCOVERED_TENANT)], a)
  {
    hide Expand, Services, OwningTenant, Named, At, NewService, RuleOf;
    assert d.addr !in ts[i].owned;
    hide OwnedBy;
    var t := ts[i].(owned := ts[i].owned + [d.addr], allows := ts[i].allows + [RuleOf(d)]);
    var ts' := ts[i := t];
    ReplaceKeepsApart(ts, i, t, d.addr);
    NamedSame(ts, ts', DISCOVERED_TENANT);
    AtIs(ts, a);
    AtIs(ts', a);
    NewRule(ts[i].allows, d, a, DISCOVERED_TENANT);
    if a == d.addr {
      assert a in ts'[i].owned;
      OwnerIsUnique(ts', a, i);
    } else {
      SameOwner(ts, ts', a);
    }
  }

  lemma FreshNamed(ts: seq<Tenant>, t: Tenant)
    requires Named(ts, t.name).None?
    ensures Named(ts + [t], t.name) == Some(|ts|)
  {
    assert (ts + [t])[..|ts|] == ts;
  }

  lemma FreshApart(ts: seq<Tenant>, t: Tenant, x: IpAddr)
    requires OwnersApart(ts) && !OwnedBy(ts, x) && t.owned == [x]
    ensures OwnersApart(ts + [t])
    ensures forall a :: OwnedBy(ts + [t], a) <==> OwnedBy(ts, a) || a == x
  {
    var ts' := ts + [t];
    assert ts'[..|ts|] == ts && ts'[|ts|] == t;
    OwnersApartStep(ts');
    hide OwnersApart;
    forall a
      ensures OwnedBy(ts', a) <==> OwnedBy(ts, a) || a == x
    {
      if k :| 0 <= k < |ts| && a in ts[k].owned {
        assert a in ts'[k].owned;
      }
      if k :| 0 <= k < |ts'| && a in ts'[k].owned {
        assert k < |ts| ==> a in ts[k].owned;
      }
    }
  }

  lemma MergeIntoFresh(ts: seq<Tenant>, d: DiscoveredService, a: IpAddr)
    requires OwnersApart(ts) && !OwnedBy(ts, d.addr) && Named(ts, DISCOVERED_TENANT).None?
    ensures var ts' := AttachToSynthetic(ts, d.addr, RuleOf(d));
            && OwnersApart(ts')
            && MergedAt(ts, ts', d.addr, Dormant(ts, d.addr) + [NewService(d, DISCOVERED_TENANT)], a)
  {
    hide Services, At, Expand, Named, OwningTenant, RuleOf, NewService, OwnedBy;
    var t := Tenant(DISCOVERED_TENANT, [d.addr], [RuleOf(d)]);
    var ts' := ts + [t];
    FreshNamed(ts, t);
    FreshApart(ts, t, d.addr);
    AtIs(ts, a);
    AtIs(ts', a);
    NewRule([], d, a, DISCOVERED_TENANT);
    assert [] + [RuleOf(d)] == [RuleOf(d)];
    NothingExpands(a);
    FreshOwner(ts, t, a);
  }

  lemma NothingExpands(a: IpAddr)
    ensures Expand([], a, DISCOVERED_TENANT) == []
  {
  }

  lemma FreshOwner(ts: seq<Tenant>, t: Tenant, a: IpAddr)
    ensures OwningTenant(ts + [t], a) ==
            if OwningTenant(ts, a).Some? then OwningTenant(ts, a) else if a in t.owned then Some(|ts|) else None
  {
    assert (ts + [t])[..|ts|] == ts;
  }

  /** One merge keeps ownership apart and does to every address what `StepAt` says. */
  lemma MergeSeen(p: Policy, d: DiscoveredService, a: IpAddr)
    requires OwnersApart(p.tenants)
    ensures var p' := Merge(p, d);
            && p'.prefixes == p.prefixes && OwnersApart(p'.tenants)
            && (OwnedBy(p'.tenants, a) <==> OwnedBy(p.tenants, a) || (a == d.addr && Inside(p.prefixes, a)))
            && At(Services(p'.tenants), a) == StepAt(p, d, a)
            && NameAt(p'.tenants, a) == NameAt(p.tenants, a)
            && (!OwnedBy(p'.tenants, a) ==> Dormant(p'.tenants, a) == Dormant(p.tenants, a))
  {
    hide OwnersApart, OwningTenant, Services, At, Inside, Named, Dormant, ServiceExists, Serves;
    ExistsIsServed(p.tenants, d);
    UnownedServesNothing(p.tenants, d);
    if Inside(p.prefixes, d.addr) && !ServiceExists(p.tenants, d) {
      match OwningTenant(p.tenants, d.addr)
      case Some(i) =>
        assert OwnedBy(p.tenants, d.addr);
        MergeIntoOwner(p.tenants, d, i, a);
      case None =>
        match Named(p.tenants, DISCOVERED_TENANT) {
          case Some(i) => MergeIntoSynthetic(p.tenants, d, i, a);
          case None => MergeIntoFresh(p.tenants, d, a);
        }
    }
  }

  lemma UnownedServesNothing(ts: seq<Tenant>, d: DiscoveredService)
    ensures ServiceExists(ts, d) ==> OwnedBy(ts, d.addr)
  {
  }
}
