/** The policy, its expansion into concrete services, and the checks on the way. */
module Policy {
  import opened Bytes
  import opened Wrappers
  import opened Net
  import opened Sequences

  datatype L4Proto = Tcp | Udp

  datatype Target = Host | Incus(name: string) | Nat(addr: IpAddr, port: u16)

  /** `scope` of `None` opens the port on every address of the tenant, `Some(a)` on `a` only. */
  datatype AllowRule = AllowRule(proto: L4Proto, port: u16, target: Target, scope: Option<IpAddr>)

  datatype Tenant = Tenant(name: string, owned: seq<IpAddr>, allows: seq<AllowRule>)

  datatype Policy = Policy(prefixes: seq<IpNet>, tenants: seq<Tenant>)

  datatype ResolvedService = ResolvedService(
    addr: IpAddr, proto: L4Proto, port: u16, target: Target, tenant: string)

  datatype PolicyError =
    | AddressOutsidePrefixes(addr: IpAddr)
    | DuplicateOwnership(addr: IpAddr, first: string, second: string)
    | DuplicateService(addr: IpAddr, proto: L4Proto, port: u16)

  // ---- What a policy says --------------------------------------------------------------

  predicate Applies(r: AllowRule, a: IpAddr) {
    r.scope.None? || r.scope.value == a
  }

  function ServiceOf(r: AllowRule, a: IpAddr, tenant: string): ResolvedService {
    ResolvedService(a, r.proto, r.port, r.target, tenant)
  }

  /** The services a list of rules opens on one address. */
  function Expand(allows: seq<AllowRule>, a: IpAddr, tenant: string): seq<ResolvedService> {
    if allows == [] then []
    else
      var r := allows[|allows| - 1];
      Expand(allows[..|allows| - 1], a, tenant) + if Applies(r, a) then [ServiceOf(r, a, tenant)] else []
  }

  function OverAddresses(owned: seq<IpAddr>, allows: seq<AllowRule>, tenant: string): seq<ResolvedService> {
    if owned == [] then []
    else OverAddresses(owned[..|owned| - 1], allows, tenant) + Expand(allows, owned[|owned| - 1], tenant)
  }

  /** Tenants by owned addresses by allow rules. */
  function Services(ts: seq<Tenant>): seq<ResolvedService> {
    if ts == [] then []
    else
      var t := ts[|ts| - 1];
      Services(ts[..|ts| - 1]) + OverAddresses(t.owned, t.allows, t.name)
  }

  datatype Owner = Owner(addr: IpAddr, name: string)

  function OwnersOf(owned: seq<IpAddr>, name: string): (os: seq<Owner>)
    ensures |os| == |owned| && forall i :: 0 <= i < |os| ==> os[i] == Owner(owned[i], name)
  {
    seq(|owned|, i requires 0 <= i < |owned| => Owner(owned[i], name))
  }

  function Owners(ts: seq<Tenant>): seq<Owner> {
    if ts == [] then []
    else Owners(ts[..|ts| - 1]) + OwnersOf(ts[|ts| - 1].owned, ts[|ts| - 1].name)
  }

  // ---- The first fault, in the order of expansion ----------------------------------------

  function FirstWith(os: seq<Owner>, a: IpAddr): Option<string> {
    if os == [] then None
    else if os[0].addr == a then Some(os[0].name)
    else FirstWith(os[1..], a)
  }

  function OwnerFault(prefixes: seq<IpNet>, os: seq<Owner>): Option<PolicyError> {
    if os == [] then None
    else
      var before, o := os[..|os| - 1], os[|os| - 1];
      if OwnerFault(prefixes, before).Some? then OwnerFault(prefixes, before)
      else if !Inside(prefixes, o.addr) then Some(AddressOutsidePrefixes(o.addr))
      else
        match FirstWith(before, o.addr)
        case Some(other) => Some(DuplicateOwnership(o.addr, other, o.name))
        case None => None
  }

  predicate Serves(ss: seq<ResolvedService>, a: IpAddr, proto: L4Proto, port: u16) {
    exists i :: 0 <= i < |ss| && ss[i].addr == a && ss[i].proto == proto && ss[i].port == port
  }

  function ServiceFault(ss: seq<ResolvedService>): Option<PolicyError> {
    if ss == [] then None
    else
      var before, s := ss[..|ss| - 1], ss[|ss| - 1];
      if ServiceFault(before).Some? then ServiceFault(before)
      else if Serves(before, s.addr, s.proto, s.port) then Some(DuplicateService(s.addr, s.proto, s.port))
      else None
  }

  function Resolution(p: Policy): Result<seq<ResolvedService>, PolicyError> {
    match OwnerFault(p.prefixes, Owners(p.tenants))
    case Some(e) => Err(e)
    case None =>
      match ServiceFault(Services(p.tenants))
      case Some(e) => Err(e)
      case None => Ok(Services(p.tenants))
  }

  lemma {:induction false} OwnerFaultStays(prefixes: seq<IpNet>, a: seq<Owner>, b: seq<Owner>)
    requires OwnerFault(prefixes, a).Some?
    ensures OwnerFault(prefixes, a + b) == OwnerFault(prefixes, a)
  {
    if b == [] {
      assert a + b == a;
    } else {
      OwnerFaultStays(prefixes, a, b[..|b| - 1]);
      assert (a + b)[..|a + b| - 1] == a + b[..|b| - 1];
    }
  }

  lemma {:induction false} ServiceFaultStays(a: seq<ResolvedService>, b: seq<ResolvedService>)
    requires ServiceFault(a).Some?
    ensures ServiceFault(a + b) == ServiceFault(a)
  {
    if b == [] {
      assert a + b == a;
    } else {
      ServiceFaultStays(a, b[..|b| - 1]);
      assert (a + b)[..|a + b| - 1] == a + b[..|b| - 1];
    }
  }

  lemma {:induction false} OwnersExtend(ts: seq<Tenant>, n: nat)
    requires n <= |ts|
    ensures Owners(ts[..n]) <= Owners(ts)
    decreases |ts|
  {
    if n < |ts| {
      OwnersExtend(ts[..|ts| - 1], n);
      assert ts[..|ts| - 1][..n] == ts[..n];
    } else {
      assert ts[..n] == ts;
    }
  }

  lemma {:induction false} ServicesExtend(ts: seq<Tenant>, n: nat)
    requires n <= |ts|
    ensures Services(ts[..n]) <= Services(ts)
    decreases |ts|
  {
    if n < |ts| {
      ServicesExtend(ts[..|ts| - 1], n);
      assert ts[..|ts| - 1][..n] == ts[..n];
    } else {
      assert ts[..n] == ts;
    }
  }

  lemma {:induction false} OverAddressesExtend(owned: seq<IpAddr>, allows: seq<AllowRule>, name: string, n: nat)
    requires n <= |owned|
    ensures OverAddresses(owned[..n], allows, name) <= OverAddresses(owned, allows, name)
    decreases |owned|
  {
    if n < |owned| {
      OverAddressesExtend(owned[..|owned| - 1], allows, name, n);
      assert owned[..|owned| - 1][..n] == owned[..n];
    } else {
      assert owned[..n] == owned;
    }
  }

  lemma {:induction false} ExpandExtends(allows: seq<AllowRule>, a: IpAddr, name: string, n: nat)
    requires n <= |allows|
    ensures Expand(allows[..n], a, name) <= Expand(allows, a, name)
    decreases |allows|
  {
    if n < |allows| {
      ExpandExtends(allows[..|allows| - 1], a, name, n);
      assert allows[..|allows| - 1][..n] == allows[..n];
    } else {
      assert allows[..n] == allows;
    }
  }

  // ---- The code's loops ---------------------------------------------------------------------

  method FindOwner(os: seq<Owner>, a: IpAddr) returns (r: Option<string>)
    ensures r == FirstWith(os, a)
  {
    assert os[0..] == os;
    for i := 0 to |os|
      invariant FirstWith(os, a) == FirstWith(os[i..], a)
    {
      if os[i].addr == a {
        return Some(os[i].name);
      }
      assert os[i..][1..] == os[i + 1..];
    }
    r := None;
  }

  lemma NextOwner(prefixes: seq<IpNet>, os: seq<Owner>, o: Owner)
    requires OwnerFault(prefixes, os).None?
    ensures OwnerFault(prefixes, os + [o]) ==
            if !Inside(prefixes, o.addr) then Some(AddressOutsidePrefixes(o.addr))
            else match FirstWith(os, o.addr) {
                   case Some(other) => Some(DuplicateOwnership(o.addr, other, o.name))
                   case None => None
                 }
  {
    assert (os + [o])[..|os|] == os;
  }

  lemma OwnerFaultEarly(prefixes: seq<IpNet>, part: seq<Owner>, all: seq<Owner>)
    requires part <= all && OwnerFault(prefixes, part).Some?
    ensures OwnerFault(prefixes, all) == OwnerFault(prefixes, part)
  {
    OwnerFaultStays(prefixes, part, all[|part|..]);
    assert all == part + all[|part|..];
  }

  lemma NextService(ss: seq<ResolvedService>, s: ResolvedService)
    requires ServiceFault(ss).None?
    ensures ServiceFault(ss + [s]) ==
            if Serves(ss, s.addr, s.proto, s.port) then Some(DuplicateService(s.addr, s.proto, s.port)) else None
  {
    assert (ss + [s])[..|ss|] == ss;
  }

  lemma ServiceFaultEarly(part: seq<ResolvedService>, all: seq<ResolvedService>)
    requires part <= all && ServiceFault(part).Some?
    ensures ServiceFault(all) == ServiceFault(part)
  {
    ServiceFaultStays(part, all[|part|..]);
    assert all == part + all[|part|..];
  }

  /** Ownership of one tenant's addresses, on top of those seen before. */
  method CheckTenant(prefixes: seq<IpNet>, t: Tenant, seen: seq<Owner>) returns (r: Result<seq<Owner>, PolicyError>)
    requires OwnerFault(prefixes, seen).None?
    ensures var os := seen + OwnersOf(t.owned, t.name);
            match OwnerFault(prefixes, os) { case None => r == Ok(os) case Some(e) => r == Err(e) }
  {
    hide OwnerFault, FirstWith, Inside, OwnersOf;
    var out := seen;
    ghost var all := seen + OwnersOf(t.owned, t.name);
    for i := 0 to |t.owned|
      invariant |out| == |seen| + i && out <= all
      invariant OwnerFault(prefixes, out).None?
    {
      var o := Owner(t.owned[i], t.name);
      assert out + [o] <= all;
      NextOwner(prefixes, out, o);
      var other := FindOwner(out, o.addr);
      if !Inside(prefixes, o.addr) {
        OwnerFaultEarly(prefixes, out + [o], all);
        return Err(AddressOutsidePrefixes(o.addr));
      }
      if other.Some? {
        OwnerFaultEarly(prefixes, out + [o], all);
        return Err(DuplicateOwnership(o.addr, other.value, o.name));
      }
      out := out + [o];
    }
    assert out == all;
    r := Ok(out);
  }

  lemma ExpandStep(allows: seq<AllowRule>, a: IpAddr, name: string, i: nat)
    requires i < |allows|
    ensures Expand(allows[..i + 1], a, name) ==
            Expand(allows[..i], a, name) + if Applies(allows[i], a) then [ServiceOf(allows[i], a, name)] else []
    ensures Expand(allows[..i + 1], a, name) <= Expand(allows, a, name)
  {
    assert allows[..i + 1][..i] == allows[..i];
    ExpandExtends(allows, a, name, i + 1);
  }

  /** The services of one address, on top of those already out. */
  method ExpandAddress(t: Tenant, a: IpAddr, done: seq<ResolvedService>)
    returns (r: Result<seq<ResolvedService>, PolicyError>)
    requires ServiceFault(done).None?
    ensures var ss := done + Expand(t.allows, a, t.name);
            match ServiceFault(ss) { case None => r == Ok(ss) case Some(e) => r == Err(e) }
  {
    assert Expand(t.allows[..0], a, t.name) == [];
    hide ServiceFault, Serves, Expand;
    var out := done;
    for i := 0 to |t.allows|
      invariant out == done + Expand(t.allows[..i], a, t.name)
      invariant ServiceFault(out).None?
    {
      var rule := t.allows[i];
      ExpandStep(t.allows, a, t.name, i);
      if rule.scope.Some? && rule.scope.value != a {
        continue;
      }
      var s := ServiceOf(rule, a, t.name);
      OnTop(done, Expand(t.allows[..i], a, t.name), [s], Expand(t.allows, a, t.name));
      NextService(out, s);
      var dup := Serves(out, a, rule.proto, rule.port);
      if dup {
        ServiceFaultEarly(out + [s], done + Expand(t.allows, a, t.name));
        return Err(DuplicateService(a, rule.proto, rule.port));
      }
      out := out + [s];
    }
    assert t.allows[..|t.allows|] == t.allows;
    r := Ok(out);
  }

  lemma OverAddressesStep(owned: seq<IpAddr>, allows: seq<AllowRule>, name: string, i: nat)
    requires i < |owned|
    ensures OverAddresses(owned[..i + 1], allows, name) ==
            OverAddresses(owned[..i], allows, name) + Expand(allows, owned[i], name)
    ensures OverAddresses(owned[..i + 1], allows, name) <= OverAddresses(owned, allows, name)
  {
    assert owned[..i + 1][..i] == owned[..i];
    OverAddressesExtend(owned, allows, name, i + 1);
  }

  lemma OnTop(done: seq<ResolvedService>, x: seq<ResolvedService>, e: seq<ResolvedService>, y: seq<ResolvedService>)
    requires x + e <= y
    ensures done + x + e == done + (x + e) && done + x + e <= done + y
  {
  }

  method ExpandTenant(t: Tenant, done: seq<ResolvedService>) returns (r: Result<seq<ResolvedService>, PolicyError>)
    requires ServiceFault(done).None?
    ensures var ss := done + OverAddresses(t.owned, t.allows, t.name);
            match ServiceFault(ss) { case None => r == Ok(ss) case Some(e) => r == Err(e) }
  {
    assert OverAddresses(t.owned[..0], t.allows, t.name) == [];
    hide ServiceFault, OverAddresses, Expand;
    var out := done;
    for i := 0 to |t.owned|
      invariant out == done + OverAddresses(t.owned[..i], t.allows, t.name)
      invariant ServiceFault(out).None?
    {
      OverAddressesStep(t.owned, t.allows, t.name, i);
      OnTop(done, OverAddresses(t.owned[..i], t.allows, t.name), Expand(t.allows, t.owned[i], t.name),
            OverAddresses(t.owned, t.allows, t.name));
      var one := ExpandAddress(t, t.owned[i], out);
      if one.Err? {
        ServiceFaultEarly(out + Expand(t.allows, t.owned[i], t.name), done + OverAddresses(t.owned, t.allows, t.name));
        return one;
      }
      out := one.value;
    }
    assert t.owned[..|t.owned|] == t.owned;
    r := Ok(out);
  }

  /** Ownership first, then the expansion; the first fault met is the one reported. */
  method Resolve(p: Policy) returns (r: Result<seq<ResolvedService>, PolicyError>)
    ensures r == Resolution(p)
  {
    var seen: seq<Owner> := [];
    for i := 0 to |p.tenants|
      invariant seen == Owners(p.tenants[..i]) && OwnerFault(p.prefixes, seen).None?
    {
      assert p.tenants[..i + 1][..i] == p.tenants[..i];
      ghost var next := seen + OwnersOf(p.tenants[i].owned, p.tenants[i].name);
      var one := CheckTenant(p.prefixes, p.tenants[i], seen);
      if one.Err? {
        OwnersExtend(p.tenants, i + 1);
        ghost var all := Owners(p.tenants);
        OwnerFaultEarly(p.prefixes, next, all);
        return Err(one.error);
      }
      seen := one.value;
    }
    assert p.tenants[..|p.tenants|] == p.tenants;
    r := ExpandAll(p);
  }

  lemma ServicesStep(ts: seq<Tenant>, i: nat)
    requires i < |ts|
    ensures Services(ts[..i + 1]) == Services(ts[..i]) + OverAddresses(ts[i].owned, ts[i].allows, ts[i].name)
  {
    assert ts[..i + 1][..i] == ts[..i];
  }

  lemma NothingFaulty()
    ensures Services([]) == [] && ServiceFault([]).None?
  {
  }

  method ExpandAll(p: Policy) returns (r: Result<seq<ResolvedService>, PolicyError>)
    ensures match ServiceFault(Services(p.tenants))
            case None => r == Ok(Services(p.tenants))
            case Some(e) => r == Err(e)
  {
    hide Services, ServiceFault, OverAddresses;
    var out: seq<ResolvedService> := [];
    NothingFaulty();
    for i := 0 to |p.tenants|
      invariant out == Services(p.tenants[..i]) && ServiceFault(out).None?
    {
      var t := p.tenants[i];
      ServicesStep(p.tenants, i);
      ghost var next := out + OverAddresses(t.owned, t.allows, t.name);
      var one := ExpandTenant(t, out);
      if one.Err? {
        ServicesExtend(p.tenants, i + 1);
        ghost var all := Services(p.tenants);
        ServiceFaultEarly(next, all);
        return one;
      }
      out := one.value;
    }
    assert p.tenants[..|p.tenants|] == p.tenants;
    r := Ok(out);
  }

  // ---- When a policy resolves -------------------------------------------------------------------

  ghost predicate AllInside(p: Policy) {
    forall i, j :: 0 <= i < |p.tenants| && 0 <= j < |p.tenants[i].owned| ==> Inside(p.prefixes, p.tenants[i].owned[j])
  }

  /** No address twice within a tenant or in two tenants. */
  ghost predicate OwnersApart(ts: seq<Tenant>) {
    && (forall i :: 0 <= i < |ts| ==> Distinct(ts[i].owned))
    && (forall i, j, a :: 0 <= i < j < |ts| && a in ts[i].owned ==> a !in ts[j].owned)
  }

  predicate SameKey(s: ResolvedService, s': ResolvedService) {
    s.addr == s'.addr && s.proto == s'.proto && s.port == s'.port
  }

  ghost predicate KeysApart(ss: seq<ResolvedService>) {
    forall i, j :: 0 <= i < j < |ss| ==> !SameKey(ss[i], ss[j])
  }

  lemma {:induction false} NoServiceFault(ss: seq<ResolvedService>)
    ensures ServiceFault(ss).None? <==> KeysApart(ss)
  {
    if ss == [] {
    } else {
      var before, s := ss[..|ss| - 1], ss[|ss| - 1];
      NoServiceFault(before);
      if Serves(before, s.addr, s.proto, s.port) {
        var i :| 0 <= i < |before| && before[i].addr == s.addr && before[i].proto == s.proto && before[i].port == s.port;
        assert SameKey(ss[i], ss[|ss| - 1]);
      }
    }
  }

  ghost predicate OwnerListGood(prefixes: seq<IpNet>, os: seq<Owner>) {
    && (forall i :: 0 <= i < |os| ==> Inside(prefixes, os[i].addr))
    && (forall i, j :: 0 <= i < j < |os| ==> os[i].addr != os[j].addr)
  }

  predicate Listed(os: seq<Owner>, a: IpAddr) {
    exists i :: 0 <= i < |os| && os[i].addr == a
  }

  predicate OwnedBy(ts: seq<Tenant>, a: IpAddr) {
    exists i :: 0 <= i < |ts| && a in ts[i].owned
  }

  lemma {:induction false} FirstWithFinds(os: seq<Owner>, a: IpAddr)
    ensures FirstWith(os, a).Some? <==> Listed(os, a)
  {
    if os == [] {
    } else {
      FirstWithFinds(os[1..], a);
      if i :| 0 <= i < |os[1..]| && os[1..][i].addr == a {
        assert os[i + 1].addr == a;
      }
      if i :| 0 < i < |os| && os[i].addr == a {
        assert os[1..][i - 1].addr == a;
      }
    }
  }

  lemma {:induction false} NoOwnerFault(prefixes: seq<IpNet>, os: seq<Owner>)
    ensures OwnerFault(prefixes, os).None? <==> OwnerListGood(prefixes, os)
  {
    hide Inside;
    if os == [] {
    } else {
      var before, o := os[..|os| - 1], os[|os| - 1];
      NoOwnerFault(prefixes, before);
      FirstWithFinds(before, o.addr);
      hide FirstWith;
      assert forall i :: 0 <= i < |before| ==> os[i] == before[i];
      if OwnerListGood(prefixes, os) {
        assert !Listed(before, o.addr);
      }
      if OwnerListGood(prefixes, before) && Inside(prefixes, o.addr) && !Listed(before, o.addr) {
        forall i, j | 0 <= i < j < |os|
          ensures os[i].addr != os[j].addr
        {
          assert os[i] == before[i];
        }
      }
    }
  }

  lemma ListedIn(x: seq<Owner>, y: seq<Owner>, a: IpAddr)
    ensures Listed(x + y, a) <==> Listed(x, a) || Listed(y, a)
  {
    var all := x + y;
    if i :| 0 <= i < |x| && x[i].addr == a {
      assert all[i].addr == a;
    }
    if i :| 0 <= i < |y| && y[i].addr == a {
      assert all[|x| + i].addr == a;
    }
    if i :| 0 <= i < |all| && all[i].addr == a {
      assert if i < |x| then x[i].addr == a else y[i - |x|].addr == a;
    }
  }

  lemma ListedOwned(owned: seq<IpAddr>, name: string, a: IpAddr)
    ensures Listed(OwnersOf(owned, name), a) <==> a in owned
  {
    if i :| 0 <= i < |owned| && owned[i] == a {
      assert OwnersOf(owned, name)[i].addr == a;
    }
  }

  lemma {:induction false} OwnersMembers(ts: seq<Tenant>, a: IpAddr)
    ensures Listed(Owners(ts), a) <==> OwnedBy(ts, a)
  {
    if ts == [] {
    } else {
      var before, t := ts[..|ts| - 1], ts[|ts| - 1];
      OwnersMembers(before, a);
      ListedIn(Owners(before), OwnersOf(t.owned, t.name), a);
      ListedOwned(t.owned, t.name, a);
      hide Listed;
      if i :| 0 <= i < |before| && a in before[i].owned {
        assert a in ts[i].owned;
      }
      if i :| 0 <= i < |ts| && a in ts[i].owned {
        assert i < |before| ==> a in before[i].owned;
      }
    }
  }

  lemma OwnersApartStep(ts: seq<Tenant>)
    requires ts != []
    ensures var before, t := ts[..|ts| - 1], ts[|ts| - 1];
            OwnersApart(ts) <==>
            && OwnersApart(before) && Distinct(t.owned)
            && forall a :: OwnedBy(before, a) ==> a !in t.owned
  {
    var before, t := ts[..|ts| - 1], ts[|ts| - 1];
    hide Distinct;
    if OwnersApart(ts) {
      forall a | OwnedBy(before, a)
        ensures a !in t.owned
      {
        var i :| 0 <= i < |before| && a in before[i].owned;
        assert a in ts[i].owned;
      }
      forall i, j, a | 0 <= i < j < |before| && a in before[i].owned
        ensures a !in before[j].owned
      {
        assert a in ts[i].owned && before[j] == ts[j];
      }
      assert forall i :: 0 <= i < |before| ==> before[i] == ts[i];
    }
    if OwnersApart(before) && Distinct(t.owned)
       && forall a :: OwnedBy(before, a) ==> a !in t.owned {
      forall i, j, a | 0 <= i < j < |ts| && a in ts[i].owned
        ensures a !in ts[j].owned
      {
        assert a in before[i].owned && OwnedBy(before, a);
        assert j < |before| ==> before[j] == ts[j];
      }
      forall i | 0 <= i < |ts|
        ensures Distinct(ts[i].owned)
      {
        assert i < |before| ==> before[i] == ts[i];
      }
    }
  }

  lemma InsideStep(prefixes: seq<IpNet>, ts: seq<Tenant>)
    requires ts != []
    ensures var before, owned := ts[..|ts| - 1], ts[|ts| - 1].owned;
            AllInside(Policy(prefixes, ts)) <==>
            AllInside(Policy(prefixes, before)) && forall j :: 0 <= j < |owned| ==> Inside(prefixes, owned[j])
  {
    hide Inside;
    var before := ts[..|ts| - 1];
    assert forall i :: 0 <= i < |before| ==> before[i] == ts[i];
  }

  lemma {:induction false} OwnerListIsApart(prefixes: seq<IpNet>, ts: seq<Tenant>)
    ensures OwnerListGood(prefixes, Owners(ts)) <==> AllInside(Policy(prefixes, ts)) && OwnersApart(ts)
  {
    hide Inside, OwnedBy, Listed, Distinct;
    if ts == [] {
    } else {
      hide OwnersApart, AllInside, OwnerListGood;
      var before, t := ts[..|ts| - 1], ts[|ts| - 1];
      OwnerListIsApart(prefixes, before);
      OwnersApartStep(ts);
      InsideStep(prefixes, ts);
      OwnerListStep(prefixes, Owners(before), t);
      forall a: IpAddr
        ensures OwnedBy(before, a) <==> Listed(Owners(before), a)
      {
        OwnersMembers(before, a);
      }
    }
  }

  /** What one more tenant must satisfy. */
  ghost predicate FitsIn(prefixes: seq<IpNet>, os: seq<Owner>, owned: seq<IpAddr>) {
    && Distinct(owned)
    && (forall j :: 0 <= j < |owned| ==> Inside(prefixes, owned[j]))
    && (forall a :: Listed(os, a) ==> a !in owned)
  }

  lemma OwnerListStep(prefixes: seq<IpNet>, os: seq<Owner>, t: Tenant)
    ensures OwnerListGood(prefixes, os + OwnersOf(t.owned, t.name)) <==>
            OwnerListGood(prefixes, os) && FitsIn(prefixes, os, t.owned)
  {
    hide OwnerListGood, FitsIn, OwnersOf;
    if OwnerListGood(prefixes, os + OwnersOf(t.owned, t.name)) {
      OwnerListSplits(prefixes, os, OwnersOf(t.owned, t.name), t.owned);
    }
    if OwnerListGood(prefixes, os) && FitsIn(prefixes, os, t.owned) {
      OwnerListJoins(prefixes, os, OwnersOf(t.owned, t.name), t.owned);
    }
  }

  lemma OwnerListSplits(prefixes: seq<IpNet>, os: seq<Owner>, mine: seq<Owner>, owned: seq<IpAddr>)
    requires |mine| == |owned| && forall j :: 0 <= j < |mine| ==> mine[j].addr == owned[j]
    requires OwnerListGood(prefixes, os + mine)
    ensures OwnerListGood(prefixes, os) && FitsIn(prefixes, os, owned)
  {
    hide Inside;
    var all, n := os + mine, |os|;
    assert forall i :: 0 <= i < n ==> os[i] == all[i];
    forall j | 0 <= j < |owned|
      ensures owned[j] == all[n + j].addr && Inside(prefixes, owned[j]) && !Listed(os, owned[j])
    {
      assert all[n + j] == mine[j];
    }
    forall i, j | 0 <= i < j < |owned|
      ensures owned[i] != owned[j]
    {
      assert all[n + i].addr != all[n + j].addr;
    }
  }

  lemma OwnerListJoins(prefixes: seq<IpNet>, os: seq<Owner>, mine: seq<Owner>, owned: seq<IpAddr>)
    requires |mine| == |owned| && forall j :: 0 <= j < |mine| ==> mine[j].addr == owned[j]
    requires OwnerListGood(prefixes, os) && FitsIn(prefixes, os, owned)
    ensures OwnerListGood(prefixes, os + mine)
  {
    hide Inside;
    var all, n := os + mine, |os|;
    forall i | 0 <= i < |all|
      ensures Inside(prefixes, all[i].addr)
    {
      assert all[i] == if i < n then os[i] else mine[i - n];
    }
    forall i, j | 0 <= i < j < |all|
      ensures all[i].addr != all[j].addr
    {
      if j < n {
        assert all[i] == os[i] && all[j] == os[j];
      } else if i < n {
        assert all[i] == os[i] && all[j].addr == owned[j - n] && Listed(os, os[i].addr);
      } else {
        assert all[i].addr == owned[i - n] && all[j].addr == owned[j - n];
      }
    }
  }

  /** A policy resolves exactly when its addresses are managed and nothing is claimed or exposed twice. */
  lemma ResolvesExactly(p: Policy)
    ensures Resolution(p).Ok? <==> AllInside(p) && OwnersApart(p.tenants) && KeysApart(Services(p.tenants))
  {
    NoOwnerFault(p.prefixes, Owners(p.tenants));
    OwnerListIsApart(p.prefixes, p.tenants);
    NoServiceFault(Services(p.tenants));
    hide OwnerFault, ServiceFault, Owners, OwnersApart, KeysApart, AllInside, Services;
  }

  // ---- What resolution gives, and what its errors say ----------------------------------------------

  /** Tenant `i`, its address `j` and its rule `k` make this service. */
  predicate Makes(ts: seq<Tenant>, i: nat, j: nat, k: nat, s: ResolvedService) {
    && i < |ts| && j < |ts[i].owned| && k < |ts[i].allows|
    && var a, r := ts[i].owned[j], ts[i].allows[k];
       && (r.scope == None || r.scope == Some(a))
       && s.addr == a && s.proto == r.proto && s.port == r.port && s.target == r.target && s.tenant == ts[i].name
  }

  ghost predicate Made(ts: seq<Tenant>, s: ResolvedService) {
    exists i: nat, j: nat, k: nat :: Makes(ts, i, j, k, s)
  }

  lemma {:induction false} ExpandExactly(allows: seq<AllowRule>, a: IpAddr, name: string, s: ResolvedService)
    ensures s in Expand(allows, a, name) <==> exists k: nat :: Makes([Tenant(name, [a], allows)], 0, 0, k, s)
  {
    if allows == [] {
    } else {
      var before, r := allows[..|allows| - 1], allows[|allows| - 1];
      ExpandExactly(before, a, name, s);
      var ts, ts' := [Tenant(name, [a], before)], [Tenant(name, [a], allows)];
      if k: nat :| Makes(ts, 0, 0, k, s) {
        assert Makes(ts', 0, 0, k, s);
      }
      if s == ServiceOf(r, a, name) && Applies(r, a) {
        assert Makes(ts', 0, 0, |before|, s);
      }
      if k: nat :| Makes(ts', 0, 0, k, s) {
        assert k < |before| ==> Makes(ts, 0, 0, k, s);
      }
    }
  }

  lemma {:induction false} AddressesExactly(owned: seq<IpAddr>, allows: seq<AllowRule>, name: string, s: ResolvedService)
    ensures s in OverAddresses(owned, allows, name) <==>
            exists j: nat, k: nat :: Makes([Tenant(name, owned, allows)], 0, j, k, s)
  {
    hide Expand;
    if owned == [] {
    } else {
      var before, a := owned[..|owned| - 1], owned[|owned| - 1];
      AddressesExactly(before, allows, name, s);
      ExpandExactly(allows, a, name, s);
      var ts, one, ts' := [Tenant(name, before, allows)], [Tenant(name, [a], allows)], [Tenant(name, owned, allows)];
      if j: nat, k: nat :| Makes(ts, 0, j, k, s) {
        assert Makes(ts', 0, j, k, s);
      }
      if k: nat :| Makes(one, 0, 0, k, s) {
        assert Makes(ts', 0, |before|, k, s);
      }
      if j: nat, k: nat :| Makes(ts', 0, j, k, s) {
        if j < |before| {
          assert Makes(ts, 0, j, k, s);
        } else {
          assert Makes(one, 0, 0, k, s);
        }
      }
    }
  }

  /** A service is resolved exactly when a tenant's rule, scoped to the address or to none, makes it at an owned one. */
  lemma {:induction false} ServicesExactly(ts: seq<Tenant>, s: ResolvedService)
    ensures s in Services(ts) <==> Made(ts, s)
  {
    hide OverAddresses;
    if ts == [] {
    } else {
      var before, t := ts[..|ts| - 1], ts[|ts| - 1];
      ServicesExactly(before, s);
      AddressesExactly(t.owned, t.allows, t.name, s);
      var one := [Tenant(t.name, t.owned, t.allows)];
      if i: nat, j: nat, k: nat :| Makes(before, i, j, k, s) {
        assert Makes(ts, i, j, k, s);
      }
      if j: nat, k: nat :| Makes(one, 0, j, k, s) {
        assert Makes(ts, |before|, j, k, s);
      }
      if i: nat, j: nat, k: nat :| Makes(ts, i, j, k, s) {
        if i < |before| {
          assert Makes(before, i, j, k, s);
        } else {
          assert Makes(one, 0, j, k, s);
        }
      }
    }
  }

  /** Some prefix of the policy shares its network bits with the address. */
  predicate Managed(prefixes: seq<IpNet>, a: IpAddr) {
    exists i :: 0 <= i < |prefixes| && Contains(prefixes[i], a)
  }

  /** What each error says of the policy. */
  ghost predicate ErrorIsTrue(p: Policy, e: PolicyError) {
    var os, ss := Owners(p.tenants), Services(p.tenants);
    match e
    case AddressOutsidePrefixes(a) => Listed(os, a) && !Managed(p.prefixes, a)
    case DuplicateOwnership(a, first, second) =>
      exists i, j :: 0 <= i < j < |os| && os[i] == Owner(a, first) && os[j] == Owner(a, second)
    case DuplicateService(a, proto, port) =>
      exists i, j :: 0 <= i < j < |ss| && SameKey(ss[i], ss[j]) &&
                     ss[i].addr == a && ss[i].proto == proto && ss[i].port == port
  }

  lemma {:induction false} FirstWithIs(os: seq<Owner>, a: IpAddr)
    requires FirstWith(os, a).Some?
    ensures exists i :: 0 <= i < |os| && os[i] == Owner(a, FirstWith(os, a).value)
  {
    if os[0].addr == a {
      assert os[0] == Owner(a, FirstWith(os, a).value);
    } else {
      FirstWithIs(os[1..], a);
      var i :| 0 <= i < |os[1..]| && os[1..][i] == Owner(a, FirstWith(os, a).value);
      assert os[i + 1] == os[1..][i];
    }
  }

  ghost predicate OwnerErrorIsTrue(prefixes: seq<IpNet>, os: seq<Owner>, e: PolicyError) {
    match e
    case AddressOutsidePrefixes(a) => Listed(os, a) && !Managed(prefixes, a)
    case DuplicateOwnership(a, first, second) =>
      exists i, j :: 0 <= i < j < |os| && os[i] == Owner(a, first) && os[j] == Owner(a, second)
    case DuplicateService(_, _, _) => false
  }

  lemma OutsideIsTrue(prefixes: seq<IpNet>, os: seq<Owner>, n: nat)
    requires n < |os| && !Inside(prefixes, os[n].addr)
    ensures OwnerErrorIsTrue(prefixes, os, AddressOutsidePrefixes(os[n].addr))
  {
    InsideIsManaged(prefixes, os[n].addr);
  }

  lemma TwiceIsTrue(prefixes: seq<IpNet>, os: seq<Owner>, n: nat)
    requires n < |os| && FirstWith(os[..n], os[n].addr).Some?
    ensures OwnerErrorIsTrue(prefixes, os,
                             DuplicateOwnership(os[n].addr, FirstWith(os[..n], os[n].addr).value, os[n].name))
  {
    hide FirstWith;
    var a := os[n].addr;
    var first := FirstWith(os[..n], a).value;
    FirstWithIs(os[..n], a);
    var i :| 0 <= i < n && os[..n][i] == Owner(a, first);
    assert os[i] == Owner(a, first) && os[n] == Owner(a, os[n].name);
  }

  lemma {:induction false} OwnerErrors(prefixes: seq<IpNet>, os: seq<Owner>)
    requires OwnerFault(prefixes, os).Some?
    ensures OwnerErrorIsTrue(prefixes, os, OwnerFault(prefixes, os).value)
  {
    hide OwnerErrorIsTrue, Inside, FirstWith;
    var n := |os| - 1;
    if OwnerFault(prefixes, os[..n]).Some? {
      OwnerErrors(prefixes, os[..n]);
      OwnerErrorStays(prefixes, os[..n], os[n], OwnerFault(prefixes, os[..n]).value);
      assert os[..n] + [os[n]] == os;
    } else if !Inside(prefixes, os[n].addr) {
      OutsideIsTrue(prefixes, os, n);
    } else {
      TwiceIsTrue(prefixes, os, n);
    }
  }

  lemma InsideIsManaged(prefixes: seq<IpNet>, a: IpAddr)
    ensures Inside(prefixes, a) <==> Managed(prefixes, a)
  {
  }

  lemma OwnerErrorStays(prefixes: seq<IpNet>, os: seq<Owner>, o: Owner, e: PolicyError)
    requires OwnerErrorIsTrue(prefixes, os, e)
    ensures OwnerErrorIsTrue(prefixes, os + [o], e)
  {
    hide Managed;
    var all := os + [o];
    match e
    case AddressOutsidePrefixes(a) =>
      var i :| 0 <= i < |os| && os[i].addr == a;
      assert all[i].addr == a;
    case DuplicateOwnership(a, first, second) =>
      var i, j :| 0 <= i < j < |os| && os[i] == Owner(a, first) && os[j] == Owner(a, second);
      assert all[i] == Owner(a, first) && all[j] == Owner(a, second);
    case _ =>
  }

  lemma {:induction false} ServiceErrors(ss: seq<ResolvedService>)
    requires ServiceFault(ss).Some?
    ensures var e := ServiceFault(ss).value;
            && e.DuplicateService?
            && exists i, j :: 0 <= i < j < |ss| && SameKey(ss[i], ss[j]) &&
                              ss[i].addr == e.addr && ss[i].proto == e.proto && ss[i].port == e.port
  {
    var n := |ss| - 1;
    var before, s := ss[..n], ss[n];
    if ServiceFault(before).Some? {
      ServiceErrors(before);
      var e := ServiceFault(before).value;
      var i, j :| 0 <= i < j < |before| && SameKey(before[i], before[j]) &&
                  before[i].addr == e.addr && before[i].proto == e.proto && before[i].port == e.port;
      assert SameKey(ss[i], ss[j]);
    } else {
      var i :| 0 <= i < |before| && before[i].addr == s.addr && before[i].proto == s.proto && before[i].port == s.port;
      assert SameKey(ss[i], ss[n]);
    }
  }

  /** Every error names a fault the policy has: an address no prefix contains, two claims in order, or one key twice. */
  lemma ErrorsAreTrue(p: Policy)
    requires Resolution(p).Err?
    ensures ErrorIsTrue(p, Resolution(p).error)
  {
    hide OwnerFault, ServiceFault, Owners, Services, Managed, Listed;
    if OwnerFault(p.prefixes, Owners(p.tenants)).Some? {
      OwnerErrors(p.prefixes, Owners(p.tenants));
    } else {
      ServiceErrors(Services(p.tenants));
    }
  }

  /** The owners in order: tenant by tenant, address by address. */
  lemma {:induction false} OwnersExactly(ts: seq<Tenant>, o: Owner)
    ensures o in Owners(ts) <==>
            exists i, j :: 0 <= i < |ts| && 0 <= j < |ts[i].owned| && o == Owner(ts[i].owned[j], ts[i].name)
  {
    if ts == [] {
    } else {
      var before, t := ts[..|ts| - 1], ts[|ts| - 1];
      OwnersExactly(before, o);
      if i, j :| 0 <= i < |before| && 0 <= j < |before[i].owned| && o == Owner(before[i].owned[j], before[i].name) {
        assert ts[i] == before[i];
      }
      if i, j :| 0 <= i < |ts| && 0 <= j < |ts[i].owned| && o == Owner(ts[i].owned[j], ts[i].name) {
        if i < |before| {
          assert before[i] == ts[i];
        } else {
          assert OwnersOf(t.owned, t.name)[j] == o;
        }
      }
    }
  }
}
