/** The reconciled policy resolves to the base services plus the first discovery of every new key. */
module ReconcileExact {
  import opened Bytes
  import opened Wrappers
  import opened Net
  import opened Policy
  import opened Reconcile

  // ---- Many merges, seen from one address --------------------------------------------------

  predicate Seen(ds: seq<DiscoveredService>, a: IpAddr) {
    exists j :: 0 <= j < |ds| && ds[j].addr == a
  }

  /** The services of one address after all the merges. */
  function PerAddress(base: Policy, ds: seq<DiscoveredService>, a: IpAddr): seq<ResolvedService> {
    if ds == [] then At(Services(base.tenants), a)
    else
      var before, d := ds[..|ds| - 1], ds[|ds| - 1];
      var cur := PerAddress(base, before, a);
      if d.addr != a || !Inside(base.prefixes, a) then cur
      else if !OwnedBy(base.tenants, a) && !Seen(before, a) then
        Dormant(base.tenants, a) + [NewService(d, DISCOVERED_TENANT)]
      else if Serves(cur, a, d.proto, d.port) then cur
      else cur + [NewService(d, NameAt(base.tenants, a))]
  }

  lemma SeenMore(ds: seq<DiscoveredService>, d: DiscoveredService, a: IpAddr)
    ensures Seen(ds + [d], a) <==> Seen(ds, a) || d.addr == a
  {
    var all := ds + [d];
    if Seen(ds, a) {
      var j :| 0 <= j < |ds| && ds[j].addr == a;
      assert all[j].addr == a;
    }
    if d.addr == a {
      assert all[|ds|].addr == a;
    }
  }

  /** Reconciling is an independent fold at every address. */
  lemma {:induction false} MergedAll(base: Policy, ds: seq<DiscoveredService>, a: IpAddr)
    requires OwnersApart(base.tenants)
    ensures var m := MergeAll(base, ds);
            && m.prefixes == base.prefixes && OwnersApart(m.tenants)
            && (OwnedBy(m.tenants, a) <==> OwnedBy(base.tenants, a) || (Seen(ds, a) && Inside(base.prefixes, a)))
            && At(Services(m.tenants), a) == PerAddress(base, ds, a)
            && NameAt(m.tenants, a) == NameAt(base.tenants, a)
            && (!OwnedBy(m.tenants, a) ==> Dormant(m.tenants, a) == Dormant(base.tenants, a))
  {
    hide OwnersApart, Merge, Inside, OwnedBy, At, Services, Dormant, NameAt, Serves;
    if ds == [] {
    } else {
      var before, d := ds[..|ds| - 1], ds[|ds| - 1];
      MergedAll(base, before, a);
      MergeSeen(MergeAll(base, before), d, a);
      SeenMore(before, d, a);
      assert before + [d] == ds;
    }
  }

  // ---- The fold at one address ----------------------------------------------------------------

  predicate SameDiscovery(d: DiscoveredService, d': DiscoveredService) {
    d.addr == d'.addr && d.proto == d'.proto && d.port == d'.port
  }

  /** The first discovery of its key. */
  ghost predicate First(ds: seq<DiscoveredService>, j: nat) {
    j < |ds| && forall k :: 0 <= k < j ==> !SameDiscovery(ds[k], ds[j])
  }

  function Fold(seed: seq<ResolvedService>, ds: seq<DiscoveredService>, a: IpAddr, name: string): seq<ResolvedService> {
    if ds == [] then seed
    else
      var cur, d := Fold(seed, ds[..|ds| - 1], a, name), ds[|ds| - 1];
      if d.addr == a && !Serves(cur, a, d.proto, d.port) then cur + [NewService(d, name)] else cur
  }

  predicate Mentions(ds: seq<DiscoveredService>, a: IpAddr, proto: L4Proto, port: u16) {
    exists j :: 0 <= j < |ds| && ds[j].addr == a && ds[j].proto == proto && ds[j].port == port
  }

  /** A discovery the fold takes up: the first of its key, and the key is not in the seed. */
  ghost predicate TakenUp(seed: seq<ResolvedService>, ds: seq<DiscoveredService>, a: IpAddr, j: nat) {
    j < |ds| && First(ds, j) && ds[j].addr == a && !Serves(seed, a, ds[j].proto, ds[j].port)
  }

  ghost predicate FoldHas(
    seed: seq<ResolvedService>, ds: seq<DiscoveredService>, a: IpAddr, name: string, s: ResolvedService)
  {
    s in seed || exists j: nat :: TakenUp(seed, ds, a, j) && s == NewService(ds[j], name)
  }

  lemma ServesMore(ss: seq<ResolvedService>, s: ResolvedService, a: IpAddr, proto: L4Proto, port: u16)
    ensures Serves(ss + [s], a, proto, port) <==>
            Serves(ss, a, proto, port) || (s.addr == a && s.proto == proto && s.port == port)
  {
    var all := ss + [s];
    if Serves(ss, a, proto, port) {
      var i :| 0 <= i < |ss| && ss[i].addr == a && ss[i].proto == proto && ss[i].port == port;
      assert all[i] == ss[i];
    }
    assert all[|ss|] == s;
  }

  lemma MentionsMore(ds: seq<DiscoveredService>, d: DiscoveredService, a: IpAddr, proto: L4Proto, port: u16)
    ensures Mentions(ds + [d], a, proto, port) <==>
            Mentions(ds, a, proto, port) || (d.addr == a && d.proto == proto && d.port == port)
  {
    var all := ds + [d];
    if Mentions(ds, a, proto, port) {
      var i :| 0 <= i < |ds| && ds[i].addr == a && ds[i].proto == proto && ds[i].port == port;
      assert all[i] == ds[i];
    }
    assert all[|ds|] == d;
  }

  lemma {:induction false} FoldServes(
    seed: seq<ResolvedService>, ds: seq<DiscoveredService>, a: IpAddr, name: string, proto: L4Proto, port: u16)
    ensures Serves(Fold(seed, ds, a, name), a, proto, port) <==> Serves(seed, a, proto, port) || Mentions(ds, a, proto, port)
  {
    hide Serves, Mentions;
    if ds == [] {
      NothingMentioned(a, proto, port);
    } else {
      var before, d := ds[..|ds| - 1], ds[|ds| - 1];
      FoldServes(seed, before, a, name, proto, port);
      MentionsMore(before, d, a, proto, port);
      ServesMore(Fold(seed, before, a, name), NewService(d, name), a, proto, port);
      assert before + [d] == ds;
    }
  }

  lemma NothingMentioned(a: IpAddr, proto: L4Proto, port: u16)
    ensures !Mentions([], a, proto, port)
  {
  }

  lemma LastIsFirst(ds: seq<DiscoveredService>)
    requires ds != []
    ensures var d := ds[|ds| - 1];
            First(ds, |ds| - 1) <==> !Mentions(ds[..|ds| - 1], d.addr, d.proto, d.port)
  {
    var before, d := ds[..|ds| - 1], ds[|ds| - 1];
    if Mentions(before, d.addr, d.proto, d.port) {
      var j :| 0 <= j < |before| && before[j].addr == d.addr && before[j].proto == d.proto && before[j].port == d.port;
      assert SameDiscovery(ds[j], ds[|ds| - 1]);
    } else {
      forall k | 0 <= k < |ds| - 1
        ensures !SameDiscovery(ds[k], ds[|ds| - 1])
      {
        assert before[k] == ds[k];
      }
    }
  }

  lemma FirstBefore(ds: seq<DiscoveredService>, j: nat)
    requires ds != [] && j < |ds| - 1
    ensures First(ds, j) <==> First(ds[..|ds| - 1], j)
  {
    assert forall k :: 0 <= k <= j ==> ds[..|ds| - 1][k] == ds[k];
  }

  lemma {:induction false} FoldMembers(
    seed: seq<ResolvedService>, ds: seq<DiscoveredService>, a: IpAddr, name: string, s: ResolvedService)
    ensures s in Fold(seed, ds, a, name) <==> FoldHas(seed, ds, a, name, s)
  {
    hide Serves, First;
    if ds != [] {
      var n := |ds| - 1;
      var before, d := ds[..n], ds[n];
      FoldMembers(seed, before, a, name, s);
      LastIsFirst(ds);
      FoldServes(seed, before, a, name, d.proto, d.port);
      hide Mentions;
      assert TakenUp(seed, ds, a, n) <==> d.addr == a && !Serves(Fold(seed, before, a, name), a, d.proto, d.port);
      forall j: nat | j < n
        ensures TakenUp(seed, ds, a, j) <==> TakenUp(seed, before, a, j)
      {
        FirstBefore(ds, j);
      }
      if s !in seed && FoldHas(seed, ds, a, name, s) {
        var j: nat :| TakenUp(seed, ds, a, j) && s == NewService(ds[j], name);
        assert j < n ==> TakenUp(seed, before, a, j) && s == NewService(before[j], name);
      }
      if s !in seed && FoldHas(seed, before, a, name, s) {
        var j: nat :| TakenUp(seed, before, a, j) && s == NewService(before[j], name);
        assert TakenUp(seed, ds, a, j) && s == NewService(ds[j], name);
      }
    } else {
      NothingTakenUp(seed, a);
    }
  }

  lemma NothingTakenUp(seed: seq<ResolvedService>, a: IpAddr)
    ensures forall j: nat :: !TakenUp(seed, [], a, j)
  {
  }

  lemma NotServedIsApart(ss: seq<ResolvedService>, s: ResolvedService)
    ensures (forall x :: x in ss ==> !SameKey(x, s)) <==> !Serves(ss, s.addr, s.proto, s.port)
  {
    if Serves(ss, s.addr, s.proto, s.port) {
      var i :| 0 <= i < |ss| && ss[i].addr == s.addr && ss[i].proto == s.proto && ss[i].port == s.port;
      assert ss[i] in ss && SameKey(ss[i], s);
    }
  }

  /** The fold never adds a clash. */
  lemma {:induction false} FoldApart(seed: seq<ResolvedService>, ds: seq<DiscoveredService>, a: IpAddr, name: string)
    ensures KeysApart(Fold(seed, ds, a, name)) <==> KeysApart(seed)
  {
    hide KeysApart, Serves;
    if ds == [] {
    } else {
      var before, d := ds[..|ds| - 1], ds[|ds| - 1];
      FoldApart(seed, before, a, name);
      KeysApartStep(Fold(seed, before, a, name), NewService(d, name));
      NotServedIsApart(Fold(seed, before, a, name), NewService(d, name));
    }
  }

  // ---- PerAddress is a fold from the right seed --------------------------------------------------

  /** An address configured in the base, or never discovered: the fold starts from the base's services. */
  lemma {:induction false} OwnedFold(base: Policy, ds: seq<DiscoveredService>, a: IpAddr)
    requires OwnedBy(base.tenants, a) && Inside(base.prefixes, a)
    ensures PerAddress(base, ds, a) == Fold(At(Services(base.tenants), a), ds, a, NameAt(base.tenants, a))
  {
    hide OwnedBy, Inside, Serves, Seen, At, NameAt;
    if ds == [] {
    } else {
      OwnedFold(base, ds[..|ds| - 1], a);
    }
  }

  lemma {:induction false} UntouchedFold(base: Policy, ds: seq<DiscoveredService>, a: IpAddr)
    requires !Inside(base.prefixes, a) || !Seen(ds, a)
    ensures PerAddress(base, ds, a) == At(Services(base.tenants), a)
  {
    hide Inside, Serves, At;
    if ds == [] {
    } else {
      var before, d := ds[..|ds| - 1], ds[|ds| - 1];
      SeenMore(before, d, a);
      assert before + [d] == ds;
      UntouchedFold(base, before, a);
    }
  }

  /** Attached by discovery `i`: what lay dormant, then that discovery, then the fold. */
  ghost predicate Attached(base: Policy, ds: seq<DiscoveredService>, i: nat) {
    && i < |ds| && Inside(base.prefixes, ds[i].addr) && !OwnedBy(base.tenants, ds[i].addr)
    && forall k :: 0 <= k < i ==> ds[k].addr != ds[i].addr
  }

  ghost function AttachedSeed(base: Policy, d: DiscoveredService): seq<ResolvedService> {
    Dormant(base.tenants, d.addr) + [NewService(d, DISCOVERED_TENANT)]
  }

  lemma {:induction false} AttachedFold(base: Policy, ds: seq<DiscoveredService>, i: nat)
    requires Attached(base, ds, i)
    ensures PerAddress(base, ds, ds[i].addr) ==
            Fold(AttachedSeed(base, ds[i]), ds, ds[i].addr, DISCOVERED_TENANT)
    decreases |ds|
  {
    hide Inside, OwnedBy, At;
    var n, a := |ds| - 1, ds[i].addr;
    var before, d := ds[..n], ds[n];
    assert forall k :: 0 <= k < n ==> before[k] == ds[k];
    assert NameAt(base.tenants, a) == DISCOVERED_TENANT by { UnownedName(base.tenants, a); }
    var seed := AttachedSeed(base, ds[i]);
    if i == n {
      assert !Seen(before, a);
      QuietFold(seed, before, a, DISCOVERED_TENANT);
      ServesMore(Dormant(base.tenants, a), NewService(d, DISCOVERED_TENANT), a, d.proto, d.port);
    } else {
      AttachedFold(base, before, i);
      assert before[i].addr == a && Seen(before, a);
    }
  }

  lemma UnownedName(ts: seq<Tenant>, a: IpAddr)
    requires !OwnedBy(ts, a)
    ensures NameAt(ts, a) == DISCOVERED_TENANT
  {
  }

  lemma {:induction false} QuietFold(seed: seq<ResolvedService>, ds: seq<DiscoveredService>, a: IpAddr, name: string)
    requires !Seen(ds, a)
    ensures Fold(seed, ds, a, name) == seed
  {
    hide Serves;
    if ds == [] {
    } else {
      var before, d := ds[..|ds| - 1], ds[|ds| - 1];
      SeenMore(before, d, a);
      assert before + [d] == ds;
      QuietFold(seed, before, a, name);
    }
  }

  // ---- What the merged policy ought to say --------------------------------------------------

  /** A managed discovery, the first of its key, of something the base does not already serve. */
  ghost predicate Fresh(base: Policy, ds: seq<DiscoveredService>, j: nat) {
    && j < |ds| && First(ds, j) && Inside(base.prefixes, ds[j].addr)
    && !Serves(Services(base.tenants), ds[j].addr, ds[j].proto, ds[j].port)
  }

  ghost predicate Wanted(base: Policy, ds: seq<DiscoveredService>, s: ResolvedService) {
    exists j: nat :: Fresh(base, ds, j) && s == NewService(ds[j], NameAt(base.tenants, ds[j].addr))
  }

  /** The effective policy resolves, to the base services and the first new discovery of each key. */
  ghost predicate Exact(base: Policy, ds: seq<DiscoveredService>) {
    var m := MergeAll(base, ds);
    && Resolution(m).Ok?
    && forall s :: s in Services(m.tenants) <==> s in Services(base.tenants) || Wanted(base, ds, s)
  }

  ghost predicate RightAt(base: Policy, ds: seq<DiscoveredService>, a: IpAddr) {
    && KeysApart(PerAddress(base, ds, a))
    && forall s :: s in PerAddress(base, ds, a) <==>
                   s.addr == a && (s in Services(base.tenants) || Wanted(base, ds, s))
  }

  lemma AtServes(ss: seq<ResolvedService>, a: IpAddr, proto: L4Proto, port: u16)
    ensures Serves(At(ss, a), a, proto, port) <==> Serves(ss, a, proto, port)
  {
    AtMembers(ss, a);
    var here := At(ss, a);
    if Serves(ss, a, proto, port) {
      var i :| 0 <= i < |ss| && ss[i].addr == a && ss[i].proto == proto && ss[i].port == port;
      assert ss[i] in here;
    }
    if Serves(here, a, proto, port) {
      var i :| 0 <= i < |here| && here[i].addr == a && here[i].proto == proto && here[i].port == port;
      assert here[i] in ss;
    }
  }

  lemma OwnedIsRight(base: Policy, ds: seq<DiscoveredService>, a: IpAddr)
    requires KeysApart(Services(base.tenants)) && OwnedBy(base.tenants, a) && Inside(base.prefixes, a)
    ensures RightAt(base, ds, a)
  {
    hide Fold, PerAddress, Services, Inside, OwnedBy, First, NameAt, KeysApart, At;
    var ss, name := Services(base.tenants), NameAt(base.tenants, a);
    var seed := At(ss, a);
    OwnedFold(base, ds, a);
    KeysApartByAddress(ss);
    FoldApart(seed, ds, a, name);
    AtMembers(ss, a);
    forall j: nat
      ensures TakenUp(seed, ds, a, j) <==> Fresh(base, ds, j) && ds[j].addr == a
    {
      if j < |ds| && ds[j].addr == a {
        AtServes(ss, a, ds[j].proto, ds[j].port);
      }
    }
    hide Serves;
    forall s
      ensures s in PerAddress(base, ds, a) <==> s.addr == a && (s in ss || Wanted(base, ds, s))
    {
      FoldMembers(seed, ds, a, name, s);
      SameWanted(base, ds, seed, a, s);
    }
  }

  lemma SameWanted(base: Policy, ds: seq<DiscoveredService>, seed: seq<ResolvedService>, a: IpAddr, s: ResolvedService)
    requires forall j: nat :: TakenUp(seed, ds, a, j) <==> Fresh(base, ds, j) && ds[j].addr == a
    ensures (exists j: nat :: TakenUp(seed, ds, a, j) && s == NewService(ds[j], NameAt(base.tenants, a))) <==>
            s.addr == a && Wanted(base, ds, s)
  {
    hide TakenUp, First, Inside, Serves;
    if s.addr == a && Wanted(base, ds, s) {
      var j: nat :| Fresh(base, ds, j) && s == NewService(ds[j], NameAt(base.tenants, ds[j].addr));
      assert TakenUp(seed, ds, a, j);
    }
  }

  lemma UntouchedIsRight(base: Policy, ds: seq<DiscoveredService>, a: IpAddr)
    requires KeysApart(Services(base.tenants))
    requires !Inside(base.prefixes, a) || !Seen(ds, a)
    ensures RightAt(base, ds, a)
  {
    hide Services, Inside, KeysApart, PerAddress;
    UntouchedFold(base, ds, a);
    KeysApartByAddress(Services(base.tenants));
    AtMembers(Services(base.tenants), a);
  }

  // ---- An address attached to the synthetic tenant --------------------------------------------

  /** What already lies dormant for the address is no more than what the discoveries ask for. */
  ghost predicate Harmless(base: Policy, ds: seq<DiscoveredService>, i: nat)
    requires i < |ds|
  {
    var dormant := Dormant(base.tenants, ds[i].addr);
    && KeysApart(dormant)
    && !Serves(dormant, ds[i].addr, ds[i].proto, ds[i].port)
    && forall s :: s in dormant ==> Wanted(base, ds, s)
  }

  lemma WantedIsUnique(base: Policy, ds: seq<DiscoveredService>, s: ResolvedService, s': ResolvedService)
    requires Wanted(base, ds, s) && Wanted(base, ds, s') && SameKey(s, s')
    ensures s == s'
  {
    hide Inside, Serves, NameAt;
    var j: nat :| Fresh(base, ds, j) && s == NewService(ds[j], NameAt(base.tenants, ds[j].addr));
    var k: nat :| Fresh(base, ds, k) && s' == NewService(ds[k], NameAt(base.tenants, ds[k].addr));
    assert SameDiscovery(ds[j], ds[k]) && SameDiscovery(ds[k], ds[j]);
    assert !(j < k) && !(k < j);
  }

  lemma DormantIsHere(ts: seq<Tenant>, a: IpAddr, s: ResolvedService)
    requires s in Dormant(ts, a)
    ensures s.addr == a
  {
    hide Named;
    match Named(ts, DISCOVERED_TENANT)
    case Some(i) =>
      AtExpand(ts[i].allows, a, DISCOVERED_TENANT, a);
      AtMembers(Expand(ts[i].allows, a, DISCOVERED_TENANT), a);
    case None =>
  }

  lemma UnownedIsUnserved(ts: seq<Tenant>, a: IpAddr)
    requires OwnersApart(ts) && !OwnedBy(ts, a)
    ensures forall s :: s in Services(ts) ==> s.addr != a
    ensures forall proto, port :: !Serves(Services(ts), a, proto, port)
  {
    hide OwnersApart, Services;
    AtOwner(ts, a);
    AtMembers(Services(ts), a);
    forall s | s in Services(ts)
      ensures s.addr != a
    {
      assert s !in At(Services(ts), a);
    }
  }

  lemma AttachedIsWanted(base: Policy, ds: seq<DiscoveredService>, i: nat)
    requires OwnersApart(base.tenants) && Attached(base, ds, i)
    ensures Wanted(base, ds, NewService(ds[i], DISCOVERED_TENANT))
  {
    hide OwnersApart, OwnedBy, Inside, Services, Serves;
    UnownedIsUnserved(base.tenants, ds[i].addr);
    UnownedName(base.tenants, ds[i].addr);
    assert Fresh(base, ds, i);
  }

  /** Every service at an attached address is dormant or wanted. */
  lemma AttachedMembers(base: Policy, ds: seq<DiscoveredService>, i: nat, s: ResolvedService)
    requires OwnersApart(base.tenants) && Attached(base, ds, i)
    ensures s in PerAddress(base, ds, ds[i].addr) ==>
              s.addr == ds[i].addr && (s in Dormant(base.tenants, ds[i].addr) || Wanted(base, ds, s))
    ensures s in Dormant(base.tenants, ds[i].addr) ==> s in PerAddress(base, ds, ds[i].addr)
    ensures s.addr == ds[i].addr && Wanted(base, ds, s) ==>
              || s in PerAddress(base, ds, ds[i].addr)
              || Serves(AttachedSeed(base, ds[i]), s.addr, s.proto, s.port)
  {
    hide OwnersApart, OwnedBy, Inside, Services, Serves, PerAddress, Fold, First, Dormant;
    var a, seed := ds[i].addr, AttachedSeed(base, ds[i]);
    AttachedIsWanted(base, ds, i);
    AttachedFold(base, ds, i);
    FoldMembers(seed, ds, a, DISCOVERED_TENANT, s);
    UnownedIsUnserved(base.tenants, a);
    UnownedName(base.tenants, a);
    hide NameAt;
    assert forall j: nat :: TakenUp(seed, ds, a, j) ==> Fresh(base, ds, j);
    if s in Dormant(base.tenants, a) {
      DormantIsHere(base.tenants, a, s);
    }
    if s.addr == a && Wanted(base, ds, s) {
      var j: nat :| Fresh(base, ds, j) && s == NewService(ds[j], NameAt(base.tenants, ds[j].addr));
      assert TakenUp(seed, ds, a, j) || Serves(seed, a, ds[j].proto, ds[j].port);
    }
  }

  /** An attached address comes out right exactly when its dormant rules are harmless. */
  lemma AttachedIsRight(base: Policy, ds: seq<DiscoveredService>, i: nat)
    requires OwnersApart(base.tenants) && Attached(base, ds, i)
    ensures RightAt(base, ds, ds[i].addr) <==> Harmless(base, ds, i)
  {
    hide OwnersApart, OwnedBy, Inside, Services, PerAddress, Fold, First, Dormant, Wanted, KeysApart;
    var a, dormant, first := ds[i].addr, Dormant(base.tenants, ds[i].addr), NewService(ds[i], DISCOVERED_TENANT);
    var seed := AttachedSeed(base, ds[i]);
    AttachedFold(base, ds, i);
    AttachedIsWanted(base, ds, i);
    FoldApart(seed, ds, a, DISCOVERED_TENANT);
    KeysApartStep(dormant, first);
    NotServedIsApart(dormant, first);
    UnownedIsUnserved(base.tenants, a);
    forall s
      ensures s in PerAddress(base, ds, a) ==> s.addr == a && (s in dormant || Wanted(base, ds, s))
      ensures s in dormant ==> s in PerAddress(base, ds, a)
    {
      AttachedMembers(base, ds, i, s);
    }
    if Harmless(base, ds, i) {
      forall s: ResolvedService | s.addr == a && Wanted(base, ds, s)
        ensures s in PerAddress(base, ds, a)
      {
        HarmlessHolds(base, ds, i, s);
      }
    }
  }

  lemma HarmlessHolds(base: Policy, ds: seq<DiscoveredService>, i: nat, s: ResolvedService)
    requires OwnersApart(base.tenants) && Attached(base, ds, i) && Harmless(base, ds, i)
    requires s.addr == ds[i].addr && Wanted(base, ds, s)
    ensures s in PerAddress(base, ds, ds[i].addr)
  {
    hide OwnersApart, OwnedBy, Inside, Services, PerAddress, Dormant, Wanted, KeysApart;
    var seed := AttachedSeed(base, ds[i]);
    AttachedMembers(base, ds, i, s);
    if Serves(seed, s.addr, s.proto, s.port) {
      var k :| 0 <= k < |seed| && seed[k].addr == s.addr && seed[k].proto == s.proto && seed[k].port == s.port;
      AttachedIsWanted(base, ds, i);
      assert Wanted(base, ds, seed[k]) by {
        assert seed[k] in Dormant(base.tenants, ds[i].addr) || seed[k] == NewService(ds[i], DISCOVERED_TENANT);
      }
      WantedIsUnique(base, ds, seed[k], s);
      SeedStays(base, ds, i, s);
    }
  }

  lemma SeedStays(base: Policy, ds: seq<DiscoveredService>, i: nat, s: ResolvedService)
    requires Attached(base, ds, i) && s in AttachedSeed(base, ds[i])
    ensures s in PerAddress(base, ds, ds[i].addr)
  {
    hide PerAddress;
    AttachedFold(base, ds, i);
    FoldMembers(AttachedSeed(base, ds[i]), ds, ds[i].addr, DISCOVERED_TENANT, s);
  }

  // ---- The whole policy ------------------------------------------------------------------------

  lemma InsideByOwner(p: Policy)
    ensures AllInside(p) <==> forall a :: OwnedBy(p.tenants, a) ==> Inside(p.prefixes, a)
  {
    hide Inside;
    if AllInside(p) {
      forall a | OwnedBy(p.tenants, a)
        ensures Inside(p.prefixes, a)
      {
        var i :| 0 <= i < |p.tenants| && a in p.tenants[i].owned;
        var j :| 0 <= j < |p.tenants[i].owned| && p.tenants[i].owned[j] == a;
      }
    }
    if forall a :: OwnedBy(p.tenants, a) ==> Inside(p.prefixes, a) {
      forall i, j | 0 <= i < |p.tenants| && 0 <= j < |p.tenants[i].owned|
        ensures Inside(p.prefixes, p.tenants[i].owned[j])
      {
        assert OwnedBy(p.tenants, p.tenants[i].owned[j]);
      }
    }
  }

  lemma ExactByAddress(base: Policy, ds: seq<DiscoveredService>)
    requires Resolution(base).Ok?
    ensures Exact(base, ds) <==> forall a :: RightAt(base, ds, a)
  {
    hide Resolution, AllInside, OwnersApart, KeysApart, Inside, OwnedBy, Services, Wanted, PerAddress, At, MergeAll;
    hide NameAt, Dormant, Seen;
    var m := MergeAll(base, ds);
    ResolvesExactly(base);
    ResolvesExactly(m);
    InsideByOwner(base);
    InsideByOwner(m);
    KeysApartByAddress(Services(m.tenants));
    forall a: IpAddr
      ensures m.prefixes == base.prefixes && OwnersApart(m.tenants)
      ensures OwnedBy(m.tenants, a) ==> Inside(m.prefixes, a)
      ensures At(Services(m.tenants), a) == PerAddress(base, ds, a)
      ensures forall s :: s in PerAddress(base, ds, a) <==> s in Services(m.tenants) && s.addr == a
    {
      MergedAll(base, ds, a);
      AtMembers(Services(m.tenants), a);
    }
    SomeAddress(base, ds);
    if Exact(base, ds) {
      forall a: IpAddr
        ensures RightAt(base, ds, a)
      {
        assert KeysApart(At(Services(m.tenants), a));
      }
    }
    if forall a :: RightAt(base, ds, a) {
      forall s: ResolvedService
        ensures s in Services(m.tenants) <==> s in Services(base.tenants) || Wanted(base, ds, s)
      {
        assert RightAt(base, ds, s.addr);
        assert s in Services(m.tenants) <==> s in PerAddress(base, ds, s.addr);
      }
      forall a: IpAddr
        ensures KeysApart(At(Services(m.tenants), a))
      {
        assert RightAt(base, ds, a);
      }
    }
  }

  lemma SomeAddress(base: Policy, ds: seq<DiscoveredService>)
    requires OwnersApart(base.tenants)
    ensures OwnersApart(MergeAll(base, ds).tenants)
  {
    MergedAll(base, ds, V4([0, 0, 0, 0]));
  }

  /** Reconciling is exact if and only if no attached address meets harmful dormant rules. */
  lemma ExactlyWhenHarmless(base: Policy, ds: seq<DiscoveredService>)
    requires Resolution(base).Ok?
    ensures Exact(base, ds) <==> forall i: nat :: Attached(base, ds, i) ==> Harmless(base, ds, i)
  {
    hide Resolution, AllInside, OwnersApart, KeysApart, Inside, OwnedBy, Services, Exact, RightAt, Harmless;
    ExactByAddress(base, ds);
    ResolvesExactly(base);
    InsideByOwner(base);
    forall i: nat | Attached(base, ds, i)
      ensures RightAt(base, ds, ds[i].addr) <==> Harmless(base, ds, i)
    {
      AttachedIsRight(base, ds, i);
    }
    if forall i: nat :: Attached(base, ds, i) ==> Harmless(base, ds, i) {
      forall a: IpAddr
        ensures RightAt(base, ds, a)
      {
        if OwnedBy(base.tenants, a) {
          OwnedIsRight(base, ds, a);
        } else if !Inside(base.prefixes, a) || !Seen(ds, a) {
          UntouchedIsRight(base, ds, a);
        } else {
          var i := FirstSeen(ds, a);
          assert Attached(base, ds, i);
        }
      }
    }
  }

  lemma {:induction false} FirstSeen(ds: seq<DiscoveredService>, a: IpAddr) returns (i: nat)
    requires Seen(ds, a)
    ensures i < |ds| && ds[i].addr == a && forall k :: 0 <= k < i ==> ds[k].addr != a
  {
    i := 0;
    while ds[i].addr != a
      invariant i < |ds| && forall k :: 0 <= k < i ==> ds[k].addr != a
      decreases |ds| - i
    {
      var j :| 0 <= j < |ds| && ds[j].addr == a;
      i := i + 1;
    }
  }

  /** Without a configured tenant called `discovered`, reconciling is always exact. */
  lemma ExactWithoutSynthetic(base: Policy, ds: seq<DiscoveredService>)
    requires Resolution(base).Ok?
    requires forall i :: 0 <= i < |base.tenants| ==> base.tenants[i].name != DISCOVERED_TENANT
    ensures Exact(base, ds)
  {
    hide Resolution, Exact, Wanted;
    assert Named(base.tenants, DISCOVERED_TENANT).None?;
    ExactlyWhenHarmless(base, ds);
  }

  /** The keys then open: the base's and the managed discoveries', and no other. */
  lemma KeysWhenExact(base: Policy, ds: seq<DiscoveredService>, a: IpAddr, proto: L4Proto, port: u16)
    requires Exact(base, ds)
    ensures Serves(Services(MergeAll(base, ds).tenants), a, proto, port) <==>
            Serves(Services(base.tenants), a, proto, port) || (Inside(base.prefixes, a) && Mentions(ds, a, proto, port))
  {
    hide Resolution, Services, MergeAll, Inside, NameAt;
    var old', now := Services(base.tenants), Services(MergeAll(base, ds).tenants);
    if Serves(now, a, proto, port) {
      var i :| 0 <= i < |now| && now[i].addr == a && now[i].proto == proto && now[i].port == port;
      assert now[i] in now;
      if Wanted(base, ds, now[i]) {
        var j: nat :| Fresh(base, ds, j) && now[i] == NewService(ds[j], NameAt(base.tenants, ds[j].addr));
      }
    }
    if Serves(old', a, proto, port) {
      var i :| 0 <= i < |old'| && old'[i].addr == a && old'[i].proto == proto && old'[i].port == port;
      assert old'[i] in now;
    } else if Inside(base.prefixes, a) && Mentions(ds, a, proto, port) {
      var j := FirstMention(ds, a, proto, port);
      assert Fresh(base, ds, j);
      assert NewService(ds[j], NameAt(base.tenants, a)) in now;
    }
  }

  lemma {:induction false} FirstMention(ds: seq<DiscoveredService>, a: IpAddr, proto: L4Proto, port: u16) returns (i: nat)
    requires Mentions(ds, a, proto, port)
    ensures First(ds, i) && ds[i].addr == a && ds[i].proto == proto && ds[i].port == port
  {
    var d := DiscoveredService(a, proto, port, Host);
    i := 0;
    while !SameDiscovery(ds[i], d)
      invariant i < |ds| && forall k :: 0 <= k < i ==> !SameDiscovery(ds[k], d)
      decreases |ds| - i
    {
      var j :| 0 <= j < |ds| && ds[j].addr == a && ds[j].proto == proto && ds[j].port == port;
      assert SameDiscovery(ds[j], d);
      i := i + 1;
    }
    forall k | 0 <= k < i
      ensures !SameDiscovery(ds[k], ds[i])
    {
      assert !SameDiscovery(ds[k], d);
    }
  }

  lemma {:induction false} UnscopedApplies(allows: seq<AllowRule>, r: AllowRule, a: IpAddr, name: string)
    requires r in allows && r.scope.None?
    ensures ServiceOf(r, a, name) in Expand(allows, a, name)
  {
    if r != allows[|allows| - 1] {
      UnscopedApplies(allows[..|allows| - 1], r, a, name);
    }
  }

  /** One unscoped rule of a configured `discovered` tenant spoils every discovery that attaches an address. */
  lemma UnscopedRuleOpens(base: Policy, d: DiscoveredService, r: AllowRule)
    requires Resolution(base).Ok? && Inside(base.prefixes, d.addr) && !OwnedBy(base.tenants, d.addr)
    requires var k := Named(base.tenants, DISCOVERED_TENANT);
             k.Some? && r in base.tenants[k.value].allows && r.scope.None?
    ensures !Exact(base, [d])
  {
    hide Resolution, Exact, Inside, Named, Services, NameAt;
    var ds := [d];
    var s := ServiceOf(r, d.addr, DISCOVERED_TENANT);
    ExactlyWhenHarmless(base, ds);
    UnscopedApplies(base.tenants[Named(base.tenants, DISCOVERED_TENANT).value].allows, r, d.addr, DISCOVERED_TENANT);
    hide Expand;
    assert Attached(base, ds, 0);
    assert Wanted(base, ds, s) ==> SameKey(s, NewService(d, DISCOVERED_TENANT));
    NotServedIsApart(Dormant(base.tenants, d.addr), NewService(d, DISCOVERED_TENANT));
  }

  /** The smallest such policy: one prefix, and a `discovered` tenant that owns nothing yet. */
  lemma DormantRuleOpens(net: IpNet)
    ensures var base := Policy([net], [Tenant(DISCOVERED_TENANT, [], [AllowRule(Tcp, 22, Host, None)])]);
            Resolution(base).Ok? && !Exact(base, [DiscoveredService(net.addr, Tcp, 80, Host)])
  {
    hide Exact;
    var rule := AllowRule(Tcp, 22, Host, None);
    var base := Policy([net], [Tenant(DISCOVERED_TENANT, [], [rule])]);
    assert Services(base.tenants) == [];
    assert Named(base.tenants, DISCOVERED_TENANT) == Some(0);
    ResolvesExactly(base);
    hide Resolution, Services, Named;
    assert Contains(base.prefixes[0], net.addr);
    hide Contains;
    UnscopedRuleOpens(base, DiscoveredService(net.addr, Tcp, 80, Host), rule);
  }

  // ---- Reconciling again changes nothing --------------------------------------------------------

  lemma CoversMore(allows: seq<AllowRule>, r: AllowRule, d: DiscoveredService)
    ensures RuleCovers(allows, d) ==> RuleCovers(allows + [r], d)
    ensures r == RuleOf(d) ==> RuleCovers(allows + [r], d)
  {
    var all := allows + [r];
    if j :| 0 <= j < |allows| && allows[j].proto == d.proto && allows[j].port == d.port && Applies(allows[j], d.addr) {
      assert all[j] == allows[j];
    }
    assert all[|allows|] == r;
  }

  /** A merge keeps what is already covered, and covers its own discovery. */
  lemma MergeCovers(p: Policy, e: DiscoveredService, d: DiscoveredService)
    ensures ServiceExists(p.tenants, d) || (e == d && Inside(p.prefixes, d.addr)) ==>
              ServiceExists(Merge(p, e).tenants, d)
    ensures Merge(p, e).prefixes == p.prefixes
  {
    hide RuleCovers, Inside;
    var ts, ts' := p.tenants, Merge(p, e).tenants;
    forall i | 0 <= i < |ts|
      ensures RuleCovers(ts[i].allows, d) ==> RuleCovers(ts[i].allows + [RuleOf(e)], d)
      ensures e == d ==> RuleCovers(ts[i].allows + [RuleOf(e)], d)
    {
      CoversMore(ts[i].allows, RuleOf(e), d);
    }
    CoversMore([], RuleOf(e), d);
    assert [] + [RuleOf(e)] == [RuleOf(e)];
    if ServiceExists(ts, d) {
      var i :| 0 <= i < |ts| && d.addr in ts[i].owned && RuleCovers(ts[i].allows, d);
      assert d.addr in ts'[i].owned && RuleCovers(ts'[i].allows, d);
    } else if e == d && Inside(p.prefixes, d.addr) {
      var k :=
        match OwningTenant(ts, d.addr)
        case Some(i) => i
        case None =>
          match Named(ts, DISCOVERED_TENANT)
          case Some(i) => i
          case None => |ts|;
      assert d.addr in ts'[k].owned && RuleCovers(ts'[k].allows, d);
    }
  }

  lemma {:induction false} AllCovered(base: Policy, ds: seq<DiscoveredService>, k: nat)
    requires k < |ds|
    ensures MergeAll(base, ds).prefixes == base.prefixes
    ensures Inside(base.prefixes, ds[k].addr) ==> ServiceExists(MergeAll(base, ds).tenants, ds[k])
  {
    hide Inside, ServiceExists, Merge;
    var before, d := ds[..|ds| - 1], ds[|ds| - 1];
    MergeCovers(MergeAll(base, before), d, ds[k]);
    if k < |before| {
      AllCovered(base, before, k);
    } else if before != [] {
      AllCovered(base, before, 0);
    }
  }

  lemma {:induction false} ReconcileTwice(base: Policy, ds: seq<DiscoveredService>, n: nat)
    requires n <= |ds|
    ensures var m := MergeAll(base, ds); MergeAll(m, ds[..n]) == m
  {
    hide Inside, ServiceExists;
    if n == 0 {
    } else {
      ReconcileTwice(base, ds, n - 1);
      assert ds[..n][..n - 1] == ds[..n - 1];
      AllCovered(base, ds, n - 1);
    }
  }

  lemma ReconcileIsIdempotent(base: Policy, ds: seq<DiscoveredService>)
    ensures MergeAll(MergeAll(base, ds), ds) == MergeAll(base, ds)
  {
    ReconcileTwice(base, ds, |ds|);
    assert ds[..|ds|] == ds;
  }
}
