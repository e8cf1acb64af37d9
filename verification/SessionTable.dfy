/** The peer's table against the desired state, on every run of the session. */
module SessionTable {
  import opened Bytes
  import opened Net
  import opened Message
  import opened Framing
  import opened Reference
  import opened Update
  import opened FlowSpec
  import opened Rib
  import opened Session

  // ---- One message, as the peer sees it ----------------------------------------------------

  /** The effect of a message on the peer's table, said without bytes. */
  function TableAfter(t: Table, m: OutMsg): Table {
    match m
    case AnnounceOut(r) => if Size(r) > MAX_LEN then map[] else t[Unicast(Trunc(r.prefix)) := PathOfRoute(r)]
    case WithdrawOut(p) => t - {Unicast(Trunc(p))}
    case FlowAnnounceOut(rule) => t[Matches(rule) := PathOfRule(rule)]
    case FlowWithdrawOut(rule) => t - {Matches(rule)}
    case _ => t
  }

  lemma {:induction false} OneChange(t: Table, c: Change)
    ensures ApplyChanges(t, [c]) == if c.Reach? then t[c.dest := c.path] else t - {c.dest}
  {
    assert [c][..0] == [];
    assert ApplyChanges(t, []) == t;
  }

  /** A message of another type leaves the table alone. */
  lemma {:induction false} NotAnUpdate(t: Table, ty: byte, body: seq<byte>)
    requires |body| <= 100 && ty != UpdateType.Code() && DecodeMessage(Frame(ty, body)).Ok?
    ensures PeerApply(t, Frame(ty, body)) == t
  {
    FrameParses(ty, body);
    hide ChangesOfBody, OpenOf, Frame;
  }

  /** The bytes of every message this speaker can build do to the peer's table what the message means. */
  lemma {:induction false} PeerReads(t: Table, m: OutMsg)
    ensures PeerApply(t, WireBytes(m)) == TableAfter(t, m)
  {
    hide Changes, Trunc, Matches;
    match m
    case OpenOut(o) =>
      OpenRoundTrip(o);
      NotAnUpdate(t, OpenType.Code(), OpenBody(o));
    case KeepaliveOut =>
      KeepaliveRoundTrip();
      NotAnUpdate(t, KeepaliveType.Code(), []);
    case NotificationOut(code, subcode) =>
      NotificationRoundTrip(NotificationMsg(code, subcode, []));
      NotAnUpdate(t, NotificationType.Code(), [code, subcode] + []);
    case AnnounceOut(r) => AnnounceIsRead(t, r);
    case WithdrawOut(p) =>
      WithdrawReads(p);
      OneChange(t, Unreach(Unicast(Trunc(p))));
    case FlowAnnounceOut(rule) =>
      FlowAnnounceReads(rule);
      OneChange(t, Reach(Matches(rule), PathOfRule(rule)));
    case FlowWithdrawOut(rule) =>
      FlowWithdrawReads(rule);
      OneChange(t, Unreach(Matches(rule)));
  }

  lemma {:induction false} AnnounceIsRead(t: Table, r: Route)
    requires Buildable(r)
    ensures PeerApply(t, AnnounceBytes(r)) == TableAfter(t, AnnounceOut(r))
  {
    hide Changes, Trunc, AnnounceBody;
    AnnounceReads(r);
    if Size(r) <= MAX_LEN {
      OneChange(t, Reach(Unicast(Trunc(r.prefix)), PathOfRoute(r)));
    } else {
      FrameParses(UpdateType.Code(), AnnounceBody(r));
    }
  }

  /** The table of a connection, message by message. */
  function TraceTable(trace: seq<Io>): Table {
    if trace == [] then map[]
    else
      var t := TraceTable(trace[..|trace| - 1]);
      match trace[|trace| - 1]
      case Sent(m) => TableAfter(t, m)
      case _ => t
  }

  lemma {:induction false} WireIsTrace(trace: seq<Io>)
    ensures WireTable(trace) == TraceTable(trace)
  {
    hide PeerApply, TableAfter;
    if trace == [] {
    } else {
      WireIsTrace(trace[..|trace| - 1]);
      match trace[|trace| - 1]
      case Sent(m) => PeerReads(TraceTable(trace[..|trace| - 1]), m);
      case _ =>
    }
  }

  lemma {:induction false} TraceTableMore(trace: seq<Io>, io: Io)
    ensures TraceTable(trace + [io]) == if io.Sent? then TableAfter(TraceTable(trace), io.m) else TraceTable(trace)
  {
    assert (trace + [io])[..|trace|] == trace;
  }

  // ---- The desired state as entries -----------------------------------------------------------

  /** Every entry sits under its own key. */
  ghost predicate Tidy(d: Desired) {
    && (forall p :: p in d.active ==> d.active[p].prefix == p)
    && (forall k :: k in d.flows ==> FlowNlriBytes(d.flows[k]) == k)
  }

  ghost function RouteEntry(r: Route): Entry {
    Entry(Unicast(Trunc(r.prefix)), PathOfRoute(r))
  }

  ghost function RuleEntry(rule: FlowSpecRule): Entry {
    Entry(Matches(rule), PathOfRule(rule))
  }

  ghost predicate HasKey(d: Desired, k: Key) {
    if k.RouteKey? then k.prefix in d.active else k.nlri in d.flows
  }

  ghost function EntryAt(d: Desired, k: Key): Entry
    requires HasKey(d, k)
  {
    if k.RouteKey? then RouteEntry(d.active[k.prefix]) else RuleEntry(d.flows[k.nlri])
  }

  ghost function ViewOf(d: Desired): (v: View)
    ensures forall k :: k in v <==> HasKey(d, k)
    ensures forall k :: k in v ==> v[k] == EntryAt(d, k)
  {
    (map p | p in d.active :: RouteKey(p) := RouteEntry(d.active[p]))
    + (map k | k in d.flows :: FlowKey(k) := RuleEntry(d.flows[k]))
  }

  function KeyOf(c: Command): Key {
    match c
    case Announce(r) => RouteKey(r.prefix)
    case Withdraw(p) => RouteKey(p)
    case AnnounceFlowSpec(rule) => FlowKey(FlowNlriBytes(rule))
    case WithdrawFlowSpec(rule) => FlowKey(FlowNlriBytes(rule))
  }

  function DestOf(c: Command): Dest {
    match c
    case Announce(r) => Unicast(Trunc(r.prefix))
    case Withdraw(p) => Unicast(Trunc(p))
    case AnnounceFlowSpec(rule) => Matches(rule)
    case WithdrawFlowSpec(rule) => Matches(rule)
  }

  predicate IsPut(c: Command) {
    c.Announce? || c.AnnounceFlowSpec?
  }

  ghost function EntryOf(c: Command): Entry
    requires IsPut(c)
  {
    if c.Announce? then RouteEntry(c.route) else RuleEntry(c.rule)
  }

  lemma TidyAfter(d: Desired, c: Command)
    requires Tidy(d)
    ensures Tidy(Apply(d, c))
  {
    hide FlowNlriBytes;
  }

  lemma ViewAfterAt(d: Desired, c: Command, k: Key)
    ensures HasKey(Apply(d, c), k) <==> if k == KeyOf(c) then IsPut(c) else HasKey(d, k)
    ensures HasKey(Apply(d, c), k) ==> EntryAt(Apply(d, c), k) == if k == KeyOf(c) then EntryOf(c) else EntryAt(d, k)
  {
    hide FlowNlriBytes, RouteEntry, RuleEntry;
  }

  /** A command puts or removes the one entry under its key. */
  lemma ViewAfter(d: Desired, c: Command)
    requires Tidy(d)
    ensures Tidy(Apply(d, c))
    ensures ViewOf(Apply(d, c)) == if IsPut(c) then ViewOf(d)[KeyOf(c) := EntryOf(c)] else ViewOf(d) - {KeyOf(c)}
  {
    hide HasKey, EntryAt, ViewOf, Apply, KeyOf, EntryOf, Tidy;
    TidyAfter(d, c);
    forall k: Key
      ensures HasKey(Apply(d, c), k) <==> if k == KeyOf(c) then IsPut(c) else HasKey(d, k)
      ensures HasKey(Apply(d, c), k) ==> EntryAt(Apply(d, c), k) == if k == KeyOf(c) then EntryOf(c) else EntryAt(d, k)
    {
      ViewAfterAt(d, c, k);
    }
  }

  /** A key determines its destination; for FlowSpec because the encoding is injective on traffic. */
  lemma KeyFixesDest(d: Desired, c: Command)
    requires Tidy(d) && KeyOf(c) in ViewOf(d)
    ensures ViewOf(d)[KeyOf(c)].dest == DestOf(c)
  {
    hide FlowNlriBytes, Trunc, Matches;
    if c.AnnounceFlowSpec? || c.WithdrawFlowSpec? {
      var k := FlowNlriBytes(c.rule);
      assert FlowKey(k) in ViewOf(d) && k in d.flows;
      KeyIsTraffic(d.flows[k], c.rule);
    }
  }

  function FamilyOf(dest: Dest): AnnounceSafi {
    if dest.Unicast? then ForRoute(dest.net) else ForFlowSpec(dest.dst)
  }

  /** The AFI and SAFI of a destination: 1 and 2 for the IP versions, 1 for unicast and 133 for FlowSpec. */
  function AfiSafi(dest: Dest): (u16, byte) {
    match dest
    case Unicast(net) => if net.addr.V4? then (1, 1) else (2, 1)
    case Flow(dst, _, _) => if dst.addr.V4? then (1, 133) else (2, 133)
  }

  /** An OPEN offers a family by the capability of that AFI and SAFI. */
  predicate Advertised(peer: OpenMsg, family: (u16, byte)) {
    || (family == (1, 1) && peer.ipv4Unicast)
    || (family == (2, 1) && peer.ipv6Unicast)
    || (family == (1, 133) && peer.flowspecV4)
    || (family == (2, 133) && peer.flowspecV6)
  }

  /** The destinations whose family the peer advertised; IPv4 unicast needs no capability. */
  ghost function Takes(peer: OpenMsg): iset<Dest> {
    iset dest | AfiSafi(dest) == (1, 1) || Advertised(peer, AfiSafi(dest))
  }

  /** The gate opens for exactly the destinations the peer takes. */
  lemma GateIsTakes(peer: OpenMsg, dest: Dest)
    ensures AnnounceAllowed(peer, FamilyOf(dest)) <==> dest in Takes(peer)
    ensures AfiSafi(dest) ==
            match FamilyOf(dest)
            case Ipv4Unicast => (1, 1)
            case Ipv6Unicast => (2, 1)
            case FlowSpecV4 => (1, 133)
            case FlowSpecV6 => (2, 133)
  {
  }

  lemma FamilyIsGate(c: Command)
    ensures FamilyOf(DestOf(c)) == SafiOf(UpdateFor(c))
    ensures forall peer :: AnnounceAllowed(peer, SafiOf(UpdateFor(c))) <==> DestOf(c) in Takes(peer)
  {
    match c
    case Announce(r) => TruncShape(r.prefix);
    case Withdraw(p) => TruncShape(p);
    case AnnounceFlowSpec(rule) => TruncShape(rule.dst);
    case WithdrawFlowSpec(rule) => TruncShape(rule.dst);
  }

  // ---- Which commands are safe ------------------------------------------------------------------

  /** The announce can be built and keeps to the 4096-octet limit. */
  predicate Sendable(c: Command) {
    c.Announce? ==> Buildable(c.route) && Size(c.route) <= MAX_LEN
  }

  /** No other active prefix has the same network bits and, for an announce, another path. */
  ghost predicate NoConflict(d: Desired, c: Command) {
    match c
    case Announce(r) =>
      forall p :: p in d.active && p != r.prefix && Trunc(p) == Trunc(r.prefix) ==>
                    PathOfRoute(d.active[p]) == PathOfRoute(r)
    case Withdraw(q) => forall p :: p in d.active && p != q ==> Trunc(p) != Trunc(q)
    case _ => true
  }

  ghost predicate Safe(d: Desired, c: Command) {
    Sendable(c) && NoConflict(d, c)
  }

  ghost predicate AllSafe(cs: seq<Command>) {
    forall i :: 0 <= i < |cs| ==> Safe(Replay(cs[..i]), cs[i])
  }

  lemma FlowKeysAreApart(d: Desired, rule: FlowSpecRule, k: Key)
    requires Tidy(d) && k in ViewOf(d) && k != FlowKey(FlowNlriBytes(rule))
    ensures ViewOf(d)[k].dest != Matches(rule)
  {
    hide FlowNlriBytes, Trunc;
    if k.FlowKey? {
      KeyIsTraffic(d.flows[k.nlri], rule);
    }
  }

  /** The caller's condition is the table's. */
  lemma ConflictIsDispute(d: Desired, c: Command)
    requires Tidy(d)
    ensures NoConflict(d, c) <==>
            if IsPut(c) then PutIsSafe(ViewOf(d), KeyOf(c), EntryOf(c)) else RemoveIsSafe(ViewOf(d), KeyOf(c), DestOf(c))
  {
    hide FlowNlriBytes, Trunc, Matches, PathOfRoute, PathOfRule, ViewOf;
    var v := ViewOf(d);
    match c
    case Announce(r) =>
      UnicastDestinations(d, r.prefix);
      if !NoConflict(d, c) {
        var p :| p in d.active && p != r.prefix && Trunc(p) == Trunc(r.prefix)
          && PathOfRoute(d.active[p]) != PathOfRoute(r);
        assert HasKey(d, RouteKey(p)) && v[RouteKey(p)].dest == EntryOf(c).dest && v[RouteKey(p)] != EntryOf(c);
      }
    case Withdraw(q) =>
      UnicastDestinations(d, q);
      if !NoConflict(d, c) {
        var p :| p in d.active && p != q && Trunc(p) == Trunc(q);
        assert HasKey(d, RouteKey(p)) && v[RouteKey(p)].dest == DestOf(c);
      }
    case _ =>
      forall k | k in v && k != KeyOf(c)
        ensures v[k].dest != DestOf(c)
      {
        FlowKeysAreApart(d, c.rule, k);
      }
  }

  /** Only prefixes with the same network bits compete for a unicast destination. */
  lemma UnicastDestinations(d: Desired, q: IpNet)
    requires Tidy(d)
    ensures forall k :: k in ViewOf(d) && ViewOf(d)[k].dest == Unicast(Trunc(q)) ==>
                          k.RouteKey? && k.prefix in d.active && Trunc(k.prefix) == Trunc(q)
  {
    hide ViewOf, Trunc, FlowNlriBytes;
    forall k | k in ViewOf(d) && ViewOf(d)[k].dest == Unicast(Trunc(q))
      ensures k.RouteKey? && k.prefix in d.active && Trunc(k.prefix) == Trunc(q)
    {
      if k.FlowKey? {
        MatchesIsFlow(d.flows[k.nlri]);
      }
    }
  }

  lemma MatchesIsFlow(rule: FlowSpecRule)
    ensures Matches(rule).Flow?
  {
  }

  lemma CoherentAfter(d: Desired, c: Command)
    requires Tidy(d) && Coherent(ViewOf(d)) && NoConflict(d, c)
    ensures Coherent(ViewOf(Apply(d, c)))
  {
    hide ViewOf, NoConflict, Apply, Tidy;
    ViewAfter(d, c);
    ConflictIsDispute(d, c);
  }

  /** Prefixes without host bits never conflict. */
  lemma ClearPrefixesAreSafe(cs: seq<Command>)
    requires forall i :: 0 <= i < |cs| ==> Sendable(cs[i])
    requires forall i :: 0 <= i < |cs| && cs[i].Announce? ==> HostBitsClear(cs[i].route.prefix)
    requires forall i :: 0 <= i < |cs| && cs[i].Withdraw? ==> HostBitsClear(cs[i].prefix)
    ensures AllSafe(cs)
  {
    forall i | 0 <= i < |cs|
      ensures NoConflict(Replay(cs[..i]), cs[i])
    {
      ReplayedPrefixes(cs, i);
    }
  }

  /** So a list of blackholes, all host routes that fit one message, is safe in every order. */
  lemma HostRoutesAreSafe(cs: seq<Command>)
    requires forall i :: 0 <= i < |cs| ==> Sendable(cs[i])
    requires forall i :: 0 <= i < |cs| && cs[i].Announce? ==> cs[i].route.prefix.bits == cs[i].route.prefix.addr.Width()
    requires forall i :: 0 <= i < |cs| && cs[i].Withdraw? ==> cs[i].prefix.bits == cs[i].prefix.addr.Width()
    ensures AllSafe(cs)
  {
    hide HostBitsClear, AllSafe, Sendable;
    forall i | 0 <= i < |cs|
      ensures cs[i].Announce? ==> HostBitsClear(cs[i].route.prefix)
      ensures cs[i].Withdraw? ==> HostBitsClear(cs[i].prefix)
    {
      match cs[i]
      case Announce(r) => HostRouteIsClear(r.prefix);
      case Withdraw(p) => HostRouteIsClear(p);
      case _ =>
    }
    ClearPrefixesAreSafe(cs);
  }

  lemma {:induction false} ReplayedPrefixes(cs: seq<Command>, n: nat)
    requires n <= |cs|
    requires forall i :: 0 <= i < |cs| && cs[i].Announce? ==> HostBitsClear(cs[i].route.prefix)
    ensures forall p :: p in Replay(cs[..n]).active ==> HostBitsClear(p)
  {
    if n == 0 {
    } else {
      ReplayedPrefixes(cs, n - 1);
      assert cs[..n][..n - 1] == cs[..n - 1];
    }
  }

  // ---- One live command ---------------------------------------------------------------------------

  /**
   A live command that is written leaves the peer's table right exactly when it is safe: it fits one
   message and no other active prefix with the same network bits disputes the destination.
   */
  lemma LiveCommandExactly(t: Table, d: Desired, c: Command, peer: OpenMsg)
    requires Tidy(d) && Agrees(t, ViewOf(d), Takes(peer))
    requires AnnounceAllowed(peer, SafiOf(UpdateFor(c))) && CanBuild(UpdateFor(c))
    ensures Agrees(TableAfter(t, UpdateFor(c)), ViewOf(Apply(d, c)), Takes(peer)) <==> Safe(d, c)
  {
    hide ViewOf, Apply, Tidy, Trunc, Matches, FlowNlriBytes, NoConflict, Agrees, PutIsSafe, RemoveIsSafe;
    ViewAfter(d, c);
    ConflictIsDispute(d, c);
    FamilyIsGate(c);
    if KeyOf(c) in ViewOf(d) {
      KeyFixesDest(d, c);
    }
    if !Sendable(c) {
      LostTable(ViewOf(d)[KeyOf(c) := EntryOf(c)], Takes(peer), KeyOf(c));
    } else if IsPut(c) {
      PutAgreesExactly(t, ViewOf(d), Takes(peer), KeyOf(c), EntryOf(c));
    } else {
      RemoveAgreesExactly(t, ViewOf(d), Takes(peer), KeyOf(c), DestOf(c));
    }
  }

  lemma LostTable(v: View, ok: iset<Dest>, k: Key)
    requires k in v && v[k].dest in ok
    ensures !Agrees(map[], v, ok)
  {
    assert v[k] == Entry(v[k].dest, v[k].path);
    assert Wanted(v, ok, v[k].dest, v[k].path);
  }

  /** A command the peer's capabilities rule out changes what is wanted, but nothing the peer takes. */
  lemma SkippedCommand(t: Table, d: Desired, c: Command, peer: OpenMsg)
    requires Tidy(d) && Agrees(t, ViewOf(d), Takes(peer))
    requires !AnnounceAllowed(peer, SafiOf(UpdateFor(c)))
    ensures Agrees(t, ViewOf(Apply(d, c)), Takes(peer))
  {
    hide ViewOf, Apply, Tidy, Trunc, Matches, FlowNlriBytes, Agrees;
    ViewAfter(d, c);
    FamilyIsGate(c);
    if KeyOf(c) in ViewOf(d) {
      KeyFixesDest(d, c);
    }
    UntakenChange(t, ViewOf(d), ViewOf(Apply(d, c)), Takes(peer), KeyOf(c), DestOf(c));
  }

  // ---- The invariant of every run ---------------------------------------------------------------------

  ghost predicate AllSendable(d: Desired) {
    forall p :: p in d.active ==> Sendable(Announce(d.active[p]))
  }

  ghost function TodoOf(routes: set<IpNet>, rules: set<seq<byte>>): (todo: set<Key>)
    ensures forall k :: k in todo <==> if k.RouteKey? then k.prefix in routes else k.nlri in rules
  {
    (set p | p in routes :: RouteKey(p)) + (set k | k in rules :: FlowKey(k))
  }

  /** What the peer's table is, phase by phase. */
  ghost predicate TableRight(conn: Conn, d: Desired, t: Table) {
    match conn
    case AwaitOpen => t == map[]
    case AwaitConfirm(_, _) => t == map[]
    case Reannouncing(peer, routes, rules) =>
      && routes <= d.active.Keys && rules <= d.flows.Keys
      && Agrees(t, Without(ViewOf(d), TodoOf(routes, rules)), Takes(peer))
    case Established(peer, _, _) => Agrees(t, ViewOf(d), Takes(peer))
    case Panicked(_) => false
    case _ => true
  }

  ghost predicate DesiredRight(s: State) {
    && s.desired == Replay(s.consumed)
    && Tidy(s.desired) && Coherent(ViewOf(s.desired)) && AllSendable(s.desired)
  }

  ghost predicate TableInv(s: State) {
    DesiredRight(s) && TableRight(s.conn, s.desired, TraceTable(s.trace))
  }

  lemma DesiredAfter(s: State)
    requires DesiredRight(s) && s.queue != [] && Safe(s.desired, s.queue[0])
    ensures DesiredRight(Dequeue(s))
  {
    hide ViewOf, NoConflict, Buildable, FlowNlriBytes;
    var c := s.queue[0];
    ViewAfter(s.desired, c);
    CoherentAfter(s.desired, c);
    assert (s.consumed + [c])[..|s.consumed|] == s.consumed;
  }

  lemma NextIsSafe(s: State)
    requires s.desired == Replay(s.consumed) && s.queue != [] && AllSafe(s.consumed + s.queue)
    ensures Safe(s.desired, s.queue[0])
  {
    var cs := s.consumed + s.queue;
    assert cs[|s.consumed|] == s.queue[0] && cs[..|s.consumed|] == s.consumed;
  }

  lemma TakeCommandKeeps(s: State, written: bool)
    requires TableInv(s) && (s.queue != [] ==> Safe(s.desired, s.queue[0]))
    ensures TableInv(DoTakeCommand(s, written))
  {
    hide DesiredRight, NoConflict, NextFrame, TraceTable, TableAfter, Agrees, ViewOf, Apply;
    if CommandDue(s) {
      var c := s.queue[0];
      assert Tidy(s.desired) by { Unpack(s); }
      DesiredAfter(s);
      var t, peer := TraceTable(s.trace), s.conn.peer;
      var m := UpdateFor(c);
      assert CanBuild(m);
      if AnnounceAllowed(peer, SafiOf(m)) {
        LiveCommandExactly(t, s.desired, c, peer);
        TraceTableMore(s.trace, Io.Sent(m));
      } else {
        SkippedCommand(t, s.desired, c, peer);
      }
      DesiredFrame(Dequeue(s), DoTakeCommand(s, written));
    } else {
      DesiredFrame(s, DoTakeCommand(s, written));
    }
  }

  lemma Unpack(s: State)
    requires DesiredRight(s)
    ensures s.desired == Replay(s.consumed) && Tidy(s.desired)
    ensures Coherent(ViewOf(s.desired)) && AllSendable(s.desired)
  {
  }

  lemma DesiredFrame(s: State, s': State)
    requires DesiredRight(s) && s'.desired == s.desired && s'.consumed == s.consumed
    ensures DesiredRight(s')
  {
  }

  /** The key, entry and gate of a route that is due. */
  lemma RouteIsDue(s: State, p: IpNet)
    requires DesiredRight(s) && RouteDue(s, p) && s.conn.routes <= s.desired.active.Keys
    ensures var r, k, v := s.desired.active[p], RouteKey(p), ViewOf(s.desired);
            && Sendable(Announce(r)) && r.prefix == p && k in v && v[k] == RouteEntry(r)
            && (AnnounceAllowed(s.conn.peer, ForRoute(p)) <==> v[k].dest in Takes(s.conn.peer))
            && TodoOf(s.conn.routes - {p}, s.conn.rules) == TodoOf(s.conn.routes, s.conn.rules) - {k}
  {
    hide TraceTable, Agrees, Without, Trunc, PathOfRoute, Replay;
    assert HasKey(s.desired, RouteKey(p));
    TruncShape(p);
    assert TodoOf(s.conn.routes - {p}, s.conn.rules) == TodoOf(s.conn.routes, s.conn.rules) - {RouteKey(p)};
  }

  lemma ReannounceRouteKeeps(s: State, p: IpNet, written: bool)
    requires TableInv(s)
    ensures TableInv(DoReannounceRoute(s, p, written))
  {
    hide DesiredRight, TraceTable, Agrees, ViewOf, Without, Trunc, PathOfRoute, AnnounceAllowed, Takes, TodoOf;
    DesiredFrame(s, DoReannounceRoute(s, p, written));
    if RouteDue(s, p) {
      Unpack(s);
      RouteIsDue(s, p);
      var r, v, t, peer := s.desired.active[p], ViewOf(s.desired), TraceTable(s.trace), s.conn.peer;
      var todo := TodoOf(s.conn.routes, s.conn.rules);
      if AnnounceAllowed(peer, ForRoute(p)) {
        OneMoreAnnounced(t, v, todo, Takes(peer), RouteKey(p));
        TraceTableMore(s.trace, Io.Sent(AnnounceOut(r)));
      } else {
        OneMoreSkipped(t, v, todo, Takes(peer), RouteKey(p));
      }
    }
  }

  lemma ReannounceRuleKeeps(s: State, key: seq<byte>, written: bool)
    requires TableInv(s)
    ensures TableInv(DoReannounceRule(s, key, written))
  {
    hide DesiredRight, TraceTable, Agrees, ViewOf, Without, Trunc, FlowNlriBytes, PathOfRule;
    DesiredFrame(s, DoReannounceRule(s, key, written));
    if RuleDue(s, key) {
      Unpack(s);
      var rule, v, t, peer := s.desired.flows[key], ViewOf(s.desired), TraceTable(s.trace), s.conn.peer;
      var todo := TodoOf(s.conn.routes, s.conn.rules);
      var k := FlowKey(key);
      assert HasKey(s.desired, k) && v[k] == RuleEntry(rule);
      TruncShape(rule.dst);
      assert TodoOf(s.conn.routes, s.conn.rules - {key}) == todo - {k};
      if AnnounceAllowed(peer, ForFlowSpec(rule.dst)) {
        OneMoreAnnounced(t, v, todo, Takes(peer), k);
        TraceTableMore(s.trace, Io.Sent(FlowAnnounceOut(rule)));
      } else {
        OneMoreSkipped(t, v, todo, Takes(peer), k);
      }
    }
  }

  lemma TakeFrameKeeps(cfg: PeerConfig, s: State, written: bool)
    requires TableInv(s)
    ensures TableInv(DoTakeFrame(cfg, s, written))
  {
    hide DesiredRight, TraceTable, Agrees, ViewOf, Without, DoTakeFrame, NextFrame, HoldSecs, TodoOf;
    var s' := DoTakeFrame(cfg, s, written);
    TakeFrameIs(cfg, s, written);
    DesiredFrame(s, s');
    if FrameDue(s) && InSession(s'.conn) {
      var got, turn := Got(NextFrame(s.buf).msg, s.now), TurnOf(cfg, s, NextFrame(s.buf).msg, written);
      TraceTableMore(s.trace, got);
      if turn.reply.Some? {
        TraceTableMore(s.trace + [got], turn.reply.value);
      }
      if s'.conn.Reannouncing? {
        var todo := TodoOf(s.desired.active.Keys, s.desired.flows.Keys);
        NothingAnnounced(ViewOf(s.desired), todo, Takes(s'.conn.peer));
      }
    }
  }

  lemma ReannounceDoneKeeps(cfg: PeerConfig, s: State)
    requires TableInv(s)
    ensures TableInv(DoReannounceDone(cfg, s))
  {
    hide DesiredRight, TraceTable, Agrees, ViewOf, Without;
    DesiredFrame(s, DoReannounceDone(cfg, s));
    AllAnnounced(ViewOf(s.desired));
    assert TodoOf({}, {}) == {};
  }

  lemma KeepaliveKeeps(cfg: PeerConfig, s: State, written: bool)
    requires TableInv(s)
    ensures TableInv(DoKeepaliveTimer(cfg, s, written))
  {
    hide DesiredRight, TraceTable, Agrees, ViewOf;
    DesiredFrame(s, DoKeepaliveTimer(cfg, s, written));
    TraceTableMore(s.trace, Io.Sent(KeepaliveOut));
  }

  lemma ConnectKeeps(cfg: PeerConfig, s: State, connected: bool, written: bool)
    requires TableInv(s)
    ensures TableInv(DoConnect(cfg, s, connected, written))
  {
    hide DesiredRight, Agrees, ViewOf, OpenBytes;
    DesiredFrame(s, DoConnect(cfg, s, connected, written));
    var sent := Io.Sent(OpenOut(LocalOpen(cfg)));
    TraceTableMore([], sent);
    assert [] + [sent] == [sent];
  }

  lemma ReadKeeps(s: State, chunk: seq<byte>)
    requires TableInv(s)
    ensures TableInv(DoRead(s, chunk))
  {
    hide DesiredRight, TraceTable, Agrees, ViewOf, NextFrame;
    DesiredFrame(s, DoRead(s, chunk));
  }

  lemma StepKeeps(cfg: PeerConfig, s: State, e: Event)
    requires TableInv(s) && (s.queue != [] ==> Safe(s.desired, s.queue[0]))
    ensures TableInv(Step(cfg, s, e))
  {
    hide DesiredRight, TraceTable, Agrees, ViewOf, Without, TodoOf, Takes, NextFrame, Safe, Apply, BackoffDelay;
    hide DoConnect, DoRead, DoTakeFrame, DoKeepaliveTimer, DoTakeCommand;
    hide DoReannounceRoute, DoReannounceRule, DoReannounceDone;
    match e
    case Connect(connected, written) => ConnectKeeps(cfg, s, connected, written);
    case Read(chunk) => ReadKeeps(s, chunk);
    case TakeFrame(written) => TakeFrameKeeps(cfg, s, written);
    case ReannounceRoute(p, written) => ReannounceRouteKeeps(s, p, written);
    case ReannounceRule(k, written) => ReannounceRuleKeeps(s, k, written);
    case ReannounceDone => ReannounceDoneKeeps(cfg, s);
    case KeepaliveTimer(written) => KeepaliveKeeps(cfg, s, written);
    case TakeCommand(written) => TakeCommandKeeps(s, written);
    case DrainOne =>
      if s.conn.Draining? && s.queue != [] {
        DesiredAfter(s);
      }
    case _ => DesiredFrame(s, Step(cfg, s, e));
  }

  // ---- The theorems about runs ------------------------------------------------------------------------

  lemma RunMore(cfg: PeerConfig, events: seq<Event>, e: Event)
    ensures Run(cfg, events + [e]) == Step(cfg, Run(cfg, events), e)
  {
    assert (events + [e])[..|events|] == events;
  }

  /** What the environment sent so far, after one more event. */
  function Sent(all: seq<Command>, closed: bool, e: Event): seq<Command> {
    if e.Enqueue? && !closed then all + [e.c] else all
  }

  lemma AcceptedIsSent(events: seq<Event>)
    requires events != []
    ensures var before, e := events[..|events| - 1], events[|events| - 1];
            && Accepted(events) == Sent(Accepted(before), CloseChannel in before, e)
            && (CloseChannel in events <==> CloseChannel in before || e.CloseChannel?)
  {
    var before, e := events[..|events| - 1], events[|events| - 1];
    assert events == before + [e];
    assert Accepted(before) + [] == Accepted(before);
  }

  lemma ReplayNothing()
    ensures Replay([]) == NOTHING && Accepted([]) == []
  {
  }

  lemma ReplayMore(cs: seq<Command>, c: Command)
    ensures Replay(cs + [c]) == Apply(Replay(cs), c)
  {
    assert (cs + [c])[..|cs|] == cs;
  }

  /** A step takes the head of the queue into the tables, or into its panic, appends to the tail, or does neither. */
  lemma StepQueue(cfg: PeerConfig, s: State, e: Event)
    ensures var s' := Step(cfg, s, e);
            && s'.closed == (s.closed || e.CloseChannel?)
            && (|| (&& s'.consumed == s.consumed && s'.desired == s.desired && Held(s'.conn) == Held(s.conn)
                    && s'.queue == Sent(s.queue, s.closed, e))
                || (&& !e.Enqueue? && s.queue != [] && s'.queue == s.queue[1..] && Held(s'.conn) == Held(s.conn) == []
                    && s'.consumed == s.consumed + [s.queue[0]] && s'.desired == Apply(s.desired, s.queue[0]))
                || (&& !e.Enqueue? && s.queue != [] && s'.queue == s.queue[1..] && Held(s.conn) == []
                    && s'.consumed == s.consumed && s'.desired == s.desired && Held(s'.conn) == [s.queue[0]]))
  {
    hide NextFrame, Apply, DoConnect, DoRead, DoTakeFrame, DoReannounceRoute, DoReannounceRule, DoReannounceDone;
    hide DoKeepaliveTimer, Emit, AnnounceAllowed, SafiOf, CanBuild, BackoffDelay;
  }

  lemma StepReplays(cfg: PeerConfig, s: State, e: Event, all: seq<Command>)
    requires s.consumed + Held(s.conn) + s.queue == all && s.desired == Replay(s.consumed)
    ensures var s' := Step(cfg, s, e);
            s'.consumed + Held(s'.conn) + s'.queue == Sent(all, s.closed, e) && s'.desired == Replay(s'.consumed)
  {
    hide Step, Apply, Replay, Held;
    StepQueue(cfg, s, e);
    var held := Held(s.conn);
    if e.Enqueue? {
      assert s.consumed + held + (s.queue + [e.c]) == s.consumed + held + s.queue + [e.c];
    } else if s.queue != [] {
      ReplayMore(s.consumed, s.queue[0]);
      Handed(s.consumed, s.queue);
    }
  }

  lemma Handed(done: seq<Command>, queue: seq<Command>)
    requires queue != []
    ensures done + [queue[0]] + [] + queue[1..] == done + [queue[0]] + queue[1..] == done + [] + queue
  {
  }

  /**
   No command is lost, repeated or reordered, and the desired state is the replay of those taken,
   however they were split between the live loop and draining; a panic may hold one more.
   */
  lemma {:induction false} DesiredIsReplay(cfg: PeerConfig, events: seq<Event>)
    ensures var s := Run(cfg, events);
            && s.consumed + Held(s.conn) + s.queue == Accepted(events)
            && s.desired == Replay(s.consumed)
            && s.closed == (CloseChannel in events)
            && (!s.conn.Panicked? ==> s.consumed + s.queue == Accepted(events))
  {
    hide Step, Apply, Replay, Accepted;
    if events == [] {
      ReplayNothing();
    } else {
      var before, e := events[..|events| - 1], events[|events| - 1];
      DesiredIsReplay(cfg, before);
      var s := Run(cfg, before);
      assert Run(cfg, events) == Step(cfg, s, e);
      StepReplays(cfg, s, e, Accepted(before));
      AcceptedIsSent(events);
      StepCloses(cfg, s, e);
      hide Run;
      var s' := Step(cfg, s, e);
      assert s'.consumed + [] + s'.queue == s'.consumed + s'.queue;
    }
  }

  lemma StepCloses(cfg: PeerConfig, s: State, e: Event)
    ensures Step(cfg, s, e).closed == (s.closed || e.CloseChannel?)
  {
    hide Step, Apply;
    StepQueue(cfg, s, e);
  }

  lemma StartsRight()
    ensures TableInv(INITIAL)
  {
    assert ViewOf(NOTHING) == map[];
  }

  lemma RightIsAlive(s: State)
    requires TableInv(s)
    ensures !s.conn.Panicked? && s.desired == Replay(s.consumed)
  {
    hide Replay, TraceTable, ViewOf, Agrees, Tidy, Coherent, AllSendable, Without;
  }

  lemma SafeBefore(events: seq<Event>)
    requires events != [] && AllSafe(Accepted(events))
    ensures AllSafe(Accepted(events[..|events| - 1]))
  {
    hide Safe, Replay, Accepted;
    var all, some := Accepted(events), Accepted(events[..|events| - 1]);
    AcceptedIsSent(events);
    forall i | 0 <= i < |some|
      ensures Safe(Replay(some[..i]), some[i])
    {
      assert some[..i] == all[..i] && some[i] == all[i];
    }
  }

  lemma {:induction false} RunInv(cfg: PeerConfig, events: seq<Event>)
    requires AllSafe(Accepted(events))
    ensures TableInv(Run(cfg, events))
  {
    hide Step, Safe, AllSafe, Accepted, TableInv, Replay;
    if events == [] {
      StartsRight();
    } else {
      var before := events[..|events| - 1];
      var s := Run(cfg, before);
      SafeBefore(events);
      RunInv(cfg, before);
      DesiredIsReplay(cfg, before);
      RightIsAlive(s);
      if s.queue != [] {
        NextIsSafe(s);
      }
      StepKeeps(cfg, s, events[|events| - 1]);
    }
  }

  /** The session task is alive and, once re-announcement is complete, the peer holds exactly what is wanted. */
  ghost predicate Right(s: State) {
    && !s.conn.Panicked?
    && (s.conn.Established? ==> Agrees(PeerTable(s), ViewOf(s.desired), Takes(s.conn.peer)))
  }

  /**
   On every run, whatever disconnects and write failures occur, the bytes written have built up in the
   peer exactly the desired entries of the families it advertised; during re-announcement a part of them.
   */
  lemma PeerHoldsWhatIsWanted(cfg: PeerConfig, events: seq<Event>)
    requires AllSafe(Accepted(events))
    ensures var s := Run(cfg, events);
            && Right(s)
            && (s.conn.Reannouncing? ==> Within(PeerTable(s), ViewOf(s.desired), Takes(s.conn.peer)))
            && (s.conn.AwaitOpen? || s.conn.AwaitConfirm? ==> PeerTable(s) == map[])
  {
    hide Run, ViewOf, Agrees, Within, WireTable, TraceTable, DesiredRight;
    RunInv(cfg, events);
    var s := Run(cfg, events);
    WireIsTrace(s.trace);
    if s.conn.Reannouncing? {
      PartialIsWithin(PeerTable(s), ViewOf(s.desired), TodoOf(s.conn.routes, s.conn.rules), Takes(s.conn.peer));
    }
  }

  /** Two runs that took the same commands leave peers of equal capabilities with the same table. */
  lemma SameCommandsSameTable(cfg: PeerConfig, cfg': PeerConfig, events: seq<Event>, events': seq<Event>)
    requires AllSafe(Accepted(events)) && AllSafe(Accepted(events'))
    requires var s, s' := Run(cfg, events), Run(cfg', events');
             && s.consumed == s'.consumed && s.conn.Established? && s'.conn.Established?
             && forall family :: Advertised(s.conn.peer, family) == Advertised(s'.conn.peer, family)
    ensures PeerTable(Run(cfg, events)) == PeerTable(Run(cfg', events'))
  {
    hide Run, ViewOf, Agrees, PeerTable;
    PeerHoldsWhatIsWanted(cfg, events);
    PeerHoldsWhatIsWanted(cfg', events');
    DesiredIsReplay(cfg, events);
    DesiredIsReplay(cfg', events');
    var s, s' := Run(cfg, events), Run(cfg', events');
    assert Takes(s.conn.peer) == Takes(s'.conn.peer);
    AgreementIsUnique(PeerTable(s), PeerTable(s'), ViewOf(s.desired), Takes(s.conn.peer));
  }

  /** Only an empty queue lets the task fall asleep. */
  lemma FallsAsleepDrained(cfg: PeerConfig, s: State, e: Event)
    requires !s.conn.Sleeping? && Step(cfg, s, e).conn.Sleeping?
    ensures Step(cfg, s, e).queue == []
  {
    hide NextFrame, Apply, HoldSecs, DoRead, DoTakeFrame, DoTakeCommand;
    hide DoReannounceRoute, DoReannounceRule, DoReannounceDone;
    if e.TakeFrame? {
      TakeFrameIs(cfg, s, e.written);
    } else if IsSend(e) {
      SendIs(cfg, s, e);
    }
  }

  /** On every run, by the time the task sleeps every command accepted so far has been applied, in order. */
  lemma SleepsDrained(cfg: PeerConfig, events: seq<Event>)
    requires events != [] && !Run(cfg, events[..|events| - 1]).conn.Sleeping? && Run(cfg, events).conn.Sleeping?
    ensures var s := Run(cfg, events);
            s.queue == [] && s.consumed == Accepted(events) && s.desired == Replay(Accepted(events))
  {
    hide Step, Accepted, Replay;
    FallsAsleepDrained(cfg, Run(cfg, events[..|events| - 1]), events[|events| - 1]);
    hide Run;
    DesiredIsReplay(cfg, events);
    assert Run(cfg, events).consumed + [] == Run(cfg, events).consumed;
  }
}
