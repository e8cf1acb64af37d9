/** The session task's own loops, updating its tables and counters in place. */
module SessionTask {
  import opened Bytes
  import opened Net
  import opened Message
  import opened Update
  import opened FlowSpec
  import opened Rib
  import opened Session
  import opened SessionTable

  function SkipTotal(c: SkipCounts): nat {
    c.flowspecV4 + c.flowspecV6 + c.ipv6Unicast
  }

  lemma OneMoreSkip(c: SkipCounts, peer: OpenMsg, safi: AnnounceSafi)
    requires !AnnounceAllowed(peer, safi)
    ensures SkipTotal(Record(c, safi)) == SkipTotal(c) + 1
  {
  }

  class Task {
    var active: map<IpNet, Route>
    var flows: map<seq<byte>, FlowSpecRule>
    var skips: SkipCounts

    ghost function Want(): Desired
      reads this
    {
      Desired(active, flows)
    }

    constructor ()
      ensures Want() == NOTHING && skips == SkipCounts(0, 0, 0)
    {
      active, flows, skips := map[], map[], SkipCounts(0, 0, 0);
    }

    method TakeIn(c: Command)
      modifies this`active, this`flows
      ensures Want() == Apply(old(Want()), c)
    {
      match c {
        case Announce(route) =>
          active := active[route.prefix := route];
        case Withdraw(prefix) =>
          active := active - {prefix};
        case AnnounceFlowSpec(rule) =>
          var key := EncodeFlowSpecNlri(rule);
          flows := flows[key := rule];
        case WithdrawFlowSpec(rule) =>
          var key := EncodeFlowSpecNlri(rule);
          flows := flows - {key};
      }
    }

    /** `drain_commands`: the queue is taken in order and nothing is written. */
    method DrainCommands(queue: seq<Command>, ghost done: seq<Command>)
      requires Want() == Replay(done)
      modifies this`active, this`flows
      ensures Want() == Replay(done + queue)
    {
      var i := 0;
      assert done + queue[..0] == done;
      while i < |queue|
        invariant 0 <= i <= |queue|
        invariant Want() == Replay(done + queue[..i])
      {
        ghost var before := done + queue[..i];
        TakeIn(queue[i]);
        assert done + queue[..i + 1] == before + [queue[i]];
        assert (before + [queue[i]])[..|before|] == before;
        i := i + 1;
      }
      assert queue[..|queue|] == queue;
    }

    /** One live command that does not panic: into the table, past the gate, onto the wire. */
    method TakeCommand(peer: OpenMsg, c: Command, written: bool, ghost t: Table) returns (log: seq<Io>)
      requires Tidy(Want()) && (AnnounceAllowed(peer, SafiOf(UpdateFor(c))) ==> CanBuild(UpdateFor(c)))
      modifies this
      ensures Want() == Apply(old(Want()), c)
      ensures log == [] <==> !AnnounceAllowed(peer, SafiOf(UpdateFor(c)))
      ensures log == [] ==> skips == Record(old(skips), SafiOf(UpdateFor(c)))
      ensures log != [] ==> skips == old(skips)
      ensures log != [] ==> log == [if written then Io.Sent(UpdateFor(c)) else Io.Failed(UpdateFor(c))]
      ensures log == [] && Agrees(t, ViewOf(old(Want())), Takes(peer)) ==> Agrees(t, ViewOf(Want()), Takes(peer))
      ensures log != [] && written && Agrees(t, ViewOf(old(Want())), Takes(peer)) ==>
                (Agrees(TableAfter(t, log[0].m), ViewOf(Want()), Takes(peer)) <==> Safe(old(Want()), c))
    {
      hide Agrees, ViewOf, NoConflict, TableAfter, Tidy;
      ghost var d := Want();
      TakeIn(c);
      var m := UpdateFor(c);
      if !AnnounceAllowed(peer, SafiOf(m)) {
        skips := Record(skips, SafiOf(m));
        log := [];
        if Agrees(t, ViewOf(d), Takes(peer)) {
          SkippedCommand(t, d, c, peer);
        }
      } else {
        log := [if written then Io.Sent(m) else Io.Failed(m)];
        if Agrees(t, ViewOf(d), Takes(peer)) {
          LiveCommandExactly(t, d, c, peer);
        }
      }
    }

    /** The loop over `active`, in any order; the write number `budget` fails. */
    method ReannounceRoutes(peer: OpenMsg, budget: nat) returns (log: seq<Io>, ok: bool)
      requires Tidy(Want()) && CanAnnounce(Want(), peer)
      modifies this`skips
      ensures ok ==> |log| <= budget && |log| + SkipTotal(skips) == |active| + old(SkipTotal(skips))
      ensures !ok ==> |log| == budget + 1 && log[budget].Failed?
      ensures Sound(Want()) && ok ==>
                Agrees(TraceTable(log), Without(ViewOf(Want()), TodoOf({}, flows.Keys)), Takes(peer))
      ensures Sound(Want()) && !ok ==> Within(TraceTable(log), ViewOf(Want()), Takes(peer))
    {
      hide Agrees, Within, ViewOf, TraceTable, Without, TodoOf, Sound, AnnounceAllowed, SkipTotal, Record;
      log := [];
      ghost var v, rules := ViewOf(Want()), flows.Keys;
      var routes := active.Keys;
      NothingYet(Want(), peer);
      while routes != {}
        invariant routes <= active.Keys
        invariant Sound(Want()) ==> Agrees(TraceTable(log), Without(v, TodoOf(routes, rules)), Takes(peer))
        invariant |log| + SkipTotal(skips) + |routes| == |active| + old(SkipTotal(skips))
        invariant |log| <= budget
        decreases routes
      {
        var p :| p in routes;
        if Sound(Want()) {
          RouteStep(Want(), log, routes, rules, p, peer);
        }
        if !AnnounceAllowed(peer, ForRoute(active[p].prefix)) {
          OneMoreSkip(skips, peer, ForRoute(active[p].prefix));
          skips := Record(skips, ForRoute(active[p].prefix));
        } else if |log| == budget {
          log := log + [Io.Failed(AnnounceOut(active[p]))];
          return log, false;
        } else {
          log := log + [Io.Sent(AnnounceOut(active[p]))];
        }
        routes := routes - {p};
      }
      ok := true;
    }

    /** The loop over `active_flowspec`, once the routes are out. */
    method ReannounceRules(peer: OpenMsg, budget: nat, sent: seq<Io>) returns (log: seq<Io>, ok: bool)
      requires Tidy(Want()) && |sent| <= budget
      modifies this`skips
      ensures ok ==> |log| + SkipTotal(skips) == |sent| + |flows| + old(SkipTotal(skips))
      ensures !ok ==> |log| == budget + 1 && log[budget].Failed?
      ensures RoutesOut(Want(), peer, sent) && ok ==> Agrees(TraceTable(log), ViewOf(Want()), Takes(peer))
      ensures RoutesOut(Want(), peer, sent) && !ok ==> Within(TraceTable(log), ViewOf(Want()), Takes(peer))
    {
      hide Agrees, Within, ViewOf, TraceTable, Without, TodoOf, Tidy, Coherent;
      log := sent;
      ghost var v := ViewOf(Want());
      var rules := flows.Keys;
      while rules != {}
        invariant rules <= flows.Keys
        invariant RoutesOut(Want(), peer, sent) ==>
                    Agrees(TraceTable(log), Without(v, TodoOf({}, rules)), Takes(peer))
        invariant |log| + SkipTotal(skips) + |rules| == |sent| + |flows| + old(SkipTotal(skips))
        invariant |log| <= budget
        decreases rules
      {
        var k :| k in rules;
        if RoutesOut(Want(), peer, sent) {
          RuleStep(Want(), log, rules, k, peer);
        }
        if !AnnounceAllowed(peer, ForFlowSpec(flows[k].dst)) {
          skips := Record(skips, ForFlowSpec(flows[k].dst));
        } else if |log| == budget {
          log := log + [Io.Failed(FlowAnnounceOut(flows[k]))];
          return log, false;
        } else {
          log := log + [Io.Sent(FlowAnnounceOut(flows[k]))];
        }
        rules := rules - {k};
      }
      AllOut(Want());
      ok := true;
    }

    /**
     Re-announcement of both tables. Each entry is either written or counted. When the tables are sound
     and no write fails the peer ends up with exactly what is wanted; when one does, with a part of it.
     */
    method Reannounce(peer: OpenMsg, budget: nat) returns (log: seq<Io>, ok: bool)
      requires Tidy(Want()) && CanAnnounce(Want(), peer)
      modifies this`skips
      ensures ok ==> |log| + SkipTotal(skips) == |active| + |flows| + old(SkipTotal(skips))
      ensures !ok ==> |log| == budget + 1 && log[budget].Failed?
      ensures Sound(Want()) && ok ==> Agrees(TraceTable(log), ViewOf(Want()), Takes(peer))
      ensures Sound(Want()) && !ok ==> Within(TraceTable(log), ViewOf(Want()), Takes(peer))
    {
      hide Agrees, ViewOf, Tidy, Coherent, AllSendable, CanAnnounce;
      log, ok := ReannounceRoutes(peer, budget);
      if ok {
        log, ok := ReannounceRules(peer, budget, log);
      }
    }
  }

  /** No route the peer would be sent makes `build_announce` panic. */
  ghost predicate CanAnnounce(d: Desired, peer: OpenMsg) {
    forall p :: p in d.active && AnnounceAllowed(peer, ForRoute(d.active[p].prefix)) ==> Buildable(d.active[p])
  }

  /** No two entries dispute a destination, and every route fits one message. */
  ghost predicate Sound(d: Desired) {
    Coherent(ViewOf(d)) && AllSendable(d)
  }

  /** The routes, and nothing else, have been announced. */
  ghost predicate RoutesOut(d: Desired, peer: OpenMsg, sent: seq<Io>) {
    && Coherent(ViewOf(d))
    && Agrees(TraceTable(sent), Without(ViewOf(d), TodoOf({}, d.flows.Keys)), Takes(peer))
  }

  lemma NothingYet(d: Desired, peer: OpenMsg)
    ensures Agrees(TraceTable([]), Without(ViewOf(d), TodoOf(d.active.Keys, d.flows.Keys)), Takes(peer))
  {
    hide Agrees, ViewOf, Without;
    NothingAnnounced(ViewOf(d), TodoOf(d.active.Keys, d.flows.Keys), Takes(peer));
  }

  lemma AllOut(d: Desired)
    ensures Without(ViewOf(d), TodoOf({}, {})) == ViewOf(d)
  {
    hide ViewOf, Without;
    assert TodoOf({}, {}) == {};
    AllAnnounced(ViewOf(d));
  }

  /** The three outcomes of one turn of the route loop. */
  lemma RouteStep(d: Desired, log: seq<Io>, routes: set<IpNet>, rules: set<seq<byte>>, p: IpNet, peer: OpenMsg)
    requires Tidy(d) && Sound(d) && p in d.active && p in routes
    requires Agrees(TraceTable(log), Without(ViewOf(d), TodoOf(routes, rules)), Takes(peer))
    ensures CanBuild(AnnounceOut(d.active[p])) && d.active[p].prefix == p
    ensures var m := AnnounceOut(d.active[p]);
            var after := Without(ViewOf(d), TodoOf(routes - {p}, rules));
            if AnnounceAllowed(peer, ForRoute(p))
            then Agrees(TraceTable(log + [Io.Sent(m)]), after, Takes(peer))
                 && Within(TraceTable(log + [Io.Failed(m)]), ViewOf(d), Takes(peer))
            else Agrees(TraceTable(log), after, Takes(peer))
  {
    hide Agrees, Within, ViewOf, Without, TraceTable, Coherent, TableAfter, PathOfRoute, Trunc;
    var v, todo, m := ViewOf(d), TodoOf(routes, rules), AnnounceOut(d.active[p]);
    RouteIsKnown(d, p);
    assert TodoOf(routes - {p}, rules) == todo - {RouteKey(p)};
    if AnnounceAllowed(peer, ForRoute(p)) {
      OneMoreAnnounced(TraceTable(log), v, todo, Takes(peer), RouteKey(p));
      PutByMessage(TraceTable(log), m);
      TraceTableMore(log, Io.Sent(m));
      TraceTableMore(log, Io.Failed(m));
      PartialIsWithin(TraceTable(log), v, todo, Takes(peer));
    } else {
      OneMoreSkipped(TraceTable(log), v, todo, Takes(peer), RouteKey(p));
    }
  }

  /** The three outcomes of one turn of the rule loop. */
  lemma RuleStep(d: Desired, log: seq<Io>, rules: set<seq<byte>>, k: seq<byte>, peer: OpenMsg)
    requires Tidy(d) && Coherent(ViewOf(d)) && k in d.flows && k in rules
    requires Agrees(TraceTable(log), Without(ViewOf(d), TodoOf({}, rules)), Takes(peer))
    ensures var m := FlowAnnounceOut(d.flows[k]);
            var after := Without(ViewOf(d), TodoOf({}, rules - {k}));
            if AnnounceAllowed(peer, ForFlowSpec(d.flows[k].dst))
            then Agrees(TraceTable(log + [Io.Sent(m)]), after, Takes(peer))
                 && Within(TraceTable(log + [Io.Failed(m)]), ViewOf(d), Takes(peer))
            else Agrees(TraceTable(log), after, Takes(peer))
  {
    hide Agrees, Within, ViewOf, Without, TraceTable, Coherent, Tidy, TableAfter, PathOfRule, Matches;
    var v, todo, m := ViewOf(d), TodoOf({}, rules), FlowAnnounceOut(d.flows[k]);
    RuleIsKnown(d, k);
    assert TodoOf({}, rules - {k}) == todo - {FlowKey(k)};
    if AnnounceAllowed(peer, ForFlowSpec(d.flows[k].dst)) {
      OneMoreAnnounced(TraceTable(log), v, todo, Takes(peer), FlowKey(k));
      PutByMessage(TraceTable(log), m);
      TraceTableMore(log, Io.Sent(m));
      TraceTableMore(log, Io.Failed(m));
      PartialIsWithin(TraceTable(log), v, todo, Takes(peer));
    } else {
      OneMoreSkipped(TraceTable(log), v, todo, Takes(peer), FlowKey(k));
    }
  }

  lemma PutByMessage(t: Table, m: OutMsg)
    requires m.AnnounceOut? ==> Size(m.route) <= MAX_LEN
    ensures m.AnnounceOut? ==> TableAfter(t, m) == t[RouteEntry(m.route).dest := RouteEntry(m.route).path]
    ensures m.FlowAnnounceOut? ==> TableAfter(t, m) == t[RuleEntry(m.rule).dest := RuleEntry(m.rule).path]
  {
  }

  lemma RouteIsKnown(d: Desired, p: IpNet)
    requires Tidy(d) && AllSendable(d) && p in d.active
    ensures RouteKey(p) in ViewOf(d) && ViewOf(d)[RouteKey(p)] == RouteEntry(d.active[p])
    ensures Sendable(Announce(d.active[p])) && d.active[p].prefix == p
    ensures FamilyOf(RouteEntry(d.active[p]).dest) == ForRoute(p)
  {
    hide ViewOf;
    assert HasKey(d, RouteKey(p));
    TruncShape(p);
  }

  lemma RuleIsKnown(d: Desired, k: seq<byte>)
    requires k in d.flows
    ensures FlowKey(k) in ViewOf(d) && ViewOf(d)[FlowKey(k)] == RuleEntry(d.flows[k])
    ensures FamilyOf(RuleEntry(d.flows[k]).dest) == ForFlowSpec(d.flows[k].dst)
  {
    hide ViewOf;
    assert HasKey(d, FlowKey(k));
    TruncShape(d.flows[k].dst);
  }
}
