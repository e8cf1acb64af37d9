/**
 A table of routes as the peer holds it, against the entries a speaker wants there.
 A key names an entry on the speaker's side, a destination names it on the peer's side; two keys
 may stand for one destination, which is where the two sides can drift apart.
 */
module Rib {
  import opened Bytes
  import opened Net
  import opened Reference

  datatype Key = RouteKey(prefix: IpNet) | FlowKey(nlri: seq<byte>)

  datatype Entry = Entry(dest: Dest, path: Path)

  type View = map<Key, Entry>
  type Table = map<Dest, Path>

  /** Some entry asks for this path to this destination, in a family the peer takes. */
  ghost predicate Wanted(v: View, ok: iset<Dest>, dest: Dest, path: Path) {
    dest in ok && exists k :: k in v && v[k] == Entry(dest, path)
  }

  /** The table holds exactly what is wanted. */
  ghost predicate Agrees(t: Table, v: View, ok: iset<Dest>) {
    forall dest, path :: (dest in t && t[dest] == path) <==> Wanted(v, ok, dest, path)
  }

  /** Everything in the table is wanted. */
  ghost predicate Within(t: Table, v: View, ok: iset<Dest>) {
    forall dest, path :: dest in t && t[dest] == path ==> Wanted(v, ok, dest, path)
  }

  /** Two entries for one destination agree on the path. */
  ghost predicate Coherent(v: View) {
    forall k, k' :: k in v && k' in v && v[k].dest == v[k'].dest ==> v[k] == v[k']
  }

  /** No other key wants a different path for the destination of `e`. */
  ghost predicate PutIsSafe(v: View, k: Key, e: Entry) {
    forall k' :: k' in v && k' != k && v[k'].dest == e.dest ==> v[k'] == e
  }

  /** No other key wants the destination at all. */
  ghost predicate RemoveIsSafe(v: View, k: Key, dest: Dest) {
    forall k' :: k' in v && k' != k ==> v[k'].dest != dest
  }

  lemma WantedAfterPut(v: View, ok: iset<Dest>, k: Key, e: Entry, dest: Dest, path: Path)
    requires k in v ==> v[k].dest == e.dest
    ensures dest != e.dest ==> Wanted(v[k := e], ok, dest, path) == Wanted(v, ok, dest, path)
    ensures PutIsSafe(v, k, e) && dest == e.dest ==>
              Wanted(v[k := e], ok, dest, path) == (dest in ok && path == e.path)
  {
    var v' := v[k := e];
    assert v'[k] == e;
    if dest != e.dest && Wanted(v, ok, dest, path) {
      var j :| j in v && v[j] == Entry(dest, path);
      assert j != k && v'[j] == Entry(dest, path);
    }
    if dest != e.dest && Wanted(v', ok, dest, path) {
      var j :| j in v' && v'[j] == Entry(dest, path);
      assert j != k && v[j] == Entry(dest, path);
    }
    if PutIsSafe(v, k, e) && dest == e.dest && Wanted(v', ok, dest, path) {
      var j :| j in v' && v'[j] == Entry(dest, path);
      assert j != k ==> j in v && v[j] == e;
    }
  }

  /** Writing the announce keeps the two sides in agreement exactly when no other key disputes the destination. */
  lemma PutAgreesExactly(t: Table, v: View, ok: iset<Dest>, k: Key, e: Entry)
    requires Agrees(t, v, ok) && e.dest in ok
    requires k in v ==> v[k].dest == e.dest
    ensures Agrees(t[e.dest := e.path], v[k := e], ok) <==> PutIsSafe(v, k, e)
  {
    var t', v' := t[e.dest := e.path], v[k := e];
    if PutIsSafe(v, k, e) {
      forall dest, path
        ensures (dest in t' && t'[dest] == path) <==> Wanted(v', ok, dest, path)
      {
        WantedAfterPut(v, ok, k, e, dest, path);
        assert (dest in t && t[dest] == path) <==> Wanted(v, ok, dest, path);
      }
    } else {
      var j :| j in v && j != k && v[j].dest == e.dest && v[j] != e;
      assert v'[j] == Entry(e.dest, v[j].path);
      assert Wanted(v', ok, e.dest, v[j].path);
      assert t'[e.dest] != v[j].path;
    }
  }

  /** Writing the withdraw keeps the agreement exactly when no other key still wants the destination. */
  lemma RemoveAgreesExactly(t: Table, v: View, ok: iset<Dest>, k: Key, dest: Dest)
    requires Agrees(t, v, ok) && dest in ok
    requires k in v ==> v[k].dest == dest
    ensures Agrees(t - {dest}, v - {k}, ok) <==> RemoveIsSafe(v, k, dest)
  {
    var t', v' := t - {dest}, v - {k};
    if RemoveIsSafe(v, k, dest) {
      forall d, path
        ensures (d in t' && t'[d] == path) <==> Wanted(v', ok, d, path)
      {
        assert (d in t && t[d] == path) <==> Wanted(v, ok, d, path);
        if Wanted(v, ok, d, path) && d != dest {
          var j :| j in v && v[j] == Entry(d, path);
          assert j in v' && v'[j] == Entry(d, path);
        }
        if Wanted(v', ok, d, path) {
          var j :| j in v' && v'[j] == Entry(d, path);
          assert j in v && v[j] == Entry(d, path);
        }
      }
    } else {
      var j :| j in v && j != k && v[j].dest == dest;
      assert j in v' && v'[j] == Entry(dest, v[j].path);
      assert Wanted(v', ok, dest, v[j].path);
    }
  }

  /** A change in a family the peer does not take leaves the table right as it is. */
  lemma UntakenChange(t: Table, v: View, v': View, ok: iset<Dest>, k: Key, dest: Dest)
    requires Agrees(t, v, ok) && dest !in ok
    requires k in v ==> v[k].dest == dest
    requires k in v' ==> v'[k].dest == dest
    requires v - {k} == v' - {k}
    ensures Agrees(t, v', ok)
  {
    forall d, path
      ensures (d in t && t[d] == path) <==> Wanted(v', ok, d, path)
    {
      assert (d in t && t[d] == path) <==> Wanted(v, ok, d, path);
      if Wanted(v, ok, d, path) {
        var j :| j in v && v[j] == Entry(d, path);
        assert j in v - {k} && v'[j] == Entry(d, path);
      }
      if Wanted(v', ok, d, path) {
        var j :| j in v' && v'[j] == Entry(d, path);
        assert j in v' - {k} && v[j] == Entry(d, path);
      }
    }
  }

  /** The wanted entries fix the table. */
  lemma AgreementIsUnique(t: Table, t': Table, v: View, ok: iset<Dest>)
    requires Agrees(t, v, ok) && Agrees(t', v, ok)
    ensures t == t'
  {
    forall dest
      ensures dest in t <==> dest in t'
      ensures dest in t ==> t[dest] == t'[dest]
    {
      if dest in t {
        assert Wanted(v, ok, dest, t[dest]);
      }
      if dest in t' {
        assert Wanted(v, ok, dest, t'[dest]);
      }
    }
  }

  // ---- Announcing a whole view into an empty table, key by key -------------------------

  ghost function Without(v: View, todo: set<Key>): View {
    v - todo
  }

  lemma NothingAnnounced(v: View, todo: set<Key>, ok: iset<Dest>)
    requires v.Keys <= todo
    ensures Agrees(map[], Without(v, todo), ok)
  {
  }

  /** One more key announced. */
  lemma OneMoreAnnounced(t: Table, v: View, todo: set<Key>, ok: iset<Dest>, k: Key)
    requires Coherent(v) && k in v && k in todo && v[k].dest in ok
    requires Agrees(t, Without(v, todo), ok)
    ensures Agrees(t[v[k].dest := v[k].path], Without(v, todo - {k}), ok)
  {
    var done := Without(v, todo);
    PutAgreesExactly(t, done, ok, k, v[k]);
    assert Without(v, todo - {k}) == done[k := v[k]];
  }

  /** One more key passed over because the peer does not take its family. */
  lemma OneMoreSkipped(t: Table, v: View, todo: set<Key>, ok: iset<Dest>, k: Key)
    requires k in v && k in todo && v[k].dest !in ok
    requires Agrees(t, Without(v, todo), ok)
    ensures Agrees(t, Without(v, todo - {k}), ok)
  {
    UntakenChange(t, Without(v, todo), Without(v, todo - {k}), ok, k, v[k].dest);
  }

  lemma PartialIsWithin(t: Table, v: View, todo: set<Key>, ok: iset<Dest>)
    requires Agrees(t, Without(v, todo), ok)
    ensures Within(t, v, ok)
  {
    forall dest, path | dest in t && t[dest] == path
      ensures Wanted(v, ok, dest, path)
    {
      assert Wanted(Without(v, todo), ok, dest, path);
      var j :| j in Without(v, todo) && Without(v, todo)[j] == Entry(dest, path);
      assert v[j] == Entry(dest, path);
    }
  }

  lemma AllAnnounced(v: View)
    ensures Without(v, {}) == v
  {
  }
}
