/**
 Edge suspicion: a node has at most one edge entry in the queue, it has one exactly when its
 history says so, and it has one whenever a route of the node is flagged SUSPICIOUS_E.
 Handling that entry unflags exactly the routes none of whose consecutive AS pairs is still
 suspect, and queues the node again for the earliest moment another route can be unflagged.
 */
module PgbgpEdges {
  import opened Common
  import opened PgbgpModel

  function EdgeCount(q: seq<Entry>, n: Prefix): nat {
    if q == [] then 0 else (if q[0].EdgeEntry? && q[0].node == n then 1 else 0) + EdgeCount(q[1..], n)
  }

  predicate Pending(hists: map<Prefix, Hist>, n: Prefix) { n in hists && hists[n].edgePending }

  ghost predicate FlagE(rs: seq<Route>) { exists j :: 0 <= j < |rs| && rs[j].flags.suspE }

  ghost predicate EdgeOk(s: State, n: Prefix) {
    && EdgeCount(s.queue, n) == (if Pending(s.hists, n) then 1 else 0)
    && (FlagE(Rib(s.ribs, n)) ==> Pending(s.hists, n))
  }

  ghost predicate EdgeInv(s: State) { forall n :: EdgeOk(s, n) }

  // ---------- Counting ----------

  lemma {:induction false} EdgeCountConcat(p: seq<Entry>, q: seq<Entry>, n: Prefix)
    ensures EdgeCount(p + q, n) == EdgeCount(p, n) + EdgeCount(q, n)
  {
    if p == [] {
      assert p + q == q;
    } else {
      assert (p + q)[1..] == p[1..] + q;
      EdgeCountConcat(p[1..], q, n);
    }
  }

  lemma EdgeCountRemove(q: seq<Entry>, i: nat, n: Prefix)
    requires i < |q|
    ensures EdgeCount(q, n) == EdgeCount(Remove(q, i), n) + if q[i].EdgeEntry? && q[i].node == n then 1 else 0
  {
    assert q == q[..i] + ([q[i]] + q[i + 1..]);
    EdgeCountConcat(q[..i], [q[i]] + q[i + 1..], n);
    EdgeCountConcat([q[i]], q[i + 1..], n);
    EdgeCountConcat(q[..i], q[i + 1..], n);
  }

  lemma EdgeCountPush(q: seq<Entry>, e: Entry, n: Prefix)
    ensures EdgeCount(q + [e], n) == EdgeCount(q, n) + if e.EdgeEntry? && e.node == n then 1 else 0
  {
    EdgeCountConcat(q, [e], n);
  }

  /** An edge entry in the queue belongs to a node whose history records it. */
  lemma {:induction false} EdgeEntryCounted(q: seq<Entry>, e: Entry)
    requires e in q && e.EdgeEntry?
    ensures EdgeCount(q, e.node) > 0
  {
    if q[0] != e {
      EdgeEntryCounted(q[1..], e);
    }
  }

  // ---------- What the handler of an edge entry computes ----------

  /** Pairs lists exactly the consecutive elements. */
  lemma {:induction false} PairsAt(xs: seq<AsNum>, i: nat)
    requires i + 1 < |xs|
    ensures |Pairs(xs)| == |xs| - 1 && Pairs(xs)[i] == Edge(xs[i], xs[i + 1])
  {
    if i > 0 {
      PairsAt(xs[1..], i - 1);
    } else if |xs| > 2 {
      PairsAt(xs[1..], 0);
    } else {
      assert Pairs(xs[1..]) == [];
    }
  }

  predicate Suspect(edges: map<Edge, EdgeRec>, e: Edge, t: Time) { e in edges && edges[e].depref > t }

  ghost predicate HasSuspect(edges: map<Edge, EdgeRec>, es: seq<Edge>, t: Time) {
    exists i :: 0 <= i < |es| && Suspect(edges, es[i], t)
  }

  /** LatestExpiry is the greatest deadline among the suspect pairs, and 0 exactly when none is. */
  lemma {:induction false} LatestExpirySpec(edges: map<Edge, EdgeRec>, es: seq<Edge>, t: Time)
    ensures var x := LatestExpiry(edges, es, t);
      && (x == 0 <==> !HasSuspect(edges, es, t))
      && (forall i :: 0 <= i < |es| && Suspect(edges, es[i], t) ==> edges[es[i]].depref <= x)
      && (x != 0 ==> exists i :: 0 <= i < |es| && Suspect(edges, es[i], t) && edges[es[i]].depref == x)
  {
    if es != [] {
      LatestExpirySpec(edges, es[1..], t);
      var x := LatestExpiry(edges, es, t);
      var rest := LatestExpiry(edges, es[1..], t);
      assert forall i :: 1 <= i < |es| ==> es[i] == es[1..][i - 1];
      if rest != 0 {
        var i :| 0 <= i < |es[1..]| && Suspect(edges, es[1..][i], t) && edges[es[1..][i]].depref == rest;
        assert Suspect(edges, es[i + 1], t);
      }
      if Suspect(edges, es[0], t) {
        assert x != 0;
      }
    }
  }

  /** NextExpiry is the least of the routes' latest expiries, and 0 exactly when no route has one. */
  lemma {:induction false} NextExpirySpec(edges: map<Edge, EdgeRec>, rs: seq<Route>, t: Time)
    ensures var x := NextExpiry(edges, rs, t);
      && (forall j :: 0 <= j < |rs| && RouteExpiry(edges, rs[j], t) != 0 ==> 0 < x <= RouteExpiry(edges, rs[j], t))
      && (x != 0 ==> exists j :: 0 <= j < |rs| && RouteExpiry(edges, rs[j], t) == x)
  {
    if rs != [] {
      NextExpirySpec(edges, rs[1..], t);
      var x := NextExpiry(edges, rs, t);
      var rest := NextExpiry(edges, rs[1..], t);
      assert forall j :: 1 <= j < |rs| ==> rs[j] == rs[1..][j - 1];
      if rest != 0 {
        var j :| 0 <= j < |rs[1..]| && RouteExpiry(edges, rs[1..][j], t) == rest;
        assert RouteExpiry(edges, rs[j + 1], t) == rest;
      }
    }
  }

  /** The handler keeps the flag of exactly the flagged routes that hold a suspect pair, changes
      nothing else about a route, and queues the node at the earliest latest expiry, if any. */
  lemma ReuseEdgeSpec(s: State, n: Prefix, t: Time)
    requires n in s.hists
    ensures var s' := ReuseEdge(s, n, t); var rs := Rib(s.ribs, n); var rs' := Rib(s'.ribs, n);
      && |rs'| == |rs|
      && (forall j :: 0 <= j < |rs| ==>
            rs'[j] == rs[j].(flags := rs[j].flags.(suspE :=
              rs[j].flags.suspE && HasSuspect(s.edges, PathEdges(rs[j].path), t))))
      && (Pending(s'.hists, n) <==> exists j :: 0 <= j < |rs| && HasSuspect(s.edges, PathEdges(rs[j].path), t))
      && (if Pending(s'.hists, n)
          then s'.queue == s.queue + [EdgeEntry(NextExpiry(s.edges, rs, t), n)]
          else s'.queue == s.queue)
  {
    hide LatestExpiry, PathEdges;
    var rs := Rib(s.ribs, n);
    forall j | 0 <= j < |rs|
      ensures RouteExpiry(s.edges, rs[j], t) == 0 <==> !HasSuspect(s.edges, PathEdges(rs[j].path), t)
    {
      LatestExpirySpec(s.edges, PathEdges(rs[j].path), t);
    }
    NextExpirySpec(s.edges, rs, t);
  }

  // ---------- Steps ----------

  lemma SameFlagE(rs: seq<Route>, rs': seq<Route>)
    requires |rs'| == |rs| && forall j :: 0 <= j < |rs| ==> (rs'[j].flags.suspE ==> rs[j].flags.suspE)
    ensures FlagE(rs') ==> FlagE(rs)
  {
  }

  lemma ReuseOriginEdges(s: State, n: Prefix, t: Time, k: Prefix)
    ensures var s' := ReuseOrigin(s, n, t);
      && s'.queue == s.queue && s'.hists == s.hists
      && (FlagE(Rib(s'.ribs, k)) ==> FlagE(Rib(s.ribs, k)))
  {
    SameFlagE(Rib(s.ribs, k), Rib(ReuseOrigin(s, n, t).ribs, k));
  }

  lemma {:induction false} ClearSuspPEdges(rs: seq<Route>, av: seq<Avoid>)
    ensures FlagE(ClearSuspP(rs, av)) ==> FlagE(rs)
    decreases |av|
  {
    if av != [] {
      ClearSuspPEdges(SetSuspP(rs, av[0].peerAs, false), av[1..]);
      SameFlagE(rs, SetSuspP(rs, av[0].peerAs, false));
    }
  }

  lemma ReusePrefixEdges(s: State, n: Prefix, m: Prefix, t: Time, k: Prefix)
    ensures var s' := ReusePrefix(s, n, m, t);
      && s'.queue == s.queue && (Pending(s'.hists, k) <==> Pending(s.hists, k))
      && (FlagE(Rib(s'.ribs, k)) ==> FlagE(Rib(s.ribs, k)))
  {
    var s1 := s.(ribs := s.ribs[n := ClearIgnored(Rib(s.ribs, n))]);
    SameFlagE(Rib(s.ribs, k), Rib(s1.ribs, k));
    if m in s1.hists && s1.hists[m].prefix.Some? {
      ClearSuspPEdges(Rib(s1.ribs, m), Expired(s1.hists[m].prefix.value.avoid, t));
    }
  }

  lemma ReuseEdgeEdges(s: State, n: Prefix, t: Time, k: Prefix)
    requires n in s.hists && (k != n ==> EdgeOk(s, k)) && (k == n ==> EdgeCount(s.queue, n) == 0)
    ensures EdgeOk(ReuseEdge(s, n, t), k)
  {
    hide EdgeCount, NextExpiry, HasSuspect, PathEdges, ForgiveEdge, Bump;
    var s' := ReuseEdge(s, n, t);
    ReuseEdgeSpec(s, n, t);
    EdgeCountPush(s.queue, EdgeEntry(NextExpiry(s.edges, Rib(s.ribs, n), t), n), k);
    if k != n {
      assert Rib(s'.ribs, k) == Rib(s.ribs, k);
    }
  }

  lemma ReuseAtEdges(s: State, i: nat, t: Time, k: Prefix)
    requires i < |s.queue| && EdgeInv(s)
    ensures EdgeOk(ReuseAt(s, i, t), k)
  {
    hide ReuseOrigin, ReusePrefix, ReuseEdge, EdgeCount, FlagE;
    var e := s.queue[i];
    var s1 := s.(queue := Remove(s.queue, i), rqSize := s.rqSize - 1);
    EdgeCountRemove(s.queue, i, k);
    assert EdgeOk(s, k);
    match e
    case OriginEntry(_, n, _) => ReuseOriginEdges(s1, n, t, k);
    case PrefixEntry(_, n, m) => ReusePrefixEdges(s1, n, m, t, k);
    case EdgeEntry(_, n) =>
      EdgeEntryCounted(s.queue, e);
      assert EdgeOk(s, n);
      EdgeCountRemove(s.queue, i, n);
      ReuseEdgeEdges(s1, n, t, k);
  }

  /** The history an edge entry's handler dereferences is there. */
  lemma ReuseEdgeAsserts(s: State, e: Entry)
    requires EdgeInv(s) && e in s.queue && e.EdgeEntry?
    ensures e.node in s.hists && s.hists[e.node].edgePending
  {
    EdgeEntryCounted(s.queue, e);
    assert EdgeOk(s, e.node);
  }

  lemma UpdateOriginEdges(s: State, n: Prefix, path: Path, t: Time, newPeer: bool, k: Prefix)
    requires n in s.hists && EdgeOk(s, k)
    ensures EdgeOk(UpdateOrigin(s, n, path, t, newPeer).0, k)
    ensures Pending(s.hists, k) ==> Pending(UpdateOrigin(s, n, path, t, newPeer).0.hists, k)
  {
    hide TouchOrigin, EdgeCount, FlagE, OriginAs;
    EdgeCountPush(s.queue, OriginEntry(t + s.cfg.originSus, n, OriginAs(path)), k);
  }

  lemma BlameSuperEdges(s: State, n: Prefix, m: Prefix, peerAs: AsNum, until: Time, k: Prefix)
    requires EdgeOk(s, k)
    ensures EdgeOk(BlameSuper(s, n, m, peerAs, until), k)
    ensures Pending(s.hists, k) ==> Pending(BlameSuper(s, n, m, peerAs, until).hists, k)
  {
    hide FirstAvoid, EdgeCount;
    SameFlagE(Rib(s.ribs, m), SetSuspP(Rib(s.ribs, m), peerAs, true));
  }

  lemma SuspectPrefixEdges(s: State, n: Prefix, m: Prefix, t: Time, k: Prefix)
    requires n in s.hists && EdgeOk(s, k)
    ensures EdgeOk(SuspectPrefix(s, n, m, t), k)
    ensures Pending(s.hists, k) ==> Pending(SuspectPrefix(s, n, m, t).hists, k)
  {
    EdgeCountPush(s.queue, PrefixEntry(t + s.cfg.subSus, n, m), k);
  }

  lemma SeePrefixEdges(s: State, n: Prefix, t: Time, k: Prefix)
    requires n in s.hists && EdgeOk(s, k)
    ensures EdgeOk(SeePrefix(s, n, t), k)
    ensures Pending(s.hists, k) ==> Pending(SeePrefix(s, n, t).hists, k)
  {
  }

  lemma UpdatePrefixEdges(s: State, n: Prefix, super: Option<Prefix>, peerAs: AsNum, path: Path,
                          t: Time, newPeer: bool, k: Prefix)
    requires n in s.hists && EdgeOk(s, k)
    ensures EdgeOk(UpdatePrefix(s, n, super, peerAs, path, t, newPeer).0, k)
    ensures Pending(s.hists, k) ==> Pending(UpdatePrefix(s, n, super, peerAs, path, t, newPeer).0.hists, k)
  {
    hide JudgePrefix, ShouldIgnore, SuspectPrefix, BlameSuper, SeePrefix, EdgeOk, Pending;
    var v := JudgePrefix(s, n, super, peerAs, path, t, newPeer);
    if v.Hijack? && super.Some? {
      SuspectPrefixEdges(s, n, super.value, t, k);
      var s1 := if v.isNew then SuspectPrefix(s, n, super.value, t) else s;
      var until := PrefixOf(s1.hists[n]).ignoreUntil;
      BlameSuperEdges(s1, n, super.value, peerAs, until, k);
      SeePrefixEdges(BlameSuper(s1, n, super.value, peerAs, until), n, t, k);
    } else {
      SeePrefixEdges(s, n, t, k);
    }
  }

  /** The deadline found by the fold over a path lies in the future. */
  lemma {:induction false} TouchEdgesLater(cfg: Config, f: EdgeFold, es: seq<Edge>, t: Time, newPeer: bool)
    requires 0 < cfg.edgeSus && (f.latest == 0 || f.latest > t)
    ensures var x := TouchEdges(cfg, f, es, t, newPeer).latest; x == 0 || x > t
    decreases |es|
  {
    if es != [] {
      TouchEdgesLater(cfg, TouchEdge(cfg, f, es[0], t, newPeer), es[1..], t, newPeer);
    }
  }

  lemma UpdateEdgeEdges(s: State, n: Prefix, path: Path, t: Time, newPeer: bool, k: Prefix)
    requires n in s.hists && EdgeOk(s, k)
    ensures var (s', flag) := UpdateEdge(s, n, path, t, newPeer);
      && EdgeOk(s', k)
      && (flag ==> Pending(s'.hists, n))
      && (Pending(s.hists, k) ==> Pending(s'.hists, k))
  {
    hide TouchEdges, EdgeCount, FlagE, PathEdges;
    var f := TouchEdges(s.cfg, EdgeFold(s.edges, 0), PathEdges(path), t, newPeer);
    EdgeCountPush(s.queue, EdgeEntry(f.latest, n), k);
  }

  lemma PrepareEdges(s: State, m: News, t: Time, k: Prefix)
    requires EdgeOk(s, k)
    ensures var s' := Prepare(s, m, t).0; EdgeOk(s', k) && (Pending(s.hists, k) ==> Pending(s'.hists, k))
  {
    hide FindSuper, TouchPeer, EdgeCount, FlagE, Bump;
  }

  lemma JudgeEdges(s: State, m: News, super: Option<Prefix>, t: Time, newPeer: bool, flags: Flags, k: Prefix)
    requires EdgeOk(s, k) && m.node in s.hists
    ensures var (s', flags') := Judge(s, m, super, t, newPeer, flags);
      && EdgeOk(s', k)
      && (flags'.suspE && !flags.suspE ==> Pending(s'.hists, m.node))
      && (Pending(s.hists, k) ==> Pending(s'.hists, k))
  {
    hide UpdateOrigin, UpdatePrefix, UpdateEdge, EdgeOk, Pending;
    var s1 := UpdateOrigin(s, m.node, m.path, t, newPeer).0;
    UpdateOriginEdges(s, m.node, m.path, t, newPeer, k);
    var s2 := UpdatePrefix(s1, m.node, super, m.peerAs, m.path, t, newPeer).0;
    UpdatePrefixEdges(s1, m.node, super, m.peerAs, m.path, t, newPeer, k);
    UpdateEdgeEdges(s2, m.node, m.path, t, newPeer, k);
  }

  lemma DetectEdges(s: State, m: News, t: Time, flags: Flags, k: Prefix)
    requires EdgeOk(s, k)
    ensures var (s', flags') := Detect(s, m, t, flags);
      && EdgeOk(s', k)
      && (flags'.suspE && !flags.suspE ==> Pending(s'.hists, m.node))
      && (Pending(s.hists, k) ==> Pending(s'.hists, k))
  {
    hide Prepare, Judge, EdgeCount, FlagE, Bump;
    var (s1, super, newPeer) := Prepare(s, m, t);
    PrepareEdges(s, m, t, k);
    JudgeEdges(s1, m, super, t, newPeer, flags, k);
  }

  // ---------- Collecting ----------

  /** Collection at t frees no history that has an edge entry pending. */
  ghost predicate GcSpares(s: State, t: Time) {
    forall n :: Pending(s.hists, n) ==> !GcFrees(s.cfg, Rib(s.ribs, n), s.lastgc, s.hists[n], t)
  }

  /** Collecting a node leaves the verdict on every other node as it was. */
  lemma GcNodeSpares(s: State, n: Prefix, t: Time, ns: seq<Prefix>)
    requires GcSparesIn(s, ns, t) && n !in ns
    ensures GcSparesIn(GcNode(s, n, t), ns, t)
  {
  }

  ghost predicate GcSparesIn(s: State, ns: seq<Prefix>, t: Time) {
    forall n :: n in ns && Pending(s.hists, n) ==> !GcFrees(s.cfg, Rib(s.ribs, n), s.lastgc, s.hists[n], t)
  }

  lemma {:induction false} GcNodesEdges(s: State, ns: seq<Prefix>, t: Time, k: Prefix)
    requires EdgeOk(s, k) && GcSparesIn(s, ns, t) && Distinct(ns)
    ensures EdgeOk(GcNodes(s, ns, t), k)
    ensures Pending(s.hists, k) ==> Pending(GcNodes(s, ns, t).hists, k)
    decreases |ns|
  {
    if ns != [] {
      var s1 := GcNode(s, ns[0], t);
      assert ns[0] in ns;
      assert EdgeOk(s1, k);
      assert ns[0] !in ns[1..];
      GcNodeSpares(s, ns[0], t, ns[1..]);
      GcNodesEdges(s1, ns[1..], t, k);
    }
  }

  lemma GcEdgesKeep(s: State, live: set<Edge>, t: Time, k: Prefix)
    requires EdgeOk(s, k) && GcSpares(s, t) && Distinct(s.order)
    ensures EdgeOk(Gc(s, live, t), k)
    ensures Pending(s.hists, k) ==> Pending(Gc(s, live, t).hists, k)
  {
    GcNodesEdges(s, s.order, t, k);
  }
}
