/**
 When collection is safe. Collection during an announcement frees the history of a node with an edge
 entry pending exactly when nothing the node had before the announcement keeps a record of it alive;
 that can be read off the state before the call.
 */
module PgbgpCollection {
  import opened Common
  import opened PgbgpModel
  import opened PgbgpEdges

  // ---------- The condition ----------

  /** A record within its window, and not one whose suspicion is over and that was not seen since the
      last collection. */
  predicate Lives(window: Time, lastSeen: Time, until: Time, lastgc: Time, t: Time) {
    lastSeen + window > t && !(0 < until < t && lastSeen < lastgc)
  }

  ghost predicate SomeOriginLives(cfg: Config, rs: seq<Route>, lastgc: Time, os: seq<Origin>, t: Time) {
    exists o :: o in os && (InRib(rs, o.asn) || Lives(cfg.originHist, o.lastSeen, o.depref, lastgc, t))
  }

  predicate PrefixLives(cfg: Config, rs: seq<Route>, lastgc: Time, pre: Option<PrefixRec>, t: Time) {
    pre.Some? && (rs != [] || Lives(cfg.prefixHist, pre.value.lastSeen, pre.value.ignoreUntil, lastgc, t))
  }

  /** Something keeps the node's history: a route, of which some record is left, or a record of its
      own; a history without any record is not collected either. */
  ghost predicate Spared(s: State, n: Prefix, t: Time)
    requires n in s.hists
  {
    var h := s.hists[n];
    || (h.origins == [] && h.prefix.None?)
    || SomeOriginLives(s.cfg, Rib(s.ribs, n), s.lastgc, h.origins, t)
    || PrefixLives(s.cfg, Rib(s.ribs, n), s.lastgc, h.prefix, t)
  }

  ghost predicate HasSuspectRoute(s: State, n: Prefix, t: Time) {
    exists j :: 0 <= j < |Rib(s.ribs, n)| && HasSuspect(s.edges, PathEdges(Rib(s.ribs, n)[j].path), t)
  }

  /** Once the queue is drained, the node will have an edge entry: one that is not due, or one that is
      due while a route still holds a suspect pair. */
  ghost predicate StaysPending(s: State, n: Prefix, t: Time) {
    exists e :: e in s.queue && e.EdgeEntry? && e.node == n && (e.key > t || HasSuspectRoute(s, n, t))
  }

  /** When collection is due, every other node that stays pending is spared. */
  ghost predicate CollectionSafe(s: State, m: News, t: Time) {
    t >= s.lastgc + 3600 ==> forall n :: n != m.node && n in s.hists && StaysPending(s, n, t) ==> Spared(s, n, t)
  }

  // ---------- What collection frees ----------

  lemma {:induction false} GcOriginsEmpty(cfg: Config, rs: seq<Route>, lastgc: Time, os: seq<Origin>, t: Time)
    requires cfg.Sane() && lastgc <= t
    ensures GcOrigins(cfg, rs, lastgc, os, t) == [] <==> !SomeOriginLives(cfg, rs, lastgc, os, t)
  {
    hide InRib;
    if os != [] {
      GcOriginsEmpty(cfg, rs, lastgc, os[1..], t);
      assert os == [os[0]] + os[1..];
    }
  }

  lemma FreesExactly(s: State, n: Prefix, t: Time)
    requires s.cfg.Sane() && s.lastgc <= t && n in s.hists
    ensures GcFrees(s.cfg, Rib(s.ribs, n), s.lastgc, s.hists[n], t) <==> !Spared(s, n, t)
  {
    hide SomeOriginLives, GcOrigins;
    GcOriginsEmpty(s.cfg, Rib(s.ribs, n), s.lastgc, s.hists[n].origins, t);
  }

  // ---------- What collection leaves ----------

  lemma {:induction false} GcNodesTables(s: State, ns: seq<Prefix>, t: Time)
    ensures var s' := GcNodes(s, ns, t);
      s'.edges == s.edges && s'.peers == s.peers && s'.cfg == s.cfg && s'.lastgc == s.lastgc && s'.ribs == s.ribs
    decreases |ns|
  {
    if ns != [] {
      GcNodesTables(GcNode(s, ns[0], t), ns[1..], t);
    }
  }

  lemma {:induction false} GcNodesFrees(s: State, ns: seq<Prefix>, t: Time, n: Prefix)
    requires Distinct(ns)
    ensures n in GcNodes(s, ns, t).hists <==>
      n in s.hists && !(n in ns && GcFrees(s.cfg, Rib(s.ribs, n), s.lastgc, s.hists[n], t))
    decreases |ns|
  {
    hide GcFrees;
    if ns != [] {
      var s1 := GcNode(s, ns[0], t);
      assert ns[0] in ns && ns[0] !in ns[1..];
      assert n != ns[0] ==> (n in s1.hists <==> n in s.hists) && (n in s.hists ==> s1.hists[n] == s.hists[n]);
      GcNodesFrees(s1, ns[1..], t, n);
    }
  }

  /** What the walk over the table makes of a history it does not free. */
  lemma {:induction false} GcNodesAt(s: State, ns: seq<Prefix>, t: Time, n: Prefix)
    requires Distinct(ns) && n in s.hists && !GcFrees(s.cfg, Rib(s.ribs, n), s.lastgc, s.hists[n], t)
    ensures var s' := GcNodes(s, ns, t);
      n in s'.hists && s'.hists[n] == if n in ns then GcHist(s.cfg, Rib(s.ribs, n), s.lastgc, s.hists[n], t) else s.hists[n]
    decreases |ns|
  {
    hide GcFrees, GcHist;
    if ns != [] {
      var s1 := GcNode(s, ns[0], t);
      assert ns[0] in ns && ns[0] !in ns[1..];
      if n == ns[0] {
        GcNodesOther(s1, ns[1..], t, n);
      } else {
        assert n in s1.hists && s1.hists[n] == s.hists[n];
        GcNodesAt(s1, ns[1..], t, n);
      }
    }
  }

  lemma {:induction false} GcNodesOther(s: State, ns: seq<Prefix>, t: Time, n: Prefix)
    requires n !in ns && n in s.hists
    ensures var s' := GcNodes(s, ns, t); n in s'.hists && s'.hists[n] == s.hists[n]
    decreases |ns|
  {
    hide GcFrees, GcHist;
    if ns != [] {
      assert ns[0] in ns;
      GcNodesOther(GcNode(s, ns[0], t), ns[1..], t, n);
    }
  }

  /** A deadline that has passed is forgotten. */
  function StillDue(until: Time, t: Time): Time { if until < t then 0 else until }

  /** A pair of an interned path. */
  predicate InUse(live: set<Edge>, e: Edge) { e in live && e.a != e.b }

  /** Which edges collection keeps, and what it makes of them: a pair of an interned path is stamped
      and kept, another one is kept within its window. */
  lemma CollectedEdges(s: State, live: set<Edge>, t: Time, e: Edge)
    requires s.cfg.Sane() && s.lastgc <= t
    ensures var s' := Gc(s, live, t);
      && (e !in s.edges ==> e !in s'.edges)
      && (e in s.edges ==>
            (e in s'.edges <==> InUse(live, e) || Lives(s.cfg.edgeHist, s.edges[e].lastSeen, s.edges[e].depref, s.lastgc, t)))
      && (e in s'.edges ==>
            s'.edges[e] == EdgeRec(if InUse(live, e) then t else s.edges[e].lastSeen, StillDue(s.edges[e].depref, t)))
  {
    hide GcNodes;
    GcNodesTables(s, s.order, t);
  }

  lemma CollectedOrigin(cfg: Config, rs: seq<Route>, lastgc: Time, o: Origin, t: Time)
    requires cfg.Sane() && lastgc <= t
    ensures var kept := InRib(rs, o.asn) || Lives(cfg.originHist, o.lastSeen, o.depref, lastgc, t);
      GcOrigins(cfg, rs, lastgc, [o], t) ==
        if kept then [Origin(o.asn, if InRib(rs, o.asn) then t else o.lastSeen, StillDue(o.depref, t))] else []
  {
    hide InRib;
    assert [o][1..] == [];
  }

  /** Collection treats each record of a list by itself, and keeps the order: the oldest stays last. */
  lemma {:induction false} GcOriginsConcat(cfg: Config, rs: seq<Route>, lastgc: Time, a: seq<Origin>, b: seq<Origin>, t: Time)
    ensures GcOrigins(cfg, rs, lastgc, a + b, t) == GcOrigins(cfg, rs, lastgc, a, t) + GcOrigins(cfg, rs, lastgc, b, t)
  {
    hide GcOrigin;
    if a == [] {
      assert a + b == b;
    } else {
      assert (a + b)[1..] == a[1..] + b;
      GcOriginsConcat(cfg, rs, lastgc, a[1..], b, t);
    }
  }

  /** What is left of a history: its prefix record is stamped while the node has a route, and kept as
      long as it lives; its origins one by one. */
  lemma CollectedHistory(s: State, live: set<Edge>, t: Time, n: Prefix)
    requires s.cfg.Sane() && s.lastgc <= t && Distinct(s.order) && n in s.order && n in s.hists
    ensures var s' := Gc(s, live, t); var h := s.hists[n]; var rs := Rib(s.ribs, n);
      && (n in s'.hists <==> Spared(s, n, t))
      && (n in s'.hists ==>
            && s'.hists[n].edgePending == h.edgePending
            && s'.hists[n].origins == GcOrigins(s.cfg, rs, s.lastgc, h.origins, t)
            && s'.hists[n].prefix ==
                 if PrefixLives(s.cfg, rs, s.lastgc, h.prefix, t)
                 then Some(PrefixRec(if rs != [] then t else h.prefix.value.lastSeen,
                                     StillDue(h.prefix.value.ignoreUntil, t), h.prefix.value.avoid))
                 else None)
  {
    hide GcNodes, GcOrigins, Spared, GcFrees;
    FreesExactly(s, n, t);
    GcNodesFrees(s, s.order, t, n);
    if Spared(s, n, t) {
      GcNodesAt(s, s.order, t, n);
    }
  }

  // ---------- What a call leaves alone before it collects ----------

  /** The same records, up to the notes of a prefix record, and the same paths. */
  ghost predicate SameRecords(s: State, s': State, n: Prefix) {
    && (n in s'.hists <==> n in s.hists)
    && (n in s.hists ==>
          && s'.hists[n].origins == s.hists[n].origins
          && (s'.hists[n].prefix.Some? <==> s.hists[n].prefix.Some?)
          && (s.hists[n].prefix.Some? ==>
                && s'.hists[n].prefix.value.lastSeen == s.hists[n].prefix.value.lastSeen
                && s'.hists[n].prefix.value.ignoreUntil == s.hists[n].prefix.value.ignoreUntil))
    && SamePaths(Rib(s.ribs, n), Rib(s'.ribs, n))
  }

  ghost predicate SamePaths(rs: seq<Route>, rs': seq<Route>) {
    |rs'| == |rs| && forall j :: 0 <= j < |rs| ==> rs'[j].path == rs[j].path
  }

  lemma SameInRib(rs: seq<Route>, rs': seq<Route>, a: AsNum)
    requires SamePaths(rs, rs')
    ensures InRib(rs', a) == InRib(rs, a)
  {
  }

  lemma SameSpared(s: State, s': State, n: Prefix, t: Time)
    requires SameRecords(s, s', n) && s'.cfg == s.cfg && s'.lastgc == s.lastgc && n in s.hists
    ensures Spared(s', n, t) == Spared(s, n, t)
  {
    hide InRib;
    forall a ensures InRib(Rib(s'.ribs, n), a) == InRib(Rib(s.ribs, n), a) {
      SameInRib(Rib(s.ribs, n), Rib(s'.ribs, n), a);
    }
  }

  lemma SetSuspPPaths(rs: seq<Route>, a: AsNum, on: bool)
    ensures SamePaths(rs, SetSuspP(rs, a, on))
  {
  }

  lemma {:induction false} ClearSuspPPaths(rs: seq<Route>, av: seq<Avoid>)
    ensures SamePaths(rs, ClearSuspP(rs, av))
    decreases |av|
  {
    if av != [] {
      SetSuspPPaths(rs, av[0].peerAs, false);
      ClearSuspPPaths(SetSuspP(rs, av[0].peerAs, false), av[1..]);
    }
  }

  lemma ReuseOriginRecords(s: State, k: Prefix, t: Time, n: Prefix)
    ensures SameRecords(s, ReuseOrigin(s, k, t), n)
  {
    hide IndexOf, OriginAs;
  }

  lemma ReusePrefixRecords(s: State, k: Prefix, m: Prefix, t: Time, n: Prefix)
    ensures SameRecords(s, ReusePrefix(s, k, m, t), n)
  {
    hide Expired, Unexpired, UnlockSubs, Bump, ClearSuspP, SetSuspP;
    var s1 := s.(ribs := s.ribs[k := ClearIgnored(Rib(s.ribs, k))]);
    assert SameRecords(s, s1, n);
    if m in s1.hists && s1.hists[m].prefix.Some? {
      ClearSuspPPaths(Rib(s1.ribs, m), Expired(s1.hists[m].prefix.value.avoid, t));
    }
  }

  lemma ReuseEdgeRecords(s: State, k: Prefix, t: Time, n: Prefix)
    ensures SameRecords(s, ReuseEdge(s, k, t), n)
  {
    hide NextExpiry, RouteExpiry, Bump;
  }

  lemma ReuseAtRecords(s: State, i: nat, t: Time, n: Prefix)
    requires i < |s.queue|
    ensures SameRecords(s, ReuseAt(s, i, t), n)
    ensures ReuseAt(s, i, t).edges == s.edges
  {
    hide SameRecords, ReuseOrigin, ReusePrefix, ReuseEdge;
    var s1 := s.(queue := Remove(s.queue, i), rqSize := s.rqSize - 1);
    match s.queue[i]
    case OriginEntry(_, k, _) =>
      ReuseOriginRecords(s1, k, t, n);
      SameFields(s, s1, ReuseOrigin(s1, k, t), n);
      OriginLeavesEdges(s1, k, t);
    case PrefixEntry(_, k, m) =>
      ReusePrefixRecords(s1, k, m, t, n);
      SameFields(s, s1, ReusePrefix(s1, k, m, t), n);
    case EdgeEntry(_, k) =>
      ReuseEdgeRecords(s1, k, t, n);
      SameFields(s, s1, ReuseEdge(s1, k, t), n);
      EdgeLeavesEdges(s1, k, t);
  }

  lemma SameFields(s: State, s1: State, s2: State, n: Prefix)
    requires SameRecords(s1, s2, n) && s1.hists == s.hists && s1.ribs == s.ribs
    ensures SameRecords(s, s2, n)
  {
  }

  lemma OriginLeavesEdges(s: State, k: Prefix, t: Time)
    ensures ReuseOrigin(s, k, t).edges == s.edges
  {
  }

  lemma EdgeLeavesEdges(s: State, k: Prefix, t: Time)
    ensures ReuseEdge(s, k, t).edges == s.edges
  {
    hide NextExpiry, ForgiveEdge;
  }

  lemma RecordsTrans(s: State, s1: State, s2: State, n: Prefix)
    requires SameRecords(s, s1, n) && SameRecords(s1, s2, n)
    ensures SameRecords(s, s2, n)
  {
  }

  // ---------- Draining ----------

  lemma SameSuspectRoute(s: State, s': State, n: Prefix, t: Time)
    requires SameRecords(s, s', n) && s'.edges == s.edges
    ensures HasSuspectRoute(s', n, t) == HasSuspectRoute(s, n, t)
  {
    hide HasSuspect, PathEdges;
    if HasSuspectRoute(s, n, t) {
      var j :| 0 <= j < |Rib(s.ribs, n)| && HasSuspect(s.edges, PathEdges(Rib(s.ribs, n)[j].path), t);
      assert HasSuspect(s'.edges, PathEdges(Rib(s'.ribs, n)[j].path), t);
    }
  }

  lemma {:induction false} EdgeCountZero(q: seq<Entry>, n: Prefix)
    ensures EdgeCount(q, n) == 0 <==> forall e :: e in q && e.EdgeEntry? ==> e.node != n
  {
    if q != [] {
      EdgeCountZero(q[1..], n);
      assert q == [q[0]] + q[1..];
    }
  }

  /** Handling a due entry changes nothing about which nodes will stay pending. */
  lemma ReuseAtPending(s: State, i: nat, t: Time, n: Prefix)
    requires EdgeInv(s) && i < |s.queue| && s.queue[i].key <= t
    ensures StaysPending(ReuseAt(s, i, t), n, t) <==> StaysPending(s, n, t)
  {
    hide ReuseAt, HasSuspectRoute, EdgeCount, SameRecords;
    var s' := ReuseAt(s, i, t);
    ReuseAtRecords(s, i, t, n);
    SameSuspectRoute(s, s', n, t);
    var e := s.queue[i];
    var q := Remove(s.queue, i);
    if e.EdgeEntry? && e.node == n {
      EdgeCountRemove(s.queue, i, n);
      EdgeCountZero(q, n);
      assert EdgeOk(s, n);
      ReuseEdgeEntry(s, i, t);
      assert e in s.queue;
    } else {
      ReuseAtEntries(s, i, t, n);
    }
  }

  /** Handling a node's edge entry queues it again exactly while a route holds a suspect pair. */
  lemma ReuseEdgeEntry(s: State, i: nat, t: Time)
    requires EdgeInv(s) && i < |s.queue| && s.queue[i].EdgeEntry?
    ensures var n := s.queue[i].node; var q := Remove(s.queue, i); var q' := ReuseAt(s, i, t).queue;
      if HasSuspectRoute(s, n, t) then exists key :: key > t && q' == q + [EdgeEntry(key, n)] else q' == q
  {
    hide ReuseEdge, NextExpiry, HasSuspect, PathEdges;
    var e := s.queue[i];
    ReuseEdgeAsserts(s, e);
    var s1 := s.(queue := Remove(s.queue, i), rqSize := s.rqSize - 1);
    ReuseEdgeSpec(s1, e.node, t);
    var next := NextExpiry(s.edges, Rib(s.ribs, e.node), t);
    if HasSuspectRoute(s, e.node, t) {
      QueuedLater(s1, e.node, t);
    }
  }

  lemma QueuedLater(s: State, n: Prefix, t: Time)
    requires n in s.hists && Pending(ReuseEdge(s, n, t).hists, n)
    ensures NextExpiry(s.edges, Rib(s.ribs, n), t) > t
  {
    hide ForgiveEdge, LatestExpiry;
  }

  /** Other entries are left as they are. */
  lemma ReuseAtEntries(s: State, i: nat, t: Time, n: Prefix)
    requires i < |s.queue| && !(s.queue[i].EdgeEntry? && s.queue[i].node == n)
    ensures forall e: Entry :: e.EdgeEntry? && e.node == n ==> (e in ReuseAt(s, i, t).queue <==> e in s.queue)
  {
    hide ReusePrefix, NextExpiry, ForgiveEdge, ForgiveOrigin;
    var e0 := s.queue[i];
    var q := Remove(s.queue, i);
    forall e: Entry | e.EdgeEntry? && e.node == n ensures e in q <==> e in s.queue {
    }
  }

  /** After a drain a node has an edge entry exactly if it was to stay pending. */
  lemma {:induction false} DrainPending(s: State, t: Time, n: Prefix)
    requires EdgeInv(s) && s.rqSize == |s.queue|
    ensures var d := Drain(s, t);
      && EdgeInv(d) && SameRecords(s, d, n)
      && (Pending(d.hists, n) <==> StaysPending(s, n, t))
    decreases Due(s.queue, t)
  {
    hide SameRecords, ReuseAt, EdgeCount, HasSuspectRoute, FlagE;
    if s.rqSize == 0 {
      NoEntries(s, n, t);
    } else {
      var i := MinIndex(s.queue);
      if t < s.queue[i].key {
        AllStay(s, i, n, t);
      } else {
        var s1 := ReuseAt(s, i, t);
        ReuseAtQueue(s, i, t);
        forall k ensures EdgeOk(s1, k) {
          ReuseAtEdges(s, i, t, k);
        }
        ReuseAtPending(s, i, t, n);
        ReuseAtRecords(s, i, t, n);
        DrainPending(s1, t, n);
        RecordsTrans(s, s1, Drain(s1, t), n);
      }
    }
  }

  lemma NoEntries(s: State, n: Prefix, t: Time)
    requires EdgeInv(s) && s.queue == []
    ensures SameRecords(s, s, n) && !Pending(s.hists, n) && !StaysPending(s, n, t)
  {
    assert EdgeOk(s, n);
  }

  lemma AllStay(s: State, i: nat, n: Prefix, t: Time)
    requires EdgeInv(s) && i < |s.queue| && forall j :: 0 <= j < |s.queue| ==> t < s.queue[j].key
    ensures var d := s.(queue := Remove(s.queue, i) + [s.queue[i]]);
      && EdgeInv(d) && SameRecords(s, d, n) && (Pending(d.hists, n) <==> StaysPending(s, n, t))
  {
    hide EdgeCount, HasSuspectRoute;
    var d := s.(queue := Remove(s.queue, i) + [s.queue[i]]);
    forall k ensures EdgeOk(d, k) {
      EdgeCountRemove(s.queue, i, k);
      EdgeCountPush(Remove(s.queue, i), s.queue[i], k);
      assert EdgeOk(s, k);
    }
    EdgeCountZero(s.queue, n);
    assert EdgeOk(s, n);
    forall e | e in s.queue ensures e.key > t {
      var j :| 0 <= j < |s.queue| && s.queue[j] == e;
    }
  }

  // ---------- Detecting ----------

  /** The detectors touch the records and the pending flag of the announced node only. */
  lemma DetectRecords(s: State, m: News, t: Time, flags: Flags, n: Prefix)
    requires n != m.node
    ensures var s' := Detect(s, m, t, flags).0;
      SameRecords(s, s', n) && Pending(s'.hists, n) == Pending(s.hists, n) && s'.lastgc == s.lastgc && s'.cfg == s.cfg
  {
    hide UpdateOrigin, UpdatePrefix, UpdateEdge, FindSuper, TouchPeer, SameRecords, Pending, Bump;
    var (s1, super, newPeer) := Prepare(s, m, t);
    PrepareRecords(s, m, t, n);
    var s2 := UpdateOrigin(s1, m.node, m.path, t, newPeer).0;
    UpdateOriginRecords(s1, m.node, m.path, t, newPeer, n);
    RecordsTrans(s, s1, s2, n);
    var s3 := UpdatePrefix(s2, m.node, super, m.peerAs, m.path, t, newPeer).0;
    UpdatePrefixRecords(s2, m.node, super, m.peerAs, m.path, t, newPeer, n);
    RecordsTrans(s, s2, s3, n);
    var s4 := UpdateEdge(s3, m.node, m.path, t, newPeer).0;
    UpdateEdgeRecords(s3, m.node, m.path, t, newPeer, n);
    RecordsTrans(s, s3, s4, n);
    RelockRecords(s, s4, super, n);
  }

  lemma RelockRecords(s: State, s1: State, super: Option<Prefix>, n: Prefix)
    requires SameRecords(s, s1, n)
    ensures SameRecords(s, Relock(s1, super, -1), n)
  {
  }

  lemma PrepareRecords(s: State, m: News, t: Time, n: Prefix)
    requires n != m.node
    ensures var s' := Prepare(s, m, t).0;
      SameRecords(s, s', n) && Pending(s'.hists, n) == Pending(s.hists, n) && s'.lastgc == s.lastgc && s'.cfg == s.cfg
  {
    hide FindSuper, TouchPeer, Bump;
  }

  lemma UpdateOriginRecords(s: State, k: Prefix, path: Path, t: Time, newPeer: bool, n: Prefix)
    requires k in s.hists && n != k
    ensures var s' := UpdateOrigin(s, k, path, t, newPeer).0;
      SameRecords(s, s', n) && Pending(s'.hists, n) == Pending(s.hists, n) && s'.lastgc == s.lastgc && s'.cfg == s.cfg
  {
    hide TouchOrigin, OriginAs, Bump;
  }

  lemma UpdatePrefixRecords(s: State, k: Prefix, super: Option<Prefix>, peerAs: AsNum, path: Path,
                            t: Time, newPeer: bool, n: Prefix)
    requires k in s.hists && n != k
    ensures var s' := UpdatePrefix(s, k, super, peerAs, path, t, newPeer).0;
      SameRecords(s, s', n) && Pending(s'.hists, n) == Pending(s.hists, n) && s'.lastgc == s.lastgc && s'.cfg == s.cfg
  {
    hide JudgePrefix, ShouldIgnore, BlameSuper, SuspectPrefix, SameRecords;
    var v := JudgePrefix(s, k, super, peerAs, path, t, newPeer);
    if v.Hijack? && super.Some? {
      var s1 := if v.isNew then SuspectPrefix(s, k, super.value, t) else s;
      SuspectPrefixRecords(s, k, super.value, t, n);
      var until := PrefixOf(s1.hists[k]).ignoreUntil;
      var s2 := BlameSuper(s1, k, super.value, peerAs, until);
      BlameSuperRecords(s1, k, super.value, peerAs, until, n);
      SeePrefixRecords(s2, k, t, n);
      RecordsTrans(s1, s2, SeePrefix(s2, k, t), n);
      if v.isNew { RecordsTrans(s, s1, SeePrefix(s2, k, t), n); }
    } else {
      SeePrefixRecords(s, k, t, n);
    }
  }

  lemma SuspectPrefixRecords(s: State, k: Prefix, m: Prefix, t: Time, n: Prefix)
    requires k in s.hists && n != k
    ensures var s' := SuspectPrefix(s, k, m, t);
      SameRecords(s, s', n) && Pending(s'.hists, n) == Pending(s.hists, n) && s'.lastgc == s.lastgc && s'.cfg == s.cfg
  {
    hide Bump;
  }

  lemma BlameSuperRecords(s: State, k: Prefix, m: Prefix, peerAs: AsNum, until: Time, n: Prefix)
    ensures var s' := BlameSuper(s, k, m, peerAs, until);
      SameRecords(s, s', n) && Pending(s'.hists, n) == Pending(s.hists, n) && s'.lastgc == s.lastgc && s'.cfg == s.cfg
  {
    hide Bump, SetSuspP, FirstAvoid;
    SetSuspPPaths(Rib(s.ribs, m), peerAs, true);
  }

  lemma SeePrefixRecords(s: State, k: Prefix, t: Time, n: Prefix)
    requires k in s.hists && n != k
    ensures var s' := SeePrefix(s, k, t);
      SameRecords(s, s', n) && Pending(s'.hists, n) == Pending(s.hists, n) && s'.lastgc == s.lastgc && s'.cfg == s.cfg
  {
  }

  lemma UpdateEdgeRecords(s: State, k: Prefix, path: Path, t: Time, newPeer: bool, n: Prefix)
    requires k in s.hists && n != k
    ensures var s' := UpdateEdge(s, k, path, t, newPeer).0;
      SameRecords(s, s', n) && Pending(s'.hists, n) == Pending(s.hists, n) && s'.lastgc == s.lastgc && s'.cfg == s.cfg
  {
    hide TouchEdges, PathEdges, Bump;
  }
}
