/**
 Runs that show what the run invariant has to assume: a collection that strands an edge entry, and a
 flagged route given a path the engine never saw.
 */
module PgbgpWitnesses {
  import opened Common
  import opened PgbgpModel
  import opened PgbgpCollection
  import opened PgbgpRuns

  /** Origins and sub-prefixes are suspected for an hour, edges for two days; origins and prefixes are
      remembered for a day and edges for three. */
  const LONG_EDGES := Config(3600, 172800, 3600, 86400, 86400, 259200)

  /** The default route's node. */
  const ROOT: Prefix := []

  const FIRST := News(ROOT, 1, 1, [Segment(2, [1, 2])])

  /** The table's only history after the first announcement. */
  const FIRST_HIST := Hist([Origin(2, 300000, 0)], Some(PrefixRec(300000, 0, [])), true)

  function AfterFirst(ribs: map<Prefix, seq<Route>>, lastgc: Time): State {
    State(LONG_EDGES, [ROOT], map[ROOT := FIRST_HIST], ribs, map[ROOT := 2], [EdgeEntry(472800, ROOT)], 1,
          map[Edge(1, 2) := EdgeRec(300000, 472800)], map[1 := PeerRec(300000, 0)], lastgc)
  }

  const FIRST_ROUTE := Route(1, 1, [Segment(2, [1, 2])], Flags(false, false, true, false), false)

  lemma FirstPath()
    ensures OriginAs(FIRST.path) == 2 && PathEdges(FIRST.path) == [Edge(1, 2)]
  {
    assert Flatten(FIRST.path) == [1, 2] by { assert FIRST.path[1..] == []; }
    assert [1, 2][1..] == [2];
    assert Pairs([1, 2]) == [Edge(1, 2)] + Pairs([2]);
  }

  function Prepared(h: Hist): State {
    State(LONG_EDGES, [ROOT], map[ROOT := h], map[], map[ROOT := 1], [], 0, map[], map[1 := PeerRec(300000, 0)], 0)
  }

  lemma FirstPrepared()
    ensures Prepare(Fresh(LONG_EDGES, 0).(order := [ROOT]), FIRST, 300000) == (Prepared(Hist([], None, false)), None, false)
  {
  }

  lemma FirstOrigin()
    ensures UpdateOrigin(Prepared(Hist([], None, false)), [], FIRST.path, 300000, false)
      == (Prepared(Hist([Origin(2, 300000, 0)], None, false)), false)
  {
    FirstPath();
    assert [Origin(2, 0, 0)] + [] == [Origin(2, 0, 0)];
    assert [Origin(2, 0, 0)][0 := Origin(2, 300000, 0)] == [Origin(2, 300000, 0)];
    assert TouchOrigin(LONG_EDGES, [], 2, 300000, false) == Touch([Origin(2, 300000, 0)], false, false);
    var h := Hist([], None, false);
    var h' := Hist([Origin(2, 300000, 0)], None, false);
    assert map[ROOT := h][ROOT := h'] == map[ROOT := h'];
  }

  lemma FirstPrefix()
    ensures UpdatePrefix(Prepared(Hist([Origin(2, 300000, 0)], None, false)), [], None, 1, FIRST.path, 300000, false)
      == (Prepared(FIRST_HIST.(edgePending := false)), false, false)
  {
    var h := Hist([Origin(2, 300000, 0)], None, false);
    assert map[ROOT := h][ROOT := FIRST_HIST.(edgePending := false)] == map[ROOT := FIRST_HIST.(edgePending := false)];
  }

  lemma FirstEdge()
    ensures UpdateEdge(Prepared(FIRST_HIST.(edgePending := false)), [], FIRST.path, 300000, false)
      == (AfterFirst(map[], 0), true)
  {
    FirstPath();
    var f0 := EdgeFold(map[], 0);
    var f := TouchEdge(LONG_EDGES, f0, Edge(1, 2), 300000, false);
    assert [Edge(1, 2)][1..] == [];
    assert TouchEdges(LONG_EDGES, f0, [Edge(1, 2)], 300000, false) == TouchEdges(LONG_EDGES, f, [], 300000, false) == f;
    assert f == EdgeFold(map[Edge(1, 2) := EdgeRec(300000, 472800)], 472800);
    assert [] + [EdgeEntry(472800, ROOT)] == [EdgeEntry(472800, ROOT)];
    assert map[ROOT := FIRST_HIST.(edgePending := false)][ROOT := FIRST_HIST] == map[ROOT := FIRST_HIST];
    assert Bump(map[ROOT := 1], ROOT, 1) == map[ROOT := 2];
  }

  lemma FirstDetected()
    ensures Detect(Fresh(LONG_EDGES, 0).(order := [ROOT]), FIRST, 300000, NO_FLAGS)
      == (AfterFirst(map[], 0), FIRST_ROUTE.flags)
  {
    hide Prepare, UpdateOrigin, UpdatePrefix, UpdateEdge;
    FirstPrepared();
    FirstOrigin();
    FirstPrefix();
    FirstEdge();
  }

  lemma FirstCollected()
    ensures Gc(AfterFirst(map[], 0), {}, 300000) == AfterFirst(map[], 300000)
  {
    var s := AfterFirst(map[], 0);
    assert [Origin(2, 300000, 0)][1..] == [];
    assert GcOrigins(s.cfg, [], 0, [Origin(2, 300000, 0)], 300000) == [Origin(2, 300000, 0)];
    assert GcNode(s, [], 300000) == s;
    assert s.order[1..] == [];
    assert GcNodes(s, s.order, 300000) == GcNodes(s, [], 300000) == s;
  }

  /** The first announcement leaves an edge entry for time 472800. */
  lemma FirstAnnounced()
    ensures Fair(Fresh(LONG_EDGES, 0), 0, Announced(FIRST, {}, 300000))
    ensures Announce(Fresh(LONG_EDGES, 0), FIRST, {}, 300000) == AfterFirst(map[ROOT := [FIRST_ROUTE]], 300000)
  {
    hide Detect, Gc;
    var s := Fresh(LONG_EDGES, 0);
    assert AddNode(s, []) == s.(order := [ROOT]);
    FirstDetected();
    FirstCollected();
    assert PutRoute([], FIRST, FIRST_ROUTE.flags) == [FIRST_ROUTE] + [] == [FIRST_ROUTE];
  }

  // ---------- A collection that strands an entry ----------

  const LATER := News([true], 1, 1, [Segment(2, [1])])

  /** Once the route is withdrawn, nothing keeps the history until the edge suspicion is over: the
      announcement of another prefix collects it and leaves its entry behind, and the drain of the
      next announcement a day later handles the entry of a node without a history. */
  lemma CollectionStrands(live: set<Edge>) returns (es: seq<Event>, s: State)
    ensures Reaches(Fresh(LONG_EDGES, 0), 0, es, s, 300000) && s.rqSize == |s.queue|
    ensures !CollectionSafe(s, LATER, 386400)
    ensures var s1 := Announce(s, LATER, live, 386400);
      Stranded(s1, ROOT) && s1.rqSize == |s1.queue| && DrainFaults(AddNode(s1, LATER.node), 472800)
  {
    hide Announce, Stranded, DrainFaults;
    es := [Announced(FIRST, {}, 300000), Withdrawn(ROOT, 0)];
    FirstAnnounced();
    var s0 := AfterFirst(map[ROOT := [FIRST_ROUTE]], 300000);
    s := Withdraw(s0, ROOT, 0);
    assert Remove([FIRST_ROUTE], 0) == [];
    ThenWithdrawn(es, s0, s);
    FreshInv(LONG_EDGES, 0);
    RunKeeps(Fresh(LONG_EDGES, 0), 0, es, s, 300000);
    assert s.queue[0] == EdgeEntry(472800, ROOT);
    assert StaysPending(s, ROOT, 386400);
    StrandsExactly(s, LATER, live, 300000, 386400, ROOT);
    AnnounceCounts(s, LATER, live, 300000, 386400);
    AnnounceWaits(s, LATER, live, 386400, EdgeEntry(472800, ROOT));
    ThenFaults(Announce(s, LATER, live, 386400));
  }

  /** The counter of the queue is its size, whatever is collected. */
  lemma AnnounceCounts(s: State, m: News, live: set<Edge>, now: Time, t: Time)
    requires EngineInv(s, now) && now <= t
    ensures var s' := Announce(s, m, live, t); s'.rqSize == |s'.queue|
  {
    hide BeforeGc, Gc, PutRoute;
    BeforeGcKeeps(s, m, now, t);
    GcFrame(BeforeGc(s, m, t).0, live, t);
  }

  lemma ThenFaults(s: State)
    requires s.rqSize == |s.queue| && Stranded(s, ROOT) && EdgeEntry(472800, ROOT) in s.queue
    ensures DrainFaults(AddNode(s, LATER.node), 472800)
  {
    hide DrainFaults;
    FaultsExactly(AddNode(s, LATER.node), 472800);
  }

  lemma ThenWithdrawn(es: seq<Event>, s1: State, s: State)
    requires es == [Announced(FIRST, {}, 300000), Withdrawn(ROOT, 0)]
    requires s1 == AfterFirst(map[ROOT := [FIRST_ROUTE]], 300000) && s == Withdraw(s1, ROOT, 0)
    ensures Reaches(Fresh(LONG_EDGES, 0), 0, es, s, 300000)
  {
    hide Announce;
    FirstAnnounced();
    assert Reaches(s, 300000, [], s, 300000);
    assert es[1..] == [es[1]] && es[1..][1..] == [];
    assert Reaches(s1, 300000, es[1..], s, 300000);
  }

  // ---------- A path the engine never saw ----------

  const SECOND := News(ROOT, 3, 3, [Segment(2, [3])])
  const HIDDEN := News(ROOT, 3, 3, [Segment(2, [4])])
  const SUSPECTED := Flags(true, false, false, false)

  function SecondHist(seen: Time): Hist {
    Hist([Origin(3, 300001, 303601), Origin(2, 300000, 0)], Some(PrefixRec(seen, 0, [])), true)
  }

  /** Before and after the announcement of a second origin. */
  function BeforeSecond(): State {
    AfterFirst(map[ROOT := [FIRST_ROUTE]], 300000)
      .(peers := map[1 := PeerRec(300000, 0), 3 := PeerRec(300001, 0)])
  }

  function AfterSecond(seen: Time): State {
    BeforeSecond().(hists := map[ROOT := SecondHist(seen)], locks := map[ROOT := 3],
                    queue := [EdgeEntry(472800, ROOT), OriginEntry(303601, ROOT, 3)], rqSize := 2)
  }

  lemma SecondPath()
    ensures OriginAs(SECOND.path) == 3 && OriginAs(HIDDEN.path) == 4 && PathEdges(SECOND.path) == []
  {
    assert Flatten(SECOND.path) == [3] by { assert SECOND.path[1..] == []; }
  }

  lemma SecondOrigin()
    ensures UpdateOrigin(BeforeSecond(), ROOT, SECOND.path, 300001, false) == (AfterSecond(300000), true)
  {
    SecondPath();
    var os := FIRST_HIST.origins;
    assert IndexOf(os, 3) == 1 by { assert os[1..] == []; }
    var os1 := [Origin(3, 0, 0)] + os;
    assert os1 == [Origin(3, 0, 0), Origin(2, 300000, 0)];
    assert os1[0 := Origin(3, 300001, 303601)] == SecondHist(300000).origins;
    assert TouchOrigin(LONG_EDGES, os, 3, 300001, false) == Touch(SecondHist(300000).origins, true, true);
    assert map[ROOT := FIRST_HIST][ROOT := SecondHist(300000)] == map[ROOT := SecondHist(300000)];
    assert Bump(map[ROOT := 2], ROOT, 1) == map[ROOT := 3];
    assert BeforeSecond().queue + [OriginEntry(303601, ROOT, 3)] == AfterSecond(300000).queue;
  }

  lemma SecondPrefix()
    ensures UpdatePrefix(AfterSecond(300000), ROOT, None, 3, SECOND.path, 300001, false)
      == (AfterSecond(300001), false, false)
  {
    assert map[ROOT := SecondHist(300000)][ROOT := SecondHist(300001)] == map[ROOT := SecondHist(300001)];
  }

  lemma SecondEdge()
    ensures UpdateEdge(AfterSecond(300001), ROOT, SECOND.path, 300001, false) == (AfterSecond(300001), false)
  {
    SecondPath();
  }

  lemma SecondDetected()
    ensures Detect(AfterFirst(map[ROOT := [FIRST_ROUTE]], 300000), SECOND, 300001, NO_FLAGS)
      == (AfterSecond(300001), SUSPECTED)
  {
    hide UpdateOrigin, UpdatePrefix, UpdateEdge;
    var s := AfterFirst(map[ROOT := [FIRST_ROUTE]], 300000);
    assert Prepare(s, SECOND, 300001) == (BeforeSecond(), None, false);
    SecondOrigin();
    SecondPrefix();
    SecondEdge();
  }

  lemma SecondAnnounced()
    ensures var s := AfterFirst(map[ROOT := [FIRST_ROUTE]], 300000);
      Announce(s, SECOND, {}, 300001)
        == AfterSecond(300001).(ribs := map[ROOT := [Route(3, 3, SECOND.path, SUSPECTED, false), FIRST_ROUTE]])
  {
    hide Detect;
    var s := AfterFirst(map[ROOT := [FIRST_ROUTE]], 300000);
    assert Remove(s.queue, 0) + [s.queue[0]] == s.queue;
    assert Drain(AddNode(s, ROOT), 300001) == s;
    assert FromPeer([FIRST_ROUTE], 3) == 1 by { assert [FIRST_ROUTE][1..] == []; }
    SecondDetected();
    assert PutRoute([FIRST_ROUTE], SECOND, SUSPECTED) == [Route(3, 3, SECOND.path, SUSPECTED, false), FIRST_ROUTE];
    assert s.ribs[ROOT := [Route(3, 3, SECOND.path, SUSPECTED, false), FIRST_ROUTE]]
      == map[ROOT := [Route(3, 3, SECOND.path, SUSPECTED, false), FIRST_ROUTE]];
  }

  /** A run after which replacing a flagged route's path behind the engine's back leaves a pending
      origin entry whose handling finds no record of the new origin. */
  lemma BypassLosesRecord() returns (es: seq<Event>, s: State)
    ensures Reaches(Fresh(LONG_EDGES, 0), 0, es, s, 300001)
    ensures !OnRecord(s, HIDDEN)
    ensures var s' := Bypass(s, HIDDEN);
      && OriginEntry(303601, ROOT, 3) in s'.queue && ROOT in s'.hists
      && exists r :: r in Rib(s'.ribs, ROOT) && r.flags.suspO && !Knows(s'.hists[ROOT].origins, OriginAs(r.path))
  {
    hide Announce;
    var s1 := AfterFirst(map[ROOT := [FIRST_ROUTE]], 300000);
    es := [Announced(FIRST, {}, 300000), Announced(SECOND, {}, 300001)];
    s := Announce(s1, SECOND, {}, 300001);
    FirstAnnounced();
    SecondAnnounced();
    SecondPath();
    assert Reaches(s, 300001, [], s, 300001);
    assert es[1..] == [es[1]] && es[1..][1..] == [];
    assert Reaches(s1, 300000, es[1..], s, 300001);
    var s' := Bypass(s, HIDDEN);
    assert s'.queue[1] == OriginEntry(303601, ROOT, 3);
    assert Rib(s'.ribs, ROOT)[0].path == HIDDEN.path;
  }
}
