/**
 When exactly each detector flags an announcement, said without reference to the order in which it
 looks at records, notes and pairs.
 */
module PgbgpVerdicts {
  import opened Common
  import opened PgbgpModel
  import opened PgbgpOrigins

  // ---------- Paths ----------

  /** Segment k is neither an AS_SET nor an AS_CONFED_SET, and all after it are. */
  predicate OriginSegment(segs: seq<Segment>, k: nat) {
    && k < |segs| && segs[k].kind != 1 && segs[k].kind != 4
    && forall j :: k < j < |segs| ==> segs[j].kind == 1 || segs[j].kind == 4
  }

  lemma {:induction false} LastSequenceIs(segs: seq<Segment>)
    ensures LastSequence(segs).Some? ==> exists k: nat :: OriginSegment(segs, k) && LastSequence(segs).value == segs[k]
    ensures LastSequence(segs).None? ==> forall k: nat :: !OriginSegment(segs, k)
  {
    if segs != [] {
      var n := |segs| - 1;
      var front := segs[..n];
      LastSequenceIs(front);
      if !IsSet(segs[n]) {
        assert OriginSegment(segs, n);
      } else {
        forall k: nat ensures OriginSegment(segs, k) <==> OriginSegment(front, k) {
          assert k < n ==> segs[k] == front[k];
          assert forall j :: k < j < n ==> segs[j] == front[j];
        }
      }
    }
  }

  /** The origin is the last AS of the last segment that is not a set; a path is usable exactly if it
      has one. */
  lemma OriginIs(segs: seq<Segment>, k: nat)
    ensures OriginSegment(segs, k) ==> (HasOrigin(segs) <==> segs[k].ases != [])
    ensures OriginSegment(segs, k) && segs[k].ases != [] ==> OriginAs(segs) == segs[k].ases[|segs[k].ases| - 1]
    ensures HasOrigin(segs) ==> exists i: nat :: OriginSegment(segs, i)
  {
    LastSequenceIs(segs);
    if LastSequence(segs).Some? && OriginSegment(segs, k) {
      var i: nat :| OriginSegment(segs, i) && LastSequence(segs).value == segs[i];
      assert i == k;
    }
  }

  /** The pairs of a path run over the ASes of all its segments, in order. */
  lemma {:induction false} AllAses(a: seq<Segment>, b: seq<Segment>)
    ensures Flatten(a + b) == Flatten(a) + Flatten(b)
    ensures |b| == 1 ==> Flatten(b) == b[0].ases
  {
    if a == [] {
      assert a + b == b;
      assert |b| == 1 ==> b[1..] == [];
    } else {
      assert (a + b)[1..] == a[1..] + b;
      AllAses(a[1..], b);
    }
  }

  // ---------- Origins ----------

  ghost predicate UnderSuspicion(os: seq<Origin>, a: AsNum, t: Time) {
    exists o :: o in os && o.asn == a && o.depref > t
  }

  ghost predicate SeenRecently(cfg: Config, os: seq<Origin>, a: AsNum, t: Time) {
    exists o :: o in os && o.asn == a && o.lastSeen + cfg.originHist > t
  }

  /** An origin is flagged exactly when it is not the prefix's oldest one and is either still under
      suspicion, or was not seen within the window while the peer is not in its grace period. */
  lemma OriginVerdict(cfg: Config, os: seq<Origin>, a: AsNum, t: Time, newPeer: bool)
    requires DistinctAsns(os) && cfg.originHist <= t
    ensures TouchOrigin(cfg, os, a, t, newPeer).suspicious <==>
      && os != [] && os[|os| - 1].asn != a
      && (UnderSuspicion(os, a, t) || (!SeenRecently(cfg, os, a, t) && !newPeer))
    ensures TouchOrigin(cfg, os, a, t, newPeer).starts <==>
      TouchOrigin(cfg, os, a, t, newPeer).suspicious && !UnderSuspicion(os, a, t)
  {
    var i := IndexOf(os, a);
    if i < |os| {
      assert os[i] in os;
      forall o | o in os && o.asn == a ensures o == os[i] {
        var j :| 0 <= j < |os| && os[j] == o;
      }
    }
  }

  // ---------- Edges ----------

  /** A pair the detector objects to. */
  predicate Objectionable(cfg: Config, edges: map<Edge, EdgeRec>, e: Edge, t: Time, newPeer: bool) {
    var r := if e in edges then edges[e] else EdgeRec(0, 0);
    e.a != e.b && (r.depref > t || (r.lastSeen + cfg.edgeHist <= t && !newPeer))
  }

  /** Looking at one pair leaves the verdict on every pair as it was. */
  lemma TouchEdgeVerdict(cfg: Config, f: EdgeFold, e: Edge, t: Time, newPeer: bool, x: Edge)
    requires 0 < cfg.edgeSus && 0 < cfg.edgeHist
    ensures var g := TouchEdge(cfg, f, e, t, newPeer);
      && Objectionable(cfg, g.edges, x, t, newPeer) == Objectionable(cfg, f.edges, x, t, newPeer)
      && (g.latest > 0 <==> f.latest > 0 || Objectionable(cfg, f.edges, e, t, newPeer))
  {
  }

  lemma {:induction false} TouchEdgesVerdict(cfg: Config, f: EdgeFold, es: seq<Edge>, t: Time, newPeer: bool)
    requires 0 < cfg.edgeSus && 0 < cfg.edgeHist
    ensures TouchEdges(cfg, f, es, t, newPeer).latest > 0 <==>
      f.latest > 0 || exists i :: 0 <= i < |es| && Objectionable(cfg, f.edges, es[i], t, newPeer)
    decreases |es|
  {
    if es != [] {
      hide TouchEdge, Objectionable;
      var g := TouchEdge(cfg, f, es[0], t, newPeer);
      TouchEdgeVerdict(cfg, f, es[0], t, newPeer, es[0]);
      forall x ensures Objectionable(cfg, g.edges, x, t, newPeer) == Objectionable(cfg, f.edges, x, t, newPeer) {
        TouchEdgeVerdict(cfg, f, es[0], t, newPeer, x);
      }
      TouchEdgesVerdict(cfg, g, es[1..], t, newPeer);
      forall i | 0 <= i < |es[1..]| ensures es[1..][i] == es[i + 1] {
      }
      if i :| 0 <= i < |es| && Objectionable(cfg, f.edges, es[i], t, newPeer) {
        if i > 0 { assert Objectionable(cfg, g.edges, es[1..][i - 1], t, newPeer); }
      }
      if i :| 0 <= i < |es[1..]| && Objectionable(cfg, g.edges, es[1..][i], t, newPeer) {
        assert Objectionable(cfg, f.edges, es[i + 1], t, newPeer);
      }
    }
  }

  /** A path is flagged exactly when one of its consecutive pairs of different AS numbers is still
      under suspicion, or was not seen within the window while the peer is not in its grace period;
      that a path holds a pair twice makes no difference. */
  lemma EdgeVerdict(s: State, n: Prefix, path: Path, t: Time, newPeer: bool)
    requires s.cfg.Sane() && n in s.hists
    ensures UpdateEdge(s, n, path, t, newPeer).1 <==>
      exists i :: 0 <= i < |PathEdges(path)| && Objectionable(s.cfg, s.edges, PathEdges(path)[i], t, newPeer)
  {
    hide Objectionable, TouchEdges, PathEdges;
    TouchEdgesVerdict(s.cfg, EdgeFold(s.edges, 0), PathEdges(path), t, newPeer);
  }

  /** The deadline of a pair once it was announced: a suspicion that is running keeps its own, a new
      one gets the whole window. */
  function DeadlineAfter(cfg: Config, edges: map<Edge, EdgeRec>, e: Edge, t: Time, newPeer: bool): Time {
    var r := if e in edges then edges[e] else EdgeRec(0, 0);
    if Objectionable(cfg, edges, e, t, newPeer) && r.depref <= t then t + cfg.edgeSus else r.depref
  }

  function Was(edges: map<Edge, EdgeRec>, e: Edge): EdgeRec { if e in edges then edges[e] else EdgeRec(0, 0) }

  /** Some objectionable pair of the path has this deadline, and none a later one. */
  ghost predicate IsKey(cfg: Config, edges: map<Edge, EdgeRec>, es: seq<Edge>, t: Time, newPeer: bool, key: Time) {
    && (exists e :: e in es && Objectionable(cfg, edges, e, t, newPeer) && DeadlineAfter(cfg, edges, e, t, newPeer) == key)
    && forall e :: e in es && Objectionable(cfg, edges, e, t, newPeer) ==> DeadlineAfter(cfg, edges, e, t, newPeer) <= key
  }

  predicate OnPath(es: seq<Edge>, e: Edge) { e.a != e.b && e in es }

  lemma TouchOne(cfg: Config, f: EdgeFold, e: Edge, t: Time, newPeer: bool, x: Edge)
    requires 0 < cfg.edgeHist
    ensures var g := TouchEdge(cfg, f, e, t, newPeer); var touched := x == e && e.a != e.b;
      var want := if touched then EdgeRec(t, DeadlineAfter(cfg, f.edges, x, t, newPeer)) else Was(f.edges, x);
      && (x in g.edges <==> x in f.edges || touched) && Was(g.edges, x) == want
      && DeadlineAfter(cfg, g.edges, x, t, newPeer) == DeadlineAfter(cfg, f.edges, x, t, newPeer)
      && g.latest == if Objectionable(cfg, f.edges, e, t, newPeer) then Max(f.latest, DeadlineAfter(cfg, f.edges, e, t, newPeer)) else f.latest
  {
  }

  /** Every pair of an announced path is on record as seen now, with its deadline; no other is touched. */
  lemma {:induction false} TouchEdgesStamps(cfg: Config, f: EdgeFold, es: seq<Edge>, t: Time, newPeer: bool, x: Edge)
    requires 0 < cfg.edgeSus && 0 < cfg.edgeHist
    ensures var g := TouchEdges(cfg, f, es, t, newPeer);
      var want := if OnPath(es, x) then EdgeRec(t, DeadlineAfter(cfg, f.edges, x, t, newPeer)) else Was(f.edges, x);
      (x in g.edges <==> x in f.edges || OnPath(es, x)) && Was(g.edges, x) == want
    decreases |es|
  {
    if es != [] {
      hide TouchEdge, DeadlineAfter;
      TouchOne(cfg, f, es[0], t, newPeer, x);
      TouchEdgesStamps(cfg, TouchEdge(cfg, f, es[0], t, newPeer), es[1..], t, newPeer, x);
      assert es == [es[0]] + es[1..];
    }
  }

  /** The greatest deadline of the objectionable pairs, if there is one. */
  lemma {:induction false} TouchEdgesKey(cfg: Config, f: EdgeFold, es: seq<Edge>, t: Time, newPeer: bool)
    requires 0 < cfg.edgeSus && 0 < cfg.edgeHist
    ensures var g := TouchEdges(cfg, f, es, t, newPeer);
      && f.latest <= g.latest
      && (g.latest == f.latest || IsKey(cfg, f.edges, es, t, newPeer, g.latest))
      && forall e :: e in es && Objectionable(cfg, f.edges, e, t, newPeer) ==> DeadlineAfter(cfg, f.edges, e, t, newPeer) <= g.latest
    decreases |es|
  {
    if es != [] {
      hide TouchEdge, DeadlineAfter, Objectionable;
      var g := TouchEdge(cfg, f, es[0], t, newPeer);
      forall x ensures Objectionable(cfg, g.edges, x, t, newPeer) == Objectionable(cfg, f.edges, x, t, newPeer)
        && DeadlineAfter(cfg, g.edges, x, t, newPeer) == DeadlineAfter(cfg, f.edges, x, t, newPeer)
      {
        TouchEdgeVerdict(cfg, f, es[0], t, newPeer, x);
        TouchOne(cfg, f, es[0], t, newPeer, x);
      }
      TouchOne(cfg, f, es[0], t, newPeer, es[0]);
      TouchEdgesKey(cfg, g, es[1..], t, newPeer);
      assert es == [es[0]] + es[1..];
    }
  }

  /** What an announcement makes of the edge table and the queue: its pairs are stamped, and a node
      that has no entry yet gets one for the greatest deadline of the objectionable pairs. */
  lemma EdgesAnnounced(s: State, n: Prefix, path: Path, t: Time, newPeer: bool, x: Edge)
    requires s.cfg.Sane() && n in s.hists
    ensures var (s', flag) := UpdateEdge(s, n, path, t, newPeer); var es := PathEdges(path);
      var want := if OnPath(es, x) then EdgeRec(t, DeadlineAfter(s.cfg, s.edges, x, t, newPeer)) else Was(s.edges, x);
      && (x in s'.edges <==> x in s.edges || OnPath(es, x)) && Was(s'.edges, x) == want
      && if flag && !s.hists[n].edgePending
         then exists key :: IsKey(s.cfg, s.edges, es, t, newPeer, key) && s'.queue == s.queue + [EdgeEntry(key, n)]
         else s'.queue == s.queue
  {
    hide Objectionable, DeadlineAfter, TouchEdges, PathEdges, Bump, OnPath, IsKey;
    TouchEdgesStamps(s.cfg, EdgeFold(s.edges, 0), PathEdges(path), t, newPeer, x);
    TouchEdgesKey(s.cfg, EdgeFold(s.edges, 0), PathEdges(path), t, newPeer);
  }

  // ---------- Peers ----------

  predicate InGrace(peers: map<nat, PeerRec>, peer: nat, t: Time) {
    peer in peers && peers[peer].depref > t
  }

  /** A peer never seen counts as seen at time 0. */
  predicate AwayTooLong(peers: map<nat, PeerRec>, peer: nat, t: Time) {
    (if peer in peers then peers[peer].lastSeen else 0) + 86400 * 30 <= t
  }

  /** A peer counts as new exactly when it is in its grace period or was not seen for 30 days; only
      the latter starts a grace period. */
  lemma PeerVerdict(peers: map<nat, PeerRec>, peer: nat, t: Time)
    ensures var (peers', newPeer) := TouchPeer(peers, peer, t);
      && (newPeer <==> InGrace(peers, peer, t) || AwayTooLong(peers, peer, t))
      && peer in peers' && peers'[peer].lastSeen == t && peers' - {peer} == peers - {peer}
      && (InGrace(peers', peer, t) <==> newPeer)
  {
    var peers' := TouchPeer(peers, peer, t).0;
    assert peers' - {peer} == peers - {peer};
  }

  /** The table after the peer was seen at each of these times. */
  function Sightings(peers: map<nat, PeerRec>, peer: nat, ts: seq<Time>): map<nat, PeerRec> {
    if ts == [] then peers
    else TouchPeer(Sightings(peers, peer, ts[..|ts| - 1]), peer, ts[|ts| - 1]).0
  }

  function Last(t: Time, ts: seq<Time>): Time { if ts == [] then t else ts[|ts| - 1] }

  /** The times go forward, from t on, and never leave out 30 days. */
  predicate Steady(t: Time, ts: seq<Time>) {
    if ts == [] then true
    else
      var front := ts[..|ts| - 1];
      Steady(t, front) && Last(t, front) <= ts[|ts| - 1] < Last(t, front) + 86400 * 30
  }

  lemma {:induction false} SightingsKeep(peers: map<nat, PeerRec>, peer: nat, t: Time, ts: seq<Time>)
    requires AwayTooLong(peers, peer, t) && !InGrace(peers, peer, t) && Steady(t, ts)
    ensures var peers' := Sightings(peers, peer, [t] + ts);
      peer in peers' && peers'[peer] == PeerRec(Last(t, ts), t + 86400)
    decreases |ts|
  {
    if ts == [] {
      assert [t] + ts == [t] && [t][..0] == [];
    } else {
      var front := ts[..|ts| - 1];
      assert ([t] + ts)[..|[t] + ts| - 1] == [t] + front;
      SightingsKeep(peers, peer, t, front);
    }
  }

  /** A peer that turns up after 30 days is new for one day from then on, however often it is seen,
      and trusted afterwards as long as it does not stay away again. */
  lemma GracePeriod(peers: map<nat, PeerRec>, peer: nat, t: Time, ts: seq<Time>, u: Time)
    requires AwayTooLong(peers, peer, t) && !InGrace(peers, peer, t) && Steady(t, ts + [u])
    ensures TouchPeer(Sightings(peers, peer, [t] + ts), peer, u).1 <==> u < t + 86400
  {
    assert (ts + [u])[..|ts|] == ts;
    SightingsKeep(peers, peer, t, ts);
  }

  // ---------- Sub-prefixes ----------

  /** The first route from AS a is not anomalous, and its path leads to this one. */
  predicate LedTo(rs: seq<Route>, a: AsNum, path: Path) {
    exists j :: 0 <= j < |rs| && IsFirst(rs, j) && rs[j].peerAs == a
      && rs[j].flags == Flags(false, false, false, false) && PathIsPrefix(rs[j].path, path)
  }

  predicate IsFirst(rs: seq<Route>, j: nat)
    requires j < |rs|
  {
    forall i :: 0 <= i < j ==> rs[i].peerAs != rs[j].peerAs
  }

  lemma FirstFromIs(rs: seq<Route>, a: AsNum, j: nat)
    requires j < |rs|
    ensures FirstFrom(rs, a) == j <==> rs[j].peerAs == a && IsFirst(rs, j)
  {
  }

  lemma LedToIs(rs: seq<Route>, a: AsNum, path: Path)
    ensures SamePath(rs, a, path) <==> LedTo(rs, a, path)
  {
    hide PathIsPrefix;
    forall j: nat | j < |rs| ensures FirstFrom(rs, a) == j <==> rs[j].peerAs == a && IsFirst(rs, j) {
      FirstFromIs(rs, a, j);
    }
  }

  /** Segment by segment: as many, of the same kinds, each one continued. */
  lemma {:induction false} PathIsPrefixMeans(p: seq<Segment>, q: seq<Segment>)
    ensures PathIsPrefix(p, q) <==>
      |p| == |q| && forall i :: 0 <= i < |p| ==> p[i].kind == q[i].kind && p[i].ases <= q[i].ases
  {
    if p != [] && q != [] {
      PathIsPrefixMeans(p[1..], q[1..]);
      forall i | 0 <= i < |p[1..]| ensures p[1..][i] == p[i + 1] {
      }
      forall i | 0 <= i < |q[1..]| ensures q[1..][i] == q[i + 1] {
      }
    }
  }

  /** The prefix is suspected already, or becomes so: it was not seen within the window by an
      established peer, a super-prefix is known, and no trusted path of it leads here. */
  predicate HijackBegins(s: State, n: Prefix, super: Option<Prefix>, peerAs: AsNum, path: Path, t: Time, newPeer: bool)
    requires n in s.hists
  {
    var pre := PrefixOf(s.hists[n]);
    && pre.ignoreUntil <= t && pre.lastSeen + s.cfg.prefixHist <= t
    && (forall i :: 0 <= i < |pre.avoid| ==> pre.avoid[i].peerAs != peerAs || pre.avoid[i].until <= t)
    && !newPeer && super.Some? && !LedTo(Rib(s.ribs, super.value), peerAs, path)
  }

  predicate Hijacked(s: State, n: Prefix, super: Option<Prefix>, peerAs: AsNum, path: Path, t: Time, newPeer: bool)
    requires n in s.hists
  {
    super.Some? && (PrefixOf(s.hists[n]).ignoreUntil > t || HijackBegins(s, n, super, peerAs, path, t, newPeer))
  }

  lemma JudgeMeans(s: State, n: Prefix, super: Option<Prefix>, peerAs: AsNum, path: Path, t: Time, newPeer: bool)
    requires n in s.hists
    ensures var v := JudgePrefix(s, n, super, peerAs, path, t, newPeer);
      var pre := PrefixOf(s.hists[n]);
      && (v == AvoidPeer <==> pre.ignoreUntil <= t && Avoided(pre.avoid, peerAs, t))
      && (v == Hijack(true) <==> HijackBegins(s, n, super, peerAs, path, t, newPeer))
      && (v == Hijack(true) ==> super.Some?)
      && (v == Hijack(false) <==> pre.ignoreUntil > t)
  {
    hide SamePath, LedTo, PathIsPrefix;
    if super.Some? {
      LedToIs(Rib(s.ribs, super.value), peerAs, path);
    }
  }

  lemma BlameEffects(s: State, n: Prefix, m: Prefix, peerAs: AsNum, until: Time)
    ensures var s' := BlameSuper(s, n, m, peerAs, until);
      s'.queue == s.queue && s'.cfg == s.cfg && s'.ribs == s.ribs[m := SetSuspP(Rib(s.ribs, m), peerAs, true)]
  {
    hide Bump, FirstAvoid;
  }

  /** When exactly the sub-prefix detector starts a suspicion, and what it flags: the announced route
      for a note about its neighbour; the super-prefix's first route from that neighbour; and
      IGNORED_P when the super-prefix still has a selected route that is not suspect after that. */
  lemma PrefixVerdict(s: State, n: Prefix, super: Option<Prefix>, peerAs: AsNum, path: Path, t: Time, newPeer: bool)
    requires n in s.hists
    ensures var (s', suspP, ignP) := UpdatePrefix(s, n, super, peerAs, path, t, newPeer);
      var pre := PrefixOf(s.hists[n]);
      var begins := HijackBegins(s, n, super, peerAs, path, t, newPeer);
      && (suspP <==> pre.ignoreUntil <= t && Avoided(pre.avoid, peerAs, t))
      && s'.queue == (if begins then s.queue + [PrefixEntry(t + s.cfg.subSus, n, super.value)] else s.queue)
      && (ignP <==> Hijacked(s, n, super, peerAs, path, t, newPeer) && UsesAnother(Rib(s.ribs, super.value), peerAs))
  {
    hide JudgePrefix, HijackBegins, BlameSuper, ShouldIgnore, UsesAnother, Avoided, Bump;
    JudgeMeans(s, n, super, peerAs, path, t, newPeer);
    var v := JudgePrefix(s, n, super, peerAs, path, t, newPeer);
    if super.Some? && v.Hijack? {
      var s1 := if v.isNew then SuspectPrefix(s, n, super.value, t) else s;
      BlameEffects(s1, n, super.value, peerAs, PrefixOf(s1.hists[n]).ignoreUntil);
      BlamedSelection(Rib(s.ribs, super.value), peerAs);
    }
  }

  /** The selected route is not suspect, and not the first one from this neighbour. */
  predicate UsesAnother(rs: seq<Route>, a: AsNum) {
    exists j :: 0 <= j < |rs| && rs[j].selected && (forall i :: 0 <= i < j ==> !rs[i].selected)
      && !rs[j].flags.suspP && !(rs[j].peerAs == a && IsFirst(rs, j))
  }

  lemma {:induction false} SelectedKept(rs: seq<Route>, rs': seq<Route>)
    requires |rs'| == |rs| && forall j :: 0 <= j < |rs| ==> rs'[j].selected == rs[j].selected
    ensures Selected(rs') == Selected(rs)
  {
  }

  lemma BlamedSelection(rs: seq<Route>, a: AsNum)
    ensures ShouldIgnore(SetSuspP(rs, a, true)) <==> UsesAnother(rs, a)
  {
    var rs' := SetSuspP(rs, a, true);
    SelectedKept(rs, rs');
    var k := Selected(rs);
    if k < |rs| {
      FirstFromIs(rs, a, k);
    }
  }

  /** Flagging or clearing by neighbour reaches the first route from it only. */
  lemma SetSuspPAt(rs: seq<Route>, a: AsNum, on: bool, j: nat)
    requires j < |rs|
    ensures SetSuspP(rs, a, on)[j] ==
      if rs[j].peerAs == a && IsFirst(rs, j) then rs[j].(flags := rs[j].flags.(suspP := on)) else rs[j]
  {
    FirstFromIs(rs, a, j);
  }

  lemma NoteAdded(av: seq<Avoid>, x: Avoid, a: AsNum, u: Time)
    ensures Avoided([x] + av, a, u) <==> (x.peerAs == a && x.until > u) || Avoided(av, a, u)
  {
    var av' := [x] + av;
    assert av'[0] == x;
    forall i | 0 <= i < |av| ensures av'[i + 1] == av[i] {
    }
    if Avoided(av', a, u) {
      var i :| 0 <= i < |av'| && av'[i].peerAs == a && av'[i].until > u;
      if i > 0 { assert av[i - 1] == av'[i]; }
    }
  }

  lemma NoteProlonged(av: seq<Avoid>, i: nat, until: Time, a: AsNum, u: Time)
    requires i < |av|
    ensures Avoided(av[i := av[i].(until := Max(av[i].until, until))], a, u) <==>
      (av[i].peerAs == a && until > u) || Avoided(av, a, u)
  {
    var av' := av[i := av[i].(until := Max(av[i].until, until))];
    assert av'[i].peerAs == av[i].peerAs;
    forall k | 0 <= k < |av| && k != i ensures av'[k] == av[k] {
    }
  }

  /** Blaming a neighbour makes it avoided until the suspicion ends, and lets no other note lapse. */
  lemma BlameNotes(s: State, n: Prefix, m: Prefix, peerAs: AsNum, until: Time, a: AsNum, u: Time)
    requires m in s.hists && s.hists[m].prefix.Some?
    ensures var h' := BlameSuper(s, n, m, peerAs, until).hists[m];
      && h'.prefix.Some?
      && (Avoided(h'.prefix.value.avoid, a, u) <==>
            Avoided(s.hists[m].prefix.value.avoid, a, u) || (a == peerAs && until > u))
  {
    hide Bump, SetSuspP, Avoided, Max;
    var av := s.hists[m].prefix.value.avoid;
    var i := FirstAvoid(av, peerAs);
    if i < |av| {
      NoteProlonged(av, i, until, a, u);
    } else {
      NoteAdded(av, Avoid(peerAs, until, n), a, u);
    }
  }

  // ---------- The log's assertion ----------

  /** The log of a new sub-prefix suspicion asserts that the super-prefix has an origin on record. */
  ghost predicate LogFails(s: State, n: Prefix, super: Option<Prefix>, peerAs: AsNum, path: Path, t: Time, newPeer: bool)
    requires n in s.hists
  {
    && JudgePrefix(s, n, super, peerAs, path, t, newPeer) == Hijack(true)
    && !(super.Some? && super.value in s.hists && s.hists[super.value].origins != [])
  }

  lemma {:induction false} SuperEligible(hists: map<Prefix, Hist>, n: Prefix, k: nat, t: Time)
    requires k <= |n|
    ensures var m := SuperFrom(hists, n, k, t);
      m.Some? ==> m.value in hists && |m.value| <= k && Eligible(hists, m.value, t)
  {
    if k >= 8 && !Eligible(hists, n[..k], t) {
      SuperEligible(hists, n, k - 1, t);
    }
  }

  lemma OriginLeavesVerdict(s: State, n: Prefix, path: Path, t: Time, newPeer: bool, super: Option<Prefix>, peerAs: AsNum)
    requires n in s.hists
    ensures var s' := UpdateOrigin(s, n, path, t, newPeer).0;
      && HijackBegins(s', n, super, peerAs, path, t, newPeer) == HijackBegins(s, n, super, peerAs, path, t, newPeer)
      && forall k :: k != n && k in s.hists ==> s'.hists[k] == s.hists[k]
  {
    hide TouchOrigin, Bump, OriginAs, LedTo;
  }

  /** The assertion fails exactly when a suspicion begins and the super-prefix had no origin left
      before the call; having the origin of the announced prefix on record does not help. */
  lemma LogFailsExactly(s: State, m: News, t: Time)
    ensures var (s1, super, newPeer) := Prepare(s, m, t);
      var s2 := UpdateOrigin(s1, m.node, m.path, t, newPeer).0;
      LogFails(s2, m.node, super, m.peerAs, m.path, t, newPeer) <==>
        && HijackBegins(s1, m.node, super, m.peerAs, m.path, t, newPeer)
        && super.value in s.hists && s.hists[super.value].origins == []
  {
    hide TouchOrigin, TouchPeer, Bump, OriginAs, SuperFrom, JudgePrefix, HijackBegins, UpdateOrigin;
    var (s1, super, newPeer) := Prepare(s, m, t);
    OriginLeavesVerdict(s1, m.node, m.path, t, newPeer, super, m.peerAs);
    var s2 := UpdateOrigin(s1, m.node, m.path, t, newPeer).0;
    if |m.node| > 0 {
      SuperEligible(s1.hists, m.node, |m.node| - 1, t);
    }
    JudgeMeans(s2, m.node, super, m.peerAs, m.path, t, newPeer);
  }

  // ---------- The flags of an announcement ----------

  lemma OriginLeavesRest(s: State, n: Prefix, path: Path, t: Time, newPeer: bool)
    requires n in s.hists
    ensures var s' := UpdateOrigin(s, n, path, t, newPeer).0;
      s'.cfg == s.cfg && s'.ribs == s.ribs && s'.edges == s.edges && PrefixOf(s'.hists[n]) == PrefixOf(s.hists[n])
  {
    hide TouchOrigin, Bump, OriginAs;
  }

  lemma PrefixLeavesEdges(s: State, n: Prefix, super: Option<Prefix>, peerAs: AsNum, path: Path, t: Time, newPeer: bool)
    requires n in s.hists
    ensures var s' := UpdatePrefix(s, n, super, peerAs, path, t, newPeer).0; s'.cfg == s.cfg && s'.edges == s.edges
  {
    hide JudgePrefix, Bump, ShouldIgnore, BlameSuper;
    var v := JudgePrefix(s, n, super, peerAs, path, t, newPeer);
    if super.Some? && v.Hijack? {
      var s1 := if v.isNew then SuspectPrefix(s, n, super.value, t) else s;
      BlameLeavesEdges(s1, n, super.value, peerAs, PrefixOf(s1.hists[n]).ignoreUntil);
    }
  }

  lemma BlameLeavesEdges(s: State, n: Prefix, m: Prefix, peerAs: AsNum, until: Time)
    ensures BlameSuper(s, n, m, peerAs, until).cfg == s.cfg && BlameSuper(s, n, m, peerAs, until).edges == s.edges
  {
    hide Bump, SetSuspP, FirstAvoid;
  }

  /** The origin is not the prefix's oldest, and is under suspicion or not known to an established peer. */
  ghost predicate OriginObjectionable(cfg: Config, os: seq<Origin>, a: AsNum, t: Time, newPeer: bool) {
    && os != [] && os[|os| - 1].asn != a
    && (UnderSuspicion(os, a, t) || (!SeenRecently(cfg, os, a, t) && !newPeer))
  }

  /** Main result: the flags of an announced route are those it had and those its detectors raise, each
      on the state before the announcement. */
  lemma FlagsRaised(s: State, m: News, super: Option<Prefix>, t: Time, newPeer: bool, flags: Flags)
    requires s.cfg.Sane() && s.cfg.originHist <= t && m.node in s.hists && DistinctAsns(s.hists[m.node].origins)
    ensures var f := Judge(s, m, super, t, newPeer, flags).1; var pre := PrefixOf(s.hists[m.node]);
      && (f.suspO <==> flags.suspO || OriginObjectionable(s.cfg, s.hists[m.node].origins, OriginAs(m.path), t, newPeer))
      && (f.suspP <==> flags.suspP || (pre.ignoreUntil <= t && Avoided(pre.avoid, m.peerAs, t)))
      && (f.suspE <==> flags.suspE || exists e :: e in PathEdges(m.path) && Objectionable(s.cfg, s.edges, e, t, newPeer))
      && (f.ignP <==> flags.ignP || (Hijacked(s, m.node, super, m.peerAs, m.path, t, newPeer)
                                       && UsesAnother(Rib(s.ribs, super.value), m.peerAs)))
  {
    hide TouchOrigin, UpdatePrefix, UpdateEdge, Objectionable, PathEdges, OriginAs, HijackBegins, UsesAnother, Avoided;
    hide Bump, UnderSuspicion, SeenRecently, DistinctAsns;
    var n := m.node;
    var (s1, o) := UpdateOrigin(s, n, m.path, t, newPeer);
    OriginFlagIs(s, n, m.path, t, newPeer);
    OriginLeavesVerdict(s, n, m.path, t, newPeer, super, m.peerAs);
    OriginLeavesRest(s, n, m.path, t, newPeer);
    hide UpdateOrigin;
    var s2 := UpdatePrefix(s1, n, super, m.peerAs, m.path, t, newPeer).0;
    PrefixVerdict(s1, n, super, m.peerAs, m.path, t, newPeer);
    PrefixLeavesEdges(s1, n, super, m.peerAs, m.path, t, newPeer);
    EdgeVerdict(s2, n, m.path, t, newPeer);
  }

  lemma OriginFlagIs(s: State, n: Prefix, path: Path, t: Time, newPeer: bool)
    requires s.cfg.originHist <= t && n in s.hists && DistinctAsns(s.hists[n].origins)
    ensures UpdateOrigin(s, n, path, t, newPeer).1 <==>
      OriginObjectionable(s.cfg, s.hists[n].origins, OriginAs(path), t, newPeer)
  {
    hide TouchOrigin, OriginAs, Bump, UnderSuspicion, SeenRecently;
    OriginVerdict(s.cfg, s.hists[n].origins, OriginAs(path), t, newPeer);
  }

  /** With what the detectors begin: the node's history, empty if it had none, and whether the peer
      counts as new. */
  lemma DetectorsBegin(s: State, m: News, t: Time)
    ensures var (s1, super, newPeer) := Prepare(s, m, t);
      && s1.cfg == s.cfg && s1.ribs == s.ribs && s1.edges == s.edges
      && s1.hists == (if m.node in s.hists then s.hists else s.hists[m.node := Hist([], None, false)])
      && super == FindSuper(s1.hists, m.node, t)
      && (newPeer <==> InGrace(s.peers, m.peer, t) || AwayTooLong(s.peers, m.peer, t))
    ensures var (s1, super, newPeer) := Prepare(s, m, t); forall flags ::
      Detect(s, m, t, flags).1 == Judge(s1, m, super, t, newPeer, flags).1
  {
    hide TouchPeer, FindSuper, Bump, Judge;
    PeerVerdict(s.peers, m.peer, t);
  }
}
