/**
 The history file. Storing writes the trusted and recent part of the history; restoring it at the
 same instant rebuilds exactly that part, with no suspicion carried over.
 */
module PgbgpStore {
  import opened Common
  import opened PgbgpModel
  import opened PgbgpOrigins
  import opened PgbgpEdges
  import opened PgbgpLocks
  import opened PgbgpRuns

  const WEEK := 86400 * 7

  datatype Line =
    | PeerLine(peer: nat, seen: Time)
    | PrefixLine(node: Prefix, seen: Time)
    | OriginLine(asn: AsNum, seen: Time)
    | EdgeLine(edge: Edge, seen: Time)

  datatype File = File(written: Time, lines: seq<Line>)

  // ---------- Storing ----------

  predicate TrustedPeer(r: PeerRec, t: Time) { r.depref < t }

  predicate TrustedPrefix(cfg: Config, h: Hist, t: Time) {
    && h.prefix.Some?
    && h.prefix.value.ignoreUntil <= t
    && h.prefix.value.lastSeen + cfg.prefixHist > t
  }

  predicate TrustedOrigin(cfg: Config, o: Origin, t: Time) {
    o.depref <= t && o.lastSeen + cfg.originHist > t
  }

  predicate TrustedEdge(cfg: Config, r: EdgeRec, t: Time) {
    r.depref <= t && r.lastSeen + cfg.edgeHist > t
  }

  function PeerLines(peers: map<nat, PeerRec>, ps: seq<nat>, t: Time): seq<Line> {
    if ps == [] then []
    else
      (if ps[0] in peers && TrustedPeer(peers[ps[0]], t) then [PeerLine(ps[0], peers[ps[0]].lastSeen)] else [])
      + PeerLines(peers, ps[1..], t)
  }

  function OriginLines(cfg: Config, os: seq<Origin>, t: Time): seq<Line> {
    if os == [] then []
    else
      (if TrustedOrigin(cfg, os[0], t) then [OriginLine(os[0].asn, os[0].lastSeen)] else [])
      + OriginLines(cfg, os[1..], t)
  }

  function NodeLines(s: State, n: Prefix, t: Time): seq<Line> {
    if n in s.hists && TrustedPrefix(s.cfg, s.hists[n], t) then
      [PrefixLine(n, s.hists[n].prefix.value.lastSeen)] + OriginLines(s.cfg, s.hists[n].origins, t)
    else []
  }

  function HistLines(s: State, ns: seq<Prefix>, t: Time): seq<Line> {
    if ns == [] then [] else NodeLines(s, ns[0], t) + HistLines(s, ns[1..], t)
  }

  function EdgeLines(cfg: Config, edges: map<Edge, EdgeRec>, es: seq<Edge>, t: Time): seq<Line> {
    if es == [] then []
    else
      (if es[0] in edges && TrustedEdge(cfg, edges[es[0]], t) then [EdgeLine(es[0], edges[es[0]].lastSeen)] else [])
      + EdgeLines(cfg, edges, es[1..], t)
  }

  /** The file written at t; ps and es list the peers and the edge table in iteration order. */
  function Store(s: State, ps: seq<nat>, es: seq<Edge>, t: Time): File {
    File(t, PeerLines(s.peers, ps, t) + (HistLines(s, s.order, t) + EdgeLines(s.cfg, s.edges, es, t)))
  }

  // ---------- Restoring ----------

  /** The engine being rebuilt, and the node the next origin lines belong to. */
  datatype Reader = Reader(s: State, cur: Option<Prefix>)

  function ReadLine(r: Reader, line: Line): Reader {
    match line
    case PeerLine(p, seen) => r.(s := r.s.(peers := r.s.peers[p := PeerRec(seen, 0)]))
    case PrefixLine(n, seen) =>
      var s1 := AddNode(r.s, n);
      Reader(s1.(hists := s1.hists[n := Hist([], Some(PrefixRec(seen, 0, [])), false)],
                 locks := Bump(s1.locks, n, 1)), Some(n))
    case OriginLine(a, seen) =>
      if r.cur.Some? && r.cur.value in r.s.hists then
        var h := r.s.hists[r.cur.value];
        r.(s := r.s.(hists := r.s.hists[r.cur.value := h.(origins := [Origin(a, seen, 0)] + h.origins)]))
      else r
    case EdgeLine(e, seen) => r.(s := r.s.(edges := r.s.edges[e := EdgeRec(seen, 0)]))
  }

  function ReadLines(r: Reader, lines: seq<Line>): Reader
    decreases |lines|
  {
    if lines == [] then r else ReadLines(ReadLine(r, lines[0]), lines[1..])
  }

  /** A file more than a week old is ignored. */
  function Restore(cfg: Config, f: File, t: Time): State {
    if t > f.written + WEEK then Fresh(cfg, t)
    else ReadLines(Reader(Fresh(cfg, t), None), f.lines).s
  }

  // ---------- What a restored engine holds ----------

  function Reverse<T>(s: seq<T>): seq<T> {
    if s == [] then [] else Reverse(s[1..]) + [s[0]]
  }

  function TrustedOrigins(cfg: Config, os: seq<Origin>, t: Time): seq<Origin> {
    if os == [] then []
    else
      (if TrustedOrigin(cfg, os[0], t) then [os[0].(depref := 0)] else []) + TrustedOrigins(cfg, os[1..], t)
  }

  /** The history of a trusted prefix as it comes back: its trusted origins in opposite order. */
  function Kept(cfg: Config, h: Hist, t: Time): Hist
    requires h.prefix.Some?
  {
    Hist(Reverse(TrustedOrigins(cfg, h.origins, t)), Some(PrefixRec(h.prefix.value.lastSeen, 0, [])), false)
  }

  function KeptHists(s: State, t: Time): map<Prefix, Hist> {
    map n | n in s.hists && TrustedPrefix(s.cfg, s.hists[n], t) :: Kept(s.cfg, s.hists[n], t)
  }

  function KeptEdges(s: State, t: Time): map<Edge, EdgeRec> {
    map e | e in s.edges && TrustedEdge(s.cfg, s.edges[e], t) :: EdgeRec(s.edges[e].lastSeen, 0)
  }

  function KeptPeers(s: State, t: Time): map<nat, PeerRec> {
    map p | p in s.peers && TrustedPeer(s.peers[p], t) :: PeerRec(s.peers[p].lastSeen, 0)
  }

  /** The list names every key, each once. */
  ghost predicate Lists<K(!new)>(ks: seq<K>, keys: set<K>) {
    Distinct(ks) && forall k :: k in keys <==> k in ks
  }

  lemma {:induction false} ReadConcat(r: Reader, a: seq<Line>, b: seq<Line>)
    ensures ReadLines(r, a + b) == ReadLines(ReadLines(r, a), b)
    decreases |a|
  {
    if a == [] {
      assert a + b == b;
    } else {
      assert (a + b)[1..] == a[1..] + b;
      ReadConcat(ReadLine(r, a[0]), a[1..], b);
    }
  }

  function PeersIn(peers: map<nat, PeerRec>, ps: seq<nat>, t: Time): map<nat, PeerRec> {
    map p | p in peers && p in ps && TrustedPeer(peers[p], t) :: PeerRec(peers[p].lastSeen, 0)
  }

  lemma PeersInStep(peers: map<nat, PeerRec>, ps: seq<nat>, t: Time, m: map<nat, PeerRec>)
    requires ps != [] && Distinct(ps)
    ensures var p := ps[0];
      m + PeersIn(peers, ps, t) ==
      (if p in peers && TrustedPeer(peers[p], t) then m[p := PeerRec(peers[p].lastSeen, 0)] else m)
      + PeersIn(peers, ps[1..], t)
  {
    assert forall p :: p in ps <==> p == ps[0] || p in ps[1..];
    assert ps[0] !in ps[1..];
  }

  lemma {:induction false} ReadPeers(r: Reader, peers: map<nat, PeerRec>, ps: seq<nat>, t: Time)
    requires Distinct(ps)
    ensures ReadLines(r, PeerLines(peers, ps, t)) == r.(s := r.s.(peers := r.s.peers + PeersIn(peers, ps, t)))
    decreases |ps|
  {
    hide PeersIn;
    if ps == [] {
      assert r.s.peers + PeersIn(peers, ps, t) == r.s.peers by { NoPeers(peers, t, r.s.peers); }
    } else {
      var p := ps[0];
      PeersInStep(peers, ps, t, r.s.peers);
      if p in peers && TrustedPeer(peers[p], t) {
        var line := PeerLine(p, peers[p].lastSeen);
        assert PeerLines(peers, ps, t) == [line] + PeerLines(peers, ps[1..], t);
        ReadPeers(ReadLine(r, line), peers, ps[1..], t);
      } else {
        assert PeerLines(peers, ps, t) == PeerLines(peers, ps[1..], t);
        ReadPeers(r, peers, ps[1..], t);
      }
    }
  }

  lemma NoPeers(peers: map<nat, PeerRec>, t: Time, m: map<nat, PeerRec>)
    ensures m + PeersIn(peers, [], t) == m
  {
    assert PeersIn(peers, [], t) == map[];
  }

  function EdgesIn(cfg: Config, edges: map<Edge, EdgeRec>, es: seq<Edge>, t: Time): map<Edge, EdgeRec> {
    map e | e in edges && e in es && TrustedEdge(cfg, edges[e], t) :: EdgeRec(edges[e].lastSeen, 0)
  }

  lemma EdgesInStep(cfg: Config, edges: map<Edge, EdgeRec>, es: seq<Edge>, t: Time, m: map<Edge, EdgeRec>)
    requires es != [] && Distinct(es)
    ensures var e := es[0];
      m + EdgesIn(cfg, edges, es, t) ==
      (if e in edges && TrustedEdge(cfg, edges[e], t) then m[e := EdgeRec(edges[e].lastSeen, 0)] else m)
      + EdgesIn(cfg, edges, es[1..], t)
  {
    assert forall e :: e in es <==> e == es[0] || e in es[1..];
    assert es[0] !in es[1..];
  }

  lemma {:induction false} ReadEdges(r: Reader, cfg: Config, edges: map<Edge, EdgeRec>, es: seq<Edge>, t: Time)
    requires Distinct(es)
    ensures ReadLines(r, EdgeLines(cfg, edges, es, t)) == r.(s := r.s.(edges := r.s.edges + EdgesIn(cfg, edges, es, t)))
    decreases |es|
  {
    hide EdgesIn;
    if es == [] {
      assert r.s.edges + EdgesIn(cfg, edges, es, t) == r.s.edges by { NoEdges(cfg, edges, t, r.s.edges); }
    } else {
      var e := es[0];
      EdgesInStep(cfg, edges, es, t, r.s.edges);
      if e in edges && TrustedEdge(cfg, edges[e], t) {
        var line := EdgeLine(e, edges[e].lastSeen);
        assert EdgeLines(cfg, edges, es, t) == [line] + EdgeLines(cfg, edges, es[1..], t);
        ReadEdges(ReadLine(r, line), cfg, edges, es[1..], t);
      } else {
        assert EdgeLines(cfg, edges, es, t) == EdgeLines(cfg, edges, es[1..], t);
        ReadEdges(r, cfg, edges, es[1..], t);
      }
    }
  }

  lemma NoEdges(cfg: Config, edges: map<Edge, EdgeRec>, t: Time, m: map<Edge, EdgeRec>)
    ensures m + EdgesIn(cfg, edges, [], t) == m
  {
    assert EdgesIn(cfg, edges, [], t) == map[];
  }

  /** Origin lines pile up in front of the current node's list. */
  lemma {:induction false} ReadOrigins(r: Reader, cfg: Config, os: seq<Origin>, t: Time)
    requires r.cur.Some? && r.cur.value in r.s.hists
    ensures var h := r.s.hists[r.cur.value];
      ReadLines(r, OriginLines(cfg, os, t)) == r.(s := r.s.(hists := r.s.hists[r.cur.value :=
        h.(origins := Reverse(TrustedOrigins(cfg, os, t)) + h.origins)]))
    decreases |os|
  {
    hide AddNode, Bump;
    var n := r.cur.value;
    var h := r.s.hists[n];
    if os == [] {
      assert h.(origins := Reverse(TrustedOrigins(cfg, os, t)) + h.origins) == h;
    } else if TrustedOrigin(cfg, os[0], t) {
      assert OriginLines(cfg, os, t)[1..] == OriginLines(cfg, os[1..], t);
      assert TrustedOrigins(cfg, os, t)[1..] == TrustedOrigins(cfg, os[1..], t);
      var r1 := ReadLine(r, OriginLine(os[0].asn, os[0].lastSeen));
      ReadOrigins(r1, cfg, os[1..], t);
      var back := Reverse(TrustedOrigins(cfg, os[1..], t));
      assert back + ([os[0].(depref := 0)] + h.origins) == (back + [os[0].(depref := 0)]) + h.origins;
    } else {
      assert OriginLines(cfg, os, t) == OriginLines(cfg, os[1..], t);
      assert TrustedOrigins(cfg, os, t) == TrustedOrigins(cfg, os[1..], t);
      ReadOrigins(r, cfg, os[1..], t);
    }
  }

  /** The engine after reading the lines of the nodes ns: what they hold comes back and nothing else changes. */
  ghost predicate ReadBack(s: State, ns: seq<Prefix>, t: Time, r: Reader, r': Reader) {
    && r'.s == r.s.(hists := r'.s.hists, order := r'.s.order, locks := r'.s.locks)
    && (forall n :: n in r'.s.hists <==> n in r.s.hists || (n in ns && n in s.hists && TrustedPrefix(s.cfg, s.hists[n], t)))
    && (forall n :: n in r'.s.hists && n in ns && n in s.hists && TrustedPrefix(s.cfg, s.hists[n], t) ==>
          r'.s.hists[n] == Kept(s.cfg, s.hists[n], t))
    && (forall n :: n in r.s.hists && n !in ns ==> n in r'.s.hists && r'.s.hists[n] == r.s.hists[n])
    && TableOk(r'.s)
    && (forall n :: Lock(r'.s.locks, n) - (if n in r'.s.hists then 1 else 0)
                 == Lock(r.s.locks, n) - (if n in r.s.hists then 1 else 0))
  }

  /** The lines of one trusted node rebuild its history and take its lock. */
  lemma ReadNodeLines(s: State, n: Prefix, t: Time, r: Reader)
    requires n in s.hists && TrustedPrefix(s.cfg, s.hists[n], t)
    ensures var s1 := AddNode(r.s, n);
      ReadLines(r, NodeLines(s, n, t)) ==
      Reader(s1.(hists := s1.hists[n := Kept(s.cfg, s.hists[n], t)], locks := Bump(s1.locks, n, 1)), Some(n))
  {
    var line := PrefixLine(n, s.hists[n].prefix.value.lastSeen);
    assert NodeLines(s, n, t) == [line] + OriginLines(s.cfg, s.hists[n].origins, t);
    var r1 := ReadLine(r, line);
    ReadOrigins(r1, s.cfg, s.hists[n].origins, t);
    var back := Reverse(TrustedOrigins(s.cfg, s.hists[n].origins, t));
    assert back + [] == back;
    var s1 := AddNode(r.s, n);
    assert s1.hists[n := r1.s.hists[n]][n := Kept(s.cfg, s.hists[n], t)] == s1.hists[n := Kept(s.cfg, s.hists[n], t)];
  }

  lemma ReadNode(s: State, n: Prefix, t: Time, r: Reader)
    requires TableOk(r.s) && n !in r.s.hists
    ensures ReadBack(s, [n], t, r, ReadLines(r, NodeLines(s, n, t)))
  {
    hide NodeLines, ReadLines, Kept, ReadLine;
    if n in s.hists && TrustedPrefix(s.cfg, s.hists[n], t) {
      ReadNodeLines(s, n, t, r);
      hide TableOk, Bump, AddNode, Lock;
      var s1 := AddNode(r.s, n);
      var r' := ReadLines(r, NodeLines(s, n, t));
      AddNodeTable(r.s, n, Kept(s.cfg, s.hists[n], t));
      assert s1 == r.s.(order := s1.order);
      assert r'.s == r.s.(hists := r'.s.hists, order := r'.s.order, locks := r'.s.locks);
      forall k ensures Lock(r'.s.locks, k) - (if k in r'.s.hists then 1 else 0)
                    == Lock(r.s.locks, k) - (if k in r.s.hists then 1 else 0) {
      }
    } else {
      ReadNothing(s, n, t, r);
    }
  }

  lemma AddNodeTable(s: State, n: Prefix, h: Hist)
    requires TableOk(s)
    ensures var s1 := AddNode(s, n);
      TableOk(s1.(hists := s1.hists[n := h], locks := Bump(s1.locks, n, 1))) && s1 == s.(order := s1.order)
  {
  }

  lemma ReadNothing(s: State, n: Prefix, t: Time, r: Reader)
    requires !(n in s.hists && TrustedPrefix(s.cfg, s.hists[n], t))
    ensures ReadLines(r, NodeLines(s, n, t)) == r
  {
  }

  lemma ReadBackTrans(s: State, n: Prefix, ns: seq<Prefix>, t: Time, r: Reader, r1: Reader, r2: Reader)
    requires ReadBack(s, [n], t, r, r1) && ReadBack(s, ns, t, r1, r2) && n !in ns
    ensures ReadBack(s, [n] + ns, t, r, r2)
  {
    assert forall k :: k in [n] + ns <==> k == n || k in ns;
  }

  lemma {:induction false} ReadHists(s: State, ns: seq<Prefix>, t: Time, r: Reader)
    requires TableOk(r.s) && Distinct(ns) && forall n :: n in ns ==> n !in r.s.hists
    ensures ReadBack(s, ns, t, r, ReadLines(r, HistLines(s, ns, t)))
    decreases |ns|
  {
    if ns != [] {
      var r1 := ReadLines(r, NodeLines(s, ns[0], t));
      ReadNode(s, ns[0], t, r);
      ReadConcat(r, NodeLines(s, ns[0], t), HistLines(s, ns[1..], t));
      assert ns[0] !in ns[1..];
      ReadHists(s, ns[1..], t, r1);
      ReadBackTrans(s, ns[0], ns[1..], t, r, r1, ReadLines(r1, HistLines(s, ns[1..], t)));
      assert [ns[0]] + ns[1..] == ns;
    }
  }

  /** Main result: restoring at the instant of storing rebuilds the trusted and recent histories,
      edges and peers, and nothing else: no queue, no suspicion, one lock a history. */
  lemma RestoreRebuilds(s: State, ps: seq<nat>, es: seq<Edge>, t: Time)
    requires TableOk(s) && Lists(ps, s.peers.Keys) && Lists(es, s.edges.Keys)
    ensures var s' := Restore(s.cfg, Store(s, ps, es, t), t);
      && s'.hists == KeptHists(s, t) && s'.edges == KeptEdges(s, t) && s'.peers == KeptPeers(s, t)
      && s'.cfg == s.cfg && s'.queue == [] && s'.rqSize == 0 && s'.ribs == map[] && s'.lastgc == t
      && TableOk(s') && (forall n :: Lock(s'.locks, n) == if n in s'.hists then 1 else 0)
  {
    hide ReadLines, PeerLines, HistLines, EdgeLines;
    var r0 := Reader(Fresh(s.cfg, t), None);
    var pl := PeerLines(s.peers, ps, t);
    var hl := HistLines(s, s.order, t);
    var el := EdgeLines(s.cfg, s.edges, es, t);
    ReadConcat(r0, pl, hl + el);
    ReadPeers(r0, s.peers, ps, t);
    var r1 := ReadLines(r0, pl);
    ReadConcat(r1, hl, el);
    ReadHists(s, s.order, t, r1);
    var r2 := ReadLines(r1, hl);
    ReadEdges(r2, s.cfg, s.edges, es, t);
    var s' := Restore(s.cfg, Store(s, ps, es, t), t);
    assert s'.hists == KeptHists(s, t);
    assert s'.edges == KeptEdges(s, t);
    assert s'.peers == KeptPeers(s, t);
  }

  // ---------- Consequences ----------

  lemma {:induction false} ReverseMembers<T>(s: seq<T>, x: T)
    ensures x in Reverse(s) <==> x in s
  {
    if s != [] {
      ReverseMembers(s[1..], x);
    }
  }

  lemma {:induction false} TrustedMembers(cfg: Config, os: seq<Origin>, t: Time, x: Origin)
    ensures x in TrustedOrigins(cfg, os, t) <==>
            exists o :: o in os && TrustedOrigin(cfg, o, t) && x == o.(depref := 0)
  {
    if os != [] {
      TrustedMembers(cfg, os[1..], t, x);
      if x in TrustedOrigins(cfg, os[1..], t) {
        var o :| o in os[1..] && TrustedOrigin(cfg, o, t) && x == o.(depref := 0);
        assert o in os;
      }
      if exists o :: o in os && TrustedOrigin(cfg, o, t) && x == o.(depref := 0) {
        var o :| o in os && TrustedOrigin(cfg, o, t) && x == o.(depref := 0);
        assert o == os[0] || o in os[1..];
      }
    }
  }

  /** As a set, a restored prefix's origins are exactly its trusted origins. */
  lemma KeptOrigins(cfg: Config, h: Hist, t: Time, x: Origin)
    requires h.prefix.Some?
    ensures x in Kept(cfg, h, t).origins <==>
            exists o :: o in h.origins && TrustedOrigin(cfg, o, t) && x == o.(depref := 0)
  {
    ReverseMembers(TrustedOrigins(cfg, h.origins, t), x);
    TrustedMembers(cfg, h.origins, t, x);
  }

  lemma {:induction false} TrustedDistinct(cfg: Config, os: seq<Origin>, t: Time)
    requires DistinctAsns(os)
    ensures DistinctAsns(Reverse(TrustedOrigins(cfg, os, t)))
  {
    if os != [] {
      var rest := TrustedOrigins(cfg, os[1..], t);
      TrustedDistinct(cfg, os[1..], t);
      if TrustedOrigin(cfg, os[0], t) {
        assert TrustedOrigins(cfg, os, t)[1..] == rest;
        forall x | x in Reverse(rest) ensures x.asn != os[0].asn {
          ReverseMembers(rest, x);
          TrustedMembers(cfg, os[1..], t, x);
        }
      } else {
        assert TrustedOrigins(cfg, os, t) == rest;
      }
    }
  }

  /** On the records themselves: a peer comes back if its grace period is over; a prefix, an origin of
      such a prefix, or an edge, if it is not under suspicion and was seen within its window. Each
      comes back as last seen, without a deadline. */
  lemma RestoresRecords(s: State, ps: seq<nat>, es: seq<Edge>, t: Time, n: Prefix, e: Edge, p: nat)
    requires TableOk(s) && Lists(ps, s.peers.Keys) && Lists(es, s.edges.Keys)
    ensures var s' := Restore(s.cfg, Store(s, ps, es, t), t);
      && (p in s'.peers <==> p in s.peers && s.peers[p].depref < t)
      && (p in s'.peers ==> s'.peers[p] == PeerRec(s.peers[p].lastSeen, 0))
      && (e in s'.edges <==> e in s.edges && s.edges[e].depref <= t < s.edges[e].lastSeen + s.cfg.edgeHist)
      && (e in s'.edges ==> s'.edges[e] == EdgeRec(s.edges[e].lastSeen, 0))
      && (n in s'.hists ==> n in s.hists && s.hists[n].prefix.Some?)
      && (n in s.hists && s.hists[n].prefix.Some? ==>
            (n in s'.hists <==>
              s.hists[n].prefix.value.ignoreUntil <= t < s.hists[n].prefix.value.lastSeen + s.cfg.prefixHist))
      && (n in s'.hists ==>
            && s'.hists[n].prefix == Some(PrefixRec(s.hists[n].prefix.value.lastSeen, 0, []))
            && forall x :: x in s'.hists[n].origins <==> x.depref == 0 && CameBack(s, n, x, t))
  {
    hide Restore, Store;
    RestoreRebuilds(s, ps, es, t);
    if n in KeptHists(s, t) {
      forall x ensures x in KeptHists(s, t)[n].origins <==> x.depref == 0 && CameBack(s, n, x, t) {
        KeptOrigins(s.cfg, s.hists[n], t, x);
      }
    }
  }

  ghost predicate CameBack(s: State, n: Prefix, x: Origin, t: Time)
    requires n in s.hists
  {
    exists o :: o in s.hists[n].origins && o.asn == x.asn && o.lastSeen == x.lastSeen && o.depref <= t < o.lastSeen + s.cfg.originHist
  }

  /** A file more than seven days old is not read at all, a younger one is. */
  lemma OldFileIgnored(cfg: Config, f: File, t: Time)
    ensures t > f.written + 604800 ==> Restore(cfg, f, t) == Fresh(cfg, t)
    ensures t <= f.written + 604800 ==> Restore(cfg, f, t) == ReadLines(Reader(Fresh(cfg, t), None), f.lines).s
  {
  }

  /** A restored engine satisfies the invariant that every run then keeps. */
  lemma RestoredInv(s: State, ps: seq<nat>, es: seq<Edge>, now: Time, t: Time)
    requires EngineInv(s, now) && now <= t && Lists(ps, s.peers.Keys) && Lists(es, s.edges.Keys)
    ensures EngineInv(Restore(s.cfg, Store(s, ps, es, t), t), t)
  {
    RestoreRebuilds(s, ps, es, t);
    var s' := Restore(s.cfg, Store(s, ps, es, t), t);
    forall n | n in s'.hists
      ensures DistinctAsns(s'.hists[n].origins)
      ensures forall x :: x in s'.hists[n].origins ==> x.lastSeen <= t && x.depref == 0
    {
      TrustedDistinct(s.cfg, s.hists[n].origins, t);
      forall x | x in s'.hists[n].origins ensures x.lastSeen <= t && x.depref == 0 {
        KeptOrigins(s.cfg, s.hists[n], t, x);
      }
    }
    AssembleOriginInv(s', t);
    assert forall k :: EdgeOk(s', k);
    forall k ensures Excess(s', k) == 0 {
      NoAvoidRefs(s', s'.order, k);
    }
  }

  lemma {:induction false} NoAvoidRefs(s: State, ns: seq<Prefix>, k: Prefix)
    requires forall n :: n in s.hists ==> AvoidsAt(s.hists, n) == []
    ensures AvoidRefs(s.hists, ns, k) == 0
  {
    if ns != [] {
      NoAvoidRefs(s, ns[1..], k);
    }
  }
}
