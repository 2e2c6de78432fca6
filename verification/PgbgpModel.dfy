/**
 The PGBGP anomaly engine as a state and its transitions: the history kept on each prefix node,
 the edge table, the queue of anomalies waiting to be forgiven, the flags on the routes of the
 RIB and the locks PGBGP holds on prefix nodes.

 The class in PgbgpEngine.dfy performs these transitions step by step, in place.
 */
module PgbgpModel {
  import opened Common

  type AsNum = nat
  /** `time_t`; 0 means "never" in the fields that hold a deadline. */
  type Time = nat
  /** A network prefix, as its bits. It also names the node of the routing table. */
  type Prefix = seq<bool>

  const AS_SET := 1
  const AS_CONFED_SET := 4
  const PEER_HIST := 86400 * 30
  const PEER_GRACE := 86400
  const GC_DELTA := 3600

  // ---------- AS paths ----------

  datatype Segment = Segment(kind: nat, ases: seq<AsNum>)

  predicate IsSet(seg: Segment) { seg.kind == AS_SET || seg.kind == AS_CONFED_SET }

  /** The last segment that is not a set. */
  function LastSequence(segs: seq<Segment>): Option<Segment> {
    if segs == [] then None
    else if !IsSet(segs[|segs| - 1]) then Some(segs[|segs| - 1])
    else LastSequence(segs[..|segs| - 1])
  }

  predicate HasOrigin(segs: seq<Segment>) {
    LastSequence(segs).Some? && LastSequence(segs).value.ases != []
  }

  /** A path on which the search for an origin succeeds; on any other path the program aborts. */
  type Path = p: seq<Segment> | HasOrigin(p) witness [Segment(2, [1])]

  function OriginAs(p: Path): AsNum {
    var ases := LastSequence(p).value.ases;
    ases[|ases| - 1]
  }

  function Flatten(segs: seq<Segment>): seq<AsNum> {
    if segs == [] then [] else segs[0].ases + Flatten(segs[1..])
  }

  datatype Edge = Edge(a: AsNum, b: AsNum)

  /** The consecutive AS pairs of a path, across segment boundaries. */
  function Pairs(ases: seq<AsNum>): seq<Edge> {
    if |ases| < 2 then [] else [Edge(ases[0], ases[1])] + Pairs(ases[1..])
  }

  function PathEdges(p: seq<Segment>): seq<Edge> { Pairs(Flatten(p)) }

  /** Same number of segments, same kinds, and each segment of `trusted` a prefix of its match. */
  predicate PathIsPrefix(trusted: seq<Segment>, path: seq<Segment>) {
    if trusted == [] || path == [] then trusted == path
    else
      && trusted[0].kind == path[0].kind
      && trusted[0].ases <= path[0].ases
      && PathIsPrefix(trusted[1..], path[1..])
  }

  // ---------- Entities ----------

  datatype Flags = Flags(suspO: bool, suspP: bool, suspE: bool, ignP: bool)
  {
    predicate Anomalous() { suspO || suspP || suspE || ignP }
  }
  const NO_FLAGS := Flags(false, false, false, false)

  datatype Route = Route(peer: nat, peerAs: AsNum, path: Path, flags: Flags, selected: bool)

  datatype Origin = Origin(asn: AsNum, lastSeen: Time, depref: Time)
  datatype Avoid = Avoid(peerAs: AsNum, until: Time, sub: Prefix)
  datatype PrefixRec = PrefixRec(lastSeen: Time, ignoreUntil: Time, avoid: seq<Avoid>)
  datatype Hist = Hist(origins: seq<Origin>, prefix: Option<PrefixRec>, edgePending: bool)
  datatype EdgeRec = EdgeRec(lastSeen: Time, depref: Time)
  datatype PeerRec = PeerRec(lastSeen: Time, depref: Time)

  datatype Entry =
    | OriginEntry(key: Time, node: Prefix, asn: AsNum)
    | PrefixEntry(key: Time, node: Prefix, super: Prefix)
    | EdgeEntry(key: Time, node: Prefix)

  /** The suspicion and history windows. */
  datatype Config = Config(originSus: Time, edgeSus: Time, subSus: Time,
                           originHist: Time, prefixHist: Time, edgeHist: Time)
  {
    /** Histories last longer than suspicions, as the header of the program demands. */
    predicate Sane() {
      && 0 < originSus < originHist
      && 0 < edgeSus < edgeHist
      && 0 < subSus < prefixHist
    }
  }

  datatype State = State(
    cfg: Config,
    order: seq<Prefix>,                // the nodes of the table, in iteration order
    hists: map<Prefix, Hist>,
    ribs: map<Prefix, seq<Route>>,
    locks: map<Prefix, int>,           // locks taken by PGBGP, net of those released
    queue: seq<Entry>,
    rqSize: int,
    edges: map<Edge, EdgeRec>,
    peers: map<nat, PeerRec>,
    lastgc: Time)

  function Rib(ribs: map<Prefix, seq<Route>>, n: Prefix): seq<Route> {
    if n in ribs then ribs[n] else []
  }

  function Lock(locks: map<Prefix, int>, n: Prefix): int {
    if n in locks then locks[n] else 0
  }

  function Bump(locks: map<Prefix, int>, n: Prefix, d: int): (r: map<Prefix, int>)
    ensures forall m :: Lock(r, m) == Lock(locks, m) + if m == n then d else 0
  {
    locks[n := Lock(locks, n) + d]
  }

  // ---------- Peers ----------

  /** Whether the peer is in its grace period, and its record after being seen at t. */
  function TouchPeer(peers: map<nat, PeerRec>, peer: nat, t: Time): (map<nat, PeerRec>, bool) {
    var pr := if peer in peers then peers[peer] else PeerRec(0, 0);
    if pr.depref > t then (peers[peer := pr.(lastSeen := t)], true)
    else if pr.lastSeen + PEER_HIST > t then (peers[peer := pr.(lastSeen := t)], false)
    else (peers[peer := PeerRec(t, t + PEER_GRACE)], true)
  }

  // ---------- Origins ----------

  predicate Knows(os: seq<Origin>, a: AsNum) { exists o :: o in os && o.asn == a }

  function IndexOf(os: seq<Origin>, a: AsNum): (i: nat)
    ensures i <= |os|
    ensures i < |os| ==> os[i].asn == a
    ensures forall j :: 0 <= j < i ==> os[j].asn != a
  {
    if os == [] then 0
    else if os[0].asn == a then 0
    else 1 + IndexOf(os[1..], a)
  }

  datatype Touch = Touch(origins: seq<Origin>, suspicious: bool, starts: bool)

  /** The origin list after a is announced at t: `suspicious` flags the route, `starts` begins a
      new suspicion. The last (oldest) record of the list is never suspected. */
  function TouchOrigin(cfg: Config, os: seq<Origin>, a: AsNum, t: Time, newPeer: bool): Touch {
    var i0 := IndexOf(os, a);
    var os1 := if i0 == |os| then [Origin(a, 0, 0)] + os else os;
    var i := if i0 == |os| then 0 else i0;
    var o := os1[i];
    if i == |os1| - 1 then Touch(os1[i := o.(lastSeen := t)], false, false)
    else if o.depref > t then Touch(os1[i := o.(lastSeen := t)], true, false)
    else if o.lastSeen + cfg.originHist > t || newPeer then
      Touch(os1[i := o.(lastSeen := t)], false, false)
    else Touch(os1[i := Origin(a, t, t + cfg.originSus)], true, true)
  }

  function UpdateOrigin(s: State, n: Prefix, path: Path, t: Time, newPeer: bool): (r: (State, bool))
    requires n in s.hists
    ensures r.0.hists.Keys == s.hists.Keys
  {
    var a := OriginAs(path);
    var r := TouchOrigin(s.cfg, s.hists[n].origins, a, t, newPeer);
    var s1 := s.(hists := s.hists[n := s.hists[n].(origins := r.origins)]);
    if r.starts then
      (s1.(locks := Bump(s1.locks, n, 1),
           queue := s1.queue + [OriginEntry(t + s.cfg.originSus, n, a)],
           rqSize := s1.rqSize + 1), true)
    else (s1, r.suspicious)
  }

  /** Route r after its node's origin suspicions were looked at again at time t. */
  function ForgiveOrigin(r: Route, os: seq<Origin>, t: Time): Route {
    var i := IndexOf(os, OriginAs(r.path));
    if r.flags.suspO && i < |os| && os[i].depref <= t then r.(flags := r.flags.(suspO := false)) else r
  }

  function ReuseOrigin(s: State, n: Prefix, t: Time): State {
    if n !in s.hists then s else
    var rs := Rib(s.ribs, n);
    var os := s.hists[n].origins;
    s.(ribs := s.ribs[n := seq(|rs|, j requires 0 <= j < |rs| => ForgiveOrigin(rs[j], os, t))],
       locks := Bump(s.locks, n, -1))
  }

  // ---------- Sub-prefixes ----------

  predicate Eligible(hists: map<Prefix, Hist>, m: Prefix, t: Time) {
    m in hists && hists[m].prefix.Some? && hists[m].prefix.value.ignoreUntil < t
  }

  /** The longest eligible covering prefix of n whose length lies in 8..k. */
  function SuperFrom(hists: map<Prefix, Hist>, n: Prefix, k: nat, t: Time): Option<Prefix>
    requires k <= |n|
  {
    if k < 8 then None
    else if Eligible(hists, n[..k], t) then Some(n[..k])
    else SuperFrom(hists, n, k - 1, t)
  }

  function FindSuper(hists: map<Prefix, Hist>, n: Prefix, t: Time): Option<Prefix> {
    if |n| == 0 then None else SuperFrom(hists, n, |n| - 1, t)
  }

  /** Index of the first route learned from a peer in AS a. */
  function FirstFrom(rs: seq<Route>, a: AsNum): (i: nat)
    ensures i <= |rs|
    ensures i < |rs| ==> rs[i].peerAs == a
    ensures forall j :: 0 <= j < i ==> rs[j].peerAs != a
  {
    if rs == [] then 0
    else if rs[0].peerAs == a then 0
    else 1 + FirstFrom(rs[1..], a)
  }

  function SetSuspP(rs: seq<Route>, a: AsNum, on: bool): seq<Route> {
    var i := FirstFrom(rs, a);
    if i < |rs| then rs[i := rs[i].(flags := rs[i].flags.(suspP := on))] else rs
  }

  /** An unexpired note in the history tells us to avoid this neighbour. */
  predicate Avoided(av: seq<Avoid>, a: AsNum, t: Time) {
    exists i :: 0 <= i < |av| && av[i].peerAs == a && av[i].until > t
  }

  function FirstAvoid(av: seq<Avoid>, a: AsNum): (i: nat)
    ensures i <= |av|
    ensures i < |av| ==> av[i].peerAs == a
    ensures forall j :: 0 <= j < i ==> av[j].peerAs != a
  {
    if av == [] then 0
    else if av[0].peerAs == a then 0
    else 1 + FirstAvoid(av[1..], a)
  }

  /** The super-prefix's non-anomalous path from this AS is a prefix of the new path. */
  predicate SamePath(rs: seq<Route>, a: AsNum, path: Path) {
    var i := FirstFrom(rs, a);
    i < |rs| && !rs[i].flags.Anomalous() && PathIsPrefix(rs[i].path, path)
  }

  function Selected(rs: seq<Route>): (i: nat)
    ensures i <= |rs|
    ensures i < |rs| ==> rs[i].selected
    ensures forall j :: 0 <= j < i ==> !rs[j].selected
  {
    if rs == [] then 0
    else if rs[0].selected then 0
    else 1 + Selected(rs[1..])
  }

  /** The node has a selected route that is not itself suspected for a sub-prefix. */
  predicate ShouldIgnore(rs: seq<Route>) {
    Selected(rs) < |rs| && !rs[Selected(rs)].flags.suspP
  }

  datatype PrefixVerdict = Trusted | AvoidPeer | Hijack(isNew: bool)

  function JudgePrefix(s: State, n: Prefix, super: Option<Prefix>, peerAs: AsNum, path: Path,
                       t: Time, newPeer: bool): PrefixVerdict
    requires n in s.hists
  {
    var pre := PrefixOf(s.hists[n]);
    if pre.ignoreUntil > t then Hijack(false)
    else if Avoided(pre.avoid, peerAs, t) then AvoidPeer
    else if pre.lastSeen + s.cfg.prefixHist > t || newPeer || super.None? then Trusted
    else if SamePath(Rib(s.ribs, super.value), peerAs, path) then Trusted
    else Hijack(true)
  }

  function PrefixOf(h: Hist): PrefixRec {
    if h.prefix.Some? then h.prefix.value else PrefixRec(0, 0, [])
  }

  function PutPrefix(s: State, n: Prefix, pre: PrefixRec): (r: State)
    requires n in s.hists
    ensures r.hists.Keys == s.hists.Keys
  {
    s.(hists := s.hists[n := s.hists[n].(prefix := Some(pre))])
  }

  /** Notes on super-prefix m that AS peerAs announced the suspicious sub-prefix n. */
  function NoteAvoid(s: State, m: Prefix, peerAs: AsNum, until: Time, n: Prefix): (r: State)
    ensures r.hists.Keys == s.hists.Keys
  {
    if m in s.hists && s.hists[m].prefix.Some? then
      var sp := s.hists[m].prefix.value;
      var i := FirstAvoid(sp.avoid, peerAs);
      if i < |sp.avoid| then
        var av := sp.avoid[i];
        PutPrefix(s, m, sp.(avoid := sp.avoid[i := av.(until := Max(av.until, until))]))
      else
        PutPrefix(s, m, sp.(avoid := [Avoid(peerAs, until, n)] + sp.avoid))
          .(locks := Bump(s.locks, n, 1))
    else s
  }

  /** Starts a suspicion of sub-prefix n. */
  function SuspectPrefix(s: State, n: Prefix, m: Prefix, t: Time): (r: State)
    requires n in s.hists
    ensures r.hists.Keys == s.hists.Keys
  {
    PutPrefix(s, n, PrefixOf(s.hists[n]).(ignoreUntil := t + s.cfg.subSus))
      .(locks := Bump(Bump(s.locks, n, 1), m, 1),
        queue := s.queue + [PrefixEntry(t + s.cfg.subSus, n, m)],
        rqSize := s.rqSize + 1)
  }

  /** Marks the super-prefix's route from this AS and notes the neighbour to avoid. */
  function BlameSuper(s: State, n: Prefix, m: Prefix, peerAs: AsNum, until: Time): (r: State)
    ensures r.hists.Keys == s.hists.Keys
  {
    NoteAvoid(s.(ribs := s.ribs[m := SetSuspP(Rib(s.ribs, m), peerAs, true)]), m, peerAs, until, n)
  }

  function SeePrefix(s: State, n: Prefix, t: Time): State
    requires n in s.hists
  {
    PutPrefix(s, n, PrefixOf(s.hists[n]).(lastSeen := t))
  }

  /** The state and the flags (SUSPICIOUS_P, IGNORED_P) set on the announced route. */
  function UpdatePrefix(s: State, n: Prefix, super: Option<Prefix>, peerAs: AsNum, path: Path,
                        t: Time, newPeer: bool): (r: (State, bool, bool))
    requires n in s.hists
    ensures r.0.hists.Keys == s.hists.Keys
  {
    match JudgePrefix(s, n, super, peerAs, path, t, newPeer)
    case Trusted => (SeePrefix(s, n, t), false, false)
    case AvoidPeer => (SeePrefix(s, n, t), true, false)
    case Hijack(isNew) =>
      if super.None? then (SeePrefix(s, n, t), false, false)
      else
        var s1 := if isNew then SuspectPrefix(s, n, super.value, t) else s;
        var s2 := BlameSuper(s1, n, super.value, peerAs, PrefixOf(s1.hists[n]).ignoreUntil);
        (SeePrefix(s2, n, t), false, ShouldIgnore(Rib(s2.ribs, super.value)))
  }

  function CountSub(av: seq<Avoid>, n: Prefix): nat {
    if av == [] then 0 else (if av[0].sub == n then 1 else 0) + CountSub(av[1..], n)
  }

  function UnlockSubs(locks: map<Prefix, int>, av: seq<Avoid>): (r: map<Prefix, int>)
    ensures forall n :: Lock(r, n) == Lock(locks, n) - CountSub(av, n)
    decreases |av|
  {
    if av == [] then locks else UnlockSubs(Bump(locks, av[0].sub, -1), av[1..])
  }

  function Expired(av: seq<Avoid>, t: Time): seq<Avoid> {
    if av == [] then []
    else (if av[0].until <= t then [av[0]] else []) + Expired(av[1..], t)
  }

  function Unexpired(av: seq<Avoid>, t: Time): seq<Avoid> {
    if av == [] then []
    else (if av[0].until <= t then [] else [av[0]]) + Unexpired(av[1..], t)
  }

  /** Clears SUSPICIOUS_P on the first route of each AS in the removed notes. */
  function ClearSuspP(rs: seq<Route>, av: seq<Avoid>): seq<Route>
    decreases |av|
  {
    if av == [] then rs else ClearSuspP(SetSuspP(rs, av[0].peerAs, false), av[1..])
  }

  function ClearIgnored(rs: seq<Route>): seq<Route> {
    seq(|rs|, j requires 0 <= j < |rs| => rs[j].(flags := rs[j].flags.(ignP := false)))
  }

  /** Drops the expired notes of super-prefix m. */
  function ForgiveSuper(s: State, m: Prefix, t: Time): (r: State)
    ensures r == s.(hists := r.hists, ribs := r.ribs, locks := r.locks) && r.hists.Keys == s.hists.Keys
  {
    if m in s.hists && s.hists[m].prefix.Some? then
      var sp := s.hists[m].prefix.value;
      var gone := Expired(sp.avoid, t);
      PutPrefix(s, m, sp.(avoid := Unexpired(sp.avoid, t)))
        .(ribs := s.ribs[m := ClearSuspP(Rib(s.ribs, m), gone)],
          locks := UnlockSubs(s.locks, gone))
    else s
  }

  function ReusePrefix(s: State, n: Prefix, m: Prefix, t: Time): (r: State)
    ensures r == s.(hists := r.hists, ribs := r.ribs, locks := r.locks) && r.hists.Keys == s.hists.Keys
  {
    var s1 := s.(ribs := s.ribs[n := ClearIgnored(Rib(s.ribs, n))]);
    var s2 := ForgiveSuper(s1, m, t);
    s2.(locks := Bump(Bump(s2.locks, n, -1), m, -1))
  }

  // ---------- Edges ----------

  datatype EdgeFold = EdgeFold(edges: map<Edge, EdgeRec>, latest: Time)

  /** One consecutive AS pair of an announced path. */
  function TouchEdge(cfg: Config, f: EdgeFold, e: Edge, t: Time, newPeer: bool): EdgeFold {
    if e.a == e.b then f else
    var r := if e in f.edges then f.edges[e] else EdgeRec(0, 0);
    if r.depref > t then
      EdgeFold(f.edges[e := r.(lastSeen := t)], Max(f.latest, r.depref))
    else if r.lastSeen + cfg.edgeHist > t || newPeer then
      EdgeFold(f.edges[e := r.(lastSeen := t)], f.latest)
    else
      EdgeFold(f.edges[e := EdgeRec(t, t + cfg.edgeSus)], Max(f.latest, t + cfg.edgeSus))
  }

  function TouchEdges(cfg: Config, f: EdgeFold, es: seq<Edge>, t: Time, newPeer: bool): EdgeFold
    decreases |es|
  {
    if es == [] then f else TouchEdges(cfg, TouchEdge(cfg, f, es[0], t, newPeer), es[1..], t, newPeer)
  }

  function UpdateEdge(s: State, n: Prefix, path: Path, t: Time, newPeer: bool): (r: (State, bool))
    requires n in s.hists
    ensures r.0.hists.Keys == s.hists.Keys
  {
    var f := TouchEdges(s.cfg, EdgeFold(s.edges, 0), PathEdges(path), t, newPeer);
    var s1 := s.(edges := f.edges);
    if f.latest == 0 then (s1, false)
    else if s.hists[n].edgePending then (s1, true)
    else (QueueEdge(s1, n, f.latest).(locks := Bump(s1.locks, n, 1)), true)
  }

  function QueueEdge(s: State, n: Prefix, key: Time): State
    requires n in s.hists
  {
    s.(hists := s.hists[n := s.hists[n].(edgePending := true)],
       queue := s.queue + [EdgeEntry(key, n)],
       rqSize := s.rqSize + 1)
  }

  /** The latest expiry among the pairs that are still suspect at t; 0 if none is. */
  function LatestExpiry(edges: map<Edge, EdgeRec>, es: seq<Edge>, t: Time): (x: Time)
    ensures x == 0 || x > t
  {
    if es == [] then 0
    else
      var rest := LatestExpiry(edges, es[1..], t);
      if es[0] in edges && edges[es[0]].depref > t then Max(rest, edges[es[0]].depref) else rest
  }

  function RouteExpiry(edges: map<Edge, EdgeRec>, r: Route, t: Time): (x: Time)
    ensures x == 0 || x > t
  {
    LatestExpiry(edges, PathEdges(r.path), t)
  }

  /** The earliest, over the routes that still hold a suspect pair, of their latest expiry. */
  function NextExpiry(edges: map<Edge, EdgeRec>, rs: seq<Route>, t: Time): (x: Time)
    ensures x == 0 || x > t
  {
    if rs == [] then 0
    else
      var rest := NextExpiry(edges, rs[1..], t);
      var x := RouteExpiry(edges, rs[0], t);
      if x == 0 then rest else if rest == 0 || x < rest then x else rest
  }

  function ForgiveEdge(edges: map<Edge, EdgeRec>, r: Route, t: Time): Route {
    if RouteExpiry(edges, r, t) == 0 then r.(flags := r.flags.(suspE := false)) else r
  }

  /** The source dereferences the history here without looking; a node without one is left alone. */
  function ReuseEdge(s: State, n: Prefix, t: Time): State {
    if n !in s.hists then s else
    var rs := Rib(s.ribs, n);
    var s1 := s.(ribs := s.ribs[n := seq(|rs|, j requires 0 <= j < |rs| => ForgiveEdge(s.edges, rs[j], t))]);
    var next := NextExpiry(s.edges, rs, t);
    if next == 0 then
      s1.(hists := s1.hists[n := s1.hists[n].(edgePending := false)], locks := Bump(s1.locks, n, -1))
    else QueueEdge(s1, n, next)
  }

  // ---------- The reuse queue ----------

  /** Position of the first entry with the least key. */
  function MinIndex(q: seq<Entry>): (i: nat)
    requires q != []
    ensures i < |q|
    ensures forall j :: 0 <= j < |q| ==> q[i].key <= q[j].key
    ensures forall j :: 0 <= j < i ==> q[i].key < q[j].key
  {
    if |q| == 1 then 0
    else
      var k := MinIndex(q[1..]);
      assert forall j :: 1 <= j < |q| ==> q[j] == q[1..][j - 1];
      if q[0].key <= q[1..][k].key then 0 else k + 1
  }

  /** How many entries are due at t. */
  function Due(q: seq<Entry>, t: Time): nat {
    if q == [] then 0 else (if q[0].key <= t then 1 else 0) + Due(q[1..], t)
  }

  lemma {:induction false} DueConcat(p: seq<Entry>, q: seq<Entry>, t: Time)
    ensures Due(p + q, t) == Due(p, t) + Due(q, t)
  {
    if p == [] {
      assert p + q == q;
    } else {
      assert (p + q)[1..] == p[1..] + q;
      DueConcat(p[1..], q, t);
    }
  }

  lemma DueRemove(q: seq<Entry>, i: nat, t: Time)
    requires i < |q|
    ensures Due(q, t) == Due(Remove(q, i), t) + if q[i].key <= t then 1 else 0
  {
    assert q == q[..i] + ([q[i]] + q[i + 1..]);
    DueConcat(q[..i], [q[i]] + q[i + 1..], t);
    DueConcat([q[i]], q[i + 1..], t);
    DueConcat(q[..i], q[i + 1..], t);
  }

  function Dispatch(s: State, e: Entry, t: Time): State {
    match e
    case OriginEntry(_, n, _) => ReuseOrigin(s, n, t)
    case PrefixEntry(_, n, m) => ReusePrefix(s, n, m, t)
    case EdgeEntry(_, n) => ReuseEdge(s, n, t)
  }

  /** Takes entry i off the queue and handles it. */
  function ReuseAt(s: State, i: nat, t: Time): State
    requires i < |s.queue|
  {
    Dispatch(s.(queue := Remove(s.queue, i), rqSize := s.rqSize - 1), s.queue[i], t)
  }

  lemma ReuseAtQueue(s: State, i: nat, t: Time)
    requires i < |s.queue| && s.rqSize == |s.queue|
    ensures ReuseAt(s, i, t).rqSize == |ReuseAt(s, i, t).queue|
    ensures s.queue[i].key <= t ==> Due(ReuseAt(s, i, t).queue, t) == Due(s.queue, t) - 1
  {
    hide ReusePrefix, ForgiveEdge, Bump, NextExpiry;
    var q := Remove(s.queue, i);
    DueRemove(s.queue, i, t);
    var e := s.queue[i];
    if e.EdgeEntry? && e.node in s.hists {
      var next := NextExpiry(s.edges, Rib(s.ribs, e.node), t);
      if next != 0 {
        DueConcat(q, [EdgeEntry(next, e.node)], t);
      }
    }
  }

  /** Handles every due entry, least key first; an entry that is not due yet is put back. */
  function Drain(s: State, t: Time): State
    requires s.rqSize == |s.queue|
    decreases Due(s.queue, t)
  {
    if s.rqSize <= 0 then s
    else
      var i := MinIndex(s.queue);
      if t < s.queue[i].key then s.(queue := Remove(s.queue, i) + [s.queue[i]])
      else
        ReuseAtQueue(s, i, t);
        Drain(ReuseAt(s, i, t), t)
  }

  // ---------- Garbage collection ----------

  predicate InRib(rs: seq<Route>, a: AsNum) {
    exists j :: 0 <= j < |rs| && OriginAs(rs[j].path) == a
  }

  /** The record after collection at t, or None if it is collected. */
  function GcOrigin(cfg: Config, rs: seq<Route>, lastgc: Time, o: Origin, t: Time): Option<Origin> {
    var o1 := if InRib(rs, o.asn) then o.(lastSeen := t) else o;
    var over := o1.depref != 0 && o1.depref < t;
    if o1.lastSeen + cfg.originHist <= t || (over && o1.lastSeen < lastgc) then None
    else Some(if over then o1.(depref := 0) else o1)
  }

  function GcOrigins(cfg: Config, rs: seq<Route>, lastgc: Time, os: seq<Origin>, t: Time): seq<Origin> {
    if os == [] then []
    else
      var r := GcOrigin(cfg, rs, lastgc, os[0], t);
      (if r.Some? then [r.value] else []) + GcOrigins(cfg, rs, lastgc, os[1..], t)
  }

  function GcPrefix(cfg: Config, rs: seq<Route>, lastgc: Time, pre: PrefixRec, t: Time): Option<PrefixRec> {
    var p1 := if rs != [] then pre.(lastSeen := t) else pre;
    var over := p1.ignoreUntil != 0 && p1.ignoreUntil < t;
    if p1.lastSeen + cfg.prefixHist <= t || (over && p1.lastSeen < lastgc) then None
    else Some(if over then p1.(ignoreUntil := 0) else p1)
  }

  /** What is left of a history after collection. */
  function GcHist(cfg: Config, rs: seq<Route>, lastgc: Time, h: Hist, t: Time): Hist {
    h.(origins := GcOrigins(cfg, rs, lastgc, h.origins, t),
       prefix := if h.prefix.Some? then GcPrefix(cfg, rs, lastgc, h.prefix.value, t) else None)
  }

  /** Collection leaves nothing of a history that held something. */
  predicate GcFrees(cfg: Config, rs: seq<Route>, lastgc: Time, h: Hist, t: Time) {
    var h' := GcHist(cfg, rs, lastgc, h, t);
    (h.origins != [] || h.prefix.Some?) && h'.origins == [] && h'.prefix.None?
  }

  function DroppedAvoids(h: Hist, h': Hist): seq<Avoid> {
    if h.prefix.Some? && h'.prefix.None? then h.prefix.value.avoid else []
  }

  function GcNode(s: State, n: Prefix, t: Time): State {
    if n !in s.hists then s
    else
      var h := s.hists[n];
      var rs := Rib(s.ribs, n);
      var h' := GcHist(s.cfg, rs, s.lastgc, h, t);
      var locks := UnlockSubs(s.locks, DroppedAvoids(h, h'));
      if GcFrees(s.cfg, rs, s.lastgc, h, t)
      then s.(hists := s.hists - {n}, locks := Bump(locks, n, -1))
      else s.(hists := s.hists[n := h'], locks := locks)
  }

  function GcNodes(s: State, ns: seq<Prefix>, t: Time): State
    decreases |ns|
  {
    if ns == [] then s else GcNodes(GcNode(s, ns[0], t), ns[1..], t)
  }

  /** `live` holds the pairs of the interned AS paths. */
  function GcEdge(cfg: Config, lastgc: Time, live: set<Edge>, e: Edge, r: EdgeRec, t: Time): Option<EdgeRec> {
    var r1 := if e in live && e.a != e.b then r.(lastSeen := t) else r;
    var over := r1.depref != 0 && r1.depref < t;
    if r1.lastSeen + cfg.edgeHist <= t || (over && r1.lastSeen < lastgc) then None
    else Some(if over then r1.(depref := 0) else r1)
  }

  function GcEdges(cfg: Config, lastgc: Time, live: set<Edge>, edges: map<Edge, EdgeRec>, t: Time): map<Edge, EdgeRec> {
    map e | e in edges && GcEdge(cfg, lastgc, live, e, edges[e], t).Some?
      :: GcEdge(cfg, lastgc, live, e, edges[e], t).value
  }

  function Gc(s: State, live: set<Edge>, t: Time): State {
    var s1 := GcNodes(s, s.order, t);
    s1.(edges := GcEdges(s1.cfg, s1.lastgc, live, s1.edges, t), lastgc := t)
  }

  // ---------- Events ----------

  /** The table's node for prefix n, created when missing. */
  function AddNode(s: State, n: Prefix): State {
    if n in s.order then s else s.(order := s.order + [n])
  }

  function EnsureHist(s: State, n: Prefix): State {
    if n in s.hists then s
    else s.(hists := s.hists[n := Hist([], None, false)], locks := Bump(s.locks, n, 1))
  }

  /** Position of the route learned from this peer. */
  function FromPeer(rs: seq<Route>, peer: nat): (i: nat)
    ensures i <= |rs|
    ensures i < |rs| ==> rs[i].peer == peer
  {
    if rs == [] then 0 else if rs[0].peer == peer then 0 else 1 + FromPeer(rs[1..], peer)
  }

  datatype News = News(node: Prefix, peer: nat, peerAs: AsNum, path: Path)

  function Relock(s: State, super: Option<Prefix>, d: int): State {
    if super.Some? then s.(locks := Bump(s.locks, super.value, d)) else s
  }

  /** The node's history, the super-prefix locked for the call, and the peer seen. */
  function Prepare(s: State, m: News, t: Time): (r: (State, Option<Prefix>, bool))
    ensures m.node in r.0.hists
  {
    var s1 := EnsureHist(s, m.node);
    var super := FindSuper(s1.hists, m.node, t);
    var (peers, newPeer) := TouchPeer(s1.peers, m.peer, t);
    (Relock(s1, super, 1).(peers := peers), super, newPeer)
  }

  /** The three detectors in turn, with the flags they raise. */
  function Judge(s: State, m: News, super: Option<Prefix>, t: Time, newPeer: bool, flags: Flags): (State, Flags)
    requires m.node in s.hists
  {
    var (s1, o) := UpdateOrigin(s, m.node, m.path, t, newPeer);
    var (s2, p, g) := UpdatePrefix(s1, m.node, super, m.peerAs, m.path, t, newPeer);
    var (s3, e) := UpdateEdge(s2, m.node, m.path, t, newPeer);
    (s3, Flags(flags.suspO || o, flags.suspP || p, flags.suspE || e, flags.ignP || g))
  }

  function Detect(s: State, m: News, t: Time, flags: Flags): (State, Flags) {
    var (s1, super, newPeer) := Prepare(s, m, t);
    var (s2, flags') := Judge(s1, m, super, t, newPeer, flags);
    (Relock(s2, super, -1), flags')
  }

  predicate GcDue(s: State, t: Time) { t >= s.lastgc + GC_DELTA }

  function OldFlags(rs: seq<Route>, peer: nat): Flags {
    var i := FromPeer(rs, peer);
    if i < |rs| then rs[i].flags else NO_FLAGS
  }

  /** The RIB with the route in place of the peer's old one, or in front. */
  function PutRoute(rs: seq<Route>, m: News, flags: Flags): seq<Route> {
    var i := FromPeer(rs, m.peer);
    if i < |rs| then rs[i := rs[i].(peerAs := m.peerAs, path := m.path, flags := flags)]
    else [Route(m.peer, m.peerAs, m.path, flags, false)] + rs
  }

  /** The engine's part of an announcement, up to garbage collection. */
  function BeforeGc(s: State, m: News, t: Time): (State, Flags)
    requires s.rqSize == |s.queue|
  {
    var s1 := Drain(AddNode(s, m.node), t);
    Detect(s1, m, t, OldFlags(Rib(s1.ribs, m.node), m.peer))
  }

  /** An announcement at time t: drain, detect, collect if due, then the route enters the RIB. */
  function Announce(s: State, m: News, live: set<Edge>, t: Time): State
    requires s.rqSize == |s.queue|
  {
    var (s1, flags) := BeforeGc(s, m, t);
    var s2 := if GcDue(s1, t) then Gc(s1, live, t) else s1;
    s2.(ribs := s2.ribs[m.node := PutRoute(Rib(s2.ribs, m.node), m, flags)])
  }

  /** A withdrawal only removes the route from the RIB. */
  function Withdraw(s: State, n: Prefix, i: nat): State
    requires i < |Rib(s.ribs, n)|
  {
    s.(ribs := s.ribs[n := Remove(Rib(s.ribs, n), i)])
  }

  function Ignore(rs: seq<Route>, on: bool): seq<Route> {
    seq(|rs|, j requires 0 <= j < |rs| => rs[j].(flags := rs[j].flags.(ignP := on)))
  }

  /** Sets or clears IGNORED_P on every route of the sub-prefixes still noted. */
  function IgnoreSubs(ribs: map<Prefix, seq<Route>>, av: seq<Avoid>, on: bool, t: Time): map<Prefix, seq<Route>>
    decreases |av|
  {
    if av == [] then ribs
    else if av[0].until > t then
      IgnoreSubs(ribs[av[0].sub := Ignore(Rib(ribs, av[0].sub), on)], av[1..], on, t)
    else IgnoreSubs(ribs, av[1..], on, t)
  }

  function Mark(rs: seq<Route>, best: nat): seq<Route> {
    seq(|rs|, j requires 0 <= j < |rs| => rs[j].(selected := j == best))
  }

  /** The decision process selected route `best` of node n (none when out of range). */
  function RibUpdated(s: State, n: Prefix, best: nat, t: Time): State {
    var rs := Mark(Rib(s.ribs, n), best);
    var s1 := s.(ribs := s.ribs[n := rs]);
    if n in s.hists && s.hists[n].prefix.Some? then
      s1.(ribs := IgnoreSubs(s1.ribs, s.hists[n].prefix.value.avoid, ShouldIgnore(rs), t))
    else s1
  }
}
