/**
 Lock conservation: the locks PGBGP holds on a node, net of those it released, are one for a
 history, one for each queue entry naming the node as prefix or super-prefix, and one for each
 note to avoid a neighbour whose sub-prefix it is.
 */
module PgbgpLocks {
  import opened Common
  import opened PgbgpModel

  function Names(e: Entry, n: Prefix): nat {
    (if e.node == n then 1 else 0) + if e.PrefixEntry? && e.super == n then 1 else 0
  }

  function QueueRefs(q: seq<Entry>, n: Prefix): nat {
    if q == [] then 0 else Names(q[0], n) + QueueRefs(q[1..], n)
  }

  function AvoidsAt(hists: map<Prefix, Hist>, m: Prefix): seq<Avoid> {
    if m in hists && hists[m].prefix.Some? then hists[m].prefix.value.avoid else []
  }

  /** Notes naming n as sub-prefix, over the whole table. */
  function AvoidRefs(hists: map<Prefix, Hist>, order: seq<Prefix>, n: Prefix): nat {
    if order == [] then 0 else CountSub(AvoidsAt(hists, order[0]), n) + AvoidRefs(hists, order[1..], n)
  }

  function Owed(s: State, n: Prefix): nat {
    (if n in s.hists then 1 else 0) + QueueRefs(s.queue, n) + AvoidRefs(s.hists, s.order, n)
  }

  /** Locks held on n beyond those owed. */
  function Excess(s: State, n: Prefix): int { Lock(s.locks, n) - Owed(s, n) }

  /** Each node occurs once in the table, and histories hang on nodes of the table. */
  ghost predicate TableOk(s: State) {
    && Distinct(s.order)
    && (forall n :: n in s.hists ==> n in s.order)
  }

  /** PGBGP holds exactly the locks it owes. */
  ghost predicate LockInv(s: State) {
    && TableOk(s)
    && forall n :: Excess(s, n) == 0
  }

  // ---------- Counting ----------

  lemma {:induction false} QueueRefsConcat(p: seq<Entry>, q: seq<Entry>, n: Prefix)
    ensures QueueRefs(p + q, n) == QueueRefs(p, n) + QueueRefs(q, n)
  {
    if p == [] {
      assert p + q == q;
    } else {
      assert (p + q)[1..] == p[1..] + q;
      QueueRefsConcat(p[1..], q, n);
    }
  }

  lemma QueueRefsRemove(q: seq<Entry>, i: nat, n: Prefix)
    requires i < |q|
    ensures QueueRefs(q, n) == QueueRefs(Remove(q, i), n) + Names(q[i], n)
  {
    assert q == q[..i] + ([q[i]] + q[i + 1..]);
    QueueRefsConcat(q[..i], [q[i]] + q[i + 1..], n);
    QueueRefsConcat([q[i]], q[i + 1..], n);
    QueueRefsConcat(q[..i], q[i + 1..], n);
  }

  lemma QueueRefsPush(q: seq<Entry>, e: Entry, n: Prefix)
    ensures QueueRefs(q + [e], n) == QueueRefs(q, n) + Names(e, n)
  {
    QueueRefsConcat(q, [e], n);
  }

  lemma {:induction false} AvoidRefsSame(hists: map<Prefix, Hist>, hists': map<Prefix, Hist>, order: seq<Prefix>, n: Prefix)
    requires forall k :: k in order ==> AvoidsAt(hists', k) == AvoidsAt(hists, k)
    ensures AvoidRefs(hists', order, n) == AvoidRefs(hists, order, n)
  {
    if order != [] {
      AvoidRefsSame(hists, hists', order[1..], n);
    }
  }

  /** Changing the notes of one node changes the count by that node's difference. */
  lemma {:induction false} AvoidRefsChange(hists: map<Prefix, Hist>, hists': map<Prefix, Hist>, order: seq<Prefix>,
                                           m: Prefix, n: Prefix)
    requires Distinct(order) && m in order
    requires forall k :: k != m ==> AvoidsAt(hists', k) == AvoidsAt(hists, k)
    ensures AvoidRefs(hists', order, n) + CountSub(AvoidsAt(hists, m), n)
         == AvoidRefs(hists, order, n) + CountSub(AvoidsAt(hists', m), n)
  {
    if order[0] == m {
      AvoidRefsSame(hists, hists', order[1..], n);
    } else {
      AvoidRefsChange(hists, hists', order[1..], m, n);
    }
  }

  lemma {:induction false} AvoidRefsExtend(hists: map<Prefix, Hist>, order: seq<Prefix>, m: Prefix, n: Prefix)
    requires m !in hists
    ensures AvoidRefs(hists, order + [m], n) == AvoidRefs(hists, order, n)
  {
    if order == [] {
      assert (order + [m])[1..] == [];
    } else {
      assert (order + [m])[1..] == order[1..] + [m];
      AvoidRefsExtend(hists, order[1..], m, n);
    }
  }

  lemma {:induction false} CountSubSplit(av: seq<Avoid>, n: Prefix, t: Time)
    ensures CountSub(av, n) == CountSub(Expired(av, t), n) + CountSub(Unexpired(av, t), n)
  {
    if av != [] {
      CountSubSplit(av[1..], n, t);
      if av[0].until <= t {
        assert Expired(av, t)[1..] == Expired(av[1..], t);
        assert Unexpired(av, t) == Unexpired(av[1..], t);
      } else {
        assert Unexpired(av, t)[1..] == Unexpired(av[1..], t);
        assert Expired(av, t) == Expired(av[1..], t);
      }
    }
  }

  lemma {:induction false} CountSubUpdate(av: seq<Avoid>, i: nat, a: Avoid, n: Prefix)
    requires i < |av| && a.sub == av[i].sub
    ensures CountSub(av[i := a], n) == CountSub(av, n)
  {
    if i > 0 {
      assert av[i := a][1..] == av[1..][i - 1 := a];
      CountSubUpdate(av[1..], i - 1, a, n);
    } else {
      assert av[i := a][1..] == av[1..];
    }
  }

  // ---------- Steps ----------

  lemma SetOriginsOwed(s: State, n: Prefix, os: seq<Origin>, k: Prefix)
    requires TableOk(s) && n in s.hists
    ensures var s' := s.(hists := s.hists[n := s.hists[n].(origins := os)]);
      TableOk(s') && Owed(s', k) == Owed(s, k)
  {
    AvoidRefsSame(s.hists, s.hists[n := s.hists[n].(origins := os)], s.order, k);
  }

  lemma UpdateOriginLocks(s: State, n: Prefix, path: Path, t: Time, newPeer: bool, k: Prefix)
    requires TableOk(s) && n in s.hists
    ensures var s' := UpdateOrigin(s, n, path, t, newPeer).0; TableOk(s') && Excess(s', k) == Excess(s, k)
  {
    hide TouchOrigin, LastSequence;
    SetOriginsOwed(s, n, TouchOrigin(s.cfg, s.hists[n].origins, OriginAs(path), t, newPeer).origins, k);
    QueueRefsPush(s.queue, OriginEntry(t + s.cfg.originSus, n, OriginAs(path)), k);
  }

  lemma PutPrefixLocks(s: State, n: Prefix, pre: PrefixRec, k: Prefix)
    requires TableOk(s) && n in s.hists && pre.avoid == AvoidsAt(s.hists, n)
    ensures var s' := PutPrefix(s, n, pre); TableOk(s') && Excess(s', k) == Excess(s, k)
  {
    AvoidRefsSame(s.hists, PutPrefix(s, n, pre).hists, s.order, k);
  }

  lemma SuspectPrefixLocks(s: State, n: Prefix, m: Prefix, t: Time, k: Prefix)
    requires TableOk(s) && n in s.hists
    ensures var s' := SuspectPrefix(s, n, m, t); TableOk(s') && Excess(s', k) == Excess(s, k)
  {
    hide CountSub, QueueRefs, AvoidRefs;
    AvoidRefsSame(s.hists, SuspectPrefix(s, n, m, t).hists, s.order, k);
    QueueRefsPush(s.queue, PrefixEntry(t + s.cfg.subSus, n, m), k);
  }

  /** Changing the notes of node m costs the difference in mentions. */
  lemma PutAvoidExcess(s: State, m: Prefix, pre: PrefixRec, k: Prefix)
    requires TableOk(s) && m in s.hists
    ensures var s' := PutPrefix(s, m, pre);
      TableOk(s') && Excess(s', k) == Excess(s, k) + CountSub(AvoidsAt(s.hists, m), k) - CountSub(pre.avoid, k)
  {
    AvoidRefsChange(s.hists, PutPrefix(s, m, pre).hists, s.order, m, k);
  }

  lemma NoteAvoidLocks(s: State, m: Prefix, peerAs: AsNum, until: Time, n: Prefix, k: Prefix)
    requires TableOk(s)
    ensures var s' := NoteAvoid(s, m, peerAs, until, n); TableOk(s') && Excess(s', k) == Excess(s, k)
  {
    if m in s.hists && s.hists[m].prefix.Some? {
      var sp := s.hists[m].prefix.value;
      var i := FirstAvoid(sp.avoid, peerAs);
      if i < |sp.avoid| {
        var a := sp.avoid[i].(until := Max(sp.avoid[i].until, until));
        CountSubUpdate(sp.avoid, i, a, k);
        PutAvoidExcess(s, m, sp.(avoid := sp.avoid[i := a]), k);
      } else {
        var av := [Avoid(peerAs, until, n)] + sp.avoid;
        assert av[1..] == sp.avoid;
        PutAvoidExcess(s, m, sp.(avoid := av), k);
      }
    }
  }

  /** The fields a lock count does not look at. */
  lemma LocksFrame(s: State, s': State, k: Prefix)
    requires TableOk(s)
    requires s'.order == s.order && s'.hists == s.hists && s'.queue == s.queue && s'.locks == s.locks
    ensures TableOk(s') && Excess(s', k) == Excess(s, k)
  {
  }

  lemma BlameSuperLocks(s: State, n: Prefix, m: Prefix, peerAs: AsNum, until: Time, k: Prefix)
    requires TableOk(s)
    ensures var s' := BlameSuper(s, n, m, peerAs, until); TableOk(s') && Excess(s', k) == Excess(s, k)
  {
    var s1 := s.(ribs := s.ribs[m := SetSuspP(Rib(s.ribs, m), peerAs, true)]);
    LocksFrame(s, s1, k);
    NoteAvoidLocks(s1, m, peerAs, until, n, k);
  }

  lemma UpdatePrefixLocks(s: State, n: Prefix, super: Option<Prefix>, peerAs: AsNum, path: Path,
                          t: Time, newPeer: bool, k: Prefix)
    requires TableOk(s) && n in s.hists
    ensures var s' := UpdatePrefix(s, n, super, peerAs, path, t, newPeer).0;
      TableOk(s') && Excess(s', k) == Excess(s, k)
  {
    hide JudgePrefix, ShouldIgnore, SuspectPrefix, BlameSuper, Owed, Lock;
    var v := JudgePrefix(s, n, super, peerAs, path, t, newPeer);
    if v.Hijack? && super.Some? {
      var m := super.value;
      SuspectPrefixLocks(s, n, m, t, k);
      var s1 := if v.isNew then SuspectPrefix(s, n, m, t) else s;
      var until := PrefixOf(s1.hists[n]).ignoreUntil;
      BlameSuperLocks(s1, n, m, peerAs, until, k);
      var s2 := BlameSuper(s1, n, m, peerAs, until);
      PutPrefixLocks(s2, n, PrefixOf(s2.hists[n]).(lastSeen := t), k);
    } else {
      PutPrefixLocks(s, n, PrefixOf(s.hists[n]).(lastSeen := t), k);
    }
  }

  lemma QueueEdgeOwed(s: State, n: Prefix, key: Time, k: Prefix)
    requires TableOk(s) && n in s.hists
    ensures var s' := QueueEdge(s, n, key); TableOk(s') && Owed(s', k) == Owed(s, k) + if k == n then 1 else 0
  {
    AvoidRefsSame(s.hists, QueueEdge(s, n, key).hists, s.order, k);
    QueueRefsPush(s.queue, EdgeEntry(key, n), k);
  }

  lemma UpdateEdgeLocks(s: State, n: Prefix, path: Path, t: Time, newPeer: bool, k: Prefix)
    requires TableOk(s) && n in s.hists
    ensures var s' := UpdateEdge(s, n, path, t, newPeer).0; TableOk(s') && Excess(s', k) == Excess(s, k)
  {
    hide TouchEdges, AvoidRefs, QueueRefs, PathEdges;
    var f := TouchEdges(s.cfg, EdgeFold(s.edges, 0), PathEdges(path), t, newPeer);
    QueueEdgeOwed(s.(edges := f.edges), n, f.latest, k);
  }

  lemma EnsureHistLocks(s: State, n: Prefix, k: Prefix)
    requires TableOk(s) && n in s.order
    ensures var s' := EnsureHist(s, n); TableOk(s') && Excess(s', k) == Excess(s, k)
  {
    AvoidRefsSame(s.hists, EnsureHist(s, n).hists, s.order, k);
  }

  lemma AddNodeLocks(s: State, n: Prefix, k: Prefix)
    requires TableOk(s)
    ensures var s' := AddNode(s, n); TableOk(s') && n in s'.order && Excess(s', k) == Excess(s, k)
  {
    if n !in s.order {
      AvoidRefsExtend(s.hists, s.order, n, k);
    }
  }

  lemma ForgiveSuperLocks(s: State, m: Prefix, t: Time, k: Prefix)
    requires TableOk(s)
    ensures var s' := ForgiveSuper(s, m, t); TableOk(s') && Excess(s', k) == Excess(s, k)
  {
    if m in s.hists && s.hists[m].prefix.Some? {
      var sp := s.hists[m].prefix.value;
      var pre := sp.(avoid := Unexpired(sp.avoid, t));
      PutAvoidExcess(s, m, pre, k);
      CountSubSplit(sp.avoid, k, t);
    }
  }

  lemma ReuseOriginLocks(s: State, n: Prefix, t: Time, k: Prefix)
    requires TableOk(s) && n in s.hists
    ensures var s' := ReuseOrigin(s, n, t);
      TableOk(s') && Excess(s', k) == Excess(s, k) - if k == n then 1 else 0
  {
  }

  lemma ReusePrefixLocks(s: State, n: Prefix, m: Prefix, t: Time, k: Prefix)
    requires TableOk(s)
    ensures var s' := ReusePrefix(s, n, m, t);
      TableOk(s') && Excess(s', k) == Excess(s, k) - (if k == n then 1 else 0) - if k == m then 1 else 0
  {
    var s1 := s.(ribs := s.ribs[n := ClearIgnored(Rib(s.ribs, n))]);
    LocksFrame(s, s1, k);
    ForgiveSuperLocks(s1, m, t, k);
  }

  lemma ReuseEdgeLocks(s: State, n: Prefix, t: Time, k: Prefix)
    requires TableOk(s) && n in s.hists
    ensures var s' := ReuseEdge(s, n, t);
      TableOk(s') && Excess(s', k) == Excess(s, k) - if k == n then 1 else 0
  {
    hide NextExpiry, ForgiveEdge, QueueRefs, AvoidRefs, CountSub;
    var rs := Rib(s.ribs, n);
    var s1 := s.(ribs := s.ribs[n := seq(|rs|, j requires 0 <= j < |rs| => ForgiveEdge(s.edges, rs[j], t))]);
    LocksFrame(s, s1, k);
    var next := NextExpiry(s.edges, rs, t);
    if next == 0 {
      AvoidRefsSame(s1.hists, s1.hists[n := s1.hists[n].(edgePending := false)], s.order, k);
    } else {
      QueueEdgeOwed(s1, n, next, k);
    }
  }

  lemma DispatchLocks(s: State, e: Entry, t: Time, k: Prefix)
    requires TableOk(s) && (e.PrefixEntry? || e.node in s.hists)
    ensures var s' := Dispatch(s, e, t); TableOk(s') && Excess(s', k) == Excess(s, k) - Names(e, k)
  {
    match e
    case OriginEntry(_, n, _) => ReuseOriginLocks(s, n, t, k);
    case PrefixEntry(_, n, m) => ReusePrefixLocks(s, n, m, t, k);
    case EdgeEntry(_, n) => ReuseEdgeLocks(s, n, t, k);
  }

  /** Handling an entry releases exactly the locks the entry holds, and those of the notes it drops. */
  lemma ReuseAtLocks(s: State, i: nat, t: Time, k: Prefix)
    requires i < |s.queue| && TableOk(s)
    requires s.queue[i].PrefixEntry? || s.queue[i].node in s.hists
    ensures var s' := ReuseAt(s, i, t); TableOk(s') && Excess(s', k) == Excess(s, k)
  {
    hide Dispatch, QueueRefs, AvoidRefs, Names;
    var s1 := s.(queue := Remove(s.queue, i), rqSize := s.rqSize - 1);
    QueueRefsRemove(s.queue, i, k);
    assert TableOk(s1) && Excess(s1, k) == Excess(s, k) + Names(s.queue[i], k);
    DispatchLocks(s1, s.queue[i], t, k);
  }

  lemma GcKeptAvoids(cfg: Config, rs: seq<Route>, lastgc: Time, h: Hist, t: Time)
    ensures var h' := GcHist(cfg, rs, lastgc, h, t);
      && (h'.prefix.Some? ==> h.prefix.Some? && h'.prefix.value.avoid == h.prefix.value.avoid)
      && (h'.prefix.None? ==> DroppedAvoids(h, h') == if h.prefix.Some? then h.prefix.value.avoid else [])
  {
  }

  /** Replacing a node's history costs the difference in mentions. */
  lemma PutHistOwed(s: State, n: Prefix, h: Hist, k: Prefix)
    requires TableOk(s) && n in s.hists
    ensures var s' := s.(hists := s.hists[n := h]);
      TableOk(s') && Owed(s', k) + CountSub(AvoidsAt(s.hists, n), k) == Owed(s, k) + CountSub(AvoidsAt(s'.hists, n), k)
  {
    AvoidRefsChange(s.hists, s.hists[n := h], s.order, n, k);
  }

  lemma DropHistOwed(s: State, n: Prefix, k: Prefix)
    requires TableOk(s) && n in s.hists
    ensures var s' := s.(hists := s.hists - {n});
      TableOk(s') && Owed(s', k) + CountSub(AvoidsAt(s.hists, n), k) == Owed(s, k) - if k == n then 1 else 0
  {
    AvoidRefsChange(s.hists, s.hists - {n}, s.order, n, k);
  }

  /** Collecting a node returns its history's lock and those of the notes that go with it. */
  lemma GcNodeLocks(s: State, n: Prefix, t: Time, k: Prefix)
    requires TableOk(s)
    ensures var s' := GcNode(s, n, t); TableOk(s') && Excess(s', k) == Excess(s, k)
  {
    hide GcOrigins, GcPrefix, AvoidRefs, QueueRefs;
    if n in s.hists {
      var rs := Rib(s.ribs, n);
      var h' := GcHist(s.cfg, rs, s.lastgc, s.hists[n], t);
      GcKeptAvoids(s.cfg, rs, s.lastgc, s.hists[n], t);
      if GcFrees(s.cfg, rs, s.lastgc, s.hists[n], t) {
        DropHistOwed(s, n, k);
      } else {
        PutHistOwed(s, n, h', k);
      }
    }
  }

  lemma {:induction false} GcNodesLocks(s: State, ns: seq<Prefix>, t: Time, k: Prefix)
    requires TableOk(s)
    ensures var s' := GcNodes(s, ns, t); TableOk(s') && Excess(s', k) == Excess(s, k)
    decreases |ns|
  {
    if ns != [] {
      GcNodeLocks(s, ns[0], t, k);
      GcNodesLocks(GcNode(s, ns[0], t), ns[1..], t, k);
    }
  }

  lemma RelockExcess(s: State, super: Option<Prefix>, d: int, k: Prefix)
    requires TableOk(s)
    ensures var s' := Relock(s, super, d);
      TableOk(s') && Excess(s', k) == Excess(s, k) + if super == Some(k) then d else 0
  {
  }

  lemma PrepareLocks(s: State, m: News, t: Time, k: Prefix)
    requires TableOk(s) && m.node in s.order
    ensures var (s', super, newPeer) := Prepare(s, m, t);
      TableOk(s') && Excess(s', k) == Excess(s, k) + if super == Some(k) then 1 else 0
  {
    hide FindSuper, TouchPeer, EnsureHist, Excess, Bump;
    var s1 := EnsureHist(s, m.node);
    EnsureHistLocks(s, m.node, k);
    var super := FindSuper(s1.hists, m.node, t);
    RelockExcess(s1, super, 1, k);
    var s2 := Relock(s1, super, 1);
    LocksFrame(s2, s2.(peers := TouchPeer(s1.peers, m.peer, t).0), k);
  }

  lemma JudgeLocks(s: State, m: News, super: Option<Prefix>, t: Time, newPeer: bool, flags: Flags, k: Prefix)
    requires TableOk(s) && m.node in s.hists
    ensures var s' := Judge(s, m, super, t, newPeer, flags).0; TableOk(s') && Excess(s', k) == Excess(s, k)
  {
    hide UpdateOrigin, UpdatePrefix, UpdateEdge, Excess;
    var s1 := UpdateOrigin(s, m.node, m.path, t, newPeer).0;
    UpdateOriginLocks(s, m.node, m.path, t, newPeer, k);
    var s2 := UpdatePrefix(s1, m.node, super, m.peerAs, m.path, t, newPeer).0;
    UpdatePrefixLocks(s1, m.node, super, m.peerAs, m.path, t, newPeer, k);
    UpdateEdgeLocks(s2, m.node, m.path, t, newPeer, k);
  }

  /** Over an announcement's detectors: what is locked for the call is released by its end. */
  lemma DetectLocks(s: State, m: News, t: Time, flags: Flags, k: Prefix)
    requires TableOk(s) && m.node in s.order
    ensures var s' := Detect(s, m, t, flags).0; TableOk(s') && Excess(s', k) == Excess(s, k)
  {
    hide Prepare, Judge, Excess, Relock;
    var (s1, super, newPeer) := Prepare(s, m, t);
    PrepareLocks(s, m, t, k);
    JudgeLocks(s1, m, super, t, newPeer, flags, k);
    RelockExcess(Judge(s1, m, super, t, newPeer, flags).0, super, -1, k);
  }
}
