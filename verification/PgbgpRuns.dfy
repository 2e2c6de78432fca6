/**
 The engine's invariant over whole runs of announcements, withdrawals and route selections, and
 what a drain of the reuse queue achieves.
 */
module PgbgpRuns {
  import opened Common
  import opened PgbgpModel
  import opened PgbgpOrigins
  import opened PgbgpEdges
  import opened PgbgpLocks
  import opened PgbgpCollection

  /** `now` is the time of the last drain. */
  ghost predicate EngineInv(s: State, now: Time) {
    && s.cfg.Sane()
    && s.rqSize == |s.queue|
    && AllLater(s.queue, now)
    && s.lastgc <= now
    && OriginInv(s, now)
    && EdgeInv(s)
    && LockInv(s)
  }

  // ---------- Draining ----------

  /** What holds between two entries of a drain. */
  ghost predicate DrainInv(s: State, t: Time) {
    s.rqSize == |s.queue| && OriginInv(s, t) && EdgeInv(s) && LockInv(s)
  }

  /** Handling any due entry, whichever comes first, keeps the invariant. */
  lemma ReuseAtKeeps(s: State, i: nat, t: Time)
    requires DrainInv(s, t) && i < |s.queue| && s.queue[i].key <= t
    ensures DrainInv(ReuseAt(s, i, t), t)
  {
    hide ReuseAt;
    var e := s.queue[i];
    var s' := ReuseAt(s, i, t);
    ReuseAtQueue(s, i, t);
    ReuseAtKeepsOrigins(s, i, t);
    forall k ensures EdgeOk(s', k) {
      ReuseAtEdges(s, i, t, k);
    }
    if e.EdgeEntry? {
      ReuseEdgeAsserts(s, e);
    }
    forall k ensures TableOk(s') && Excess(s', k) == 0 {
      ReuseAtLocks(s, i, t, k);
    }
    ReuseAtLocks(s, i, t, []);
  }

  lemma PutBackKeeps(s: State, i: nat, t: Time)
    requires DrainInv(s, t) && i < |s.queue|
    ensures DrainInv(s.(queue := Remove(s.queue, i) + [s.queue[i]]), t)
  {
    var q := Remove(s.queue, i) + [s.queue[i]];
    var s' := s.(queue := q);
    assert s.queue[i] in q;
    assert SameOrigins(s, s') by {
      forall n, r | r in Rib(s'.ribs, n) && r.flags.suspO ensures FlaggedAs(Rib(s.ribs, n), r.path) {
      }
    }
    FrameOrigins(s, s', t);
    forall k ensures EdgeOk(s', k) {
      assert EdgeOk(s, k);
      EdgeCountRemove(s.queue, i, k);
      EdgeCountPush(Remove(s.queue, i), s.queue[i], k);
    }
    forall k ensures Excess(s', k) == 0 {
      assert Excess(s, k) == 0;
      QueueRefsRemove(s.queue, i, k);
      QueueRefsPush(Remove(s.queue, i), s.queue[i], k);
    }
  }

  /** A drain at t keeps the invariant and leaves only entries that are due later. */
  lemma {:induction false} DrainKeeps(s: State, t: Time)
    requires DrainInv(s, t)
    ensures DrainInv(Drain(s, t), t) && AllLater(Drain(s, t).queue, t)
    decreases Due(s.queue, t)
  {
    if s.rqSize > 0 {
      var i := MinIndex(s.queue);
      if t < s.queue[i].key {
        PutBackKeeps(s, i, t);
      } else {
        ReuseAtQueue(s, i, t);
        ReuseAtKeeps(s, i, t);
        DrainKeeps(ReuseAt(s, i, t), t);
      }
    }
  }

  lemma ReuseAtFrame(s: State, i: nat, t: Time)
    requires i < |s.queue|
    ensures var s' := ReuseAt(s, i, t);
      && s'.cfg == s.cfg && s'.order == s.order && s'.lastgc == s.lastgc
      && s'.edges == s.edges && s'.peers == s.peers && s'.hists.Keys == s.hists.Keys
  {
    hide ReusePrefix, ReuseEdge, ForgiveOrigin;
    var s1 := s.(queue := Remove(s.queue, i), rqSize := s.rqSize - 1);
    match s.queue[i]
    case OriginEntry(_, n, _) =>
    case PrefixEntry(_, n, m) => ReusePrefixFrame(s1, n, m, t);
    case EdgeEntry(_, n) => ReuseEdgeFrame(s1, n, t);
  }

  lemma ReusePrefixFrame(s: State, n: Prefix, m: Prefix, t: Time)
    ensures var s' := ReusePrefix(s, n, m, t);
      && s'.cfg == s.cfg && s'.order == s.order && s'.lastgc == s.lastgc
      && s'.edges == s.edges && s'.peers == s.peers && s'.hists.Keys == s.hists.Keys
  {
    hide ClearSuspP, Expired, Unexpired, UnlockSubs, ClearIgnored;
  }

  lemma ReuseEdgeFrame(s: State, n: Prefix, t: Time)
    ensures var s' := ReuseEdge(s, n, t);
      && s'.cfg == s.cfg && s'.order == s.order && s'.lastgc == s.lastgc
      && s'.edges == s.edges && s'.peers == s.peers && s'.hists.Keys == s.hists.Keys
  {
    hide NextExpiry, ForgiveEdge, Bump;
  }

  lemma {:induction false} DrainFrame(s: State, t: Time)
    requires s.rqSize == |s.queue|
    ensures var s' := Drain(s, t);
      && s'.cfg == s.cfg && s'.order == s.order && s'.lastgc == s.lastgc
      && s'.edges == s.edges && s'.peers == s.peers && s'.hists.Keys == s.hists.Keys
    decreases Due(s.queue, t)
  {
    hide ReuseAt;
    if s.rqSize > 0 {
      var i := MinIndex(s.queue);
      if t >= s.queue[i].key {
        ReuseAtQueue(s, i, t);
        ReuseAtFrame(s, i, t);
        DrainFrame(ReuseAt(s, i, t), t);
      }
    }
  }

  // ---------- Forgiveness ----------

  ghost predicate NoEdgeSuspect(s: State, t: Time) {
    forall e :: e in s.edges ==> s.edges[e].depref <= t
  }

  lemma NoSuspectNoRequeue(s: State, i: nat, t: Time, e: Entry)
    requires i < |s.queue| && NoEdgeSuspect(s, t)
    requires e in ReuseAt(s, i, t).queue
    ensures e in s.queue
  {
    hide ReusePrefix, NextExpiry, ForgiveEdge;
    if s.queue[i].EdgeEntry? {
      NextExpirySpec(s.edges, Rib(s.ribs, s.queue[i].node), t);
      forall j | 0 <= j < |Rib(s.ribs, s.queue[i].node)|
        ensures RouteExpiry(s.edges, Rib(s.ribs, s.queue[i].node)[j], t) == 0
      {
        LatestExpirySpec(s.edges, PathEdges(Rib(s.ribs, s.queue[i].node)[j].path), t);
      }
    }
  }

  lemma {:induction false} DrainShrinks(s: State, t: Time, e: Entry)
    requires s.rqSize == |s.queue| && NoEdgeSuspect(s, t) && e in Drain(s, t).queue
    ensures e in s.queue
    decreases Due(s.queue, t)
  {
    hide ReuseAt;
    if s.rqSize > 0 {
      var i := MinIndex(s.queue);
      if t >= s.queue[i].key {
        ReuseAtQueue(s, i, t);
        ReuseAtFrame(s, i, t);
        DrainShrinks(ReuseAt(s, i, t), t, e);
        NoSuspectNoRequeue(s, i, t, e);
      }
    }
  }

  /** Once every deadline has passed, a drain empties the queue, clears every SUSPICIOUS_O and
      SUSPICIOUS_E flag, and the locks left are those of histories and notes. */
  lemma QuietDrainForgives(s: State, now: Time, t: Time)
    requires EngineInv(s, now) && now <= t
    requires NoEdgeSuspect(s, t) && forall e :: e in s.queue ==> e.key <= t
    ensures var s' := Drain(s, t);
      && s'.queue == [] && s'.rqSize == 0
      && (forall n, j :: 0 <= j < |Rib(s'.ribs, n)| ==>
            !Rib(s'.ribs, n)[j].flags.suspO && !Rib(s'.ribs, n)[j].flags.suspE)
      && (forall n :: Lock(s'.locks, n) == (if n in s'.hists then 1 else 0) + AvoidRefs(s'.hists, s'.order, n))
  {
    var s' := Drain(s, t);
    LaterClock(s, now, t);
    DrainKeeps(s, t);
    if s'.queue != [] {
      DrainShrinks(s, t, s'.queue[0]);
      assert false;
    }
    forall n, j | 0 <= j < |Rib(s'.ribs, n)|
      ensures !Rib(s'.ribs, n)[j].flags.suspO && !Rib(s'.ribs, n)[j].flags.suspE
    {
      assert Rib(s'.ribs, n)[j] in Rib(s'.ribs, n);
      assert !PendingOn(s'.queue, n);
      assert EdgeOk(s', n) && EdgeCount(s'.queue, n) == 0;
    }
    forall n ensures Lock(s'.locks, n) == (if n in s'.hists then 1 else 0) + AvoidRefs(s'.hists, s'.order, n) {
      assert Excess(s', n) == 0;
    }
  }

  /** The clock may advance between events. */
  lemma LaterClock(s: State, now: Time, t: Time)
    requires OriginInv(s, now) && now <= t
    ensures OriginInv(s, t)
  {
    forall n, o | n in s.hists && o in s.hists[n].origins && o.depref > t
      ensures OriginEntry(o.depref, n, o.asn) in s.queue
    {
    }
    assert SeenBy(s, t);
    AssembleOriginInv(s, t);
  }

  // ---------- Events ----------

  lemma AddNodeKeeps(s: State, n: Prefix, t: Time)
    requires DrainInv(s, t)
    ensures DrainInv(AddNode(s, n), t) && n in AddNode(s, n).order
  {
    hide EdgeCount, FlagE, Owed, LastSequence, Backs, Knows, PendingOn;
    var s' := AddNode(s, n);
    AssembleOriginInv(s', t);
    forall k ensures EdgeOk(s', k) {
      assert EdgeOk(s, k);
    }
    forall k ensures TableOk(s') && n in s'.order && Excess(s', k) == 0 {
      AddNodeLocks(s, n, k);
      assert Excess(s, k) == 0;
    }
    AddNodeLocks(s, n, n);
  }

  /** After the detectors at t, before the route is in the RIB. */
  ghost predicate Detected(s: State, m: News, t: Time, flags: Flags) {
    && s.rqSize == |s.queue| && AllLater(s.queue, t)
    && OriginInv(s, t) && EdgeInv(s) && LockInv(s)
    && m.node in s.hists && SeenNow(s.hists[m.node].origins, OriginAs(m.path), t)
    && (flags.suspO ==> PendingOn(s.queue, m.node))
    && (flags.suspE ==> Pending(s.hists, m.node))
  }

  lemma EnsureHistOrigins(s: State, n: Prefix, super: Option<Prefix>, peers: map<nat, PeerRec>, t: Time)
    requires OriginInv(s, t)
    ensures OriginInv(Relock(EnsureHist(s, n), super, 1).(peers := peers), t)
  {
    hide EnsureHist, LastSequence, Backs, Knows, PendingOn, Bump;
    NewHistOrigins(s, n, t);
    var s1 := EnsureHist(s, n);
    var s' := Relock(s1, super, 1).(peers := peers);
    assert s'.hists == s1.hists && s'.queue == s1.queue && s'.ribs == s1.ribs && s'.cfg == s1.cfg;
    AssembleOriginInv(s', t);
  }

  lemma NewHistOrigins(s: State, n: Prefix, t: Time)
    requires OriginInv(s, t)
    ensures OriginInv(EnsureHist(s, n), t)
  {
    hide LastSequence, Backs, Knows, PendingOn, Bump;
    AssembleOriginInv(EnsureHist(s, n), t);
  }

  ghost predicate Grown(s: State, s': State, t: Time) {
    && s'.rqSize == |s'.queue| && AllLater(s'.queue, t)
    && s'.cfg == s.cfg && s'.lastgc == s.lastgc && s'.order == s.order
    && (forall n :: n in s.hists ==> n in s'.hists)
    && (forall n :: PendingOn(s.queue, n) ==> PendingOn(s'.queue, n))
  }

  lemma PushPending(q: seq<Entry>, e: Entry, n: Prefix)
    requires PendingOn(q, n)
    ensures PendingOn(q + [e], n)
  {
    PendingSurvives(q, q + [e], EdgeEntry(0, []), n);
  }

  lemma UpdateOriginQueue(base: State, s: State, n: Prefix, path: Path, t: Time, newPeer: bool)
    requires base.cfg.Sane() && Grown(base, s, t) && n in s.hists
    ensures Grown(base, UpdateOrigin(s, n, path, t, newPeer).0, t)
  {
    var e := OriginEntry(t + s.cfg.originSus, n, OriginAs(path));
    forall k | PendingOn(s.queue, k) ensures PendingOn(s.queue + [e], k) {
      PushPending(s.queue, e, k);
    }
  }

  lemma BlameSuperQueue(s: State, n: Prefix, m: Prefix, peerAs: AsNum, until: Time)
    ensures var s' := BlameSuper(s, n, m, peerAs, until);
      && s'.queue == s.queue && s'.rqSize == s.rqSize && s'.cfg == s.cfg
      && s'.lastgc == s.lastgc && s'.order == s.order
  {
  }

  lemma UpdatePrefixQueue(base: State, s: State, n: Prefix, super: Option<Prefix>, peerAs: AsNum, path: Path,
                          t: Time, newPeer: bool)
    requires base.cfg.Sane() && Grown(base, s, t) && n in s.hists
    ensures Grown(base, UpdatePrefix(s, n, super, peerAs, path, t, newPeer).0, t)
  {
    hide JudgePrefix, PrefixOf, ShouldIgnore, BlameSuper, Bump, PendingOn;
    var v := JudgePrefix(s, n, super, peerAs, path, t, newPeer);
    if v.Hijack? && super.Some? {
      var e := PrefixEntry(t + s.cfg.subSus, n, super.value);
      forall k | PendingOn(s.queue, k) ensures PendingOn(s.queue + [e], k) {
        PushPending(s.queue, e, k);
      }
      var s1 := if v.isNew then SuspectPrefix(s, n, super.value, t) else s;
      assert Grown(base, s1, t);
      BlameSuperQueue(s1, n, super.value, peerAs, PrefixOf(s1.hists[n]).ignoreUntil);
    }
  }

  lemma UpdateEdgeQueue(base: State, s: State, n: Prefix, path: Path, t: Time, newPeer: bool)
    requires base.cfg.Sane() && Grown(base, s, t) && n in s.hists
    ensures Grown(base, UpdateEdge(s, n, path, t, newPeer).0, t)
  {
    TouchEdgesLater(s.cfg, EdgeFold(s.edges, 0), PathEdges(path), t, newPeer);
    var f := TouchEdges(s.cfg, EdgeFold(s.edges, 0), PathEdges(path), t, newPeer);
    forall k | PendingOn(s.queue, k) ensures PendingOn(s.queue + [EdgeEntry(f.latest, n)], k) {
      PushPending(s.queue, EdgeEntry(f.latest, n), k);
    }
  }

  lemma GrownSelf(s: State, t: Time)
    requires s.rqSize == |s.queue| && AllLater(s.queue, t)
    ensures Grown(s, s, t)
  {
  }

  lemma PrepareGrown(s: State, m: News, t: Time)
    requires s.rqSize == |s.queue| && AllLater(s.queue, t)
    ensures Grown(s, Prepare(s, m, t).0, t)
  {
    hide FindSuper, TouchPeer, Bump;
  }

  lemma RelockGrown(base: State, s: State, super: Option<Prefix>, d: int, t: Time)
    requires Grown(base, s, t)
    ensures Grown(base, Relock(s, super, d), t)
  {
  }

  lemma JudgeGrown(base: State, s: State, m: News, super: Option<Prefix>, t: Time, newPeer: bool, flags: Flags)
    requires base.cfg.Sane() && Grown(base, s, t) && m.node in s.hists
    ensures var s' := Judge(s, m, super, t, newPeer, flags).0; Grown(base, s', t) && m.node in s'.hists
  {
    hide UpdateOrigin, UpdatePrefix, UpdateEdge, Grown, LastSequence;
    var s1 := UpdateOrigin(s, m.node, m.path, t, newPeer).0;
    UpdateOriginQueue(base, s, m.node, m.path, t, newPeer);
    var s2 := UpdatePrefix(s1, m.node, super, m.peerAs, m.path, t, newPeer).0;
    UpdatePrefixQueue(base, s1, m.node, super, m.peerAs, m.path, t, newPeer);
    UpdateEdgeQueue(base, s2, m.node, m.path, t, newPeer);
  }

  /** Over the detectors, the queue only grows, by entries due later. */
  lemma DetectQueue(s: State, m: News, t: Time, flags: Flags)
    requires s.cfg.Sane() && s.rqSize == |s.queue| && AllLater(s.queue, t)
    ensures Grown(s, Detect(s, m, t, flags).0, t) && m.node in Detect(s, m, t, flags).0.hists
  {
    hide Prepare, Judge, Grown, AllLater;
    var (s1, super, newPeer) := Prepare(s, m, t);
    PrepareGrown(s, m, t);
    JudgeGrown(s, s1, m, super, t, newPeer, flags);
    RelockGrown(s, Judge(s1, m, super, t, newPeer, flags).0, super, -1, t);
  }

  lemma UpdateEdgeOrigins(s: State, n: Prefix, path: Path, t: Time, newPeer: bool)
    requires n in s.hists
    ensures SameOrigins(s, UpdateEdge(s, n, path, t, newPeer).0)
  {
    hide TouchEdges, PathEdges, LastSequence, Bump;
    assert forall k, r :: r in Rib(s.ribs, k) && r.flags.suspO ==> FlaggedAs(Rib(s.ribs, k), r.path);
  }

  lemma SameOriginsSeen(s: State, s': State, n: Prefix, a: AsNum, t: Time)
    requires SameOrigins(s, s') && n in s.hists && SeenNow(s.hists[n].origins, a, t)
    ensures n in s'.hists && SeenNow(s'.hists[n].origins, a, t)
  {
  }

  /** The invariant once the announced origin is on record, and the flag it earned is backed. */
  ghost predicate OriginSeen(s: State, n: Prefix, a: AsNum, t: Time, flagged: bool) {
    && s.cfg.Sane() && s.rqSize == |s.queue| && AllLater(s.queue, t) && OriginInv(s, t)
    && n in s.hists && SeenNow(s.hists[n].origins, a, t)
    && (flagged ==> PendingOn(s.queue, n))
  }

  lemma LocksOnlySeen(s: State, s': State, n: Prefix, a: AsNum, t: Time, flagged: bool)
    requires OriginSeen(s, n, a, t, flagged) && s' == s.(locks := s'.locks)
    ensures OriginSeen(s', n, a, t, flagged)
  {
    AssembleOriginInv(s', t);
  }

  lemma UpdatePrefixSeen(s: State, n: Prefix, super: Option<Prefix>, peerAs: AsNum, path: Path,
                         t: Time, newPeer: bool, flagged: bool)
    requires OriginSeen(s, n, OriginAs(path), t, flagged)
    ensures OriginSeen(UpdatePrefix(s, n, super, peerAs, path, t, newPeer).0, n, OriginAs(path), t, flagged)
  {
    hide UpdatePrefix, OriginInv, SameOrigins, LastSequence;
    var s' := UpdatePrefix(s, n, super, peerAs, path, t, newPeer).0;
    UpdatePrefixOrigins(s, n, super, peerAs, path, t, newPeer);
    GrownSelf(s, t);
    UpdatePrefixQueue(s, s, n, super, peerAs, path, t, newPeer);
    FrameOrigins(s, s', t);
    SameOriginsSeen(s, s', n, OriginAs(path), t);
  }

  lemma UpdateEdgeSeen(s: State, n: Prefix, path: Path, t: Time, newPeer: bool, flagged: bool)
    requires OriginSeen(s, n, OriginAs(path), t, flagged)
    ensures OriginSeen(UpdateEdge(s, n, path, t, newPeer).0, n, OriginAs(path), t, flagged)
  {
    hide UpdateEdge, OriginInv, SameOrigins, LastSequence;
    var s' := UpdateEdge(s, n, path, t, newPeer).0;
    UpdateEdgeOrigins(s, n, path, t, newPeer);
    GrownSelf(s, t);
    UpdateEdgeQueue(s, s, n, path, t, newPeer);
    FrameOrigins(s, s', t);
    SameOriginsSeen(s, s', n, OriginAs(path), t);
  }

  lemma UpdateOriginSeenFlag(s: State, n: Prefix, path: Path, t: Time, newPeer: bool, flagged: bool)
    requires s.cfg.Sane() && s.rqSize == |s.queue| && AllLater(s.queue, t) && OriginInv(s, t) && n in s.hists
    requires flagged ==> PendingOn(s.queue, n)
    ensures var (s', o) := UpdateOrigin(s, n, path, t, newPeer);
      OriginSeen(s', n, OriginAs(path), t, flagged || o)
  {
    hide UpdateOrigin, OriginInv, LastSequence;
    UpdateOriginKeeps(s, n, path, t, newPeer);
    GrownSelf(s, t);
    UpdateOriginQueue(s, s, n, path, t, newPeer);
  }

  lemma JudgeOrigins(s: State, m: News, super: Option<Prefix>, t: Time, newPeer: bool, flags: Flags)
    requires s.cfg.Sane() && s.rqSize == |s.queue| && AllLater(s.queue, t) && OriginInv(s, t)
    requires m.node in s.hists && (flags.suspO ==> PendingOn(s.queue, m.node))
    ensures var (s', flags') := Judge(s, m, super, t, newPeer, flags);
      OriginSeen(s', m.node, OriginAs(m.path), t, flags'.suspO)
  {
    hide UpdateOrigin, UpdatePrefix, UpdateEdge, LastSequence, OriginInv, OriginSeen, AllLater, PendingOn;
    var (s1, o) := UpdateOrigin(s, m.node, m.path, t, newPeer);
    UpdateOriginSeenFlag(s, m.node, m.path, t, newPeer, flags.suspO);
    var s2 := UpdatePrefix(s1, m.node, super, m.peerAs, m.path, t, newPeer).0;
    UpdatePrefixSeen(s1, m.node, super, m.peerAs, m.path, t, newPeer, flags.suspO || o);
    UpdateEdgeSeen(s2, m.node, m.path, t, newPeer, flags.suspO || o);
  }

  lemma PrepareOrigins(s: State, m: News, t: Time)
    requires OriginInv(s, t)
    ensures var s' := Prepare(s, m, t).0;
      && OriginInv(s', t) && s'.queue == s.queue
      && s'.rqSize == s.rqSize && s'.cfg == s.cfg
  {
    hide OriginInv, Bump;
    var s1 := EnsureHist(s, m.node);
    var super := FindSuper(s1.hists, m.node, t);
    var (peers, newPeer) := TouchPeer(s1.peers, m.peer, t);
    EnsureHistOrigins(s, m.node, super, peers, t);
  }

  lemma DetectOrigins(s: State, m: News, t: Time, flags: Flags)
    requires s.cfg.Sane() && s.rqSize == |s.queue| && AllLater(s.queue, t) && OriginInv(s, t)
    requires flags.suspO ==> PendingOn(s.queue, m.node)
    ensures var (s', flags') := Detect(s, m, t, flags);
      OriginSeen(s', m.node, OriginAs(m.path), t, flags'.suspO)
  {
    hide Prepare, Judge, OriginInv, OriginSeen, AllLater, PendingOn, OriginAs, Bump;
    var (s1, super, newPeer) := Prepare(s, m, t);
    PrepareOrigins(s, m, t);
    JudgeOrigins(s1, m, super, t, newPeer, flags);
    var (s2, flags') := Judge(s1, m, super, t, newPeer, flags);
    LocksOnlySeen(s2, Relock(s2, super, -1), m.node, OriginAs(m.path), t, flags'.suspO);
  }

  lemma DetectEdgeInv(s: State, m: News, t: Time, flags: Flags)
    requires EdgeInv(s) && (flags.suspE ==> Pending(s.hists, m.node))
    ensures var (s', flags') := Detect(s, m, t, flags);
      EdgeInv(s') && (flags'.suspE ==> Pending(s'.hists, m.node))
  {
    hide Detect, EdgeOk;
    forall k ensures EdgeOk(Detect(s, m, t, flags).0, k) {
      assert EdgeOk(s, k);
      DetectEdges(s, m, t, flags, k);
    }
    assert EdgeOk(s, m.node);
    DetectEdges(s, m, t, flags, m.node);
  }

  lemma DetectLockInv(s: State, m: News, t: Time, flags: Flags)
    requires LockInv(s) && m.node in s.order
    ensures LockInv(Detect(s, m, t, flags).0)
  {
    hide Detect, Excess, TableOk;
    forall k ensures TableOk(Detect(s, m, t, flags).0) && Excess(Detect(s, m, t, flags).0, k) == 0 {
      DetectLocks(s, m, t, flags, k);
    }
    DetectLocks(s, m, t, flags, m.node);
  }

  lemma DetectKeeps(s: State, m: News, t: Time)
    requires s.cfg.Sane() && DrainInv(s, t) && AllLater(s.queue, t) && m.node in s.order
    ensures var was := OldFlags(Rib(s.ribs, m.node), m.peer);
      var (s', flags) := Detect(s, m, t, was);
      Detected(s', m, t, flags)
  {
    var was := OldFlags(Rib(s.ribs, m.node), m.peer);
    var i := FromPeer(Rib(s.ribs, m.node), m.peer);
    if i < |Rib(s.ribs, m.node)| {
      assert Rib(s.ribs, m.node)[i] in Rib(s.ribs, m.node);
      assert EdgeOk(s, m.node);
    }
    hide Detect, EdgeInv, OriginInv, LockInv;
    DetectQueue(s, m, t, was);
    DetectOrigins(s, m, t, was);
    DetectEdgeInv(s, m, t, was);
    DetectLockInv(s, m, t, was);
  }

  lemma GcFrame(s: State, live: set<Edge>, t: Time)
    ensures var s' := Gc(s, live, t);
      && s'.cfg == s.cfg && s'.queue == s.queue && s'.ribs == s.ribs
      && s'.rqSize == s.rqSize && s'.order == s.order && s'.lastgc == t
  {
    GcNodesFrame(s, s.order, t);
  }

  lemma {:induction false} GcNodesFrame(s: State, ns: seq<Prefix>, t: Time)
    ensures var s' := GcNodes(s, ns, t);
      && s'.cfg == s.cfg && s'.queue == s.queue && s'.ribs == s.ribs
      && s'.rqSize == s.rqSize && s'.order == s.order
    decreases |ns|
  {
    if ns != [] {
      GcNodesFrame(GcNode(s, ns[0], t), ns[1..], t);
    }
  }

  lemma GcKeeps(s: State, live: set<Edge>, m: News, t: Time, flags: Flags)
    requires s.cfg.Sane() && Detected(s, m, t, flags) && s.lastgc <= t && GcSpares(s, t)
    ensures Detected(Gc(s, live, t), m, t, flags)
  {
    hide GcNodes, EdgeOk, OriginAs;
    var s' := Gc(s, live, t);
    GcFrame(s, live, t);
    GcKeepsOrigins(s, live, t, m.node, OriginAs(m.path));
    forall k ensures EdgeOk(s', k) {
      assert EdgeOk(s, k);
      GcEdgesKeep(s, live, t, k);
    }
    assert EdgeOk(s, m.node);
    GcEdgesKeep(s, live, t, m.node);
    forall k ensures TableOk(s') && Excess(s', k) == 0 {
      assert Excess(s, k) == 0;
      GcNodesLocks(s, s.order, t, k);
    }
    GcNodesLocks(s, s.order, t, m.node);
  }

  /** Putting the announced route into the RIB, flagged as detected, keeps the invariant. */
  lemma PutRouteKeeps(s: State, m: News, t: Time, flags: Flags)
    requires Detected(s, m, t, flags)
    ensures var s' := s.(ribs := s.ribs[m.node := PutRoute(Rib(s.ribs, m.node), m, flags)]);
      OriginInv(s', t) && EdgeInv(s') && LockInv(s')
  {
    hide LastSequence, EdgeCount, Owed;
    var rs := Rib(s.ribs, m.node);
    var s' := s.(ribs := s.ribs[m.node := PutRoute(rs, m, flags)]);
    var i := FromPeer(rs, m.peer);
    forall k, r | r in Rib(s'.ribs, k) && r.flags.suspO
      ensures k in s'.hists && Knows(s'.hists[k].origins, OriginAs(r.path)) && PendingOn(s'.queue, k)
    {
      if k == m.node && r !in rs {
        assert r.path == m.path && r.flags == flags;
      }
    }
    AssembleOriginInv(s', t);
    forall k ensures EdgeOk(s', k) {
      assert EdgeOk(s, k);
      if k == m.node && FlagE(Rib(s'.ribs, k)) {
        var j :| 0 <= j < |Rib(s'.ribs, k)| && Rib(s'.ribs, k)[j].flags.suspE;
        if !flags.suspE {
          var j0 := if i < |rs| then j else j - 1;
          assert rs[j0].flags.suspE;
        }
      }
    }
    forall k ensures TableOk(s') && Excess(s', k) == 0 {
      assert Excess(s, k) == 0;
      LocksFrame(s, s', k);
    }
  }

  lemma BeforeGcKeeps(s: State, m: News, now: Time, t: Time)
    requires EngineInv(s, now) && now <= t
    ensures var (s1, flags) := BeforeGc(s, m, t);
      s1.cfg.Sane() && s1.lastgc <= t && Detected(s1, m, t, flags)
  {
    hide Drain, Detect, OriginInv, EdgeInv, LockInv;
    LaterClock(s, now, t);
    var a := AddNode(s, m.node);
    AddNodeKeeps(s, m.node, t);
    DrainKeeps(a, t);
    DrainFrame(a, t);
    var d := Drain(a, t);
    DetectKeeps(d, m, t);
    DetectQueue(d, m, t, OldFlags(Rib(d.ribs, m.node), m.peer));
  }

  /** Collection after the detectors frees no history with an edge entry pending exactly when the
      state before the call says so. */
  lemma SparesExactly(s: State, m: News, now: Time, t: Time)
    requires EngineInv(s, now) && now <= t
    ensures var s1 := BeforeGc(s, m, t).0; (GcDue(s1, t) ==> GcSpares(s1, t)) <==> CollectionSafe(s, m, t)
  {
    hide Drain, Detect, GcFrees, EdgeInv, OriginInv, LockInv, Spared, StaysPending, Pending, EdgeOk, EdgeCount, FlagE, Excess;
    var (s1, flags) := BeforeGc(s, m, t);
    BeforeGcFacts(s, m, now, t, []);
    forall n | n in s1.hists && Pending(s1.hists, n)
      ensures GcFrees(s.cfg, Rib(s1.ribs, n), s.lastgc, s1.hists[n], t) <==>
        n != m.node && n in s.hists && StaysPending(s, n, t) && !Spared(s, n, t)
    {
      BeforeGcFacts(s, m, now, t, n);
    }
    forall n | n in s.hists && n != m.node && StaysPending(s, n, t) ensures Pending(s1.hists, n) && n in s1.hists {
      BeforeGcFacts(s, m, now, t, n);
    }
    forall n | Pending(s1.hists, n) ensures n in s1.hists {
      PendingHere(s1.hists, n);
    }
  }

  lemma PendingHere(hists: map<Prefix, Hist>, n: Prefix)
    requires Pending(hists, n)
    ensures n in hists
  {
  }

  /** Node n between the start of the call and its collection. */
  lemma BeforeGcFacts(s: State, m: News, now: Time, t: Time, n: Prefix)
    requires EngineInv(s, now) && now <= t
    ensures var s1 := BeforeGc(s, m, t).0;
      && s1.cfg == s.cfg && s1.lastgc == s.lastgc
      && (n != m.node ==>
            && (n in s1.hists <==> n in s.hists)
            && (Pending(s1.hists, n) <==> StaysPending(s, n, t))
            && (n in s.hists ==> (GcFrees(s.cfg, Rib(s1.ribs, n), s.lastgc, s1.hists[n], t) <==> !Spared(s, n, t))))
      && (n == m.node && n in s1.hists ==> !GcFrees(s.cfg, Rib(s1.ribs, n), s.lastgc, s1.hists[n], t))
  {
    hide Drain, Detect, GcFrees, OriginInv, LockInv, Spared, StaysPending, Pending, EdgeCount, FlagE;
    LaterClock(s, now, t);
    var a := AddNode(s, m.node);
    AddNodeKeeps(s, m.node, t);
    DrainKeeps(a, t);
    DrainFrame(a, t);
    var d := Drain(a, t);
    var was := OldFlags(Rib(d.ribs, m.node), m.peer);
    var s1 := Detect(d, m, t, was).0;
    DetectKeeps(d, m, t);
    DetectLeaves(d, m, t, was);
    if n != m.node {
      DrainPending(a, t, n);
      DetectRecords(d, m, t, was, n);
      AddedSame(s, m.node, n, t);
      RecordsTrans(a, d, s1, n);
      RecordsTrans(s, a, s1, n);
      if n in s.hists {
        FreesExactly(s1, n, t);
        SameSpared(s, s1, n, t);
      }
    } else if n in s1.hists {
      NeverFreed(s1, m, t);
    }
  }

  lemma DetectLeaves(s: State, m: News, t: Time, flags: Flags)
    ensures Detect(s, m, t, flags).0.cfg == s.cfg && Detect(s, m, t, flags).0.lastgc == s.lastgc
  {
    hide UpdateOrigin, UpdatePrefix, UpdateEdge, FindSuper, TouchPeer;
    var k := m.node + [true];
    DetectRecords(s, m, t, flags, k);
  }

  lemma AddedSame(s: State, node: Prefix, n: Prefix, t: Time)
    ensures var a := AddNode(s, node); SameRecords(s, a, n) && (StaysPending(a, n, t) <==> StaysPending(s, n, t))
  {
  }

  /** The announced node has an origin seen now. */
  lemma NeverFreed(s: State, m: News, t: Time)
    requires s.cfg.Sane() && s.lastgc <= t && m.node in s.hists
    requires SeenNow(s.hists[m.node].origins, OriginAs(m.path), t)
    ensures !GcFrees(s.cfg, Rib(s.ribs, m.node), s.lastgc, s.hists[m.node], t)
  {
    hide OriginAs, GcOrigin, GcOrigins;
    var o :| o in s.hists[m.node].origins && o.asn == OriginAs(m.path) && o.lastSeen == t;
    GcOriginSurvives(s, m.node, o, t);
  }

  lemma AnnounceKeeps(s: State, m: News, live: set<Edge>, now: Time, t: Time)
    requires EngineInv(s, now) && now <= t && CollectionSafe(s, m, t)
    ensures EngineInv(Announce(s, m, live, t), t)
  {
    hide BeforeGc, Gc, CollectionSafe, GcSpares;
    SparesExactly(s, m, now, t);
    var (s1, flags) := BeforeGc(s, m, t);
    BeforeGcKeeps(s, m, now, t);
    var s2 := if GcDue(s1, t) then Gc(s1, live, t) else s1;
    if GcDue(s1, t) {
      GcKeeps(s1, live, m, t, flags);
      GcFrame(s1, live, t);
    }
    PutRouteKeeps(s2, m, t, flags);
  }

  /** An edge entry is left for a node without a history. */
  ghost predicate Stranded(s: State, n: Prefix) {
    n !in s.hists && exists e :: e in s.queue && e.EdgeEntry? && e.node == n
  }

  /** An announcement strands a node's edge entry exactly when it collects, the node is another one
      that stays pending, and nothing spares its history. */
  lemma StrandsExactly(s: State, m: News, live: set<Edge>, now: Time, t: Time, n: Prefix)
    requires EngineInv(s, now) && now <= t
    ensures Stranded(Announce(s, m, live, t), n) <==>
      t >= s.lastgc + 3600 && n != m.node && n in s.hists && StaysPending(s, n, t) && !Spared(s, n, t)
  {
    hide BeforeGc, GcFrees, GcNodes, GcEdges, OriginInv, Spared, StaysPending, PutRoute, EdgeCount, FlagE, Excess;
    var (s1, flags) := BeforeGc(s, m, t);
    BeforeGcKeeps(s, m, now, t);
    BeforeGcFacts(s, m, now, t, n);
    assert EdgeOk(s1, n);
    EdgeCountZero(s1.queue, n);
    if GcDue(s1, t) {
      GcNodesFrees(s1, s1.order, t, n);
      GcFrame(s1, live, t);
    }
  }

  /** Collection is safe exactly when no announcement strands an entry. */
  lemma SafeExactly(s: State, m: News, live: set<Edge>, now: Time, t: Time)
    requires EngineInv(s, now) && now <= t
    ensures CollectionSafe(s, m, t) <==> forall n :: !Stranded(Announce(s, m, live, t), n)
  {
    hide Stranded, Announce, Spared, StaysPending, OriginInv, EdgeInv, LockInv;
    forall n ensures Stranded(Announce(s, m, live, t), n) <==>
      t >= s.lastgc + 3600 && n != m.node && n in s.hists && StaysPending(s, n, t) && !Spared(s, n, t)
    {
      StrandsExactly(s, m, live, now, t, n);
    }
  }

  // ---------- The announced route ----------

  /** Route k is the first one learned from this peer. */
  predicate FirstOfPeer(rs: seq<Route>, peer: nat, k: nat) {
    k < |rs| && rs[k].peer == peer && forall j :: 0 <= j < k ==> rs[j].peer != peer
  }

  lemma {:induction false} FromPeerIs(rs: seq<Route>, peer: nat, k: nat)
    ensures FirstOfPeer(rs, peer, k) ==> FromPeer(rs, peer) == k
    ensures FromPeer(rs, peer) < |rs| ==> FirstOfPeer(rs, peer, FromPeer(rs, peer))
  {
    if rs != [] && rs[0].peer != peer {
      FromPeerIs(rs[1..], peer, if k > 0 then k - 1 else 0);
      var i := FromPeer(rs[1..], peer);
      assert forall j :: 0 < j < |rs| ==> rs[j] == rs[1..][j - 1];
    }
  }

  /** The routes of a node once this one was announced with these flags: it takes the place of the
      peer's first one, and stays selected if that was, or else it comes in front. */
  ghost predicate Entered(rs: seq<Route>, m: News, flags: Flags, rs': seq<Route>) {
    || (exists k: nat :: FirstOfPeer(rs, m.peer, k) && rs' == rs[k := Route(m.peer, m.peerAs, m.path, flags, rs[k].selected)])
    || ((forall k: nat :: !FirstOfPeer(rs, m.peer, k)) && rs' == [Route(m.peer, m.peerAs, m.path, flags, false)] + rs)
  }

  ghost predicate HadFlags(rs: seq<Route>, peer: nat, flags: Flags) {
    || (exists k: nat :: FirstOfPeer(rs, peer, k) && flags == rs[k].flags)
    || ((forall k: nat :: !FirstOfPeer(rs, peer, k)) && flags == Flags(false, false, false, false))
  }

  lemma PutRouteIs(rs: seq<Route>, m: News, flags: Flags)
    ensures Entered(rs, m, flags, PutRoute(rs, m, flags)) && HadFlags(rs, m.peer, OldFlags(rs, m.peer))
  {
    var i := FromPeer(rs, m.peer);
    FromPeerIs(rs, m.peer, i);
    if i < |rs| {
      assert FirstOfPeer(rs, m.peer, i);
    } else {
      forall k: nat ensures !FirstOfPeer(rs, m.peer, k) { FromPeerIs(rs, m.peer, k); }
    }
  }

  /** Main result: an announcement drains the queue, then its detectors add to the flags the peer's
      route has by then, then it collects if the last time is an hour ago, and its route enters. */
  lemma RouteEnters(s: State, m: News, live: set<Edge>, t: Time)
    requires s.rqSize == |s.queue|
    ensures var d := Drain(AddNode(s, m.node), t); var s' := Announce(s, m, live, t);
      exists old0 :: HadFlags(Rib(d.ribs, m.node), m.peer, old0) &&
        var (s1, flags) := Detect(d, m, t, old0);
        && Entered(Rib(s1.ribs, m.node), m, flags, Rib(s'.ribs, m.node))
        && (forall n :: n != m.node ==> Rib(s'.ribs, n) == Rib(s1.ribs, n))
        && s'.lastgc == if t >= s.lastgc + 3600 then t else s.lastgc
  {
    hide Drain, Detect, PutRoute, Gc, HadFlags, Entered, OldFlags;
    var d := Drain(AddNode(s, m.node), t);
    var old0 := OldFlags(Rib(d.ribs, m.node), m.peer);
    var (s1, flags) := Detect(d, m, t, old0);
    DrainFrame(AddNode(s, m.node), t);
    DetectLeaves(d, m, t, old0);
    GcFrame(s1, live, t);
    PutRouteIs(Rib(d.ribs, m.node), m, old0);
    PutRouteIs(Rib(s1.ribs, m.node), m, flags);
  }

  /** A drain at t handles an edge entry whose node has no history at that moment, and so dereferences
      a null pointer. */
  ghost predicate DrainFaults(s: State, t: Time)
    requires s.rqSize == |s.queue|
    decreases Due(s.queue, t)
  {
    s.rqSize > 0 &&
      var i := MinIndex(s.queue); var e := s.queue[i];
      && e.key <= t
      && (|| (e.EdgeEntry? && e.node !in s.hists)
          || (ReuseAtQueue(s, i, t); DrainFaults(ReuseAt(s, i, t), t)))
  }

  /** A stranded entry that is due. */
  ghost predicate StrandedDue(s: State, t: Time) {
    exists e :: e in s.queue && e.EdgeEntry? && e.key <= t && e.node !in s.hists
  }

  lemma ReuseAtDueEdges(s: State, i: nat, t: Time, e: Entry)
    requires i < |s.queue| && e.EdgeEntry? && e.key <= t
    ensures e in s.queue <==> e == s.queue[i] || e in ReuseAt(s, i, t).queue
  {
    hide ReusePrefix, ForgiveEdge, NextExpiry, ForgiveOrigin, Bump;
    assert e in Remove(s.queue, i) ==> e in s.queue;
  }

  /** A drain faults exactly when a stranded entry is due: one whose node was announced again by then
      does no harm. */
  lemma {:induction false} FaultsExactly(s: State, t: Time)
    requires s.rqSize == |s.queue|
    ensures DrainFaults(s, t) <==> StrandedDue(s, t)
    decreases Due(s.queue, t)
  {
    hide ReuseAt;
    if s.rqSize > 0 {
      var i := MinIndex(s.queue);
      if t < s.queue[i].key {
        forall e | e in s.queue ensures e.key > t {
          var j :| 0 <= j < |s.queue| && s.queue[j] == e;
        }
      } else {
        var s1 := ReuseAt(s, i, t);
        ReuseAtQueue(s, i, t);
        ReuseAtFrame(s, i, t);
        FaultsExactly(s1, t);
        forall e: Entry | e.EdgeEntry? && e.key <= t ensures e in s.queue <==> e == s.queue[i] || e in s1.queue {
          ReuseAtDueEdges(s, i, t, e);
        }
        assert s.queue[i] in s.queue;
      }
    }
  }

  // ---------- No entry is lost before it is due ----------

  lemma ReuseAtWaits(s: State, i: nat, t: Time, e: Entry)
    requires i < |s.queue| && e in s.queue && s.queue[i].key <= t < e.key
    ensures e in ReuseAt(s, i, t).queue
  {
    hide ReusePrefix, ForgiveEdge, NextExpiry, ForgiveOrigin, Bump;
    assert e in Remove(s.queue, i);
  }

  lemma {:induction false} DrainWaits(s: State, t: Time, e: Entry)
    requires s.rqSize == |s.queue| && e in s.queue && t < e.key
    ensures e in Drain(s, t).queue
    decreases Due(s.queue, t)
  {
    hide ReuseAt;
    if s.rqSize > 0 {
      var i := MinIndex(s.queue);
      if t >= s.queue[i].key {
        ReuseAtQueue(s, i, t);
        ReuseAtWaits(s, i, t, e);
        DrainWaits(ReuseAt(s, i, t), t, e);
      }
    }
  }

  lemma UpdateOriginWaits(s: State, n: Prefix, path: Path, t: Time, newPeer: bool, e: Entry)
    requires n in s.hists && e in s.queue
    ensures e in UpdateOrigin(s, n, path, t, newPeer).0.queue
  {
    hide TouchOrigin, OriginAs, Bump;
  }

  lemma UpdatePrefixWaits(s: State, n: Prefix, super: Option<Prefix>, peerAs: AsNum, path: Path,
                          t: Time, newPeer: bool, e: Entry)
    requires n in s.hists && e in s.queue
    ensures e in UpdatePrefix(s, n, super, peerAs, path, t, newPeer).0.queue
  {
    hide JudgePrefix, ShouldIgnore, BlameSuper, Bump, PrefixOf;
    var v := JudgePrefix(s, n, super, peerAs, path, t, newPeer);
    if v.Hijack? && super.Some? {
      var s1 := if v.isNew then SuspectPrefix(s, n, super.value, t) else s;
      BlameSuperQueue(s1, n, super.value, peerAs, PrefixOf(s1.hists[n]).ignoreUntil);
    }
  }

  lemma UpdateEdgeWaits(s: State, n: Prefix, path: Path, t: Time, newPeer: bool, e: Entry)
    requires n in s.hists && e in s.queue
    ensures e in UpdateEdge(s, n, path, t, newPeer).0.queue
  {
    hide TouchEdges, PathEdges, Bump;
  }

  lemma PrepareWaits(s: State, m: News, t: Time)
    ensures Prepare(s, m, t).0.queue == s.queue
  {
    hide FindSuper, TouchPeer, Bump;
  }

  lemma DetectWaits(s: State, m: News, t: Time, flags: Flags, e: Entry)
    requires e in s.queue
    ensures e in Detect(s, m, t, flags).0.queue
  {
    hide Prepare, UpdateOrigin, UpdatePrefix, UpdateEdge;
    PrepareWaits(s, m, t);
    var (s1, super, newPeer) := Prepare(s, m, t);
    var s2 := UpdateOrigin(s1, m.node, m.path, t, newPeer).0;
    UpdateOriginWaits(s1, m.node, m.path, t, newPeer, e);
    var s3 := UpdatePrefix(s2, m.node, super, m.peerAs, m.path, t, newPeer).0;
    UpdatePrefixWaits(s2, m.node, super, m.peerAs, m.path, t, newPeer, e);
    UpdateEdgeWaits(s3, m.node, m.path, t, newPeer, e);
  }

  /** An announcement leaves every entry that is not due in the queue. */
  lemma AnnounceWaits(s: State, m: News, live: set<Edge>, t: Time, e: Entry)
    requires s.rqSize == |s.queue| && e in s.queue && t < e.key
    ensures e in Announce(s, m, live, t).queue
  {
    hide Drain, Detect, Gc, PutRoute;
    var a := AddNode(s, m.node);
    DrainWaits(a, t, e);
    var d := Drain(a, t);
    DetectWaits(d, m, t, OldFlags(Rib(d.ribs, m.node), m.peer), e);
    GcFrame(BeforeGc(s, m, t).0, live, t);
  }

  /** A change of the RIB that adds no suspicion flag and no path keeps the invariant. */
  lemma RibChangeKeeps(s: State, ribs: map<Prefix, seq<Route>>, now: Time)
    requires EngineInv(s, now)
    requires NoNewFlags(s.ribs, ribs)
    requires forall n :: FlagE(Rib(ribs, n)) ==> FlagE(Rib(s.ribs, n))
    ensures EngineInv(s.(ribs := ribs), now)
  {
    var s' := s.(ribs := ribs);
    FrameOrigins(s, s', now);
    forall k ensures EdgeOk(s', k) {
      assert EdgeOk(s, k);
    }
    forall k ensures TableOk(s') && Excess(s', k) == 0 {
      assert Excess(s, k) == 0;
      LocksFrame(s, s', k);
    }
  }

  lemma WithdrawKeeps(s: State, n: Prefix, i: nat, now: Time)
    requires EngineInv(s, now) && i < |Rib(s.ribs, n)|
    ensures EngineInv(Withdraw(s, n, i), now)
  {
    var rs := Rib(s.ribs, n);
    var rs' := Remove(rs, i);
    forall r | r in rs' && r.flags.suspO ensures FlaggedAs(rs, r.path) {
      assert r in rs;
    }
    UpdateNoNewFlags(s.ribs, n, rs');
    forall k ensures FlagE(Rib(s.ribs[n := rs'], k)) ==> FlagE(Rib(s.ribs, k)) {
      if k == n && FlagE(rs') {
        var j :| 0 <= j < |rs'| && rs'[j].flags.suspE;
        assert rs'[j] in rs;
        var j0 :| 0 <= j0 < |rs| && rs[j0] == rs'[j];
      }
    }
    RibChangeKeeps(s, s.ribs[n := rs'], now);
  }

  /** Rewrites of selection and IGNORED_P keep paths and the two suspicion flags. */
  ghost predicate SameSuspicions(rs: seq<Route>, rs': seq<Route>) {
    && |rs'| == |rs|
    && forall j :: 0 <= j < |rs| ==>
      && rs'[j].path == rs[j].path
      && rs'[j].flags.suspO == rs[j].flags.suspO
      && rs'[j].flags.suspE == rs[j].flags.suspE
  }

  lemma {:induction false} IgnoreSubsSame(ribs: map<Prefix, seq<Route>>, av: seq<Avoid>, on: bool, t: Time, k: Prefix)
    ensures SameSuspicions(Rib(ribs, k), Rib(IgnoreSubs(ribs, av, on, t), k))
    decreases |av|
  {
    if av != [] {
      var ribs1 := if av[0].until > t then ribs[av[0].sub := Ignore(Rib(ribs, av[0].sub), on)] else ribs;
      assert SameSuspicions(Rib(ribs, k), Rib(ribs1, k));
      IgnoreSubsSame(ribs1, av[1..], on, t, k);
    }
  }

  lemma RibUpdatedSame(s: State, n: Prefix, best: nat, t: Time, k: Prefix)
    ensures SameSuspicions(Rib(s.ribs, k), Rib(RibUpdated(s, n, best, t).ribs, k))
  {
    var rs := Mark(Rib(s.ribs, n), best);
    var s1 := s.(ribs := s.ribs[n := rs]);
    assert SameSuspicions(Rib(s.ribs, k), Rib(s1.ribs, k));
    if n in s.hists && s.hists[n].prefix.Some? {
      IgnoreSubsSame(s1.ribs, s.hists[n].prefix.value.avoid, ShouldIgnore(rs), t, k);
    }
  }

  lemma RibUpdatedKeeps(s: State, n: Prefix, best: nat, t: Time, now: Time)
    requires EngineInv(s, now)
    ensures EngineInv(RibUpdated(s, n, best, t), now)
  {
    var s' := RibUpdated(s, n, best, t);
    forall k, r | r in Rib(s'.ribs, k) && r.flags.suspO ensures FlaggedAs(Rib(s.ribs, k), r.path) {
      RibUpdatedSame(s, n, best, t, k);
      var j :| 0 <= j < |Rib(s'.ribs, k)| && Rib(s'.ribs, k)[j] == r;
      assert Rib(s.ribs, k)[j] in Rib(s.ribs, k);
    }
    forall k ensures FlagE(Rib(s'.ribs, k)) ==> FlagE(Rib(s.ribs, k)) {
      RibUpdatedSame(s, n, best, t, k);
    }
    assert s' == s.(ribs := s'.ribs);
    RibChangeKeeps(s, s'.ribs, now);
  }

  // ---------- Routes the engine is not told of ----------

  /** The RIB takes a route without a call of the engine: a route of the main table that replaces
      another, a new one of a route server client, any route of an internal peer. A replaced route
      keeps its flags, a new one has none. */
  function Bypass(s: State, m: News): State {
    var s1 := AddNode(s, m.node);
    var rs := Rib(s1.ribs, m.node);
    s1.(ribs := s1.ribs[m.node := PutRoute(rs, m, OldFlags(rs, m.peer))])
  }

  /** A route with SUSPICIOUS_O is replaced only by one whose origin the node's history knows. */
  ghost predicate OnRecord(s: State, m: News) {
    OldFlags(Rib(s.ribs, m.node), m.peer).suspO ==>
      m.node in s.hists && Knows(s.hists[m.node].origins, OriginAs(m.path))
  }

  /** The RIB after a bypass: only the replaced route or the new one differs, and it has the flags
      of the old one or none. */
  lemma BypassRoutes(rs: seq<Route>, m: News)
    ensures var old0 := OldFlags(rs, m.peer); var rs' := PutRoute(rs, m, old0);
      && (FlagE(rs') ==> FlagE(rs))
      && (forall r :: r in rs' ==> r in rs || (r.path == m.path && r.flags == old0))
      && (old0 != NO_FLAGS ==> exists r0 :: r0 in rs && r0.flags == old0)
      && exists r :: r in rs' && r.path == m.path && r.flags == old0
  {
    var i := FromPeer(rs, m.peer);
    var rs' := PutRoute(rs, m, OldFlags(rs, m.peer));
    var k := if i < |rs| then i else 0;
    assert rs'[k] in rs' && rs'[k].path == m.path;
    if i < |rs| {
      assert rs[i] in rs;
    }
    if FlagE(rs') {
      var j :| 0 <= j < |rs'| && rs'[j].flags.suspE;
      var j0 := if i < |rs| then j else j - 1;
      assert rs[j0].flags.suspE;
    }
  }

  lemma BypassEdges(s: State, m: News)
    requires EdgeInv(s)
    ensures EdgeInv(Bypass(s, m))
  {
    hide EdgeCount, PutRoute, OldFlags, FlagE;
    var s' := Bypass(s, m);
    BypassRoutes(Rib(s.ribs, m.node), m);
    forall k ensures EdgeOk(s', k) {
      assert EdgeOk(s, k);
    }
  }

  lemma BypassFlags(s: State, m: News)
    requires FlagsAccounted(s)
    ensures FlagsAccounted(Bypass(s, m)) <==> OnRecord(s, m)
  {
    hide OriginAs, PutRoute, OldFlags, Knows, PendingOn;
    var s' := Bypass(s, m);
    var rs := Rib(s.ribs, m.node);
    var f := OldFlags(rs, m.peer);
    BypassRoutes(rs, m);
    var r' :| r' in Rib(s'.ribs, m.node) && r'.path == m.path && r'.flags == f;
    if OnRecord(s, m) {
      if f.suspO {
        var r0 :| r0 in rs && r0.flags == f;
        assert PendingOn(s.queue, m.node);
      }
      forall k, r | r in Rib(s'.ribs, k) && r.flags.suspO
        ensures k in s'.hists && Knows(s'.hists[k].origins, OriginAs(r.path)) && PendingOn(s'.queue, k)
      {
        assert k != m.node ==> r in Rib(s.ribs, k);
        assert k == m.node && r !in rs ==> r.path == m.path && r.flags == f;
      }
    }
  }

  lemma BypassOrigins(s: State, m: News, t: Time)
    requires OriginInv(s, t)
    ensures OriginInv(Bypass(s, m), t) <==> OnRecord(s, m)
  {
    hide OriginAs, PutRoute, OldFlags, Knows, PendingOn, Backs, FlagsAccounted, OnRecord;
    BypassFlags(s, m);
    var s' := Bypass(s, m);
    if OnRecord(s, m) {
      AssembleOriginInv(s', t);
    }
  }

  /** Replacing a path without telling the engine keeps the invariant exactly when the route is not
      flagged or its new origin is on record. */
  lemma BypassExactly(s: State, m: News, now: Time)
    requires EngineInv(s, now)
    ensures EngineInv(Bypass(s, m), now) <==> OnRecord(s, m)
  {
    hide OriginInv, EdgeOk, PutRoute, OldFlags;
    BypassOrigins(s, m, now);
    BypassEdges(s, m);
    var s' := Bypass(s, m);
    forall k ensures TableOk(s') && Excess(s', k) == 0 {
      assert Excess(s, k) == 0;
      AddNodeLocks(s, m.node, k);
      LocksFrame(AddNode(s, m.node), s', k);
    }
    AddNodeLocks(s, m.node, []);
  }

  lemma BypassKeeps(s: State, m: News, now: Time)
    requires EngineInv(s, now) && OnRecord(s, m)
    ensures EngineInv(Bypass(s, m), now)
  {
    BypassExactly(s, m, now);
  }

  // ---------- Runs ----------

  datatype Event =
    | Announced(news: News, live: set<Edge>, at: Time)
    | Withdrawn(node: Prefix, index: nat)
    | Decided(node: Prefix, best: nat, at: Time)
    | Bypassed(news: News)

  /** The engine before its first update, nothing restored. */
  function Fresh(cfg: Config, t: Time): State {
    State(cfg, [], map[], map[], map[], [], 0, map[], map[], t)
  }

  /** One event, with the time of the last drain. An event that names no route changes nothing. */
  function Step(s: State, now: Time, e: Event): (State, Time)
    requires s.rqSize == |s.queue|
  {
    match e
    case Announced(m, live, t) => (Announce(s, m, live, t), t)
    case Withdrawn(n, i) => if i < |Rib(s.ribs, n)| then (Withdraw(s, n, i), now) else (s, now)
    case Decided(n, best, t) => (RibUpdated(s, n, best, t), now)
    case Bypassed(m) => (Bypass(s, m), now)
  }

  /** The clock does not go back, collection strands no entry, and a flagged route is only given a
      path behind the engine's back whose origin is on record. */
  ghost predicate Fair(s: State, now: Time, e: Event)
    requires s.rqSize == |s.queue|
  {
    && (e.Announced? ==> now <= e.at && CollectionSafe(s, e.news, e.at))
    && (e.Bypassed? ==> OnRecord(s, e.news))
  }

  /** s' is reached from s by a run of events. */
  ghost predicate Reaches(s: State, now: Time, es: seq<Event>, s': State, now': Time)
    decreases |es|
  {
    if es == [] then s' == s && now' == now
    else
      && s.rqSize == |s.queue|
      && Fair(s, now, es[0])
      && Reaches(Step(s, now, es[0]).0, Step(s, now, es[0]).1, es[1..], s', now')
  }

  lemma FreshInv(cfg: Config, t: Time)
    requires cfg.Sane()
    ensures EngineInv(Fresh(cfg, t), t)
  {
    var s := Fresh(cfg, t);
    assert forall k :: EdgeOk(s, k);
    assert forall k :: Excess(s, k) == 0;
  }

  lemma StepKeeps(s: State, now: Time, e: Event)
    requires EngineInv(s, now) && Fair(s, now, e)
    ensures var (s', now') := Step(s, now, e); EngineInv(s', now')
  {
    match e
    case Announced(m, live, t) => AnnounceKeeps(s, m, live, now, t);
    case Withdrawn(n, i) => if i < |Rib(s.ribs, n)| { WithdrawKeeps(s, n, i, now); }
    case Decided(n, best, t) => RibUpdatedKeeps(s, n, best, t, now);
    case Bypassed(m) => BypassKeeps(s, m, now);
  }

  /** Main result: the invariant holds in every state reached by any run. */
  lemma {:induction false} RunKeeps(s: State, now: Time, es: seq<Event>, s': State, now': Time)
    requires EngineInv(s, now) && Reaches(s, now, es, s', now')
    ensures EngineInv(s', now')
    decreases |es|
  {
    if es != [] {
      StepKeeps(s, now, es[0]);
      var (s1, now1) := Step(s, now, es[0]);
      RunKeeps(s1, now1, es[1..], s', now');
    }
  }

  /** A run can be continued. */
  lemma {:induction false} RunExtends(s: State, now: Time, es: seq<Event>, s1: State, now1: Time, e: Event)
    requires Reaches(s, now, es, s1, now1) && s1.rqSize == |s1.queue| && Fair(s1, now1, e)
    ensures var (s', now') := Step(s1, now1, e); Reaches(s, now, es + [e], s', now')
    decreases |es|
  {
    hide Step, Fair;
    var (s', now') := Step(s1, now1, e);
    if es == [] {
      assert Reaches(s', now', [], s', now');
      assert ([] + [e])[1..] == [] && es + [e] == [e] && [e][1..] == [];
    } else {
      var (s2, now2) := Step(s, now, es[0]);
      RunExtends(s2, now2, es[1..], s1, now1, e);
      assert (es + [e])[1..] == es[1..] + [e];
    }
  }
}
