/**
 The sub-prefix suspicions in every run: a node has an entry in the queue exactly while its prefix
 record is under suspicion, for the time of the record. This decides which ignored routes come back.
 */
module PgbgpPrefixes {
  import opened Common
  import opened PgbgpModel
  import opened PgbgpOrigins
  import opened PgbgpEdges
  import opened PgbgpLocks
  import opened PgbgpRuns
  import opened PgbgpVerdicts
  import opened PgbgpForgiveness
  import PgbgpStore

  function Pre(s: State, n: Prefix): Option<PrefixRec> {
    if n in s.hists then s.hists[n].prefix else None
  }

  /** Until when the prefix is under suspicion; 0 if it never was. */
  function SuspectedUntil(s: State, n: Prefix): Time {
    if Pre(s, n).Some? then Pre(s, n).value.ignoreUntil else 0
  }

  ghost predicate EntriesMatch(s: State) {
    forall e :: e in s.queue && e.PrefixEntry? ==> Pre(s, e.node).Some? && SuspectedUntil(s, e.node) == e.key
  }

  ghost predicate Queued(q: seq<Entry>, n: Prefix, key: Time) {
    exists m :: PrefixEntry(key, n, m) in q
  }

  ghost predicate RecordOk(s: State, n: Prefix, t: Time) {
    Pre(s, n).Some? ==>
      && Pre(s, n).value.lastSeen <= t
      && SuspectedUntil(s, n) <= Pre(s, n).value.lastSeen + s.cfg.subSus
      && (SuspectedUntil(s, n) > t ==> Queued(s.queue, n, SuspectedUntil(s, n)))
  }

  ghost predicate PrefixInv(s: State, t: Time) {
    EntriesMatch(s) && forall n :: RecordOk(s, n, t)
  }

  // ---------- What is left alone ----------

  /** The same record up to its notes. */
  predicate SamePre(s: State, s': State, n: Prefix) {
    && (Pre(s', n).Some? <==> Pre(s, n).Some?)
    && (Pre(s, n).Some? ==> Pre(s', n).value.lastSeen == Pre(s, n).value.lastSeen)
    && (Pre(s, n).Some? ==> Pre(s', n).value.ignoreUntil == Pre(s, n).value.ignoreUntil)
  }

  ghost predicate SamePrefixes(s: State, s': State) {
    && s'.cfg == s.cfg
    && (forall n :: SamePre(s, s', n))
    && (forall e: Entry :: e.PrefixEntry? ==> (e in s'.queue <==> e in s.queue))
  }

  lemma SameQueued(s: State, s': State, n: Prefix, key: Time)
    requires forall e: Entry :: e.PrefixEntry? ==> (e in s'.queue <==> e in s.queue)
    ensures Queued(s'.queue, n, key) <==> Queued(s.queue, n, key)
  {
    if m :| PrefixEntry(key, n, m) in s.queue { assert PrefixEntry(key, n, m) in s'.queue; }
    if m :| PrefixEntry(key, n, m) in s'.queue { assert PrefixEntry(key, n, m) in s.queue; }
  }

  lemma FramePrefixes(s: State, s': State, t: Time)
    requires PrefixInv(s, t) && SamePrefixes(s, s')
    ensures PrefixInv(s', t)
  {
    hide Pre, Queued;
    forall n ensures RecordOk(s', n, t) {
      assert RecordOk(s, n, t) && SamePre(s, s', n);
      if Pre(s, n).Some? { SameQueued(s, s', n, SuspectedUntil(s, n)); }
    }
    forall e | e in s'.queue && e.PrefixEntry?
      ensures Pre(s', e.node).Some? && SuspectedUntil(s', e.node) == e.key
    {
      assert e in s.queue && SamePre(s, s', e.node);
    }
  }

  lemma SameTrans(s: State, s1: State, s2: State)
    requires SamePrefixes(s, s1) && SamePrefixes(s1, s2)
    ensures SamePrefixes(s, s2)
  {
    hide Pre;
    forall n ensures SamePre(s, s2, n) {
      assert SamePre(s, s1, n) && SamePre(s1, s2, n);
    }
  }

  lemma SameHistories(s: State, s': State)
    requires s'.cfg == s.cfg && s'.hists == s.hists && s'.queue == s.queue
    ensures SamePrefixes(s, s')
  {
  }

  lemma LaterPrefixes(s: State, now: Time, t: Time)
    requires PrefixInv(s, now) && now <= t
    ensures PrefixInv(s, t)
  {
    forall n ensures RecordOk(s, n, t) {
      assert RecordOk(s, n, now);
    }
  }

  // ---------- Draining ----------

  lemma ReuseOthersSame(s: State, i: nat, t: Time)
    requires i < |s.queue| && !s.queue[i].PrefixEntry?
    ensures SamePrefixes(s, ReuseAt(s, i, t))
  {
    hide ForgiveEdge, NextExpiry, ForgiveOrigin, Bump;
    var s' := ReuseAt(s, i, t);
    forall e: Entry | e.PrefixEntry? ensures e in s'.queue <==> e in s.queue {
      ReuseAtOthers(s, i, t, e);
    }
  }

  lemma ReusePrefixRecords(s: State, n: Prefix, m: Prefix, t: Time, k: Prefix)
    ensures SamePre(s, ReusePrefix(s, n, m, t), k)
  {
    hide ClearSuspP, ClearIgnored, Expired, Unexpired, UnlockSubs, Bump;
  }

  /** A sub-prefix's own entry leaves the queue when its suspicion is over. */
  lemma ReusePrefixKeeps(s: State, i: nat, t: Time)
    requires PrefixInv(s, t) && i < |s.queue| && s.queue[i].PrefixEntry? && s.queue[i].key <= t
    ensures PrefixInv(ReuseAt(s, i, t), t)
  {
    hide ReusePrefix, Pre;
    var s1 := s.(queue := Remove(s.queue, i), rqSize := s.rqSize - 1);
    var s' := ReuseAt(s, i, t);
    forall k ensures SamePre(s, s', k) {
      ReusePrefixRecords(s1, s.queue[i].node, s.queue[i].super, t, k);
      SameHistsPre(s, s1, k);
    }
    forall n ensures RecordOk(s', n, t) {
      assert RecordOk(s, n, t) && SamePre(s, s', n);
      var key := SuspectedUntil(s, n);
      if Pre(s, n).Some? && key > t {
        var m :| PrefixEntry(key, n, m) in s.queue;
        ReuseAtOthers(s, i, t, PrefixEntry(key, n, m));
        assert PrefixEntry(key, n, m) in s'.queue;
      }
    }
    forall e | e in s'.queue && e.PrefixEntry?
      ensures Pre(s', e.node).Some? && SuspectedUntil(s', e.node) == e.key
    {
      ReuseAtOthers(s, i, t, e);
      assert SamePre(s, s', e.node);
    }
  }

  lemma SameHistsPre(s: State, s': State, k: Prefix)
    requires s'.hists == s.hists
    ensures Pre(s', k) == Pre(s, k)
  {
  }

  lemma {:induction false} DrainKeepsPrefixes(s: State, t: Time)
    requires PrefixInv(s, t) && s.rqSize == |s.queue|
    ensures PrefixInv(Drain(s, t), t)
    decreases Due(s.queue, t)
  {
    hide ReuseAt, PrefixInv;
    if s.rqSize > 0 {
      var i := MinIndex(s.queue);
      if t < s.queue[i].key {
        RotatedSame(s, i);
        FramePrefixes(s, s.(queue := Remove(s.queue, i) + [s.queue[i]]), t);
      } else {
        ReuseAtQueue(s, i, t);
        if s.queue[i].PrefixEntry? {
          ReusePrefixKeeps(s, i, t);
        } else {
          ReuseOthersSame(s, i, t);
          FramePrefixes(s, ReuseAt(s, i, t), t);
        }
        DrainKeepsPrefixes(ReuseAt(s, i, t), t);
      }
    }
  }

  lemma RotatedSame(s: State, i: nat)
    requires i < |s.queue|
    ensures SamePrefixes(s, s.(queue := Remove(s.queue, i) + [s.queue[i]]))
  {
    var q := Remove(s.queue, i) + [s.queue[i]];
    forall e: Entry ensures e in q <==> e in s.queue {
    }
  }

  // ---------- Detecting ----------

  lemma PreparedSame(s: State, m: News, t: Time)
    ensures SamePrefixes(s, Prepare(s, m, t).0)
  {
    hide FindSuper, TouchPeer, Bump;
  }

  lemma OriginUpdatedSame(s: State, n: Prefix, path: Path, t: Time, newPeer: bool)
    requires n in s.hists
    ensures SamePrefixes(s, UpdateOrigin(s, n, path, t, newPeer).0)
  {
    hide TouchOrigin, OriginAs, Bump;
  }

  lemma EdgeUpdatedSame(s: State, n: Prefix, path: Path, t: Time, newPeer: bool)
    requires n in s.hists
    ensures SamePrefixes(s, UpdateEdge(s, n, path, t, newPeer).0)
  {
    hide TouchEdges, PathEdges, Bump;
  }

  lemma BlamedSame(s: State, n: Prefix, m: Prefix, peerAs: AsNum, until: Time)
    ensures SamePrefixes(s, BlameSuper(s, n, m, peerAs, until))
  {
    hide SetSuspP, FirstAvoid, Bump;
  }

  lemma SuspectedPre(s: State, n: Prefix, m: Prefix, t: Time)
    requires n in s.hists
    ensures var s' := SuspectPrefix(s, n, m, t);
      && s'.cfg == s.cfg && s'.queue == s.queue + [PrefixEntry(t + s.cfg.subSus, n, m)]
      && (forall k :: k != n ==> Pre(s', k) == Pre(s, k))
      && Pre(s', n) == Some(PrefixOf(s.hists[n]).(ignoreUntil := t + s.cfg.subSus))
  {
    hide Bump;
  }

  lemma SeenPre(s: State, n: Prefix, t: Time)
    requires n in s.hists
    ensures var s' := SeePrefix(s, n, t);
      && s'.cfg == s.cfg && s'.queue == s.queue
      && (forall k :: k != n ==> Pre(s', k) == Pre(s, k))
      && Pre(s', n) == Some(PrefixOf(s.hists[n]).(lastSeen := t))
  {
  }

  lemma SameUntil(s: State, s': State, n: Prefix)
    requires n in s.hists && n in s'.hists && SamePre(s, s', n)
    ensures PrefixOf(s'.hists[n]).ignoreUntil == PrefixOf(s.hists[n]).ignoreUntil
  {
  }

  /** What the sub-prefix detector does to the record of its own node, and to the queue. */
  lemma PrefixUpdated(s: State, n: Prefix, super: Option<Prefix>, peerAs: AsNum, path: Path, t: Time, newPeer: bool)
    requires n in s.hists
    ensures var s' := UpdatePrefix(s, n, super, peerAs, path, t, newPeer).0;
      var begins := JudgePrefix(s, n, super, peerAs, path, t, newPeer) == Hijack(true);
      && s'.cfg == s.cfg && (begins ==> super.Some?)
      && (forall k :: k != n ==> SamePre(s, s', k))
      && Pre(s', n).Some? && Pre(s', n).value.lastSeen == t
      && SuspectedUntil(s', n) == (if begins then t + s.cfg.subSus else PrefixOf(s.hists[n]).ignoreUntil)
      && s'.queue == if begins then s.queue + [PrefixEntry(t + s.cfg.subSus, n, super.value)] else s.queue
  {
    hide JudgePrefix, BlameSuper, ShouldIgnore, SuspectPrefix, SeePrefix, Pre, PrefixOf;
    JudgeMeans(s, n, super, peerAs, path, t, newPeer);
    var v := JudgePrefix(s, n, super, peerAs, path, t, newPeer);
    if v.Hijack? && super.Some? {
      var s1 := if v.isNew then SuspectPrefix(s, n, super.value, t) else s;
      SuspectedPre(s, n, super.value, t);
      assert n in s1.hists && forall k :: k != n ==> Pre(s1, k) == Pre(s, k);
      var until := PrefixOf(s1.hists[n]).ignoreUntil;
      OwnRecord(s1, n);
      BlameEffects(s1, n, super.value, peerAs, until);
      var s2 := BlameSuper(s1, n, super.value, peerAs, until);
      BlamedSame(s1, n, super.value, peerAs, until);
      assert forall k :: SamePre(s1, s2, k);
      SameUntil(s1, s2, n);
      SeenPre(s2, n, t);
      forall k | k != n ensures SamePre(s, SeePrefix(s2, n, t), k) {
        assert Pre(s1, k) == Pre(s, k) && SamePre(s1, s2, k);
      }
    } else {
      SeenPre(s, n, t);
    }
    OwnRecord(s, n);
  }

  lemma UpdatePrefixKeeps(s: State, n: Prefix, super: Option<Prefix>, peerAs: AsNum, path: Path, t: Time, newPeer: bool)
    requires PrefixInv(s, t) && AllLater(s.queue, t) && n in s.hists
    ensures PrefixInv(UpdatePrefix(s, n, super, peerAs, path, t, newPeer).0, t)
  {
    hide UpdatePrefix, JudgePrefix, Pre;
    var s' := UpdatePrefix(s, n, super, peerAs, path, t, newPeer).0;
    var v := JudgePrefix(s, n, super, peerAs, path, t, newPeer);
    PrefixUpdated(s, n, super, peerAs, path, t, newPeer);
    JudgeMeans(s, n, super, peerAs, path, t, newPeer);
    OwnRecord(s, n);
    forall e: Entry | e in s.queue ensures e in s'.queue {
    }
    forall k ensures RecordOk(s', k, t) {
      assert RecordOk(s, k, t);
      if k != n {
        assert SamePre(s, s', k);
        if Pre(s, k).Some? && SuspectedUntil(s, k) > t {
          var m :| PrefixEntry(SuspectedUntil(s, k), k, m) in s.queue;
          assert PrefixEntry(SuspectedUntil(s, k), k, m) in s'.queue;
        }
      } else if v == Hijack(true) {
        assert s'.queue[|s.queue|] == PrefixEntry(t + s.cfg.subSus, n, super.value);
      } else if SuspectedUntil(s', n) > t {
        var m :| PrefixEntry(SuspectedUntil(s, n), n, m) in s.queue;
        assert PrefixEntry(SuspectedUntil(s', n), n, m) in s'.queue;
      }
    }
    forall e | e in s'.queue && e.PrefixEntry?
      ensures Pre(s', e.node).Some? && SuspectedUntil(s', e.node) == e.key
    {
      if e in s.queue {
        assert e.key > t;
        assert e.node != n ==> SamePre(s, s', e.node);
      } else {
        assert e == PrefixEntry(t + s.cfg.subSus, n, super.value);
      }
    }
  }

  lemma OwnRecord(s: State, n: Prefix)
    requires n in s.hists
    ensures SuspectedUntil(s, n) == PrefixOf(s.hists[n]).ignoreUntil
    ensures Pre(s, n).Some? ==> PrefixOf(s.hists[n]) == Pre(s, n).value
  {
  }

  lemma DetectKeepsPrefixes(s: State, m: News, t: Time, flags: Flags)
    requires PrefixInv(s, t) && s.cfg.Sane() && s.rqSize == |s.queue| && AllLater(s.queue, t)
    ensures PrefixInv(Detect(s, m, t, flags).0, t)
  {
    hide Prepare, UpdateOrigin, UpdatePrefix, UpdateEdge, PrefixInv, Grown, AllLater, SamePrefixes;
    var (s1, super, newPeer) := Prepare(s, m, t);
    PreparedSame(s, m, t);
    PrepareGrown(s, m, t);
    FramePrefixes(s, s1, t);
    var s2 := UpdateOrigin(s1, m.node, m.path, t, newPeer).0;
    OriginUpdatedSame(s1, m.node, m.path, t, newPeer);
    UpdateOriginQueue(s, s1, m.node, m.path, t, newPeer);
    FramePrefixes(s1, s2, t);
    GrownLater(s, s2, t);
    var s3 := UpdatePrefix(s2, m.node, super, m.peerAs, m.path, t, newPeer).0;
    UpdatePrefixKeeps(s2, m.node, super, m.peerAs, m.path, t, newPeer);
    var s4 := UpdateEdge(s3, m.node, m.path, t, newPeer).0;
    EdgeUpdatedSame(s3, m.node, m.path, t, newPeer);
    FramePrefixes(s3, s4, t);
    var s5 := Relock(s4, super, -1);
    SameHistories(s4, s5);
    FramePrefixes(s4, s5, t);
  }

  lemma GrownLater(base: State, s: State, t: Time)
    requires Grown(base, s, t)
    ensures AllLater(s.queue, t)
  {
  }

  // ---------- Collecting ----------

  /** A record under suspicion is not collected, and keeps its deadline. */
  lemma GcPrefixSurvives(cfg: Config, rs: seq<Route>, lastgc: Time, pre: PrefixRec, t: Time)
    requires cfg.Sane() && pre.lastSeen <= t && pre.ignoreUntil <= pre.lastSeen + cfg.subSus
    ensures var r := GcPrefix(cfg, rs, lastgc, pre, t);
      && (pre.ignoreUntil > t ==> r.Some? && r.value.ignoreUntil == pre.ignoreUntil)
      && (r.Some? ==> pre.lastSeen <= r.value.lastSeen <= t && r.value.ignoreUntil <= r.value.lastSeen + cfg.subSus)
      && (r.Some? && r.value.ignoreUntil > t ==> r.value.ignoreUntil == pre.ignoreUntil)
  {
  }

  lemma GcNodePre(s: State, n: Prefix, t: Time, k: Prefix)
    ensures var s' := GcNode(s, n, t);
      Pre(s', k) ==
        if k == n && Pre(s, k).Some? then GcPrefix(s.cfg, Rib(s.ribs, n), s.lastgc, Pre(s, k).value, t) else Pre(s, k)
  {
    hide GcOrigins, GcPrefix, UnlockSubs, Bump, DroppedAvoids;
  }

  lemma GcNodeKeepsPrefixes(s: State, n: Prefix, t: Time)
    requires PrefixInv(s, t) && s.cfg.Sane() && AllLater(s.queue, t)
    ensures var s' := GcNode(s, n, t);
      PrefixInv(s', t) && s'.cfg == s.cfg && s'.queue == s.queue
  {
    hide GcNode, GcPrefix, Pre;
    var s' := GcNode(s, n, t);
    GcNodeQueue(s, n, t);
    forall k ensures RecordOk(s', k, t) {
      assert RecordOk(s, k, t);
      GcNodePre(s, n, t, k);
      if Pre(s, k).Some? {
        GcPrefixSurvives(s.cfg, Rib(s.ribs, n), s.lastgc, Pre(s, k).value, t);
      }
    }
    forall e | e in s'.queue && e.PrefixEntry?
      ensures Pre(s', e.node).Some? && SuspectedUntil(s', e.node) == e.key
    {
      assert e in s.queue && RecordOk(s, e.node, t);
      GcNodePre(s, n, t, e.node);
      GcPrefixSurvives(s.cfg, Rib(s.ribs, n), s.lastgc, Pre(s, e.node).value, t);
    }
  }

  lemma GcNodeQueue(s: State, n: Prefix, t: Time)
    ensures GcNode(s, n, t).cfg == s.cfg && GcNode(s, n, t).queue == s.queue
  {
  }

  lemma {:induction false} GcNodesKeepPrefixes(s: State, ns: seq<Prefix>, t: Time)
    requires PrefixInv(s, t) && s.cfg.Sane() && AllLater(s.queue, t)
    ensures PrefixInv(GcNodes(s, ns, t), t)
    decreases |ns|
  {
    hide GcNode, PrefixInv;
    if ns != [] {
      GcNodeKeepsPrefixes(s, ns[0], t);
      GcNodesKeepPrefixes(GcNode(s, ns[0], t), ns[1..], t);
    }
  }

  lemma GcKeepsPrefixes(s: State, live: set<Edge>, t: Time)
    requires PrefixInv(s, t) && s.cfg.Sane() && AllLater(s.queue, t)
    ensures PrefixInv(Gc(s, live, t), t)
  {
    hide PrefixInv, GcNodes, GcEdges;
    GcNodesKeepPrefixes(s, s.order, t);
    SameHistories(GcNodes(s, s.order, t), Gc(s, live, t));
    FramePrefixes(GcNodes(s, s.order, t), Gc(s, live, t), t);
  }

  // ---------- Runs ----------

  lemma BeforeGcKeepsPrefixes(s: State, m: News, now: Time, t: Time)
    requires EngineInv(s, now) && PrefixInv(s, now) && now <= t
    ensures var s1 := BeforeGc(s, m, t).0; PrefixInv(s1, t) && s1.cfg.Sane() && AllLater(s1.queue, t)
  {
    hide Drain, Detect, OriginInv, PrefixInv, AllLater, EdgeInv, LockInv;
    var (s1, flags) := BeforeGc(s, m, t);
    BeforeGcKeeps(s, m, now, t);
    LaterPrefixes(s, now, t);
    var a := AddNode(s, m.node);
    SameHistories(s, a);
    FramePrefixes(s, a, t);
    DrainKeepsPrefixes(a, t);
    LaterClock(s, now, t);
    AddNodeKeeps(s, m.node, t);
    DrainKeeps(a, t);
    DrainFrame(a, t);
    var d := Drain(a, t);
    DetectKeepsPrefixes(d, m, t, OldFlags(Rib(d.ribs, m.node), m.peer));
  }

  lemma AnnounceKeepsPrefixes(s: State, m: News, live: set<Edge>, now: Time, t: Time)
    requires EngineInv(s, now) && PrefixInv(s, now) && now <= t
    ensures PrefixInv(Announce(s, m, live, t), t)
  {
    hide BeforeGc, Gc, PrefixInv, AllLater, OriginInv, EdgeInv, LockInv, PutRoute;
    var (s1, flags) := BeforeGc(s, m, t);
    BeforeGcKeepsPrefixes(s, m, now, t);
    if GcDue(s1, t) {
      GcKeepsPrefixes(s1, live, t);
    }
    var s2 := if GcDue(s1, t) then Gc(s1, live, t) else s1;
    SameHistories(s2, Announce(s, m, live, t));
    FramePrefixes(s2, Announce(s, m, live, t), t);
  }

  lemma StepKeepsPrefixes(s: State, now: Time, e: Event)
    requires EngineInv(s, now) && PrefixInv(s, now) && Fair(s, now, e)
    ensures var (s', now') := Step(s, now, e); PrefixInv(s', now')
  {
    hide Announce, PrefixInv, OriginInv, EdgeInv, LockInv, IgnoreSubs, Mark, PutRoute, ShouldIgnore;
    match e
    case Announced(m, live, t) => AnnounceKeepsPrefixes(s, m, live, now, t);
    case _ =>
      var s' := Step(s, now, e).0;
      SameHistories(s, s');
      FramePrefixes(s, s', now);
  }

  lemma FreshPrefixes(cfg: Config, t: Time)
    ensures PrefixInv(Fresh(cfg, t), t)
  {
  }

  /** In every state a run reaches, sub-prefix entries and suspected records match. */
  lemma {:induction false} RunKeepsPrefixes(s: State, now: Time, es: seq<Event>, s': State, now': Time)
    requires EngineInv(s, now) && PrefixInv(s, now) && Reaches(s, now, es, s', now')
    ensures PrefixInv(s', now')
    decreases |es|
  {
    hide PrefixInv, EngineInv, Step;
    if es != [] {
      StepKeeps(s, now, es[0]);
      StepKeepsPrefixes(s, now, es[0]);
      var (s1, now1) := Step(s, now, es[0]);
      RunKeepsPrefixes(s1, now1, es[1..], s', now');
    }
  }

  /** A restored engine starts within the invariant. */
  lemma RestoredPrefixes(s: State, ps: seq<nat>, es: seq<Edge>, now: Time, t: Time)
    requires EngineInv(s, now) && PrefixInv(s, now) && now <= t
    requires PgbgpStore.Lists(ps, s.peers.Keys) && PgbgpStore.Lists(es, s.edges.Keys)
    ensures PrefixInv(PgbgpStore.Restore(s.cfg, PgbgpStore.Store(s, ps, es, t), t), t)
  {
    hide PgbgpStore.Restore, PgbgpStore.Store, OriginInv, EdgeInv, Queued;
    PgbgpStore.RestoreRebuilds(s, ps, es, t);
    forall n ensures RecordOk(PgbgpStore.Restore(s.cfg, PgbgpStore.Store(s, ps, es, t), t), n, t) {
      assert RecordOk(s, n, now);
    }
  }

  // ---------- What follows ----------

  /** Main result: in every state a run reaches, a node has a sub-prefix entry exactly while its
      prefix is under suspicion, and the entry falls due when the suspicion ends. */
  lemma SuspectedIffQueued(s: State, now: Time, n: Prefix, u: Time)
    requires AllLater(s.queue, now) && PrefixInv(s, now)
    ensures DueNode(s.queue, n, u) <==> now < SuspectedUntil(s, n) <= u
  {
    hide Pre;
    assert RecordOk(s, n, now);
    var key := SuspectedUntil(s, n);
    if now < key {
      NeverSuspected(s, n);
      var m :| PrefixEntry(key, n, m) in s.queue;
      assert ForNode(PrefixEntry(key, n, m), n);
    }
  }

  lemma NeverSuspected(s: State, n: Prefix)
    requires SuspectedUntil(s, n) > 0
    ensures Pre(s, n).Some?
  {
  }

  /** Main result: what a route selection for n and any drain after it do to IGNORED_P of a route of k.
      If the own suspicion of k is over, nothing in the queue takes back what a note that outlived
      it has set. */
  lemma IgnoredAfterDrain(s: State, now: Time, n: Prefix, best: nat, t: Time, u: Time, k: Prefix, j: nat)
    requires EngineInv(s, now) && PrefixInv(s, now) && j < |Rib(s.ribs, k)|
    ensures var s1 := RibUpdated(s, n, best, t); var rs' := Rib(Drain(s1, u).ribs, k);
      var usable := best < |Rib(s.ribs, n)| && !Rib(s.ribs, n)[best].flags.suspP;
      var chosen := if NotedAt(s, n, k, t) then usable else Rib(s.ribs, k)[j].flags.ignP;
      |rs'| == |Rib(s.ribs, k)| && (rs'[j].flags.ignP <==> chosen && !(now < SuspectedUntil(s, k) <= u))
  {
    hide Drain, RibUpdated, PrefixInv, NotedAt, SuspectedUntil, OriginInv, EdgeInv, LockInv, DueNode;
    var s1 := RibUpdated(s, n, best, t);
    SelectionLeaves(s, n, best, t);
    SelectionIgnores(s, n, best, t, k, j);
    DrainRestores(s1, u, k, j);
    SuspectedIffQueued(s, now, k, u);
  }

  lemma SelectionLeaves(s: State, n: Prefix, best: nat, t: Time)
    ensures var s1 := RibUpdated(s, n, best, t); s1.queue == s.queue && s1.rqSize == s.rqSize && s1.hists == s.hists
  {
  }
}
