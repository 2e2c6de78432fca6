/**
 The engine as the program runs it: one object whose fields are updated in place, list by list
 and route by route. Each method is proved to perform a transition of PgbgpModel.
 */
module PgbgpEngine {
  import opened Common
  import opened PgbgpModel
  import M = PgbgpModel
  import opened PgbgpOrigins
  import opened PgbgpEdges
  import opened PgbgpLocks
  import opened PgbgpCollection
  import opened PgbgpRuns
  import opened PgbgpVerdicts
  import PgbgpStore

  method FindOrigin(os: seq<Origin>, a: AsNum) returns (i: nat)
    ensures i == IndexOf(os, a)
  {
    i := 0;
    while i < |os| && os[i].asn != a
      invariant i <= |os| && IndexOf(os, a) == i + IndexOf(os[i..], a)
    {
      i := i + 1;
    }
  }

  method FindFrom(rs: seq<Route>, a: AsNum) returns (i: nat)
    ensures i == FirstFrom(rs, a)
  {
    i := 0;
    while i < |rs| && rs[i].peerAs != a
      invariant i <= |rs| && FirstFrom(rs, a) == i + FirstFrom(rs[i..], a)
    {
      i := i + 1;
    }
  }

  method FindAvoid(av: seq<Avoid>, a: AsNum) returns (i: nat)
    ensures i == FirstAvoid(av, a)
  {
    i := 0;
    while i < |av| && av[i].peerAs != a
      invariant i <= |av| && FirstAvoid(av, a) == i + FirstAvoid(av[i..], a)
    {
      i := i + 1;
    }
  }

  /** The AS before the rest of a walk, once there is one. */
  function Lead(isFirst: bool, last: AsNum): seq<AsNum> {
    if isFirst then [] else [last]
  }

  lemma PairsStep(isFirst: bool, last: AsNum, x: AsNum, rest: seq<AsNum>)
    ensures Pairs(Lead(isFirst, last) + ([x] + rest))
         == (if isFirst then [] else [Edge(last, x)]) + Pairs([x] + rest)
  {
    if isFirst {
      assert [] + ([x] + rest) == [x] + rest;
    } else {
      assert ([last] + ([x] + rest))[1..] == [x] + rest;
    }
  }

  /** Walks a path segment by segment, pairing each AS with the one before it. */
  method ConsecutivePairs(segs: seq<Segment>) returns (es: seq<Edge>)
    ensures es == PathEdges(segs)
  {
    hide Pairs;
    es := [];
    var isFirst, last := true, 0;
    var i := 0;
    assert segs[0..] == segs && Lead(true, 0) + Flatten(segs) == Flatten(segs);
    while i < |segs|
      invariant i <= |segs|
      invariant PathEdges(segs) == es + Pairs(Lead(isFirst, last) + Flatten(segs[i..]))
    {
      var ases := segs[i].ases;
      ghost var tail := Flatten(segs[i + 1..]);
      assert segs[i..][1..] == segs[i + 1..];
      assert ases[0..] == ases;
      var j := 0;
      while j < |ases|
        invariant j <= |ases|
        invariant PathEdges(segs) == es + Pairs(Lead(isFirst, last) + (ases[j..] + tail))
      {
        ghost var rest := ases[j + 1..] + tail;
        assert ases[j..] + tail == [ases[j]] + rest;
        PairsStep(isFirst, last, ases[j], rest);
        ghost var before := es;
        if !isFirst {
          es := es + [Edge(last, ases[j])];
        }
        assert before + ((if isFirst then [] else [Edge(last, ases[j])]) + Pairs([ases[j]] + rest))
            == es + Pairs([ases[j]] + rest);
        isFirst, last := false, ases[j];
        j := j + 1;
      }
      assert ases[j..] + tail == tail;
      i := i + 1;
    }
    NoPairs(isFirst, last);
    assert es + [] == es;
  }

  lemma NoPairs(isFirst: bool, last: AsNum)
    ensures Pairs(Lead(isFirst, last) + Flatten([])) == []
  {
  }

  lemma ExpiredStep(av: seq<Avoid>, i: nat, t: Time)
    requires i < |av|
    ensures Expired(av[i..], t) == if av[i].until <= t then [av[i]] + Expired(av[i + 1..], t) else Expired(av[i + 1..], t)
    ensures Unexpired(av[i..], t) == if av[i].until <= t then Unexpired(av[i + 1..], t) else [av[i]] + Unexpired(av[i + 1..], t)
  {
    assert av[i..][1..] == av[i + 1..];
  }

  lemma DropStep(rs: seq<Route>, locks: map<Prefix, int>, a: Avoid, rest: seq<Avoid>)
    ensures ClearSuspP(rs, [a] + rest) == ClearSuspP(SetSuspP(rs, a.peerAs, false), rest)
    ensures UnlockSubs(locks, [a] + rest) == UnlockSubs(Bump(locks, a.sub, -1), rest)
  {
  }

  lemma DropNothing(rs: seq<Route>, locks: map<Prefix, int>, t: Time)
    ensures Expired([], t) == [] && Unexpired([], t) == []
    ensures ClearSuspP(rs, []) == rs && UnlockSubs(locks, []) == locks
  {
  }

  /** Unlinks the expired notes of a super-prefix one by one, clearing a flag and a lock for each. */
  method DropExpired(av: seq<Avoid>, rs0: seq<Route>, locks0: map<Prefix, int>, t: Time)
    returns (kept: seq<Avoid>, rs: seq<Route>, locks: map<Prefix, int>)
    ensures kept == Unexpired(av, t)
    ensures rs == ClearSuspP(rs0, Expired(av, t)) && locks == UnlockSubs(locks0, Expired(av, t))
  {
    hide Expired, Unexpired, ClearSuspP, UnlockSubs;
    kept, rs, locks := [], rs0, locks0;
    var i := 0;
    assert av[0..] == av;
    while i < |av|
      invariant i <= |av|
      invariant Unexpired(av, t) == kept + Unexpired(av[i..], t)
      invariant ClearSuspP(rs0, Expired(av, t)) == ClearSuspP(rs, Expired(av[i..], t))
      invariant UnlockSubs(locks0, Expired(av, t)) == UnlockSubs(locks, Expired(av[i..], t))
    {
      ExpiredStep(av, i, t);
      if av[i].until <= t {
        DropStep(rs, locks, av[i], Expired(av[i + 1..], t));
        ghost var before := rs;
        var k := FindFrom(rs, av[i].peerAs);
        if k < |rs| {
          rs := rs[k := rs[k].(flags := rs[k].flags.(suspP := false))];
        }
        assert rs == SetSuspP(before, av[i].peerAs, false);
        locks := Bump(locks, av[i].sub, -1);
      } else {
        kept := kept + [av[i]];
      }
      i := i + 1;
    }
    assert av[i..] == [];
    DropNothing(rs, locks, t);
  }

  class Engine {
    const cfg: Config
    var order: seq<Prefix>
    var hists: map<Prefix, Hist>
    var ribs: map<Prefix, seq<Route>>
    var locks: map<Prefix, int>
    var queue: seq<Entry>
    var rqSize: int
    var edges: map<Edge, EdgeRec>
    var peers: map<nat, PeerRec>
    var lastgc: Time

    ghost function St(): State
      reads this
    {
      State(cfg, order, hists, ribs, locks, queue, rqSize, edges, peers, lastgc)
    }

    constructor (cfg: Config, t: Time)
      ensures St() == Fresh(cfg, t)
    {
      this.cfg := cfg;
      order, hists, ribs, locks := [], map[], map[], map[];
      queue, rqSize, edges, peers, lastgc := [], 0, map[], map[], t;
    }

    // ---------- Reuse ----------

    /** The found-or-abort assertion of the source is the `assert` in the loop. */
    method ReuseOrigin(n: Prefix, t: Time)
      requires n in hists
      requires forall r :: r in Rib(ribs, n) && r.flags.suspO ==> Knows(hists[n].origins, OriginAs(r.path))
      modifies this
      ensures St() == M.ReuseOrigin(old(St()), n, t)
    {
      var os := hists[n].origins;
      ghost var rs0 := Rib(ribs, n);
      var rs := Rib(ribs, n);
      for j := 0 to |rs|
        invariant |rs| == |rs0| && St() == old(St())
        invariant forall i :: 0 <= i < j ==> rs[i] == ForgiveOrigin(rs0[i], os, t)
        invariant forall i :: j <= i < |rs| ==> rs[i] == rs0[i]
      {
        if rs[j].flags.suspO {
          var i := FindOrigin(os, OriginAs(rs[j].path));
          assert rs0[j] in rs0;
          assert i < |os|;
          if os[i].depref <= t {
            rs := rs[j := rs[j].(flags := rs[j].flags.(suspO := false))];
          }
        }
      }
      assert rs == Rib(M.ReuseOrigin(old(St()), n, t).ribs, n);
      ribs := ribs[n := rs];
      locks := Bump(locks, n, -1);
    }

    method ForgiveSuper(m: Prefix, t: Time)
      modifies this
      ensures St() == M.ForgiveSuper(old(St()), m, t)
    {
      if m in hists && hists[m].prefix.Some? {
        var sp := hists[m].prefix.value;
        var kept, rs, newLocks := DropExpired(sp.avoid, Rib(ribs, m), locks, t);
        hists := hists[m := hists[m].(prefix := Some(sp.(avoid := kept)))];
        ribs := ribs[m := rs];
        locks := newLocks;
      }
    }

    method ReusePrefix(n: Prefix, m: Prefix, t: Time)
      modifies this
      ensures St() == M.ReusePrefix(old(St()), n, m, t)
    {
      ghost var rs0 := Rib(ribs, n);
      var rs := Rib(ribs, n);
      for j := 0 to |rs|
        invariant |rs| == |rs0|
        invariant forall i :: 0 <= i < j ==> rs[i] == rs0[i].(flags := rs0[i].flags.(ignP := false))
        invariant forall i :: j <= i < |rs| ==> rs[i] == rs0[i]
      {
        rs := rs[j := rs[j].(flags := rs[j].flags.(ignP := false))];
      }
      assert rs == ClearIgnored(rs0);
      ribs := ribs[n := rs];
      ForgiveSuper(m, t);
      locks := Bump(Bump(locks, n, -1), m, -1);
    }

    method Enqueue(e: Entry)
      modifies `queue, `rqSize
      ensures queue == old(queue) + [e] && rqSize == old(rqSize) + 1
    {
      queue := queue + [e];
      rqSize := rqSize + 1;
    }

    /** The latest deadline among the pairs of a path that are still suspect. */
    method PathExpiry(path: Path, t: Time) returns (x: Time)
      ensures x == LatestExpiry(edges, PathEdges(path), t)
    {
      var es := ConsecutivePairs(path);
      x := 0;
      var i := 0;
      while i < |es|
        invariant i <= |es| && Max(x, LatestExpiry(edges, es[i..], t)) == LatestExpiry(edges, es, t)
      {
        assert es[i..][1..] == es[i + 1..];
        if es[i] in edges && edges[es[i]].depref > t && edges[es[i]].depref > x {
          x := edges[es[i]].depref;
        }
        i := i + 1;
      }
    }

    /** Unflags the routes without a suspect pair, and finds when the next one can be unflagged. */
    method Reexamine(rs0: seq<Route>, t: Time) returns (rs: seq<Route>, next: Time)
      ensures |rs| == |rs0| && forall i :: 0 <= i < |rs| ==> rs[i] == ForgiveEdge(edges, rs0[i], t)
      ensures next == NextExpiry(edges, rs0, t)
    {
      hide LatestExpiry, PathEdges;
      rs, next := rs0, 0;
      var j := 0;
      while j < |rs|
        invariant |rs| == |rs0| && j <= |rs|
        invariant forall i :: 0 <= i < j ==> rs[i] == ForgiveEdge(edges, rs0[i], t)
        invariant forall i :: j <= i < |rs| ==> rs[i] == rs0[i]
        invariant Sooner(next, NextExpiry(edges, rs0[j..], t)) == NextExpiry(edges, rs0, t)
      {
        assert rs0[j..][1..] == rs0[j + 1..];
        var x := PathExpiry(rs[j].path, t);
        if x != 0 {
          if next == 0 || x < next {
            next := x;
          }
        } else if rs[j].flags.suspE {
          rs := rs[j := rs[j].(flags := rs[j].flags.(suspE := false))];
        }
        j := j + 1;
      }
    }

    method ReuseEdge(n: Prefix, t: Time)
      requires n in hists
      modifies this
      ensures St() == M.ReuseEdge(old(St()), n, t)
    {
      hide NextExpiry, ForgiveEdge;
      var rs, next := Reexamine(Rib(ribs, n), t);
      assert rs == Rib(M.ReuseEdge(St(), n, t).ribs, n);
      ribs := ribs[n := rs];
      if next != 0 {
        Enqueue(EdgeEntry(next, n));
        hists := hists[n := hists[n].(edgePending := true)];
      } else {
        hists := hists[n := hists[n].(edgePending := false)];
        locks := Bump(locks, n, -1);
      }
    }

    method Handle(e: Entry, t: Time)
      requires Handleable(St(), e)
      modifies this
      ensures St() == Dispatch(old(St()), e, t)
    {
      hide M.ReuseOrigin, M.ReusePrefix, M.ReuseEdge;
      match e
      case OriginEntry(_, n, _) => ReuseOrigin(n, t);
      case PrefixEntry(_, n, m) => ReusePrefix(n, m, t);
      case EdgeEntry(_, n) => ReuseEdge(n, t);
    }

    /** The least entry leaves the queue, is handled if due, and goes back otherwise. */
    method Drain(t: Time)
      requires DrainInv(St(), t)
      modifies this
      ensures St() == M.Drain(old(St()), t)
      ensures DrainInv(St(), t) && AllLater(queue, t)
    {
      hide Dispatch, Handleable, OriginInv, EdgeInv, LockInv;
      DrainKeeps(St(), t);
      while rqSize > 0
        invariant DrainInv(St(), t)
        invariant M.Drain(St(), t) == M.Drain(old(St()), t)
        decreases Due(queue, t)
      {
        ghost var s := St();
        var i := MinIndex(queue);
        var e := queue[i];
        queue := Remove(queue, i);
        rqSize := rqSize - 1;
        if t < e.key {
          Enqueue(e);
          PutBackKeeps(s, i, t);
          assert St() == M.Drain(s, t);
          return;
        }
        ReuseAtQueue(s, i, t);
        ReuseAtKeeps(s, i, t);
        ReuseAsserts(s, e, t);
        Handle(e, t);
        assert St() == ReuseAt(s, i, t);
      }
    }

    // ---------- Detection ----------

    method UpdatePeer(peer: nat, t: Time) returns (newPeer: bool)
      modifies `peers
      ensures (peers, newPeer) == TouchPeer(old(peers), peer, t)
      ensures newPeer <==> InGrace(old(peers), peer, t) || AwayTooLong(old(peers), peer, t)
    {
      var pr := if peer in peers then peers[peer] else PeerRec(0, 0);
      if pr.depref > t {
        newPeer := true;
      } else if pr.lastSeen + PEER_HIST > t {
        newPeer := false;
      } else {
        pr := pr.(depref := t + PEER_GRACE);
        newPeer := true;
      }
      peers := peers[peer := pr.(lastSeen := t)];
    }

    method UpdateOrigin(n: Prefix, path: Path, t: Time, newPeer: bool) returns (flag: bool)
      requires n in hists
      modifies this
      ensures (St(), flag) == M.UpdateOrigin(old(St()), n, path, t, newPeer)
    {
      var a := OriginAs(path);
      var os := hists[n].origins;
      var i := FindOrigin(os, a);
      if i == |os| {
        os := [Origin(a, 0, 0)] + os;
        i := 0;
      }
      var o := os[i];
      flag := false;
      if i < |os| - 1 {
        if o.depref > t {
          flag := true;
        } else if o.lastSeen + cfg.originHist <= t && !newPeer {
          o := o.(depref := t + cfg.originSus);
          locks := Bump(locks, n, 1);
          Enqueue(OriginEntry(o.depref, n, a));
          flag := true;
        }
      }
      os := os[i := o.(lastSeen := t)];
      hists := hists[n := hists[n].(origins := os)];
    }

    /** Notes the neighbour on the super-prefix, or pushes its deadline back. */
    method NoteAvoid(m: Prefix, peerAs: AsNum, until: Time, n: Prefix)
      modifies this
      ensures St() == M.NoteAvoid(old(St()), m, peerAs, until, n)
    {
      if m in hists && hists[m].prefix.Some? {
        var sp := hists[m].prefix.value;
        var i := FindAvoid(sp.avoid, peerAs);
        if i < |sp.avoid| {
          if sp.avoid[i].until < until {
            sp := sp.(avoid := sp.avoid[i := sp.avoid[i].(until := until)]);
          }
          assert sp.avoid == hists[m].prefix.value.avoid[i := sp.avoid[i]];
        } else {
          sp := sp.(avoid := [Avoid(peerAs, until, n)] + sp.avoid);
          locks := Bump(locks, n, 1);
        }
        hists := hists[m := hists[m].(prefix := Some(sp))];
      }
    }

    method IsAvoided(av: seq<Avoid>, a: AsNum, t: Time) returns (found: bool)
      ensures found == Avoided(av, a, t)
    {
      found := false;
      for i := 0 to |av|
        invariant !exists k :: 0 <= k < i && av[k].peerAs == a && av[k].until > t
      {
        if av[i].peerAs == a && av[i].until > t {
          return true;
        }
      }
    }

    method FindSelected(rs: seq<Route>) returns (i: nat)
      ensures i == Selected(rs)
    {
      i := 0;
      while i < |rs| && !rs[i].selected
        invariant i <= |rs| && Selected(rs) == i + Selected(rs[i..])
      {
        i := i + 1;
      }
    }

    /** Decides whether the announced prefix is a suspicious sub-prefix. */
    method Weigh(n: Prefix, super: Option<Prefix>, peerAs: AsNum, path: Path, t: Time, newPeer: bool)
      returns (v: PrefixVerdict)
      requires n in hists
      ensures v == JudgePrefix(St(), n, super, peerAs, path, t, newPeer)
    {
      var pre := PrefixOf(hists[n]);
      if pre.ignoreUntil > t {
        return Hijack(false);
      }
      var avoid := IsAvoided(pre.avoid, peerAs, t);
      if avoid {
        return AvoidPeer;
      }
      if pre.lastSeen + cfg.prefixHist > t || newPeer || super.None? {
        return Trusted;
      }
      var rs := Rib(ribs, super.value);
      var i := FindFrom(rs, peerAs);
      if i < |rs| && !rs[i].flags.Anomalous() && PathIsPrefix(rs[i].path, path) {
        return Trusted;
      }
      v := Hijack(true);
    }

    method UpdatePrefix(n: Prefix, super: Option<Prefix>, peerAs: AsNum, path: Path, t: Time, newPeer: bool)
      returns (avoid: bool, ignore: bool)
      requires n in hists
      modifies this
      ensures (St(), avoid, ignore) == M.UpdatePrefix(old(St()), n, super, peerAs, path, t, newPeer)
    {
      avoid, ignore := false, false;
      var v := Weigh(n, super, peerAs, path, t, newPeer);
      if v.AvoidPeer? {
        avoid := true;
      } else if v.Hijack? && super.Some? {
        var m := super.value;
        if v.isNew {
          Suspect(n, m, t);
        }
        Blame(n, m, peerAs, PrefixOf(hists[n]).ignoreUntil);
        var rs := Rib(ribs, m);
        var best := FindSelected(rs);
        ignore := best < |rs| && !rs[best].flags.suspP;
      }
      hists := hists[n := hists[n].(prefix := Some(PrefixOf(hists[n]).(lastSeen := t)))];
    }

    method Suspect(n: Prefix, m: Prefix, t: Time)
      requires n in hists
      modifies this
      ensures St() == SuspectPrefix(old(St()), n, m, t)
    {
      var pre := PrefixOf(hists[n]).(ignoreUntil := t + cfg.subSus);
      hists := hists[n := hists[n].(prefix := Some(pre))];
      locks := Bump(locks, n, 1);
      locks := Bump(locks, m, 1);
      Enqueue(PrefixEntry(pre.ignoreUntil, n, m));
    }

    /** Flags the super-prefix's first route from the neighbour, and notes the neighbour. */
    method Blame(n: Prefix, m: Prefix, peerAs: AsNum, until: Time)
      modifies this
      ensures St() == BlameSuper(old(St()), n, m, peerAs, until)
    {
      var rs := Rib(ribs, m);
      var i := FindFrom(rs, peerAs);
      if i < |rs| {
        rs := rs[i := rs[i].(flags := rs[i].flags.(suspP := true))];
      }
      ribs := ribs[m := rs];
      NoteAvoid(m, peerAs, until, n);
    }

    method UpdateEdge(n: Prefix, path: Path, t: Time, newPeer: bool) returns (flag: bool)
      requires n in hists
      modifies this
      ensures (St(), flag) == M.UpdateEdge(old(St()), n, path, t, newPeer)
    {
      var es := ConsecutivePairs(path);
      var latest: Time := 0;
      ghost var s0 := St();
      var i := 0;
      while i < |es|
        invariant i <= |es| && St() == s0.(edges := edges)
        invariant TouchEdges(cfg, EdgeFold(edges, latest), es[i..], t, newPeer)
               == TouchEdges(cfg, EdgeFold(s0.edges, 0), es, t, newPeer)
      {
        assert es[i..][1..] == es[i + 1..];
        var e := es[i];
        if e.a != e.b {
          var r := if e in edges then edges[e] else EdgeRec(0, 0);
          if r.depref > t {
            latest := Max(latest, r.depref);
          } else if r.lastSeen + cfg.edgeHist <= t && !newPeer {
            r := r.(depref := t + cfg.edgeSus);
            latest := Max(latest, r.depref);
          }
          edges := edges[e := r.(lastSeen := t)];
        }
        i := i + 1;
      }
      flag := latest != 0;
      if flag && !hists[n].edgePending {
        locks := Bump(locks, n, 1);
        Enqueue(EdgeEntry(latest, n));
        hists := hists[n := hists[n].(edgePending := true)];
      }
    }

    // ---------- Collection ----------

    method SeenInRib(rs: seq<Route>, a: AsNum) returns (found: bool)
      ensures found == InRib(rs, a)
    {
      found := false;
      for j := 0 to |rs|
        invariant !exists k :: 0 <= k < j && OriginAs(rs[k].path) == a
      {
        if OriginAs(rs[j].path) == a {
          return true;
        }
      }
    }

    method CollectOrigin(rs: seq<Route>, o0: Origin, t: Time) returns (kept: Option<Origin>)
      ensures kept == GcOrigin(cfg, rs, lastgc, o0, t)
    {
      hide InRib;
      var o := o0;
      var inRib := SeenInRib(rs, o.asn);
      if inRib {
        o := o.(lastSeen := t);
      }
      var collect := o.lastSeen + cfg.originHist <= t;
      if o.depref != 0 && o.depref < t {
        if o.lastSeen < lastgc {
          collect := true;
        }
        o := o.(depref := 0);
      }
      kept := if collect then None else Some(o);
    }

    /** Walks the origin list, unlinking what is collected. */
    method CollectOrigins(rs: seq<Route>, os: seq<Origin>, t: Time) returns (kept: seq<Origin>)
      ensures kept == GcOrigins(cfg, rs, lastgc, os, t)
    {
      hide GcOrigin;
      kept := [];
      var i := 0;
      assert os[0..] == os;
      while i < |os|
        invariant i <= |os|
        invariant GcOrigins(cfg, rs, lastgc, os, t) == kept + GcOrigins(cfg, rs, lastgc, os[i..], t)
      {
        assert os[i..][1..] == os[i + 1..];
        var o := CollectOrigin(rs, os[i], t);
        if o.Some? {
          kept := kept + [o.value];
        }
        i := i + 1;
      }
    }

    method CollectPrefix(rs: seq<Route>, pre: PrefixRec, t: Time) returns (kept: Option<PrefixRec>)
      ensures kept == GcPrefix(cfg, rs, lastgc, pre, t)
    {
      var p := pre;
      if rs != [] {
        p := p.(lastSeen := t);
      }
      var collect := p.lastSeen + cfg.prefixHist <= t;
      if p.ignoreUntil != 0 && p.ignoreUntil < t {
        if p.lastSeen < lastgc {
          collect := true;
        }
        p := p.(ignoreUntil := 0);
      }
      kept := if collect then None else Some(p);
    }

    method CollectNode(n: Prefix, t: Time)
      modifies this
      ensures St() == GcNode(old(St()), n, t)
    {
      if n !in hists {
        return;
      }
      var h := hists[n];
      var rs := Rib(ribs, n);
      hide GcOrigins, GcPrefix, UnlockSubs;
      var used := h.origins != [] || h.prefix.Some?;
      var os := CollectOrigins(rs, h.origins, t);
      var pre := h.prefix;
      if pre.Some? {
        pre := CollectPrefix(rs, pre.value, t);
        if pre.None? {
          ReleaseSubs(h.prefix.value.avoid);
        }
      }
      NoSubs(locks);
      if used && os == [] && pre.None? {
        hists := hists - {n};
        locks := Bump(locks, n, -1);
      } else {
        hists := hists[n := h.(origins := os, prefix := pre)];
      }
    }

    /** Unlocks the sub-prefix of every note of a collected prefix. */
    method ReleaseSubs(av: seq<Avoid>)
      modifies `locks
      ensures locks == UnlockSubs(old(locks), av)
    {
      var i := 0;
      while i < |av|
        invariant i <= |av| && UnlockSubs(locks, av[i..]) == UnlockSubs(old(locks), av)
      {
        assert av[i..][1..] == av[i + 1..];
        locks := Bump(locks, av[i].sub, -1);
        i := i + 1;
      }
    }

    method Collect(live: set<Edge>, t: Time)
      modifies this
      ensures St() == Gc(old(St()), live, t)
    {
      ghost var s0 := St();
      var ns := order;
      var i := 0;
      while i < |ns|
        invariant i <= |ns| && GcNodes(St(), ns[i..], t) == GcNodes(s0, ns, t)
      {
        assert ns[i..][1..] == ns[i + 1..];
        CollectNode(ns[i], t);
        i := i + 1;
      }
      edges := GcEdges(cfg, lastgc, live, edges, t);
      lastgc := t;
    }

    // ---------- Events ----------

    /** The super-prefix is found and locked; the trie walk is in PgbgpTrie. */
    method Prepare(m: News, t: Time) returns (super: Option<Prefix>, newPeer: bool)
      modifies this
      ensures (St(), super, newPeer) == M.Prepare(old(St()), m, t)
      ensures m.node in hists
    {
      if m.node !in hists {
        hists := hists[m.node := Hist([], None, false)];
        locks := Bump(locks, m.node, 1);
      }
      super := FindSuper(hists, m.node, t);
      if super.Some? {
        locks := Bump(locks, super.value, 1);
      }
      newPeer := UpdatePeer(m.peer, t);
    }

    method Detect(m: News, t: Time, flags: Flags) returns (flags': Flags)
      modifies this
      ensures (St(), flags') == M.Detect(old(St()), m, t, flags)
    {
      hide M.Prepare, M.UpdateOrigin, M.UpdatePrefix, M.UpdateEdge;
      var super, newPeer := Prepare(m, t);
      var o := UpdateOrigin(m.node, m.path, t, newPeer);
      var p, g := UpdatePrefix(m.node, super, m.peerAs, m.path, t, newPeer);
      var e := UpdateEdge(m.node, m.path, t, newPeer);
      if super.Some? {
        locks := Bump(locks, super.value, -1);
      }
      flags' := Flags(flags.suspO || o, flags.suspP || p, flags.suspE || e, flags.ignP || g);
    }

    method FindPeer(rs: seq<Route>, peer: nat) returns (i: nat)
      ensures i == FromPeer(rs, peer)
    {
      i := 0;
      while i < |rs| && rs[i].peer != peer
        invariant i <= |rs| && FromPeer(rs, peer) == i + FromPeer(rs[i..], peer)
      {
        i := i + 1;
      }
    }

    /** One announcement. The engine keeps its invariant when collection spares every history
        with a pending edge entry. */
    method Announce(m: News, live: set<Edge>, ghost now: Time, t: Time)
      requires EngineInv(St(), now) && now <= t && CollectionSafe(St(), m, t)
      modifies this
      ensures St() == M.Announce(old(St()), m, live, t)
      ensures EngineInv(St(), t)
    {
      hide M.Drain, M.Detect, EngineInv, CollectionSafe, DrainInv, OriginInv, EdgeInv, LockInv, Gc;
      AnnounceKeeps(St(), m, live, now, t);
      ReadyToDrain(St(), m.node, now, t);
      if m.node !in order {
        order := order + [m.node];
      }
      Drain(t);
      var rs := Rib(ribs, m.node);
      var i := FindPeer(rs, m.peer);
      var flags := Detect(m, t, if i < |rs| then rs[i].flags else NO_FLAGS);
      if t >= lastgc + GC_DELTA {
        Collect(live, t);
      }
      rs := Rib(ribs, m.node);
      i := FindPeer(rs, m.peer);
      if i < |rs| {
        rs := rs[i := rs[i].(peerAs := m.peerAs, path := m.path, flags := flags)];
      } else {
        rs := [Route(m.peer, m.peerAs, m.path, flags, false)] + rs;
      }
      ribs := ribs[m.node := rs];
    }

    method Withdraw(n: Prefix, i: nat, ghost now: Time)
      requires EngineInv(St(), now) && i < |Rib(ribs, n)|
      modifies `ribs
      ensures St() == M.Withdraw(old(St()), n, i) && EngineInv(St(), now)
    {
      hide EngineInv;
      WithdrawKeeps(St(), n, i, now);
      ribs := ribs[n := Remove(Rib(ribs, n), i)];
    }

    /** The decision process chose a route: the notes of the node decide what is ignored. */
    method RibUpdated(n: Prefix, best: nat, t: Time, ghost now: Time)
      requires EngineInv(St(), now)
      modifies `ribs
      ensures St() == M.RibUpdated(old(St()), n, best, t) && EngineInv(St(), now)
    {
      hide EngineInv;
      RibUpdatedKeeps(St(), n, best, t, now);
      var rs := Mark(Rib(ribs, n), best);
      ribs := ribs[n := rs];
      if n in hists && hists[n].prefix.Some? {
        var av := hists[n].prefix.value.avoid;
        var sel := FindSelected(rs);
        var on := sel < |rs| && !rs[sel].flags.suspP;
        ghost var ribs1 := ribs;
        var i := 0;
        while i < |av|
          invariant i <= |av| && IgnoreSubs(ribs, av[i..], on, t) == IgnoreSubs(ribs1, av, on, t)
        {
          assert av[i..][1..] == av[i + 1..];
          if av[i].until > t {
            ribs := ribs[av[i].sub := Ignore(Rib(ribs, av[i].sub), on)];
          }
          i := i + 1;
        }
      }
    }

    // ---------- The history file ----------

    /** Reads a history file into a new engine. */
    constructor Restored(cfg: Config, f: PgbgpStore.File, t: Time)
      ensures St() == PgbgpStore.Restore(cfg, f, t)
    {
      this.cfg := cfg;
      order, hists, ribs, locks := [], map[], map[], map[];
      queue, rqSize, edges, peers, lastgc := [], 0, map[], map[], t;
      new;
      if t <= f.written + PgbgpStore.WEEK {
        var cur: Option<Prefix> := None;
        var i := 0;
        while i < |f.lines|
          invariant i <= |f.lines|
          invariant PgbgpStore.ReadLines(PgbgpStore.Reader(St(), cur), f.lines[i..]).s == PgbgpStore.Restore(cfg, f, t)
        {
          assert f.lines[i..][1..] == f.lines[i + 1..];
          ghost var r := PgbgpStore.Reader(St(), cur);
          cur := Read(f.lines[i], cur);
          assert PgbgpStore.Reader(St(), cur) == PgbgpStore.ReadLine(r, f.lines[i]);
          i := i + 1;
        }
      }
    }

    method Read(line: PgbgpStore.Line, cur: Option<Prefix>) returns (cur': Option<Prefix>)
      modifies this
      ensures PgbgpStore.Reader(St(), cur') == PgbgpStore.ReadLine(PgbgpStore.Reader(old(St()), cur), line)
    {
      cur' := cur;
      match line
      case PeerLine(p, seen) =>
        peers := peers[p := PeerRec(seen, 0)];
      case PrefixLine(n, seen) =>
        if n !in order {
          order := order + [n];
        }
        hists := hists[n := Hist([], Some(PrefixRec(seen, 0, [])), false)];
        locks := Bump(locks, n, 1);
        cur' := Some(n);
      case OriginLine(a, seen) =>
        if cur.Some? && cur.value in hists {
          var h := hists[cur.value];
          hists := hists[cur.value := h.(origins := [Origin(a, seen, 0)] + h.origins)];
        }
      case EdgeLine(e, seen) =>
        edges := edges[e := EdgeRec(seen, 0)];
    }
  }

  /** What the handlers of the source take for granted. */
  ghost predicate Handleable(s: State, e: Entry) {
    && (!e.PrefixEntry? ==> e.node in s.hists)
    && (e.OriginEntry? ==> forall r :: r in Rib(s.ribs, e.node) && r.flags.suspO ==>
          Knows(s.hists[e.node].origins, OriginAs(r.path)))
  }

  lemma ReuseAsserts(s: State, e: Entry, t: Time)
    requires DrainInv(s, t) && e in s.queue
    ensures forall q, k :: Handleable(s.(queue := q, rqSize := k), e)
  {
    if e.OriginEntry? {
      ReuseOriginAsserts(s, e, t);
    } else if e.EdgeEntry? {
      ReuseEdgeAsserts(s, e);
    }
  }

  lemma NoSubs(locks: map<Prefix, int>)
    ensures UnlockSubs(locks, []) == locks
  {
  }

  lemma ReadyToDrain(s: State, n: Prefix, now: Time, t: Time)
    requires EngineInv(s, now) && now <= t
    ensures DrainInv(AddNode(s, n), t) && s.rqSize == |s.queue|
  {
    LaterClock(s, now, t);
    AddNodeKeeps(s, n, t);
  }

  /** The earlier of two deadlines, where 0 stands for none. */
  function Sooner(a: Time, b: Time): Time {
    if a == 0 then b else if b == 0 || a < b then a else b
  }
}
