/**
 The search for a super-prefix in the path-compressed trie of the routing table. The walk down
 one branch finds what a scan of all covering prefixes would find.
 */
module PgbgpTrie {
  import opened Common
  import opened PgbgpModel

  datatype Trie = Leaf | Node(p: Prefix, left: Trie, right: Trie)

  /** Child c hangs below prefix p on the given side, with at least one bit more. */
  predicate Below(p: Prefix, c: Trie, side: bool) {
    c.Node? ==> |p| < |c.p| && c.p[..|p|] == p && c.p[|p|] == side
  }

  predicate WellFormed(t: Trie) {
    t.Node? ==>
      && Below(t.p, t.left, false) && Below(t.p, t.right, true)
      && WellFormed(t.left) && WellFormed(t.right)
  }

  predicate Member(t: Trie, m: Prefix) {
    t.Node? && (t.p == m || Member(t.left, m) || Member(t.right, m))
  }

  predicate Covers(m: Prefix, p: Prefix) { |m| <= |p| && p[..|m|] == m }

  /** m may be the super-prefix of p. */
  predicate Candidate(hists: map<Prefix, Hist>, p: Prefix, m: Prefix, now: Time) {
    && 8 <= |m| < |p| && Covers(m, p)
    && m in hists && hists[m].prefix.Some? && hists[m].prefix.value.ignoreUntil < now
  }

  /** Every member of a well-formed trie extends its root. */
  lemma {:induction false} MembersExtend(t: Trie, m: Prefix)
    requires WellFormed(t) && Member(t, m)
    ensures Covers(t.p, m)
    ensures m != t.p ==> |t.p| < |m| && Member(if m[|t.p|] then t.right else t.left, m)
  {
    if t.p != m {
      if Member(t.left, m) { MembersExtend(t.left, m); }
      if Member(t.right, m) { MembersExtend(t.right, m); }
    }
  }

  /** The scan finds the longest candidate, or none exactly when there is none. */
  lemma {:induction false} FindSuperIsLongest(hists: map<Prefix, Hist>, p: Prefix, now: Time)
    ensures var r := FindSuper(hists, p, now);
      && (r.Some? ==> Candidate(hists, p, r.value, now))
      && (forall m :: Candidate(hists, p, m, now) ==> r.Some? && |m| <= |r.value|)
  {
    if |p| > 0 {
      SuperFromIsLongest(hists, p, |p| - 1, now);
    }
  }

  lemma {:induction false} SuperFromIsLongest(hists: map<Prefix, Hist>, p: Prefix, k: nat, now: Time)
    requires k < |p|
    ensures var r := SuperFrom(hists, p, k, now);
      && (r.Some? ==> Candidate(hists, p, r.value, now) && |r.value| <= k)
      && (forall m :: Candidate(hists, p, m, now) && |m| <= k ==> r.Some? && |m| <= |r.value|)
  {
    if k >= 8 && !Eligible(hists, p[..k], now) {
      SuperFromIsLongest(hists, p, k - 1, now);
    }
  }

  /** Two longest candidates are the same prefix. */
  lemma LongestIsUnique(hists: map<Prefix, Hist>, p: Prefix, now: Time, r: Option<Prefix>)
    requires r.Some? ==> Candidate(hists, p, r.value, now)
    requires forall m :: Candidate(hists, p, m, now) ==> r.Some? && |m| <= |r.value|
    ensures r == FindSuper(hists, p, now)
  {
    FindSuperIsLongest(hists, p, now);
    var f := FindSuper(hists, p, now);
    if r.Some? {
      assert f.Some? && |f.value| == |r.value|;
    }
  }

  /** Walks from the top of the table. Every history hangs on a node of the table. */
  method Walk(table: Trie, hists: map<Prefix, Hist>, p: Prefix, now: Time) returns (matched: Option<Prefix>)
    requires WellFormed(table) && forall m :: m in hists ==> Member(table, m)
    ensures matched == FindSuper(hists, p, now)
  {
    matched := None;
    var node := table;
    while node.Node? && |node.p| < |p| && p[..|node.p|] == node.p
      invariant WellFormed(node)
      invariant matched.Some? ==> Candidate(hists, p, matched.value, now)
      invariant matched.Some? && node.Node? ==> |matched.value| < |node.p|
      invariant forall m :: Candidate(hists, p, m, now) ==>
        Member(node, m) || (matched.Some? && |m| <= |matched.value|)
      decreases node
    {
      forall m | Candidate(hists, p, m, now) && Member(node, m) && m != node.p
        ensures Member(if p[|node.p|] then node.right else node.left, m)
      {
        MembersExtend(node, m);
      }
      if node.p in hists && |node.p| >= 8 {
        var h := hists[node.p];
        if h.prefix.Some? && h.prefix.value.ignoreUntil < now {
          matched := Some(node.p);
        }
      }
      node := if p[|node.p|] then node.right else node.left;
    }
    forall m | Candidate(hists, p, m, now)
      ensures matched.Some? && |m| <= |matched.value|
    {
      if Member(node, m) {
        MembersExtend(node, m);
      }
    }
    LongestIsUnique(hists, p, now, matched);
  }
}
