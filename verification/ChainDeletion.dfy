/**
 Deleting a chain from a packet filter table. The numbered listing of the table is scanned for
 rules that lead to the chain; their deletion by line number, the flush and the deletion of the
 chain itself are put in a list that is worked off from its end.
 */
module ChainDeletion {
  import opened Common

  /** A rule; without a target its line shows the protocol in the target's place. */
  datatype Rule = Rule(target: Option<string>, proto: string, matches: string)

  datatype Chain = Chain(name: string, builtIn: bool, rules: seq<Rule>)

  type Table = seq<Chain>

  datatype Word = Number(n: nat) | Text(s: string)

  type Line = seq<Word>

  datatype Command = Delete(chain: string, n: nat) | Flush(chain: string) | Drop(chain: string)

  ghost predicate DistinctNames(t: Table) {
    forall i, j :: 0 <= i < j < |t| ==> t[i].name != t[j].name
  }

  /** The word after the line number. */
  function Shown(r: Rule): string { if r.target.Some? then r.target.value else r.proto }

  // ---------- The listing ----------

  function RuleLines(rules: seq<Rule>, n: nat): seq<Line> {
    if rules == [] then []
    else [[Number(n), Text(Shown(rules[0])), Text(rules[0].proto), Text(rules[0].matches)]] + RuleLines(rules[1..], n + 1)
  }

  /** Each chain: its name, the column titles, its rules numbered from 1, an empty line. */
  function Listing(t: Table): seq<Line> {
    if t == [] then []
    else
      [[Text("Chain"), Text(t[0].name)], [Text("num"), Text("target"), Text("prot")]]
      + RuleLines(t[0].rules, 1) + [[Text("")]] + Listing(t[1..])
  }

  // ---------- What the commands do ----------

  predicate Referenced(t: Table, d: string) {
    exists i, j :: 0 <= i < |t| && 0 <= j < |t[i].rules| && t[i].rules[j].target == Some(d)
  }

  function WithRules(c: Chain, cmd: Command): Chain {
    match cmd
    case Delete(_, n) => if 1 <= n <= |c.rules| then c.(rules := Remove(c.rules, n - 1)) else c
    case Flush(_) => c.(rules := [])
    case Drop(_) => c
  }

  /** Changes the chain of that name only. */
  function Edited(t: Table, cmd: Command): Table {
    if t == [] then []
    else if t[0].name == cmd.chain then [WithRules(t[0], cmd)] + t[1..]
    else [t[0]] + Edited(t[1..], cmd)
  }

  function Without(t: Table, d: string): Table {
    if t == [] then [] else (if t[0].name == d && !t[0].builtIn && t[0].rules == [] then [] else [t[0]]) + Without(t[1..], d)
  }

  /** A chain can be dropped only if it is not built in, is empty, and nothing refers to it. */
  function Exec(t: Table, cmd: Command): Table {
    if cmd.Drop? then (if Referenced(t, cmd.chain) then t else Without(t, cmd.chain)) else Edited(t, cmd)
  }

  /** Works a list of commands off from its end. */
  function PopAll(t: Table, cmds: seq<Command>): Table
    decreases |cmds|
  {
    if cmds == [] then t else PopAll(Exec(t, cmds[|cmds| - 1]), cmds[..|cmds| - 1])
  }

  // ---------- The scan ----------

  function Next(current: Option<string>, line: Line): Option<string> {
    if |line| > 1 && line[0] == Text("Chain") then (if line[1].Text? then Some(line[1].s) else None) else current
  }

  function Found(current: Option<string>, line: Line, d: string): seq<Command> {
    if |line| > 1 && line[0].Number? && current.Some? && line[1] == Text(d) then [Delete(current.value, line[0].n)] else []
  }

  function Scan(lines: seq<Line>, current: Option<string>, d: string): seq<Command> {
    if lines == [] then []
    else Found(current, lines[0], d) + Scan(lines[1..], Next(current, lines[0]), d)
  }

  function Commands(t: Table, d: string): seq<Command> { [Drop(d), Flush(d)] + Scan(Listing(t), None, d) }

  // ---------- What should remain ----------

  function Kept(rules: seq<Rule>, d: string): (r: seq<Rule>)
    ensures forall i :: 0 <= i < |r| ==> Shown(r[i]) != d
  {
    if rules == [] then [] else (if Shown(rules[0]) == d then [] else [rules[0]]) + Kept(rules[1..], d)
  }

  function AllKept(t: Table, d: string): (r: Table)
    ensures |r| == |t|
    ensures forall i :: 0 <= i < |t| ==> r[i] == t[i].(rules := Kept(t[i].rules, d))
  {
    if t == [] then [] else [t[0].(rules := Kept(t[0].rules, d))] + AllKept(t[1..], d)
  }

  /** The rules that do not show the chain, in order; the chain itself gone, or emptied if built in. */
  function Purged(t: Table, d: string): Table {
    if t == [] then []
    else if t[0].name == d then (if t[0].builtIn then [t[0].(rules := [])] else []) + Purged(t[1..], d)
    else [t[0].(rules := Kept(t[0].rules, d))] + Purged(t[1..], d)
  }

  // ---------- The deletions of one chain ----------

  /** The deletions found in one chain, whose first rule has number n. */
  function DeletesFrom(name: string, rules: seq<Rule>, n: nat, d: string): seq<Command> {
    if rules == [] then []
    else (if Shown(rules[0]) == d then [Delete(name, n)] else []) + DeletesFrom(name, rules[1..], n + 1, d)
  }

  function Deletes(t: Table, d: string): seq<Command> {
    if t == [] then [] else DeletesFrom(t[0].name, t[0].rules, 1, d) + Deletes(t[1..], d)
  }

  lemma {:induction false} ScanRules(rules: seq<Rule>, n: nat, name: string, d: string, rest: seq<Line>)
    ensures Scan(RuleLines(rules, n) + rest, Some(name), d) == DeletesFrom(name, rules, n, d) + Scan(rest, Some(name), d)
  {
    if rules == [] {
      assert [] + rest == rest;
    } else {
      var lines := RuleLines(rules, n) + rest;
      assert lines[1..] == RuleLines(rules[1..], n + 1) + rest;
      ScanRules(rules[1..], n + 1, name, d, rest);
    }
  }

  /** The scan finds the deletions of every chain, under the chain's own name. */
  lemma {:induction false} ScanFinds(t: Table, current: Option<string>, d: string)
    ensures Scan(Listing(t), current, d) == Deletes(t, d)
  {
    if t != [] {
      var head, titles, blank := [Text("Chain"), Text(t[0].name)], [Text("num"), Text("target"), Text("prot")], [Text("")];
      var rest := [blank] + Listing(t[1..]);
      var lines := Listing(t);
      assert lines == [head] + ([titles] + (RuleLines(t[0].rules, 1) + rest));
      assert lines[1..] == [titles] + (RuleLines(t[0].rules, 1) + rest);
      assert lines[1..][1..] == RuleLines(t[0].rules, 1) + rest;
      hide RuleLines, Listing;
      ScanStep(lines, current, d);
      ScanStep(lines[1..], Some(t[0].name), d);
      ScanRules(t[0].rules, 1, t[0].name, d, rest);
      ScanStep(rest, Some(t[0].name), d);
      assert rest[1..] == Listing(t[1..]);
      ScanFinds(t[1..], Some(t[0].name), d);
    }
  }

  lemma ScanStep(lines: seq<Line>, current: Option<string>, d: string)
    requires lines != []
    ensures Scan(lines, current, d) == Found(current, lines[0], d) + Scan(lines[1..], Next(current, lines[0]), d)
  {
  }

  // ---------- Working them off ----------

  lemma {:induction false} PopConcat(t: Table, a: seq<Command>, b: seq<Command>)
    ensures PopAll(t, a + b) == PopAll(PopAll(t, b), a)
    decreases |b|
  {
    hide Exec;
    if b == [] {
      assert a + b == a;
    } else {
      var n := |b| - 1;
      assert (a + b)[..|a| + n] == a + b[..n];
      PopConcat(Exec(t, b[n]), a, b[..n]);
    }
  }

  /** A command only reaches the chain it names. */
  lemma {:induction false} EditAt(t: Table, k: nat, cmd: Command)
    requires DistinctNames(t) && k < |t| && t[k].name == cmd.chain
    ensures Edited(t, cmd) == t[k := WithRules(t[k], cmd)]
  {
    if k > 0 {
      assert t[0].name != t[k].name;
      EditAt(t[1..], k - 1, cmd);
    }
  }

  lemma PopFew(t: Table, cmd: Command)
    ensures PopAll(t, []) == t && PopAll(t, [cmd]) == Exec(t, cmd)
  {
    hide Exec;
    assert [cmd][..0] == [];
  }

  /** Deleting from the end does not renumber what is still to be deleted: with the rules before
      `rules` untouched, working off their deletions leaves exactly the kept ones. */
  lemma {:induction false} PopChain(t: Table, k: nat, rules: seq<Rule>, n: nat, before: seq<Rule>, after: seq<Rule>, d: string)
    requires DistinctNames(t) && k < |t| && |before| == n
    requires t[k].rules == before + rules + after
    ensures PopAll(t, DeletesFrom(t[k].name, rules, n + 1, d)) == t[k := t[k].(rules := before + Kept(rules, d) + after)]
    decreases |rules|
  {
    hide PopAll, Exec, DeletesFrom, Kept, Shown, Edited;
    ChainStep(t[k].name, rules, n + 1, d);
    if rules == [] {
      PopFew(t, Drop(d));
      assert before + [] + after == before + rules + after;
    } else {
      var own := if Shown(rules[0]) == d then [Delete(t[k].name, n + 1)] else [];
      var rest := DeletesFrom(t[k].name, rules[1..], n + 2, d);
      var kept := Kept(rules[1..], d);
      PopConcat(t, own, rest);
      assert before + rules + after == (before + [rules[0]]) + rules[1..] + after;
      PopChain(t, k, rules[1..], n + 1, before + [rules[0]], after, d);
      PopFirst(t, k, rules[0], kept, own, before, after, d);
    }
  }

  /** The first rule is either deleted or kept. */
  lemma ChainStep(name: string, rules: seq<Rule>, n: nat, d: string)
    ensures rules == [] ==> DeletesFrom(name, rules, n, d) == [] && Kept(rules, d) == []
    ensures rules != [] ==>
      && DeletesFrom(name, rules, n, d)
           == (if Shown(rules[0]) == d then [Delete(name, n)] else []) + DeletesFrom(name, rules[1..], n + 1, d)
      && Kept(rules, d) == (if Shown(rules[0]) == d then [] else [rules[0]]) + Kept(rules[1..], d)
  {
    hide Shown;
  }

  lemma PopFirst(t: Table, k: nat, r: Rule, kept: seq<Rule>, own: seq<Command>, before: seq<Rule>, after: seq<Rule>, d: string)
    requires DistinctNames(t) && k < |t|
    requires own == [] || own == [Delete(t[k].name, |before| + 1)]
    ensures PopAll(t[k := t[k].(rules := before + [r] + kept + after)], own)
      == t[k := t[k].(rules := before + ((if own == [] then [r] else []) + kept) + after)]
  {
    hide PopAll, Edited;
    var t1 := t[k := t[k].(rules := before + [r] + kept + after)];
    if own == [] {
      PopFew(t1, Drop(d));
      assert before + [r] + kept + after == before + ([r] + kept) + after;
    } else {
      PopFew(t1, own[0]);
      EditAt(t1, k, own[0]);
      DropMiddle(before, r, kept, after);
      assert [] + kept == kept;
    }
  }

  lemma DropMiddle(before: seq<Rule>, r: Rule, kept: seq<Rule>, after: seq<Rule>)
    ensures Remove(before + [r] + kept + after, |before|) == before + kept + after
  {
  }

  /** All deletions together leave the kept rules of every chain. */
  lemma {:induction false} PopDeletes(t: Table, done: nat, d: string)
    requires DistinctNames(t) && done <= |t|
    ensures PopAll(t, Deletes(t[done..], d)) == t[..done] + AllKept(t[done..], d)
    decreases |t| - done
  {
    if done == |t| {
      assert t[done..] == [] && t[..done] == t;
    } else {
      var c := t[done];
      assert t[done..][1..] == t[done + 1..];
      var own := DeletesFrom(c.name, c.rules, 1, d);
      assert Deletes(t[done..], d) == own + Deletes(t[done + 1..], d);
      hide PopAll, Deletes, DeletesFrom, AllKept, Kept;
      PopConcat(t, own, Deletes(t[done + 1..], d));
      PopDeletes(t, done + 1, d);
      PopOwn(t, t[..done + 1] + AllKept(t[done + 1..], d), done, d);
    }
  }

  lemma PopOwn(t: Table, t1: Table, k: nat, d: string)
    requires DistinctNames(t) && k < |t| && t1 == t[..k + 1] + AllKept(t[k + 1..], d)
    ensures PopAll(t1, DeletesFrom(t[k].name, t[k].rules, 1, d)) == t[..k] + AllKept(t[k..], d)
  {
    hide PopAll, DeletesFrom, Kept, AllKept;
    var c := t[k];
    assert t1[k] == c && forall i :: 0 <= i < |t| ==> t1[i].name == t[i].name;
    assert c.rules == [] + c.rules + [];
    PopChain(t1, k, c.rules, 0, [], [], d);
    assert [] + Kept(c.rules, d) + [] == Kept(c.rules, d);
    assert t1[k := c.(rules := Kept(c.rules, d))] == t[..k] + AllKept(t[k..], d);
  }

  lemma {:induction false} FlushAndDrop(t: Table, d: string)
    requires DistinctNames(t)
    ensures Without(Edited(AllKept(t, d), Flush(d)), d) == Purged(t, d)
  {
    if t != [] {
      var k := AllKept(t, d);
      assert k[1..] == AllKept(t[1..], d);
      if t[0].name == d {
        assert forall i :: 0 <= i < |t[1..]| ==> t[1..][i].name != d;
        Elsewhere(t[1..], d);
      } else {
        FlushAndDrop(t[1..], d);
      }
    }
  }

  /** Where there is no chain of that name, the kept rules are all there is. */
  lemma {:induction false} Elsewhere(t: Table, d: string)
    requires forall i :: 0 <= i < |t| ==> t[i].name != d
    ensures Without(AllKept(t, d), d) == Purged(t, d)
  {
    if t != [] {
      assert AllKept(t, d)[1..] == AllKept(t[1..], d);
      Elsewhere(t[1..], d);
    }
  }

  lemma {:induction false} FlushedAt(t: Table, d: string, i: nat)
    requires i < |t|
    ensures |Edited(t, Flush(d))| == |t|
    ensures Edited(t, Flush(d))[i] == t[i] || Edited(t, Flush(d))[i].rules == []
  {
    if t[0].name != d && |t| > 1 {
      FlushedAt(t[1..], d, if i > 0 then i - 1 else 0);
    }
  }

  lemma StillUnreferenced(t: Table, d: string)
    requires !Referenced(t, d)
    ensures !Referenced(Edited(t, Flush(d)), d)
  {
    hide Edited;
    var e := Edited(t, Flush(d));
    if t == [] {
      EditedEmpty(d);
    }
    forall i, j | 0 <= i < |e| && 0 <= j < |e[i].rules| ensures e[i].rules[j].target != Some(d) {
      FlushedAt(t, d, if i < |t| then i else 0);
    }
  }

  lemma EditedEmpty(d: string)
    ensures Edited([], Flush(d)) == []
  {
  }

  /** Main result: on every table, the commands run in pop order leave exactly the rules that do
      not show the chain, in order, and remove the chain. */
  lemma DeletesExactly(t: Table, d: string)
    requires DistinctNames(t)
    ensures PopAll(t, Commands(t, d)) == Purged(t, d)
  {
    hide Kept, AllKept, Listing, Scan, Purged, Edited, Without, Deletes;
    ScanFinds(t, None, d);
    PopConcat(t, [Drop(d), Flush(d)], Deletes(t, d));
    assert t[0..] == t && t[..0] == [];
    PopDeletes(t, 0, d);
    var t1 := AllKept(t, d);
    assert [] + t1 == t1;
    var two: seq<Command> := [Drop(d)] + [Flush(d)];
    assert two == [Drop(d), Flush(d)];
    PopConcat(t1, [Drop(d)], [Flush(d)]);
    PopFew(t1, Flush(d));
    PopFew(Exec(t1, Flush(d)), Drop(d));
    NoneLeft(t, d);
    StillUnreferenced(t1, d);
    FlushAndDrop(t, d);
  }

  lemma NoneLeft(t: Table, d: string)
    ensures !Referenced(AllKept(t, d), d)
  {
  }

  // ---------- Exactly the rules targeting the chain ----------

  function Untargeted(rules: seq<Rule>, d: string): seq<Rule> {
    if rules == [] then [] else (if rules[0].target == Some(d) then [] else [rules[0]]) + Untargeted(rules[1..], d)
  }

  /** The table with the chain and all rules targeting it removed. */
  function Cleared(t: Table, d: string): Table {
    if t == [] then []
    else if t[0].name == d then (if t[0].builtIn then [t[0].(rules := [])] else []) + Cleared(t[1..], d)
    else [t[0].(rules := Untargeted(t[0].rules, d))] + Cleared(t[1..], d)
  }

  /** A rule without a target whose protocol is named like the chain. */
  ghost predicate Lookalike(r: Rule, d: string) { r.target.None? && r.proto == d }

  ghost predicate HasLookalike(rules: seq<Rule>, d: string) { exists j :: 0 <= j < |rules| && Lookalike(rules[j], d) }

  ghost predicate SomeLookalike(t: Table, d: string) {
    exists i :: 0 <= i < |t| && t[i].name != d && HasLookalike(t[i].rules, d)
  }

  lemma {:induction false} KeptOrUntargeted(rules: seq<Rule>, d: string)
    ensures |Kept(rules, d)| <= |Untargeted(rules, d)|
    ensures !HasLookalike(rules, d) ==> Kept(rules, d) == Untargeted(rules, d)
    ensures HasLookalike(rules, d) ==> |Kept(rules, d)| < |Untargeted(rules, d)|
  {
    if rules != [] {
      KeptOrUntargeted(rules[1..], d);
      if j :| 0 <= j < |rules| && Lookalike(rules[j], d) {
        if j > 0 { assert Lookalike(rules[1..][j - 1], d); }
      }
      if j :| 0 <= j < |rules[1..]| && Lookalike(rules[1..][j], d) {
        assert Lookalike(rules[j + 1], d);
      }
    }
  }

  lemma {:induction false} PurgedOrCleared(t: Table, d: string)
    ensures Purged(t, d) == Cleared(t, d) <==> !SomeLookalike(t, d)
    ensures |Purged(t, d)| == |Cleared(t, d)|
  {
    if t != [] {
      hide Kept, Untargeted, HasLookalike;
      KeptOrUntargeted(t[0].rules, d);
      PurgedOrCleared(t[1..], d);
      LookalikeStep(t, d);
      var a, b := Purged(t, d), Cleared(t, d);
      if t[0].name != d {
        assert a[1..] == Purged(t[1..], d) && b[1..] == Cleared(t[1..], d);
      } else if t[0].builtIn {
        assert a[1..] == Purged(t[1..], d) && b[1..] == Cleared(t[1..], d);
      } else {
        assert a == Purged(t[1..], d) && b == Cleared(t[1..], d);
      }
    }
  }

  lemma LookalikeStep(t: Table, d: string)
    requires t != []
    ensures SomeLookalike(t, d) <==> (t[0].name != d && HasLookalike(t[0].rules, d)) || SomeLookalike(t[1..], d)
  {
    hide HasLookalike;
    if i :| 0 <= i < |t| && t[i].name != d && HasLookalike(t[i].rules, d) {
      if i > 0 { assert t[1..][i - 1] == t[i]; }
    }
    if i :| 0 <= i < |t[1..]| && t[1..][i].name != d && HasLookalike(t[1..][i].rules, d) {
      assert t[i + 1] == t[1..][i];
    }
  }

  /** The deletion removes exactly the rules targeting the chain if and only if no other chain
      has a rule without a target whose protocol bears the chain's name. */
  lemma ExactUnlessLookalike(t: Table, d: string)
    requires DistinctNames(t)
    ensures PopAll(t, Commands(t, d)) == Cleared(t, d) <==> !SomeLookalike(t, d)
  {
    DeletesExactly(t, d);
    PurgedOrCleared(t, d);
  }

  /** Nothing refers to the chain afterwards. */
  lemma {:induction false} PurgedUnreferenced(t: Table, d: string, i: nat, j: nat)
    requires i < |Purged(t, d)| && j < |Purged(t, d)[i].rules|
    ensures Purged(t, d)[i].rules[j].target != Some(d)
  {
    if t[0].name != d {
      if i > 0 { PurgedUnreferenced(t[1..], d, i - 1, j); }
    } else if t[0].builtIn {
      if i > 0 { PurgedUnreferenced(t[1..], d, i - 1, j); }
    } else {
      PurgedUnreferenced(t[1..], d, i, j);
    }
  }

  lemma NothingRefers(t: Table, d: string)
    requires DistinctNames(t)
    ensures !Referenced(PopAll(t, Commands(t, d)), d)
  {
    DeletesExactly(t, d);
    var r := Purged(t, d);
    forall i, j | 0 <= i < |r| && 0 <= j < |r[i].rules| ensures r[i].rules[j].target != Some(d) {
      PurgedUnreferenced(t, d, i, j);
    }
  }

  // ---------- Why the order matters ----------

  /** In list order the same deletions go wrong: the second removes a rule that was not meant. */
  lemma ListOrderFails(other: Rule, d: string)
    requires Shown(other) != d && d != "INPUT"
    ensures var r := Rule(Some(d), "all", "");
      var t := [Chain("INPUT", true, [r, r, other])];
      && Deletes(t, d) == [Delete("INPUT", 1), Delete("INPUT", 2)]
      && PopAll(t, [Delete("INPUT", 2), Delete("INPUT", 1)]) == [Chain("INPUT", true, [r])]
      && PopAll(t, Commands(t, d)) == [Chain("INPUT", true, [other])]
  {
    var r := Rule(Some(d), "all", "");
    var t := [Chain("INPUT", true, [r, r, other])];
    TwoOfThree(r, other, d);
    hide PopAll, DeletesFrom, Kept;
    assert t[1..] == [];
    var none, first, second: seq<Command> := [], [Delete("INPUT", 1)], [Delete("INPUT", 2)];
    assert Deletes(t, d) == first + second + none;
    PopConcat(t, second, first);
    PopFew(t, first[0]);
    assert Remove([r, r, other], 0) == [r, other];
    PopFew([Chain("INPUT", true, [r, other])], second[0]);
    assert Remove([r, other], 1) == [r];
    assert second + first == [Delete("INPUT", 2), Delete("INPUT", 1)];
    DeletesExactly(t, d);
  }

  /** Dropped before the rules that lead to it are gone, the chain stays. */
  lemma DropTooEarly(t: Table, d: string)
    requires Referenced(t, d)
    ensures PopAll(t, [Drop(d)]) == t
  {
    hide Referenced, PopAll;
    PopFew(t, Drop(d));
  }

  lemma TwoOfThree(r: Rule, other: Rule, d: string)
    requires Shown(r) == d && Shown(other) != d
    ensures DeletesFrom("INPUT", [r, r, other], 1, d) == [Delete("INPUT", 1)] + [Delete("INPUT", 2)]
    ensures Kept([r, r, other], d) == [other]
  {
    assert [r, r, other][1..] == [r, other] && [r, other][1..] == [other] && [other][1..] == [];
    assert DeletesFrom("INPUT", [other], 3, d) == [];
    assert DeletesFrom("INPUT", [r, other], 2, d) == [Delete("INPUT", 2)];
    assert Kept([other], d) == [other] + Kept([], d) && Kept([], d) == [];
    assert Kept([r, other], d) == [] + Kept([other], d);
  }

  // ---------- The program ----------

  class Kernel {
    var table: Table

    constructor (t: Table)
      ensures table == t
    {
      table := t;
    }

    method Run(cmd: Command)
      modifies this
      ensures table == Exec(old(table), cmd)
    {
      table := Exec(table, cmd);
    }
  }

  method Collect(lines: seq<Line>, d: string) returns (cmds: seq<Command>)
    ensures cmds == Scan(lines, None, d)
  {
    cmds := [];
    var current: Option<string> := None;
    var i := 0;
    while i < |lines|
      invariant i <= |lines|
      invariant cmds + Scan(lines[i..], current, d) == Scan(lines, None, d)
    {
      var line := lines[i];
      assert lines[i..][1..] == lines[i + 1..];
      if |line| > 1 && line[0] == Text("Chain") {
        current := if line[1].Text? then Some(line[1].s) else None;
      } else if |line| > 1 && line[0].Number? && current.Some? && line[1] == Text(d) {
        cmds := cmds + [Delete(current.value, line[0].n)];
      }
      i := i + 1;
    }
  }

  method DeleteChainFromTable(kernel: Kernel, d: string)
    requires DistinctNames(kernel.table)
    modifies kernel
    ensures kernel.table == Purged(old(kernel.table), d)
    ensures !Referenced(kernel.table, d)
  {
    hide Purged, Scan, Listing, Exec, Referenced;
    var deleteCommands := Collect(Listing(kernel.table), d);
    deleteCommands := [Flush(d)] + deleteCommands;
    deleteCommands := [Drop(d)] + deleteCommands;
    ghost var t := kernel.table;
    assert deleteCommands == Commands(t, d);
    DeletesExactly(t, d);
    NothingRefers(t, d);
    while |deleteCommands| > 0
      invariant PopAll(kernel.table, deleteCommands) == Purged(t, d)
    {
      var nextCommand := deleteCommands[|deleteCommands| - 1];
      deleteCommands := deleteCommands[..|deleteCommands| - 1];
      kernel.Run(nextCommand);
    }
  }
}
