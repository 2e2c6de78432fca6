/**
 The chain that sorts packets into QoS classes. The rules are inserted one by one at the head of the
 chain, in the order of their test_order; each sets the packet's mark and lets the packet go on, so
 that the last rule of the chain that matches decides. What is put before and after them gives
 unmarked packets a default class and leaves marked packets alone.
 */
module Classifier {
  import opened Common
  import opened MarkBits

  /** A rule of the configuration; the names of its tests stand for everything but the protocol. */
  datatype Section = Section(order: Option<int>, target: Option<string>, proto: Option<string>, tests: seq<string>, needProto: bool)

  type Marks = map<string, Bits>

  datatype Packet = Packet(proto: string, holds: string -> bool)

  datatype Action = SetMark(bits: Bits) | Return | SaveMark(mask: Bits) | Imq

  /** A rule of the chain; `marked` asks for a mark other than zero. */
  datatype Entry = Entry(marked: bool, proto: Option<string>, tests: seq<string>, action: Action)

  // ---------- Running a chain ----------

  predicate AllHold(tests: seq<string>, p: Packet) { forall k :: 0 <= k < |tests| ==> p.holds(tests[k]) }

  predicate Fires(e: Entry, p: Packet, mark: Bits) {
    && (e.marked ==> mark != {})
    && (e.proto.Some? ==> p.proto == e.proto.value)
    && AllHold(e.tests, p)
  }

  function Saved(mark: Bits, connmark: Bits, mask: Bits): Bits { (connmark - mask) + (mark * mask) }

  /** The mark and the connection mark when the packet leaves the chain. */
  function Run(es: seq<Entry>, p: Packet, mark: Bits, connmark: Bits): (Bits, Bits)
    decreases |es|
  {
    if es == [] then (mark, connmark)
    else if !Fires(es[0], p, mark) then Run(es[1..], p, mark, connmark)
    else match es[0].action
      case SetMark(bits) => Run(es[1..], p, bits, connmark)
      case Return => (mark, connmark)
      case SaveMark(mask) => Run(es[1..], p, mark, Saved(mark, connmark, mask))
      case Imq => Run(es[1..], p, mark, connmark)
  }

  // ---------- The rules of a section ----------

  /** Without a class, a mark for it, or anything to match, a section gives no rule. */
  predicate Usable(s: Section, marks: Marks) {
    s.target.Some? && s.target.value in marks && (s.proto.Some? || s.tests != [])
  }

  function EntryOf(s: Section, proto: Option<string>, marks: Marks): Entry
    requires Usable(s, marks)
  {
    Entry(false, proto, s.tests, SetMark(marks[s.target.value]))
  }

  /** Ports need a protocol: without one there is a rule for TCP and one for UDP. */
  function EntriesOf(s: Section, marks: Marks): seq<Entry> {
    if !Usable(s, marks) then []
    else if s.proto.None? && s.needProto then [EntryOf(s, Some("udp"), marks), EntryOf(s, Some("tcp"), marks)]
    else [EntryOf(s, s.proto, marks)]
  }

  /** What inserting the sections one by one at the head amounts to. */
  function Inserted(list: seq<Section>, marks: Marks): seq<Entry> {
    if list == [] then [] else Inserted(list[1..], marks) + EntriesOf(list[0], marks)
  }

  datatype Side = Side(ingress: bool, defaultMark: Bits, mask: Bits)

  function Head(side: Side): seq<Entry> {
    (if side.ingress then [Entry(false, None, [], Imq)] else [])
    + [Entry(true, None, [], SaveMark(side.mask)), Entry(true, None, [], Return), Entry(false, None, [], SetMark(side.defaultMark))]
  }

  function Chain(list: seq<Section>, marks: Marks, side: Side): seq<Entry> {
    Head(side) + Inserted(list, marks) + [Entry(false, None, [], SaveMark(side.mask))]
  }

  // ---------- The program ----------

  class MangleChain {
    var rules: seq<Entry>

    constructor ()
      ensures rules == []
    {
      rules := [];
    }

    method Insert(e: Entry)
      modifies this
      ensures rules == [e] + old(rules)
    {
      rules := [e] + rules;
    }

    method Append(e: Entry)
      modifies this
      ensures rules == old(rules) + [e]
    {
      rules := rules + [e];
    }

    method ApplyRule(s: Section, marks: Marks)
      modifies this
      ensures rules == EntriesOf(s, marks) + old(rules)
    {
      if s.target.Some? && s.target.value in marks {
        if s.proto.Some? || s.tests != [] {
          var nextMark := marks[s.target.value];
          if s.proto.None? && s.needProto {
            Insert(Entry(false, Some("tcp"), s.tests, SetMark(nextMark)));
            Insert(Entry(false, Some("udp"), s.tests, SetMark(nextMark)));
          } else {
            Insert(Entry(false, s.proto, s.tests, SetMark(nextMark)));
          }
        }
      }
    }

    method ApplyAllRules(list: seq<Section>, marks: Marks)
      modifies this
      ensures rules == Inserted(list, marks) + old(rules)
    {
      hide EntriesOf;
      var k := 0;
      assert list[..0] == [];
      while k < |list|
        invariant k <= |list| && rules == Inserted(list[..k], marks) + old(rules)
      {
        InsertedPush(list[..k], list[k], marks);
        assert list[..k + 1] == list[..k] + [list[k]];
        ApplyRule(list[k], marks);
        k := k + 1;
      }
      assert list[..k] == list;
    }

    method Assemble(list: seq<Section>, marks: Marks, side: Side)
      requires rules == []
      modifies this
      ensures rules == Chain(list, marks, side)
    {
      hide Inserted;
      ApplyAllRules(list, marks);
      Insert(Entry(false, None, [], SetMark(side.defaultMark)));
      Insert(Entry(true, None, [], Return));
      Insert(Entry(true, None, [], SaveMark(side.mask)));
      if side.ingress {
        Insert(Entry(false, None, [], Imq));
      }
      Append(Entry(false, None, [], SaveMark(side.mask)));
    }
  }

  lemma {:induction false} InsertedPush(list: seq<Section>, s: Section, marks: Marks)
    ensures Inserted(list + [s], marks) == EntriesOf(s, marks) + Inserted(list, marks)
  {
    hide EntriesOf;
    if list == [] {
      assert [] + [s] == [s] && [s][1..] == [];
    } else {
      assert (list + [s])[1..] == list[1..] + [s];
      InsertedPush(list[1..], s, marks);
    }
  }

  // ---------- What a section means ----------

  predicate Meets(s: Section, p: Packet) {
    && (if s.proto.Some? then p.proto == s.proto.value else s.needProto ==> p.proto == "tcp" || p.proto == "udp")
    && AllHold(s.tests, p)
  }

  /** A section takes a packet if it names a class with a mark, asks for something, and all it asks for
      holds; ports alone stand for TCP or UDP. */
  predicate Takes(s: Section, marks: Marks, p: Packet) {
    && s.target.Some? && s.target.value in marks && (s.proto.Some? || s.tests != [])
    && Meets(s, p)
  }

  /** The position of the first section that takes the packet, or the length of the list. */
  function First(list: seq<Section>, marks: Marks, p: Packet): (k: nat)
    ensures k <= |list|
    ensures k < |list| ==> Takes(list[k], marks, p)
    ensures forall j :: 0 <= j < k ==> !Takes(list[j], marks, p)
  {
    if list == [] || Takes(list[0], marks, p) then 0 else 1 + First(list[1..], marks, p)
  }

  /** The mark of the first section that takes the packet, or the given one. */
  function Decided(list: seq<Section>, marks: Marks, p: Packet, mark: Bits): Bits {
    var k := First(list, marks, p);
    if k < |list| then marks[list[k].target.value] else mark
  }

  lemma {:induction false} RunConcat(a: seq<Entry>, b: seq<Entry>, p: Packet, mark: Bits, connmark: Bits)
    requires forall k :: 0 <= k < |a| ==> a[k].action.SetMark?
    ensures var r := Run(a, p, mark, connmark); Run(a + b, p, mark, connmark) == Run(b, p, r.0, r.1)
    decreases |a|
  {
    if a == [] {
      assert a + b == b;
    } else {
      assert (a + b)[1..] == a[1..] + b;
      RunConcat(a[1..], b, p, if Fires(a[0], p, mark) then a[0].action.bits else mark, connmark);
    }
  }

  lemma SectionRun(s: Section, marks: Marks, p: Packet, mark: Bits, connmark: Bits)
    ensures Run(EntriesOf(s, marks), p, mark, connmark)
      == (if Takes(s, marks, p) then marks[s.target.value] else mark, connmark)
  {
    hide AllHold, Run;
    Nothing(p, mark, connmark);
    if Usable(s, marks) {
      var bits := marks[s.target.value];
      Nothing(p, bits, connmark);
      if s.proto.None? && s.needProto {
        var udp, tcp := EntryOf(s, Some("udp"), marks), EntryOf(s, Some("tcp"), marks);
        OneStep(tcp, [], p, mark, connmark);
        OneStep(tcp, [], p, bits, connmark);
        OneStep(udp, [tcp], p, mark, connmark);
        assert [tcp] + [] == [tcp] && [udp] + [tcp] == EntriesOf(s, marks);
      } else {
        OneStep(EntryOf(s, s.proto, marks), [], p, mark, connmark);
        assert [EntryOf(s, s.proto, marks)] + [] == EntriesOf(s, marks);
      }
    }
  }

  lemma Nothing(p: Packet, mark: Bits, connmark: Bits)
    ensures Run([], p, mark, connmark) == (mark, connmark)
  {
  }

  lemma OneStep(e: Entry, rest: seq<Entry>, p: Packet, mark: Bits, connmark: Bits)
    ensures Run([e] + rest, p, mark, connmark) ==
      if !Fires(e, p, mark) || e.action.Imq? then Run(rest, p, mark, connmark)
      else if e.action.SetMark? then Run(rest, p, e.action.bits, connmark)
      else if e.action.Return? then (mark, connmark)
      else Run(rest, p, mark, Saved(mark, connmark, e.action.mask))
  {
    assert ([e] + rest)[1..] == rest;
  }

  lemma {:induction false} OnlyMarks(list: seq<Section>, marks: Marks)
    ensures forall k :: 0 <= k < |Inserted(list, marks)| ==> Inserted(list, marks)[k].action.SetMark?
  {
    if list != [] {
      OnlyMarks(list[1..], marks);
    }
  }

  /** Inserted at the head, the first section of the list runs last and so has the last word. */
  lemma {:induction false} InsertedRun(list: seq<Section>, marks: Marks, p: Packet, mark: Bits, connmark: Bits)
    ensures Run(Inserted(list, marks), p, mark, connmark) == (Decided(list, marks, p, mark), connmark)
  {
    hide EntriesOf, Takes;
    if list != [] {
      OnlyMarks(list[1..], marks);
      RunConcat(Inserted(list[1..], marks), EntriesOf(list[0], marks), p, mark, connmark);
      InsertedRun(list[1..], marks, p, mark, connmark);
      SectionRun(list[0], marks, p, Decided(list[1..], marks, p, mark), connmark);
    }
  }

  lemma HeadRun(side: Side, rest: seq<Entry>, p: Packet, mark: Bits, connmark: Bits)
    ensures Run(Head(side) + rest, p, mark, connmark) ==
      if mark == {} then Run(rest, p, side.defaultMark, connmark) else (mark, Saved(mark, connmark, side.mask))
  {
    hide Run;
    var save, leave, default0 := Entry(true, None, [], SaveMark(side.mask)), Entry(true, None, [], Return),
      Entry(false, None, [], SetMark(side.defaultMark));
    var imq := Entry(false, None, [], Imq);
    OneStep(default0, rest, p, mark, connmark);
    OneStep(leave, [default0] + rest, p, mark, connmark);
    OneStep(leave, [default0] + rest, p, mark, Saved(mark, connmark, side.mask));
    OneStep(save, [leave] + ([default0] + rest), p, mark, connmark);
    var three := [save] + ([leave] + ([default0] + rest));
    OneStep(imq, three, p, mark, connmark);
    assert Head(side) + rest == if side.ingress then [imq] + three else three;
  }

  /** Main result: an unmarked packet gets the class of the first section in the list that takes it,
      or the default class; a marked packet keeps its mark. Either mark is saved under the mask. */
  lemma Classifies(list: seq<Section>, marks: Marks, side: Side, p: Packet, mark: Bits, connmark: Bits)
    ensures var m := if mark == {} then Decided(list, marks, p, side.defaultMark) else mark;
      var r := Run(Chain(list, marks, side), p, mark, connmark);
      && r.0 == m
      && (forall b: nat :: b in side.mask ==> (b in r.1 <==> b in m))
      && (forall b: nat :: b !in side.mask ==> (b in r.1 <==> b in connmark))
  {
    hide Run, Head, Inserted, Decided;
    var last := [Entry(false, None, [], SaveMark(side.mask))];
    assert Chain(list, marks, side) == Head(side) + (Inserted(list, marks) + last);
    HeadRun(side, Inserted(list, marks) + last, p, mark, connmark);
    OnlyMarks(list, marks);
    RunConcat(Inserted(list, marks), last, p, side.defaultMark, connmark);
    InsertedRun(list, marks, p, side.defaultMark, connmark);
    LastRun(side.mask, p, Decided(list, marks, p, side.defaultMark), connmark);
  }

  lemma LastRun(mask: Bits, p: Packet, mark: Bits, connmark: Bits)
    ensures Run([Entry(false, None, [], SaveMark(mask))], p, mark, connmark) == (mark, Saved(mark, connmark, mask))
  {
    var es := [Entry(false, None, [], SaveMark(mask))];
    assert es[1..] == [];
  }

  // ---------- By test_order ----------

  function Ordered(sections: seq<Section>): seq<Section> {
    if sections == [] then []
    else (if sections[0].order.Some? then [sections[0]] else []) + Ordered(sections[1..])
  }

  /** The list is the sections that have a test_order, sorted by it. */
  ghost predicate SortedFrom(list: seq<Section>, sections: seq<Section>) {
    && multiset(list) == multiset(Ordered(sections))
    && (forall k :: 0 <= k < |list| ==> list[k].order.Some?)
    && (forall j, k :: 0 <= j < k < |list| ==> list[j].order.value <= list[k].order.value)
  }

  lemma {:induction false} OrderedMembers(sections: seq<Section>, s: Section)
    ensures s in Ordered(sections) <==> s in sections && s.order.Some?
  {
    if sections != [] {
      OrderedMembers(sections[1..], s);
      assert sections == [sections[0]] + sections[1..];
    }
  }

  /** Main result: over all sections of the configuration, the packet goes to a section that takes
      it with the least test_order; only if none with a test_order takes it, to the default class. */
  lemma LeastOrderDecides(sections: seq<Section>, list: seq<Section>, marks: Marks, p: Packet, mark: Bits)
    requires SortedFrom(list, sections)
    ensures (exists s :: s in sections && s.order.Some? && Takes(s, marks, p)) ==>
      exists s :: s in sections && s.order.Some? && Takes(s, marks, p) && Decided(list, marks, p, mark) == marks[s.target.value]
        && forall t :: t in sections && t.order.Some? && Takes(t, marks, p) ==> s.order.value <= t.order.value
    ensures !(exists s :: s in sections && s.order.Some? && Takes(s, marks, p)) ==> Decided(list, marks, p, mark) == mark
  {
    hide Takes, Ordered;
    var k := First(list, marks, p);
    forall s ensures s in list <==> s in sections && s.order.Some? {
      OrderedMembers(sections, s);
      assert s in list <==> s in multiset(list);
    }
    if k < |list| {
      var s := list[k];
      assert s in list && Takes(s, marks, p);
      Takes1(s, marks, p);
      forall t | t in sections && t.order.Some? && Takes(t, marks, p) ensures s.order.value <= t.order.value {
        assert t in list;
        var j :| 0 <= j < |list| && list[j] == t;
      }
    }
  }

  lemma Takes1(s: Section, marks: Marks, p: Packet)
    requires Takes(s, marks, p)
    ensures s.target.Some? && s.target.value in marks
  {
  }
}
