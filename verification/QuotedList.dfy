/**
 The parser of lists of quoted strings. Quote characters that are escaped do not delimit, and an
 escape character that is itself escaped does not escape. Nothing is de-escaped.

 The reference definition works on the positions of the quotes that count; the method is the two
 passes over the string, with the array of pieces sized by the first.
 */
module QuotedList {
  import opened Common

  datatype Syntax = Syntax(quote: char, escape: char)

  /** A C string: no terminator inside. */
  type CString = s: string | '\0' !in s witness ""

  // ---------- Reference definition ----------

  /** What follows the text is escaped. */
  predicate Armed(s: string, x: Syntax)
    decreases |s|
  {
    var n := |s|;
    n > 0 && s[n - 1] == x.escape && !Armed(s[..n - 1], x)
  }

  /** The length of the run of escapes at the end of the text. */
  function EscapeRun(s: string, x: Syntax): (k: nat)
    ensures k <= |s| && (forall i :: |s| - k <= i < |s| ==> s[i] == x.escape)
    ensures k < |s| ==> s[|s| - k - 1] != x.escape
    decreases |s|
  {
    if s == "" || s[|s| - 1] != x.escape then 0 else 1 + EscapeRun(s[..|s| - 1], x)
  }

  lemma {:induction false} ArmedByParity(s: string, x: Syntax)
    ensures Armed(s, x) <==> EscapeRun(s, x) % 2 == 1
    decreases |s|
  {
    if s != "" {
      ArmedByParity(s[..|s| - 1], x);
    }
  }

  predicate Places(s: string, qs: seq<nat>) {
    && (forall k :: 0 <= k < |qs| ==> qs[k] < |s|)
    && (forall j, k :: 0 <= j < k < |qs| ==> qs[j] < qs[k])
  }

  /** The positions of the quote characters that are not escaped, in order. */
  function Quotes(s: string, x: Syntax): (qs: seq<nat>)
    ensures Places(s, qs)
    decreases |s|
  {
    if s == "" then []
    else
      var n := |s| - 1;
      var before := Quotes(s[..n], x);
      if s[n] == x.quote && !Armed(s[..n], x) then before + [n] else before
  }

  lemma {:induction false} QuotesMember(s: string, x: Syntax, i: nat)
    ensures i in Quotes(s, x) <==> i < |s| && s[i] == x.quote && !Armed(s[..i], x)
    decreases |s|
  {
    if s != "" {
      hide Armed, Places;
      var n := |s| - 1;
      QuotesMember(s[..n], x, i);
      assert i <= n ==> s[..n][..i] == s[..i];
      assert i < n ==> s[..n][i] == s[i];
    }
  }

  /** A quote counts exactly when the run of escapes before it, which may be empty, is of even length. */
  lemma QuotesByParity(s: string, x: Syntax, i: nat)
    ensures i in Quotes(s, x) <==> i < |s| && s[i] == x.quote && EscapeRun(s[..i], x) % 2 == 0
  {
    QuotesMember(s, x, i);
    if i < |s| {
      ArmedByParity(s[..i], x);
    }
  }

  /** Reading one character more. */
  lemma Step(s: string, x: Syntax, i: nat)
    requires i < |s|
    ensures Armed(s[..i + 1], x) == (s[i] == x.escape && !Armed(s[..i], x))
    ensures Quotes(s[..i + 1], x)
      == if s[i] == x.quote && !Armed(s[..i], x) then Quotes(s[..i], x) + [i] else Quotes(s[..i], x)
  {
    hide Places;
    assert s[..i + 1][..i] == s[..i];
  }

  /** What lies between the first two quotes, between the next two, and so on. */
  function Pieces(s: string, qs: seq<nat>): (ps: seq<string>)
    requires Places(s, qs)
    ensures |ps| == |qs| / 2
  {
    if |qs| < 2 then [] else [s[qs[0] + 1..qs[1]]] + Pieces(s, qs[2..])
  }

  /** The pieces, with what follows an unpaired quote if asked for; the whole text if there are none. */
  function Parse(s: string, x: Syntax, addRemainder: bool): seq<string> {
    var qs := Quotes(s, x);
    var rest := if addRemainder && |qs| % 2 == 1 then [s[qs[|qs| - 1] + 1..]] else [];
    var ps := Pieces(s, qs) + rest;
    if ps == [] then [s] else ps
  }

  // ---------- The two passes ----------

  /** What a character pointer shows: everything up to the terminator. */
  function Shown(buf: string): string {
    if buf == "" || buf[0] == '\0' then "" else [buf[0]] + Shown(buf[1..])
  }

  lemma {:induction false} ShownStops(s: CString, rest: string)
    ensures Shown(s + ['\0'] + rest) == s
  {
    if s != "" {
      assert s[0] in s && '\0' !in s[1..];
      ShownStops(s[1..], rest);
      assert (s + ['\0'] + rest)[1..] == s[1..] + ['\0'] + rest;
    } else {
      assert (s + ['\0'] + rest)[0] == '\0';
    }
  }

  /** One more quote closes a piece or opens one. */
  lemma {:induction false} PiecesPush(s: string, qs: seq<nat>, i: nat)
    requires Places(s, qs + [i])
    ensures Places(s, qs)
    ensures |qs| % 2 == 0 ==> Pieces(s, qs + [i]) == Pieces(s, qs)
    ensures |qs| % 2 == 1 ==>
      qs[|qs| - 1] < i < |s| && Pieces(s, qs + [i]) == Pieces(s, qs) + [s[qs[|qs| - 1] + 1..i]]
  {
    FewerPlaces(s, qs, i);
    if |qs| >= 2 {
      assert (qs + [i])[2..] == qs[2..] + [i];
      LaterPlaces(s, qs + [i]);
      PiecesOpen(s, qs);
      PiecesOpen(s, qs + [i]);
      hide Places, Pieces;
      PiecesPush(s, qs[2..], i);
    } else if |qs| == 1 {
      assert (qs + [i])[2..] == [];
    }
  }

  lemma PiecesOpen(s: string, qs: seq<nat>)
    requires Places(s, qs) && |qs| >= 2
    ensures qs[0] < qs[1] < |s| && Places(s, qs[2..])
    ensures Pieces(s, qs) == [s[qs[0] + 1..qs[1]]] + Pieces(s, qs[2..])
  {
  }

  lemma FewerPlaces(s: string, qs: seq<nat>, i: nat)
    requires Places(s, qs + [i])
    ensures Places(s, qs) && i < |s| && forall k :: 0 <= k < |qs| ==> qs[k] < i
  {
    var all := qs + [i];
    assert all[|qs|] == i && forall k :: 0 <= k < |qs| ==> all[k] == qs[k];
  }

  lemma LaterPlaces(s: string, qs: seq<nat>)
    requires Places(s, qs) && |qs| >= 2
    ensures Places(s, qs[2..]) && qs[0] < qs[1] < |s|
  {
  }

  method CountQuotes(s: CString, x: Syntax) returns (n: nat)
    ensures n == |Quotes(s, x)|
  {
    hide Armed, Quotes, Places;
    n := 0;
    var previousIsQuoted := false;
    var i := 0;
    Nothing(s, x);
    while i < |s|
      invariant i <= |s|
      invariant previousIsQuoted == Armed(s[..i], x) && n == |Quotes(s[..i], x)|
    {
      Step(s, x, i);
      if s[i] == x.quote && !previousIsQuoted {
        n := n + 1;
      }
      previousIsQuoted := s[i] == x.escape && !previousIsQuoted;
      i := i + 1;
    }
    assert s[..i] == s;
  }

  lemma Nothing(s: string, x: Syntax)
    ensures !Armed(s[..0], x) && Quotes(s[..0], x) == []
  {
  }

  /** The pieces found so far, and where the open one starts. */
  ghost predicate Filled(s: string, qs: seq<nat>, pieces: array<Option<string>>, used: nat, start: int)
    reads pieces
  {
    && Places(s, qs)
    && used == |qs| / 2 <= pieces.Length
    && (forall k :: 0 <= k < used ==> pieces[k] == Some(Pieces(s, qs)[k]))
    && start == if |qs| % 2 == 1 then qs[|qs| - 1] + 1 else -1
  }

  lemma {:induction false} QuotesGrow(s: string, x: Syntax, i: nat)
    requires i <= |s|
    ensures |Quotes(s[..i], x)| <= |Quotes(s, x)| && Places(s, Quotes(s[..i], x))
    decreases |s| - i
  {
    if i < |s| {
      hide Quotes, Armed;
      Step(s, x, i);
      QuotesGrow(s, x, i + 1);
    } else {
      assert s[..i] == s;
    }
  }

  method Note(s: CString, ghost qs: seq<nat>, pieces: array<Option<string>>, i: nat, used0: nat, start0: int)
    returns (used: nat, start: int)
    requires Filled(s, qs, pieces, used0, start0) && Places(s, qs + [i]) && |qs + [i]| / 2 < pieces.Length
    modifies pieces
    ensures Filled(s, qs + [i], pieces, used, start)
  {
    hide Pieces, Places;
    PiecesPush(s, qs, i);
    FewerPlaces(s, qs, i);
    used, start := used0, start0;
    if start < 0 {
      start := i + 1;
    } else {
      pieces[used] := Some(s[start..i]);
      used := used + 1;
      start := -1;
    }
  }

  /** Second pass: a quote opens a piece or closes the open one, whose place is in the array. */
  method FillPieces(s: CString, x: Syntax, pieces: array<Option<string>>) returns (used: nat, start: int)
    requires pieces.Length == |Quotes(s, x)| / 2 + 2
    modifies pieces
    ensures Filled(s, Quotes(s, x), pieces, used, start)
  {
    used, start := 0, -1;
    var previousIsQuoted := false;
    var i := 0;
    Nothing(s, x);
    hide Armed, Quotes, Places, Pieces;
    QuotesGrow(s, x, 0);
    while i < |s|
      invariant i <= |s| && previousIsQuoted == Armed(s[..i], x)
      invariant Filled(s, Quotes(s[..i], x), pieces, used, start)
    {
      hide Filled;
      Step(s, x, i);
      QuotesGrow(s, x, i + 1);
      if s[i] == x.quote && !previousIsQuoted {
        used, start := Note(s, Quotes(s[..i], x), pieces, i, used, start);
      }
      previousIsQuoted := s[i] == x.escape && !previousIsQuoted;
      i := i + 1;
    }
    assert s[..i] == s;
  }

  /** The open piece, taken up to and including the terminator and then terminated once more. */
  method Remainder(s: CString, start: nat) returns (r: string)
    requires start <= |s|
    ensures r == s[start..]
  {
    var text := s + ['\0'];
    var length := 1 + |s| - start;
    var raw := text[start..start + length] + ['\0'];
    assert raw == s[start..] + ['\0'] + ['\0'];
    ShownStops(s[start..], ['\0']);
    r := Shown(raw);
  }

  /** The list of pieces, up to the terminating NULL. */
  method Listed(pieces: array<Option<string>>, ghost all: seq<string>) returns (r: seq<string>)
    requires |all| < pieces.Length && pieces[|all|].None?
    requires forall j :: 0 <= j < |all| ==> pieces[j] == Some(all[j])
    ensures r == all
  {
    r := [];
    var k := 0;
    while pieces[k].Some?
      invariant k <= |all| && r == all[..k]
      decreases |all| - k
    {
      r := r + [pieces[k].value];
      k := k + 1;
    }
  }

  /** The whole parser: every write, the terminator's included, stays inside the array. */
  method ParseQuotedList(s: CString, x: Syntax, addRemainder: bool) returns (parsed: seq<string>)
    ensures parsed == Parse(s, x, addRemainder)
  {
    hide Quotes, Pieces, Shown;
    var numQuotes := CountQuotes(s, x);
    var pieces := new Option<string>[numQuotes / 2 + 2];
    var used, start := FillPieces(s, x, pieces);
    ghost var qs := Quotes(s, x);
    ghost var all := Pieces(s, qs);
    if addRemainder && start >= 0 {
      var rest := Remainder(s, start);
      pieces[used] := Some(rest);
      used := used + 1;
      all := all + [rest];
    }
    pieces[used] := None;
    if pieces[0].Some? {
      parsed := Listed(pieces, all);
    } else {
      parsed := [s];
    }
  }

  // ---------- Round trip ----------

  /** Text with no quote that counts, which leaves the next character unescaped. */
  predicate Sealed(s: string, x: Syntax) { Quotes(s, x) == [] && !Armed(s, x) }

  /** The items in quotes, with separators before, between and after them. */
  function Render(items: seq<string>, seps: seq<string>, x: Syntax): string
    requires |seps| == |items| + 1
  {
    if items == [] then seps[0]
    else seps[0] + [x.quote] + items[0] + [x.quote] + Render(items[1..], seps[1..], x)
  }

  function Shift(qs: seq<nat>, d: nat): (r: seq<nat>)
    ensures |r| == |qs| && forall k :: 0 <= k < |qs| ==> r[k] == qs[k] + d
  {
    seq(|qs|, k requires 0 <= k < |qs| => qs[k] + d)
  }

  lemma {:induction false} ArmedOn(a: string, b: string, x: Syntax)
    requires !Armed(a, x)
    ensures Armed(a + b, x) == Armed(b, x)
    decreases |b|
  {
    if b == "" {
      assert a + b == a;
    } else {
      var n := |b| - 1;
      ArmedOn(a, b[..n], x);
      assert (a + b)[..|a| + n] == a + b[..n];
    }
  }

  /** Text that leaves the next character unescaped does not influence the reading of what follows. */
  lemma {:induction false} ReadOn(a: string, b: string, x: Syntax)
    requires !Armed(a, x)
    ensures Armed(a + b, x) == Armed(b, x)
    ensures Quotes(a + b, x) == Quotes(a, x) + Shift(Quotes(b, x), |a|)
    decreases |b|
  {
    hide Places, Armed;
    ArmedOn(a, b, x);
    if b == "" {
      assert a + b == a;
    } else {
      var n := |b| - 1;
      ReadOn(a, b[..n], x);
      assert (a + b)[..|a| + n] == a + b[..n];
      assert (a + b)[|a| + n] == b[n];
      ShiftPush(Quotes(b[..n], x), n, |a|);
      assert Quotes(a, x) + Shift(Quotes(b[..n], x) + [n], |a|) == Quotes(a, x) + Shift(Quotes(b[..n], x), |a|) + [|a| + n];
    }
  }

  lemma ShiftPush(qs: seq<nat>, q: nat, d: nat)
    ensures Shift(qs + [q], d) == Shift(qs, d) + [q + d]
  {
  }

  lemma {:induction false} PiecesShift(a: string, b: string, qs: seq<nat>)
    requires Places(b, qs)
    ensures Places(a + b, Shift(qs, |a|)) && Pieces(a + b, Shift(qs, |a|)) == Pieces(b, qs)
  {
    if |qs| >= 2 {
      LaterPlaces(b, qs);
      PiecesShift(a, b, qs[2..]);
      assert Shift(qs, |a|)[2..] == Shift(qs[2..], |a|);
      assert (a + b)[qs[0] + |a| + 1..qs[1] + |a|] == b[qs[0] + 1..qs[1]];
    }
  }

  /** One quote, where the text before it is not about to escape it. */
  lemma OneQuote(a: string, x: Syntax)
    requires !Armed(a, x) && x.quote != x.escape
    ensures Quotes(a + [x.quote], x) == Quotes(a, x) + [|a|] && !Armed(a + [x.quote], x)
  {
    hide Places;
    assert (a + [x.quote])[..|a|] == a;
  }

  /** A separator and a quoted item have exactly the two quotes around the item. */
  lemma QuotedItem(sep: string, item: string, x: Syntax)
    requires Sealed(sep, x) && Sealed(item, x) && x.quote != x.escape
    ensures var a := sep + [x.quote] + item + [x.quote];
      Quotes(a, x) == [|sep|, |sep| + 1 + |item|] && !Armed(a, x)
  {
    hide Places, Quotes, Armed;
    OneQuote(sep, x);
    ReadOn(sep + [x.quote], item, x);
    assert Shift([], |sep| + 1) == [];
    OneQuote(sep + [x.quote] + item, x);
  }

  /** A quoted item in front adds one piece, the item. */
  lemma OneMore(sep: string, item: string, b: string, x: Syntax)
    requires Sealed(sep, x) && Sealed(item, x) && x.quote != x.escape
    ensures var s := sep + [x.quote] + item + [x.quote] + b;
      && |Quotes(s, x)| == 2 + |Quotes(b, x)|
      && Pieces(s, Quotes(s, x)) == [item] + Pieces(b, Quotes(b, x))
  {
    hide Places, Quotes, Armed, Sealed;
    var a := sep + [x.quote] + item + [x.quote];
    QuotedItem(sep, item, x);
    ReadOn(a, b, x);
    PiecesShift(a, b, Quotes(b, x));
    var qs := Quotes(a + b, x);
    assert qs[2..] == Shift(Quotes(b, x), |a|);
    assert (a + b)[|sep| + 1..|sep| + 1 + |item|] == item;
  }

  lemma {:induction false} RenderedPieces(items: seq<string>, seps: seq<string>, x: Syntax)
    requires |seps| == |items| + 1 && x.quote != x.escape
    requires (forall i :: 0 <= i < |items| ==> Sealed(items[i], x)) && forall i :: 0 <= i < |seps| ==> Sealed(seps[i], x)
    ensures var s := Render(items, seps, x);
      |Quotes(s, x)| == 2 * |items| && Pieces(s, Quotes(s, x)) == items
  {
    if items != [] {
      hide Places, Quotes, Armed, Sealed, Pieces;
      RenderedPieces(items[1..], seps[1..], x);
      OneMore(seps[0], items[0], Render(items[1..], seps[1..], x), x);
      assert items == [items[0]] + items[1..];
    } else {
      assert Sealed(seps[0], x);
    }
  }

  /** Main result: parsing any non-empty list of quoted, properly escaped items returns the items,
      whatever stands between them and whether or not a remainder is asked for. */
  lemma RoundTrip(items: seq<string>, seps: seq<string>, x: Syntax, addRemainder: bool)
    requires items != [] && |seps| == |items| + 1 && x.quote != x.escape
    requires (forall i :: 0 <= i < |items| ==> Sealed(items[i], x)) && forall i :: 0 <= i < |seps| ==> Sealed(seps[i], x)
    ensures Parse(Render(items, seps, x), x, addRemainder) == items
  {
    RenderedPieces(items, seps, x);
  }

  lemma {:induction false} RenderedOpen(items: seq<string>, seps: seq<string>, x: Syntax)
    requires |seps| == |items| + 1 && x.quote != x.escape
    requires (forall i :: 0 <= i < |items| ==> Sealed(items[i], x)) && forall i :: 0 <= i < |seps| ==> Sealed(seps[i], x)
    ensures !Armed(Render(items, seps, x), x)
  {
    if items != [] {
      hide Places, Quotes, Armed, Pieces;
      RenderedOpen(items[1..], seps[1..], x);
      QuotedItem(seps[0], items[0], x);
      ArmedOn(seps[0] + [x.quote] + items[0] + [x.quote], Render(items[1..], seps[1..], x), x);
    }
  }

  lemma {:induction false} PiecesBefore(a: string, b: string, qs: seq<nat>)
    requires Places(a, qs)
    ensures Places(a + b, qs) && Pieces(a + b, qs) == Pieces(a, qs)
  {
    if |qs| >= 2 {
      LaterPlaces(a, qs);
      PiecesBefore(a, b, qs[2..]);
      assert (a + b)[qs[0] + 1..qs[1]] == a[qs[0] + 1..qs[1]];
    }
  }

  /** The quotes of an unpaired one in the end, and the pieces before it. */
  lemma OpenPiece(a: string, tail: string, x: Syntax)
    requires !Armed(a, x) && x.quote != x.escape && |Quotes(a, x)| % 2 == 0 && Quotes(tail, x) == []
    ensures var s := a + [x.quote] + tail;
      && Quotes(s, x) == Quotes(a, x) + [|a|]
      && Pieces(s, Quotes(s, x)) == Pieces(a, Quotes(a, x))
  {
    hide Places, Quotes, Armed, Pieces;
    var qs := Quotes(a, x);
    var s := a + [x.quote] + tail;
    OneQuote(a, x);
    ReadOn(a + [x.quote], tail, x);
    assert Shift([], |a| + 1) == [];
    assert Quotes(s, x) == qs + [|a|];
    assert s == a + ([x.quote] + tail);
    PiecesBefore(a, [x.quote] + tail, qs);
    PiecesPush(s, qs, |a|);
  }

  /** Main result: what follows an unpaired quote comes last if a remainder is asked for, and is lost
      otherwise; only without any item before it the whole text comes back instead. */
  lemma RemainderComesLast(items: seq<string>, seps: seq<string>, tail: string, x: Syntax)
    requires |seps| == |items| + 1 && x.quote != x.escape && Quotes(tail, x) == []
    requires (forall i :: 0 <= i < |items| ==> Sealed(items[i], x)) && forall i :: 0 <= i < |seps| ==> Sealed(seps[i], x)
    ensures var s := Render(items, seps, x) + [x.quote] + tail;
      && Parse(s, x, true) == items + [tail]
      && Parse(s, x, false) == if items == [] then [s] else items
  {
    hide Places, Quotes, Armed, Pieces, Sealed;
    var a := Render(items, seps, x);
    RenderedPieces(items, seps, x);
    RenderedOpen(items, seps, x);
    OpenPiece(a, tail, x);
    var s := a + [x.quote] + tail;
    assert s[|a| + 1..] == tail;
    assert items + [] == items;
  }

  // ---------- What comes out is properly escaped ----------

  lemma NoQuoteBetween(s: string, x: Syntax, from: nat, to: nat)
    requires from <= to <= |s| && !Armed(s[..from], x) && !Armed(s[..to], x)
    requires forall i :: from <= i < to ==> i !in Quotes(s, x)
    ensures Sealed(s[from..to], x)
  {
    hide Places, Quotes, Armed;
    var a, b := s[..from], s[from..to];
    assert a + b == s[..to];
    ArmedOn(a, b, x);
    if Quotes(b, x) != [] {
      var q := Quotes(b, x)[0];
      assert q in Quotes(b, x);
      QuotesMember(b, x, q);
      ArmedOn(a, b[..q], x);
      assert a + b[..q] == s[..from + q];
      QuotesMember(s, x, from + q);
      assert false;
    }
  }

  /** A quote that counts leaves the next character unescaped. */
  lemma AfterQuote(s: string, x: Syntax, i: nat)
    requires i in Quotes(s, x) && x.quote != x.escape
    ensures i < |s| && !Armed(s[..i], x) && !Armed(s[..i + 1], x)
  {
    hide Places, Quotes, Armed;
    QuotesMember(s, x, i);
    Step(s, x, i);
  }

  lemma {:induction false} PieceAt(s: string, qs: seq<nat>, k: nat)
    requires Places(s, qs) && k < |qs| / 2
    ensures Pieces(s, qs)[k] == s[qs[2 * k] + 1..qs[2 * k + 1]]
  {
    LaterPlaces(s, qs);
    if k > 0 {
      hide Places;
      PieceAt(s, qs[2..], k - 1);
    }
  }

  /** Every piece of every text is properly escaped. */
  lemma PiecesSealed(s: string, x: Syntax, k: nat)
    requires x.quote != x.escape && k < |Quotes(s, x)| / 2
    ensures Sealed(Pieces(s, Quotes(s, x))[k], x)
  {
    hide Places, Quotes, Armed, Pieces, Sealed;
    var qs := Quotes(s, x);
    PieceAt(s, qs, k);
    var from, to := qs[2 * k], qs[2 * k + 1];
    assert from in qs && to in qs;
    AfterQuote(s, x, from);
    AfterQuote(s, x, to);
    NothingBetween(s, qs, k);
    NoQuoteBetween(s, x, from + 1, to);
  }

  lemma NothingBetween(s: string, qs: seq<nat>, k: nat)
    requires Places(s, qs) && 2 * k + 1 < |qs|
    ensures qs[2 * k] < qs[2 * k + 1] && forall i :: qs[2 * k] < i < qs[2 * k + 1] ==> i !in qs
  {
    forall j | 0 <= j < |qs| ensures qs[j] <= qs[2 * k] || qs[j] >= qs[2 * k + 1] {
    }
  }

  /** Parsing is stable: the pieces of any text with a pair of quotes, quoted again with any
      separators, parse to the same pieces. */
  lemma ReparseStable(s: string, seps: seq<string>, x: Syntax, addRemainder: bool)
    requires x.quote != x.escape && |Quotes(s, x)| >= 2 && |Quotes(s, x)| % 2 == 0
    requires |seps| == |Quotes(s, x)| / 2 + 1 && forall i :: 0 <= i < |seps| ==> Sealed(seps[i], x)
    ensures Parse(Render(Parse(s, x, true), seps, x), x, addRemainder) == Parse(s, x, true)
  {
    hide Places, Quotes, Armed, Pieces, Sealed;
    var ps := Pieces(s, Quotes(s, x));
    assert Parse(s, x, true) == ps;
    forall k | 0 <= k < |ps| ensures Sealed(ps[k], x) {
      PiecesSealed(s, x, k);
    }
    RoundTrip(ps, seps, x, addRemainder);
  }

  // ---------- One character for both roles ----------

  function CountOf(s: string, c: char): nat
    decreases |s|
  {
    if s == "" then 0 else CountOf(s[..|s| - 1], c) + if s[|s| - 1] == c then 1 else 0
  }

  lemma {:induction false} CountConcat(a: string, b: string, c: char)
    ensures CountOf(a + b, c) == CountOf(a, c) + CountOf(b, c)
    decreases |b|
  {
    if b == "" {
      assert a + b == a;
    } else {
      CountConcat(a, b[..|b| - 1], c);
      assert (a + b)[..|a + b| - 1] == a + b[..|b| - 1];
    }
  }

  lemma {:induction false} CountNone(s: string, c: char)
    requires c !in s
    ensures CountOf(s, c) == 0
    decreases |s|
  {
    if s != "" {
      CountNone(s[..|s| - 1], c);
    }
  }

  predicate Doubled(s: string, c: char) { exists i :: 0 <= i < |s| - 1 && s[i] == c && s[i + 1] == c }

  /** Each occurrence counts at most once, and of two in a row one is lost. */
  lemma {:induction false} FewerQuotes(s: string, c: char)
    ensures |Quotes(s, Syntax(c, c))| <= CountOf(s, c)
    ensures Doubled(s, c) ==> |Quotes(s, Syntax(c, c))| < CountOf(s, c)
    ensures s != "" && s[|s| - 1] == c && Armed(s[..|s| - 1], Syntax(c, c)) ==> |Quotes(s, Syntax(c, c))| < CountOf(s, c)
    decreases |s|
  {
    if s != "" {
      hide Places;
      var f := s[..|s| - 1];
      FewerQuotes(f, c);
      if i :| 0 <= i < |s| - 1 && s[i] == c && s[i + 1] == c {
        if i < |f| - 1 {
          assert f[i] == c && f[i + 1] == c;
        } else {
          assert f[|f| - 1] == c;
        }
      }
    }
  }

  /** A character that plays no role makes what follows independent of what came before. */
  lemma {:induction false} ReadAfterQuote(a: string, b: string, x: Syntax)
    requires b == "" || (b[0] != x.quote && b[0] != x.escape)
    ensures b != "" ==> Armed(a + b, x) == Armed(b, x)
    ensures Quotes(a + b, x) == Quotes(a, x) + Shift(Quotes(b, x), |a|)
    decreases |b|
  {
    hide Places;
    if b == "" {
      assert a + b == a && Shift([], |a|) == [];
    } else {
      var n := |b| - 1;
      ReadAfterQuote(a, b[..n], x);
      assert (a + b)[..|a| + n] == a + b[..n];
      assert (a + b)[|a| + n] == b[n];
      ShiftPush(Quotes(b[..n], x), n, |a|);
      assert Quotes(a, x) + Shift(Quotes(b[..n], x) + [n], |a|) == Quotes(a, x) + Shift(Quotes(b[..n], x), |a|) + [|a| + n];
    }
  }

  lemma {:induction false} NoneInside(s: string, c: char)
    requires c !in s
    ensures Sealed(s, Syntax(c, c))
    decreases |s|
  {
    if s != "" {
      NoneInside(s[..|s| - 1], c);
    }
  }

  predicate NoneOf(ts: seq<string>, c: char) { forall i :: 0 <= i < |ts| ==> c !in ts[i] }

  /** No item is empty, and no separator between two items. */
  predicate Apart(items: seq<string>, seps: seq<string>)
    requires |seps| == |items| + 1
  {
    (forall i :: 0 <= i < |items| ==> items[i] != "") && forall i :: 1 <= i < |items| ==> seps[i] != ""
  }

  lemma {:induction false} CountRendered(items: seq<string>, seps: seq<string>, c: char)
    requires |seps| == |items| + 1 && NoneOf(items, c) && NoneOf(seps, c)
    ensures CountOf(Render(items, seps, Syntax(c, c)), c) == 2 * |items|
  {
    assert c !in seps[0];
    CountNone(seps[0], c);
    if items != [] {
      CountRendered(items[1..], seps[1..], c);
      assert c !in items[0];
      CountNone(items[0], c);
      var rest := Render(items[1..], seps[1..], Syntax(c, c));
      CountConcat(seps[0], [c], c);
      CountConcat(seps[0] + [c], items[0], c);
      CountConcat(seps[0] + [c] + items[0], [c], c);
      CountConcat(seps[0] + [c] + items[0] + [c], rest, c);
    }
  }

  lemma {:induction false} DoubledRendered(items: seq<string>, seps: seq<string>, c: char)
    requires |seps| == |items| + 1 && !Apart(items, seps)
    ensures Doubled(Render(items, seps, Syntax(c, c)), c)
  {
    var s := Render(items, seps, Syntax(c, c));
    var rest := Render(items[1..], seps[1..], Syntax(c, c));
    var front := seps[0] + [c] + items[0] + [c];
    assert s == front + rest;
    if items[0] == "" {
      assert s[|seps[0]|] == c && s[|seps[0]| + 1] == c;
    } else if |items| > 1 && seps[1] == "" {
      assert rest[0] == c;
      assert s[|front| - 1] == c && s[|front|] == c;
    } else {
      forall i | 0 <= i < |items| - 1 ensures items[1..][i] == items[i + 1] && seps[1..][i] == seps[i + 1] {
      }
      assert !Apart(items[1..], seps[1..]);
      DoubledRendered(items[1..], seps[1..], c);
      var i :| 0 <= i < |rest| - 1 && rest[i] == c && rest[i + 1] == c;
      assert s[|front| + i] == c && s[|front| + i + 1] == c;
    }
  }

  /** A quoted item in front adds one piece, provided it is not empty and another quote does not
      follow at once. */
  lemma OneMoreApart(sep: string, item: string, b: string, c: char)
    requires c !in sep && c !in item && item != "" && (b == "" || b[0] != c)
    ensures var s := sep + [c] + item + [c] + b; var x := Syntax(c, c);
      |Quotes(s, x)| == 2 + |Quotes(b, x)| && Pieces(s, Quotes(s, x)) == [item] + Pieces(b, Quotes(b, x))
  {
    hide Places, Quotes, Armed;
    var x := Syntax(c, c);
    var a := sep + [c] + item + [c];
    ApartQuotes(sep, item, c);
    ReadAfterQuote(a, b, x);
    PiecesShift(a, b, Quotes(b, x));
    var qs := Quotes(a + b, x);
    assert qs[2..] == Shift(Quotes(b, x), |a|);
    assert (a + b)[|sep| + 1..|sep| + 1 + |item|] == item;
  }

  lemma ApartQuotes(sep: string, item: string, c: char)
    requires c !in sep && c !in item && item != ""
    ensures Quotes(sep + [c] + item + [c], Syntax(c, c)) == [|sep|, |sep| + 1 + |item|]
  {
    hide Places;
    var x := Syntax(c, c);
    NoneInside(sep, c);
    NoneInside(item, c);
    assert (sep + [c])[..|sep|] == sep;
    ReadAfterQuote(sep + [c], item, x);
    assert Shift([], |sep| + 1) == [];
    assert (sep + [c] + item + [c])[..|sep| + 1 + |item|] == sep + [c] + item;
  }

  lemma {:induction false} ApartPieces(items: seq<string>, seps: seq<string>, c: char)
    requires |seps| == |items| + 1 && NoneOf(items, c) && NoneOf(seps, c) && Apart(items, seps)
    ensures var x := Syntax(c, c); var s := Render(items, seps, x);
      |Quotes(s, x)| == 2 * |items| && Pieces(s, Quotes(s, x)) == items
  {
    assert c !in seps[0];
    NoneInside(seps[0], c);
    if items != [] {
      hide Places, Quotes, Armed, Pieces;
      forall i | 0 <= i < |items| - 1 ensures items[1..][i] == items[i + 1] && seps[1..][i] == seps[i + 1] {
      }
      ApartPieces(items[1..], seps[1..], c);
      assert c !in items[0] && items[0] != "";
      var b := Render(items[1..], seps[1..], Syntax(c, c));
      assert c !in seps[1];
      assert |items| > 1 ==> seps[1] != "" && b[0] == seps[1][0];
      OneMoreApart(seps[0], items[0], b, c);
      assert items == [items[0]] + items[1..];
    }
  }

  /** With one character for both roles the round trip holds exactly when no item is empty and no two
      items touch: of two quotes in a row the second is taken as escaped by the first. */
  lemma OneCharacterForBoth(items: seq<string>, seps: seq<string>, c: char)
    requires items != [] && |seps| == |items| + 1 && NoneOf(items, c) && NoneOf(seps, c)
    ensures var x := Syntax(c, c);
      Parse(Render(items, seps, x), x, false) == items <==> Apart(items, seps)
  {
    hide Quotes, Pieces, Armed;
    var x := Syntax(c, c);
    var s := Render(items, seps, x);
    if Apart(items, seps) {
      ApartPieces(items, seps, c);
    } else {
      DoubledRendered(items, seps, c);
      FewerQuotes(s, c);
      CountRendered(items, seps, c);
      var i :| 0 <= i < |s| - 1 && s[i] == c && s[i + 1] == c;
      assert s[i] in s;
    }
  }

  // ---------- The limits ----------

  /** The empty list cannot be told from its separator. */
  lemma EmptyListComesBackWhole(sep: string, x: Syntax)
    requires Sealed(sep, x)
    ensures Parse(Render([], [sep], x), x, false) == [sep]
  {
  }
}
