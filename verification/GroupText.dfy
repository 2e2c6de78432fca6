/**
 The text of a group of addresses, where the spaces around the dashes of its ranges are removed by
 replacing pairs of characters again and again until none is left.
 */
module GroupText {
  predicate Occurs(s: string, a: char, b: char) {
    exists i :: 0 <= i < |s| - 1 && s[i] == a && s[i + 1] == b
  }

  /** One pass that replaces every pair of the two characters by a dash. */
  function Squeezed(s: string, a: char, b: char): string {
    if |s| < 2 then s
    else if s[0] == a && s[1] == b then ['-'] + Squeezed(s[2..], a, b)
    else [s[0]] + Squeezed(s[1..], a, b)
  }

  /** The next character other than a space is a dash. */
  predicate DashAhead(s: string) {
    s != "" && (s[0] == '-' || (s[0] == ' ' && DashAhead(s[1..])))
  }

  /** Without the spaces that only other spaces separate from a dash. */
  function Trimmed(s: string, afterDash: bool): string {
    if s == "" then ""
    else if s[0] == ' ' && (afterDash || DashAhead(s)) then Trimmed(s[1..], afterDash)
    else [s[0]] + Trimmed(s[1..], s[0] == '-')
  }

  lemma {:induction false} SqueezedShorter(s: string, a: char, b: char)
    ensures |Squeezed(s, a, b)| <= |s|
    ensures Occurs(s, a, b) ==> |Squeezed(s, a, b)| < |s|
  {
    if |s| >= 2 {
      if s[0] == a && s[1] == b {
        SqueezedShorter(s[2..], a, b);
      } else {
        SqueezedShorter(s[1..], a, b);
        if i :| 0 <= i < |s| - 1 && s[i] == a && s[i + 1] == b {
          assert s[1..][i - 1] == a && s[1..][i] == b;
        }
      }
    }
  }

  predicate DashPair(a: char, b: char) { (a == ' ' && b == '-') || (a == '-' && b == ' ') }

  lemma {:induction false} SqueezedAhead(s: string, a: char, b: char)
    requires DashPair(a, b)
    ensures DashAhead(Squeezed(s, a, b)) == DashAhead(s)
  {
    if |s| >= 2 {
      if s[0] == a && s[1] == b {
        assert Squeezed(s, a, b)[0] == '-';
      } else {
        assert Squeezed(s, a, b)[1..] == Squeezed(s[1..], a, b);
        SqueezedAhead(s[1..], a, b);
      }
    }
  }

  /** A pass removes only spaces that are to go. */
  lemma {:induction false} SqueezedTrims(s: string, a: char, b: char, afterDash: bool)
    requires DashPair(a, b)
    ensures Trimmed(Squeezed(s, a, b), afterDash) == Trimmed(s, afterDash)
    decreases |s|
  {
    if |s| >= 2 {
      var q := Squeezed(s, a, b);
      SqueezedAhead(s, a, b);
      if s[0] == a && s[1] == b {
        assert q[1..] == Squeezed(s[2..], a, b);
        assert s[1..][1..] == s[2..];
        SqueezedTrims(s[2..], a, b, true);
        assert DashAhead(s);
        assert Trimmed(q, afterDash) == ['-'] + Trimmed(s[2..], true);
        if a == ' ' {
          assert Trimmed(s, afterDash) == Trimmed(s[1..], afterDash);
        } else {
          assert Trimmed(s, afterDash) == ['-'] + Trimmed(s[1..], true);
        }
      } else {
        assert q[1..] == Squeezed(s[1..], a, b);
        SqueezedTrims(s[1..], a, b, afterDash);
        SqueezedTrims(s[1..], a, b, s[0] == '-');
      }
    }
  }

  lemma {:induction false} NoDashAhead(s: string)
    requires !Occurs(s, ' ', '-')
    ensures DashAhead(s) ==> s[0] == '-'
  {
    if s != "" && s[0] == ' ' && DashAhead(s[1..]) {
      Tail(s, ' ', '-');
      NoDashAhead(s[1..]);
    }
  }

  lemma Tail(s: string, a: char, b: char)
    requires s != "" && !Occurs(s, a, b)
    ensures !Occurs(s[1..], a, b) && (|s| > 1 ==> !(s[0] == a && s[1] == b))
  {
    if |s| > 1 && s[0] == a && s[1] == b {
      assert false;
    }
    forall i | 0 <= i < |s[1..]| - 1 ensures !(s[1..][i] == a && s[1..][i + 1] == b) {
      assert s[1..][i] == s[i + 1] && s[1..][i + 1] == s[i + 2];
    }
  }

  /** Where no pair is left nothing is to go. */
  lemma {:induction false} NothingToTrim(s: string, afterDash: bool)
    requires !Occurs(s, ' ', '-') && !Occurs(s, '-', ' ') && (afterDash ==> s == "" || s[0] != ' ')
    ensures Trimmed(s, afterDash) == s
  {
    if s != "" {
      NoDashAhead(s);
      Tail(s, ' ', '-');
      Tail(s, '-', ' ');
      NothingToTrim(s[1..], s[0] == '-');
    }
  }

  /** Removing spaces after dashes leaves no space before a dash: the guards of the two loops that
      follow, which test for the same two pairs again, are false from the start. */
  lemma {:induction false} StillNoSpaceBefore(s: string)
    requires !Occurs(s, ' ', '-')
    ensures !Occurs(Squeezed(s, '-', ' '), ' ', '-')
    ensures s != "" ==> Squeezed(s, '-', ' ') != "" && Squeezed(s, '-', ' ')[0] == s[0]
    decreases |s|
  {
    if |s| >= 2 {
      var q := Squeezed(s, '-', ' ');
      Tail(s, ' ', '-');
      var from := if s[0] == '-' && s[1] == ' ' then 2 else 1;
      if from == 2 {
        Tail(s[1..], ' ', '-');
        assert s[1..][1..] == s[2..];
      }
      StillNoSpaceBefore(s[from..]);
      assert q[1..] == Squeezed(s[from..], '-', ' ');
      forall i | 0 <= i < |q| - 1 ensures !(q[i] == ' ' && q[i + 1] == '-') {
        if i > 0 {
          assert q[i] == q[1..][i - 1] && q[i + 1] == q[1..][i];
        }
      }
    }
  }

  /** The first two loops; the guards of the third and the fourth are then false. */
  method RemoveSpaces(text: string) returns (s: string)
    ensures s == Trimmed(text, false)
    ensures !Occurs(s, ' ', '-') && !Occurs(s, '-', ' ')
  {
    hide Trimmed, Squeezed, Occurs;
    s := text;
    while Occurs(s, ' ', '-')
      invariant Trimmed(s, false) == Trimmed(text, false)
      decreases |s|
    {
      SqueezedShorter(s, ' ', '-');
      SqueezedTrims(s, ' ', '-', false);
      s := Squeezed(s, ' ', '-');
    }
    while Occurs(s, '-', ' ')
      invariant Trimmed(s, false) == Trimmed(text, false) && !Occurs(s, ' ', '-')
      decreases |s|
    {
      SqueezedShorter(s, '-', ' ');
      SqueezedTrims(s, '-', ' ', false);
      StillNoSpaceBefore(s);
      s := Squeezed(s, '-', ' ');
    }
    NothingToTrim(s, false);
  }

  predicate Blank(w: string) { forall i :: 0 <= i < |w| ==> w[i] == ' ' }

  predicate Solid(x: char) { x != ' ' && x != '-' }

  /** Whether a dash is ahead is decided before the first other character. */
  lemma {:induction false} AheadStops(u: string, x: char, rest: string)
    requires Solid(x)
    ensures DashAhead(u + [x] + rest) == DashAhead(u + [x])
  {
    if u != "" {
      AheadStops(u[1..], x, rest);
      assert (u + [x] + rest)[1..] == u[1..] + [x] + rest && (u + [x])[1..] == u[1..] + [x];
    }
  }

  lemma {:induction false} BlankStays(w: string, y: char, v: string)
    requires Blank(w) && Solid(y)
    ensures Trimmed(w + [y] + v, false) == w + Trimmed([y] + v, false) && !DashAhead(w + [y] + v)
  {
    if w == "" {
      assert w + [y] + v == [y] + v;
    } else {
      BlankStays(w[1..], y, v);
      assert (w + [y] + v)[1..] == w[1..] + [y] + v;
    }
  }

  /** Spaces between any two characters other than a space and a dash stay, a slash among them: the
      two loops meant for slashes look for dashes. */
  lemma {:induction false} SlashSpacesStay(u: string, x: char, w: string, y: char, v: string, b: bool)
    requires Solid(x) && Solid(y) && Blank(w)
    ensures Trimmed(u + [x] + w + [y] + v, b) == Trimmed(u + [x], b) + w + Trimmed([y] + v, false)
  {
    hide DashAhead;
    var rest := w + [y] + v;
    var s := u + [x] + w + [y] + v;
    assert s == u + [x] + rest;
    if u == "" {
      assert s[1..] == rest && Trimmed([], x == '-') == "" && (u + [x])[1..] == "";
      BlankStays(w, y, v);
    } else {
      AheadStops(u, x, rest);
      assert s[1..] == u[1..] + [x] + w + [y] + v && (u + [x])[1..] == u[1..] + [x];
      SlashSpacesStay(u[1..], x, w, y, v, b);
      SlashSpacesStay(u[1..], x, w, y, v, u[0] == '-');
    }
  }
}
