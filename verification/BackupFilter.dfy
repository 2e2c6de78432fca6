/**
 Restoring the usage of "all others" from a backup: addresses that have since been given a quota of
 their own are left out. A group of addresses is a text of addresses, ranges and subnets; the loaded
 array is turned into a list, filtered once for every range, and rebuilt by popping the list.

 Splitting a text and reading an address are library calls, taken as parameters.
 */
module BackupFilter {
  import opened GroupText
  import opened Subnets

  datatype Usage = Usage(ip: Ip, bytes: nat)

  /** One word of a group: an address, a subnet by prefix length or by mask, or a range. */
  datatype Word = One(a: Ip) | Sized(a: Ip, size: Size) | Masked(a: Ip, mask: Ip) | Span(a: Ip, b: Ip)

  datatype Library = Library(split: string -> seq<string>, read: string -> Word)

  // ---------- Ranges ----------

  function StartOf(w: Word): Ip {
    match w
    case Sized(a, size) => First(a, PrefixMask(size))
    case Masked(a, mask) => First(a, mask)
    case _ => w.a
  }

  function EndOf(w: Word): Ip {
    match w
    case Sized(a, size) => Last(a, PrefixMask(size))
    case Masked(a, mask) => Last(a, mask)
    case Span(_, b) => b
    case One(a) => a
  }

  method IpRangeToHostInts(w: Word) returns (start: Ip, end: Ip)
    ensures start == StartOf(w) && end == EndOf(w)
  {
    hide First, Last, PrefixMask;
    start := w.a;
    match w {
      case Sized(_, size) =>
        var mask := MaskOfSize(size);
        start, end := Subnet(start, mask);
      case Masked(_, mask) =>
        start, end := Subnet(start, mask);
      case Span(_, b) =>
        end := b;
      case One(_) =>
        end := start;
    }
  }

  /** What a word of a group means, independently of the range computed for it. */
  predicate Covers(w: Word, ip: Ip) {
    match w
    case One(a) => ip == a
    case Sized(a, size) => Agree(ip, a, PrefixMask(size))
    case Masked(a, mask) => Agree(ip, a, mask)
    case Span(a, b) => Between(a, ip, b)
  }

  predicate InRange(w: Word, ip: Ip) { Between(StartOf(w), ip, EndOf(w)) }

  /** For every word but a mask with a gap, the range holds exactly the addresses meant. */
  lemma RangeCovers(w: Word, ip: Ip)
    requires w.Masked? ==> Contiguous(w.mask)
    ensures InRange(w, ip) <==> Covers(w, ip)
  {
    hide Contiguous, First, Last, Agree, PrefixMask, Between;
    match w
    case Sized(a, size) =>
      SizeIsContiguous(size);
      RangeIsSubnet(a, PrefixMask(size));
      assert InRange(w, ip) == Within(ip, a, PrefixMask(size));
    case Masked(a, mask) =>
      RangeIsSubnet(a, mask);
      assert InRange(w, ip) == Within(ip, a, mask);
    case Span(_, _) =>
    case One(a) =>
      OnlyOne(ip, a);
  }

  // ---------- The filter ----------

  /** The words of a group's text. */
  function Words(group: string, lib: Library): seq<string> { lib.split(Trimmed(group, false)) }

  predicate Hit(words: seq<string>, lib: Library, ip: Ip) {
    exists i :: 0 <= i < |words| && InRange(lib.read(words[i]), ip)
  }

  function Outside(list: seq<Usage>, words: seq<string>, lib: Library): seq<Usage> {
    if list == [] then []
    else (if Hit(words, lib, list[0].ip) then [] else [list[0]]) + Outside(list[1..], words, lib)
  }

  lemma {:induction false} OutsideAll(list: seq<Usage>, words: seq<string>, lib: Library)
    ensures words == [] ==> Outside(list, words, lib) == list
    ensures |Outside(list, words, lib)| <= |list|
    ensures |Outside(list, words, lib)| == |list| ==> Outside(list, words, lib) == list
  {
    if list != [] {
      OutsideAll(list[1..], words, lib);
    }
  }

  lemma {:induction false} OutsidePush(list: seq<Usage>, u: Usage, words: seq<string>, lib: Library)
    ensures Outside(list + [u], words, lib) == Outside(list, words, lib) + if Hit(words, lib, u.ip) then [] else [u]
  {
    hide Hit;
    if list == [] {
      assert [] + [u] == [u] && [u][1..] == [];
    } else {
      assert (list + [u])[1..] == list[1..] + [u];
      OutsidePush(list[1..], u, words, lib);
    }
  }

  /** Filtering by some words and then by others is filtering by all. */
  lemma {:induction false} OutsideTwice(list: seq<Usage>, a: seq<string>, b: seq<string>, lib: Library)
    ensures Outside(Outside(list, a, lib), b, lib) == Outside(list, a + b, lib)
  {
    if list != [] {
      HitConcat(a, b, lib, list[0].ip);
      hide Hit;
      var rest := Outside(list[1..], a, lib);
      OutsideTwice(list[1..], a, b, lib);
      if Hit(a, lib, list[0].ip) {
        assert Outside(list, a, lib) == rest;
      } else {
        assert ([list[0]] + rest)[1..] == rest;
      }
    }
  }

  lemma HitConcat(a: seq<string>, b: seq<string>, lib: Library, ip: Ip)
    ensures Hit(a + b, lib, ip) <==> Hit(a, lib, ip) || Hit(b, lib, ip)
  {
    hide InRange;
    if i :| 0 <= i < |a| && InRange(lib.read(a[i]), ip) {
      assert InRange(lib.read((a + b)[i]), ip);
    }
    if i :| 0 <= i < |b| && InRange(lib.read(b[i]), ip) {
      assert InRange(lib.read((a + b)[|a| + i]), ip);
    }
  }

  lemma HitOne(word: string, lib: Library, ip: Ip)
    ensures Hit([word], lib, ip) == InRange(lib.read(word), ip)
  {
    hide InRange;
    if InRange(lib.read(word), ip) {
      assert InRange(lib.read([word][0]), ip);
    }
  }

  /** Shifts every entry off the list, pushing those out of range onto a new one. */
  method FilterWord(list: seq<Usage>, word: string, lib: Library) returns (filtered: seq<Usage>)
    ensures filtered == Outside(list, [word], lib)
  {
    hide Hit, StartOf, EndOf, Between;
    var start, end := IpRangeToHostInts(lib.read(word));
    var rest := list;
    filtered := [];
    while |rest| > 0
      invariant filtered + Outside(rest, [word], lib) == Outside(list, [word], lib)
      decreases |rest|
    {
      var next := rest[0];
      rest := rest[1..];
      HitOne(word, lib, next.ip);
      if Between(start, next.ip, end) {
      } else {
        filtered := filtered + [next];
      }
    }
  }

  method FilterGroupFromList(list: seq<Usage>, group: string, lib: Library) returns (filtered: seq<Usage>)
    ensures filtered == Outside(list, Words(group, lib), lib)
  {
    hide Outside, Trimmed, Occurs;
    var text := RemoveSpaces(group);
    var words := lib.split(text);
    filtered := list;
    OutsideAll(list, [], lib);
    var k := 0;
    while k < |words|
      invariant k <= |words| && filtered == Outside(list, words[..k], lib)
    {
      OutsideTwice(list, words[..k], [words[k]], lib);
      assert words[..k + 1] == words[..k] + [words[k]];
      filtered := FilterWord(filtered, words[k], lib);
      k := k + 1;
    }
    assert words[..k] == words;
  }

  function AllWords(groups: seq<string>, lib: Library): seq<string> {
    if groups == [] then [] else AllWords(groups[..|groups| - 1], lib) + Words(groups[|groups| - 1], lib)
  }

  method FilterGroups(list: seq<Usage>, groups: seq<string>, lib: Library) returns (filtered: seq<Usage>)
    ensures filtered == Outside(list, AllWords(groups, lib), lib)
  {
    hide Outside, Words;
    filtered := list;
    OutsideAll(list, [], lib);
    var g := 0;
    while g < |groups|
      invariant g <= |groups| && filtered == Outside(list, AllWords(groups[..g], lib), lib)
    {
      assert groups[..g + 1][..g] == groups[..g];
      OutsideTwice(list, AllWords(groups[..g], lib), Words(groups[g], lib), lib);
      filtered := FilterGroupFromList(filtered, groups[g], lib);
      g := g + 1;
    }
    assert groups[..g] == groups;
  }

  /** Fills an array from its end by popping the list, with one place to spare. */
  method Rebuild(list: seq<Usage>) returns (adjusted: array<Usage>)
    ensures fresh(adjusted) && adjusted.Length == |list| + 1 && adjusted[..|list|] == list
  {
    adjusted := new Usage[|list| + 1](_ => Usage(0, 0));
    var rest := list;
    while |rest| > 0
      invariant |rest| <= |list| && rest == list[..|rest|]
      invariant forall i :: |rest| <= i < |list| ==> adjusted[i] == list[i]
    {
      var next := rest[|rest| - 1];
      rest := rest[..|rest| - 1];
      adjusted[|rest|] := next;
    }
  }

  /** The usage handed to the kernel: the loaded entries, or for individual others those outside
      every group with a quota of its own, in the order they were loaded. */
  method RestoreBackupForId(loaded: array<Usage>, count: nat, isIndividualOther: bool, groups: seq<string>, lib: Library)
    returns (data: array<Usage>, n: nat)
    requires count <= loaded.Length
    ensures n <= data.Length
    ensures data[..n] == if isIndividualOther then Outside(loaded[..count], AllWords(groups, lib), lib) else loaded[..count]
  {
    hide Outside, AllWords;
    data, n := loaded, count;
    if isIndividualOther {
      var list: seq<Usage> := [];
      var i := 0;
      while i < count
        invariant i <= count && list == loaded[..i]
      {
        list := list + [loaded[i]];
        i := i + 1;
      }
      OutsideAll(list, AllWords(groups, lib), lib);
      list := FilterGroups(list, groups, lib);
      if n != |list| {
        n := |list|;
        data := Rebuild(list);
      }
    }
  }

  // ---------- What is restored ----------

  /** The addresses of the defined groups. */
  ghost predicate Defined(groups: seq<string>, lib: Library, ip: Ip) {
    exists g :: 0 <= g < |groups| && MeantBy(lib.split(Trimmed(groups[g], false)), lib, ip)
  }

  ghost predicate MeantBy(words: seq<string>, lib: Library, ip: Ip) {
    exists i :: 0 <= i < |words| && Covers(lib.read(words[i]), ip)
  }

  ghost predicate NoGap(word: string, lib: Library) {
    lib.read(word).Masked? ==> Contiguous(lib.read(word).mask)
  }

  ghost predicate NoGaps(groups: seq<string>, lib: Library) {
    forall g, i :: 0 <= g < |groups| && 0 <= i < |Words(groups[g], lib)| ==> NoGap(Words(groups[g], lib)[i], lib)
  }

  lemma HitMeans(words: seq<string>, lib: Library, ip: Ip)
    requires forall i :: 0 <= i < |words| ==> NoGap(words[i], lib)
    ensures Hit(words, lib, ip) <==> MeantBy(words, lib, ip)
  {
    hide InRange, Covers;
    forall i | 0 <= i < |words| ensures InRange(lib.read(words[i]), ip) <==> Covers(lib.read(words[i]), ip) {
      assert NoGap(words[i], lib);
      RangeCovers(lib.read(words[i]), ip);
    }
  }

  lemma {:induction false} AllHitMeans(groups: seq<string>, lib: Library, ip: Ip)
    requires NoGaps(groups, lib)
    ensures Hit(AllWords(groups, lib), lib, ip) <==> Defined(groups, lib, ip)
  {
    hide Hit, MeantBy, Trimmed, NoGap;
    if groups == [] {
      NoHit(lib, ip);
    } else {
      var k := |groups| - 1;
      AllHitMeans(groups[..k], lib, ip);
      HitConcat(AllWords(groups[..k], lib), Words(groups[k], lib), lib, ip);
      HitMeans(Words(groups[k], lib), lib, ip);
      if Defined(groups, lib, ip) {
        var g :| 0 <= g < |groups| && MeantBy(lib.split(Trimmed(groups[g], false)), lib, ip);
        if g < k { assert groups[..k][g] == groups[g]; }
      }
      if Defined(groups[..k], lib, ip) {
        var g :| 0 <= g < k && MeantBy(lib.split(Trimmed(groups[..k][g], false)), lib, ip);
        assert groups[..k][g] == groups[g];
      }
    }
  }

  lemma NoHit(lib: Library, ip: Ip)
    ensures !Hit([], lib, ip)
  {
  }

  /** The entries outside all defined groups, in order. */
  ghost function Rest(list: seq<Usage>, groups: seq<string>, lib: Library): seq<Usage> {
    if list == [] then []
    else (if Defined(groups, lib, list[0].ip) then [] else [list[0]]) + Rest(list[1..], groups, lib)
  }

  /** Main result: what is restored is the in-order subsequence outside every defined group, when
      no group uses a mask with a gap. */
  lemma {:induction false} RestoresTheRest(list: seq<Usage>, groups: seq<string>, lib: Library)
    requires NoGaps(groups, lib)
    ensures Outside(list, AllWords(groups, lib), lib) == Rest(list, groups, lib)
  {
    hide Hit, Defined, AllWords, NoGaps;
    if list != [] {
      AllHitMeans(groups, lib, list[0].ip);
      RestoresTheRest(list[1..], groups, lib);
    }
  }
}
