/** The matcher of grep.c and the language of its patterns: literals, '.', '*', a leading '^' and a
    final '$'.  Strings are what stands before the terminating NUL. */
module Grep {

  // ----- what a pattern means -----

  datatype Item = One(c: char) | Star(c: char)

  /** A pattern without its '^': items in order, and whether it must end at the end of the text. */
  datatype Pattern = Pattern(items: seq<Item>, atEnd: bool)

  predicate Fits(c: char, x: char) { c == '.' || c == x }

  ghost predicate Piece(it: Item, s: seq<char>) {
    match it
    case One(c) => |s| == 1 && Fits(c, s[0])
    case Star(c) => forall k | 0 <= k < |s| :: Fits(c, s[k])
  }

  function Concat(ps: seq<seq<char>>): seq<char> { if ps == [] then [] else ps[0] + Concat(ps[1..]) }

  /** s is cut into one piece for every item. */
  ghost predicate Cut(items: seq<Item>, ps: seq<seq<char>>, s: seq<char>) {
    |ps| == |items| && Concat(ps) == s && forall i | 0 <= i < |items| :: Piece(items[i], ps[i])
  }

  ghost predicate InLanguage(items: seq<Item>, s: seq<char>) { exists ps :: Cut(items, ps, s) }

  /** Some prefix of the text, the whole of it for a pattern with '$', is in the language. */
  ghost predicate PrefixMatches(p: Pattern, text: seq<char>) {
    exists j :: 0 <= j <= |text| && InLanguage(p.items, text[..j]) && (p.atEnd ==> j == |text|)
  }

  /** A character before '*' is starred; '$' is special at the very end only. */
  function Read(re: seq<char>): Pattern {
    if re == [] then Pattern([], false)
    else if |re| >= 2 && re[1] == '*' then
      var p := Read(re[2..]);
      Pattern([Star(re[0])] + p.items, p.atEnd)
    else if re == ['$'] then Pattern([], true)
    else
      var p := Read(re[1..]);
      Pattern([One(re[0])] + p.items, p.atEnd)
  }

  /** The text has a substring in the pattern's language, at its start if the pattern begins with '^'. */
  ghost predicate Matches(re: seq<char>, text: seq<char>) {
    if re != [] && re[0] == '^' then PrefixMatches(Read(re[1..]), text)
    else exists i :: 0 <= i <= |text| && PrefixMatches(Read(re), text[i..])
  }

  // ----- how matching decomposes -----

  lemma CutFirst(it: Item, items: seq<Item>, s: seq<char>)
    ensures InLanguage([it] + items, s) <==> exists k :: 0 <= k <= |s| && Piece(it, s[..k]) && InLanguage(items, s[k..])
  {
    if InLanguage([it] + items, s) {
      var ps :| Cut([it] + items, ps, s);
      var k := |ps[0]|;
      assert s[..k] == ps[0] && s[k..] == Concat(ps[1..]);
      assert Piece(([it] + items)[0], ps[0]);
      forall i | 0 <= i < |items|
        ensures Piece(items[i], ps[1..][i])
      {
        assert ([it] + items)[i + 1] == items[i];
      }
      assert Cut(items, ps[1..], s[k..]);
    }
    if k :| 0 <= k <= |s| && Piece(it, s[..k]) && InLanguage(items, s[k..]) {
      var ps :| Cut(items, ps, s[k..]);
      var qs := [s[..k]] + ps;
      assert qs[1..] == ps && Concat(qs) == s[..k] + s[k..];
      assert Cut([it] + items, qs, s);
    }
  }

  /** A pattern matches here if its first item takes some prefix and the rest matches what is left. */
  lemma PrefixSplits(it: Item, p: Pattern, text: seq<char>)
    ensures PrefixMatches(Pattern([it] + p.items, p.atEnd), text) <==>
      exists k :: 0 <= k <= |text| && Piece(it, text[..k]) && PrefixMatches(p, text[k..])
  {
    var whole := Pattern([it] + p.items, p.atEnd);
    if PrefixMatches(whole, text) {
      var j :| 0 <= j <= |text| && InLanguage(whole.items, text[..j]) && (p.atEnd ==> j == |text|);
      CutFirst(it, p.items, text[..j]);
      var k :| 0 <= k <= j && Piece(it, text[..j][..k]) && InLanguage(p.items, text[..j][k..]);
      assert text[..j][..k] == text[..k] && text[..j][k..] == text[k..][..j - k];
      assert PrefixMatches(p, text[k..]);
    }
    if k :| 0 <= k <= |text| && Piece(it, text[..k]) && PrefixMatches(p, text[k..]) {
      var i :| 0 <= i <= |text| - k && InLanguage(p.items, text[k..][..i]) && (p.atEnd ==> i == |text| - k);
      var j := k + i;
      assert text[..j][..k] == text[..k] && text[..j][k..] == text[k..][..i];
      CutFirst(it, p.items, text[..j]);
      assert InLanguage(whole.items, text[..j]);
    }
  }

  lemma PrefixEmpty(atEnd: bool, text: seq<char>)
    ensures PrefixMatches(Pattern([], atEnd), text) <==> (atEnd ==> text == [])
  {
    assert Cut([], [], []);
    assert text[..0] == [];
    assert InLanguage([], text[..0]);
    if PrefixMatches(Pattern([], atEnd), text) {
      var j :| 0 <= j <= |text| && InLanguage([], text[..j]) && (atEnd ==> j == |text|);
      var ps :| Cut([], ps, text[..j]);
    }
  }

  lemma PrefixOne(c: char, p: Pattern, text: seq<char>)
    ensures PrefixMatches(Pattern([One(c)] + p.items, p.atEnd), text)
      <==> text != [] && Fits(c, text[0]) && PrefixMatches(p, text[1..])
  {
    PrefixSplits(One(c), p, text);
    if text != [] && Fits(c, text[0]) && PrefixMatches(p, text[1..]) {
      assert Piece(One(c), text[..1]);
    }
  }

  /** A starred character takes nothing, or one character and then goes on. */
  lemma PrefixStar(c: char, p: Pattern, text: seq<char>)
    ensures var star := Pattern([Star(c)] + p.items, p.atEnd);
      PrefixMatches(star, text) <==>
        PrefixMatches(p, text) || (text != [] && Fits(c, text[0]) && PrefixMatches(star, text[1..]))
  {
    var star := Pattern([Star(c)] + p.items, p.atEnd);
    PrefixSplits(Star(c), p, text);
    if PrefixMatches(p, text) { assert text[0..] == text && Piece(Star(c), text[..0]); }
    if text != [] {
      PrefixSplits(Star(c), p, text[1..]);
      if PrefixMatches(star, text) && !PrefixMatches(p, text) {
        var k :| 0 <= k <= |text| && Piece(Star(c), text[..k]) && PrefixMatches(p, text[k..]);
        assert k > 0 by { assert text[0..] == text; }
        assert text[..k][0] == text[0];
        StarTail(c, text, k);
        assert text[1..][k - 1..] == text[k..];
      }
      if Fits(c, text[0]) && PrefixMatches(star, text[1..]) {
        var k :| 0 <= k <= |text| - 1 && Piece(Star(c), text[1..][..k]) && PrefixMatches(p, text[1..][k..]);
        assert text[1..][k..] == text[k + 1..];
        StarGrow(c, text, k);
      }
    }
  }

  lemma StarTail(c: char, text: seq<char>, k: int)
    requires 0 < k <= |text| && Piece(Star(c), text[..k])
    ensures Piece(Star(c), text[1..][..k - 1])
  {
    var u := text[1..][..k - 1];
    forall i | 0 <= i < |u|
      ensures Fits(c, u[i])
    {
      assert Fits(c, text[..k][i + 1]);
    }
  }

  lemma StarGrow(c: char, text: seq<char>, k: int)
    requires 0 <= k < |text| && Fits(c, text[0]) && Piece(Star(c), text[1..][..k])
    ensures Piece(Star(c), text[..k + 1])
  {
  }

  // ----- how a pattern is written -----

  function Spelled(p: Pattern): seq<char>
    decreases |p.items|
  {
    if p.items == [] then (if p.atEnd then "$" else "")
    else
      (match p.items[0] case One(c) => [c] case Star(c) => [c, '*']) + Spelled(Pattern(p.items[1..], p.atEnd))
  }

  /** No '*' stands after an unstarred character, and a '$' at the end is no literal. */
  predicate WellRead(p: Pattern)
    decreases |p.items|
  {
    p.items != [] ==>
      var rest := Pattern(p.items[1..], p.atEnd);
      && WellRead(rest)
      && (p.items[0].One? ==> !(Spelled(rest) != [] && Spelled(rest)[0] == '*'))
      && !(p.items[0] == One('$') && Spelled(rest) == [])
  }

  /** Every string is read as the pattern it spells, ... */
  lemma {:induction false} ReadSpells(re: seq<char>)
    ensures Spelled(Read(re)) == re && WellRead(Read(re))
    decreases |re|
  {
    if |re| >= 2 && re[1] == '*' {
      ReadSpells(re[2..]);
      assert Pattern(Read(re).items[1..], Read(re).atEnd) == Read(re[2..]);
      assert [re[0], '*'] + re[2..] == re;
    } else if re != [] && re != ['$'] {
      ReadSpells(re[1..]);
      assert Pattern(Read(re).items[1..], Read(re).atEnd) == Read(re[1..]);
      assert [re[0]] + re[1..] == re;
    }
  }

  /** ... and there is no other. */
  lemma {:induction false} ReadUnique(p: Pattern)
    requires WellRead(p)
    ensures Read(Spelled(p)) == p
    decreases |p.items|
  {
    if p.items != [] {
      var rest := Pattern(p.items[1..], p.atEnd);
      ReadUnique(rest);
      var re := Spelled(p);
      assert p.items == [p.items[0]] + rest.items;
      if p.items[0].One? { assert re[1..] == Spelled(rest); } else { assert re[2..] == Spelled(rest); }
    }
  }

  /** A pattern without special characters is found where it stands in the text. */
  lemma LiteralIsSubstring(re: seq<char>, text: seq<char>)
    requires forall c | c in re :: c !in "^.*$"
    ensures Matches(re, text) <==> exists i :: 0 <= i <= |text| && re <= text[i..]
  {
    hide PrefixMatches, Read;
    forall i | 0 <= i <= |text|
      ensures PrefixMatches(Read(re), text[i..]) <==> re <= text[i..]
    {
      LiteralHere(re, text[i..]);
    }
    assert re != [] ==> re[0] in re;
  }

  lemma {:induction false} LiteralHere(re: seq<char>, text: seq<char>)
    requires forall c | c in re :: c !in "^.*$"
    ensures PrefixMatches(Read(re), text) <==> re <= text
    decreases |re|
  {
    hide PrefixMatches;
    if re == [] {
      PrefixEmpty(false, text);
    } else {
      assert re[0] in re && (|re| > 1 ==> re[1] in re);
      PrefixOne(re[0], Read(re[1..]), text);
      if text != [] {
        LiteralHere(re[1..], text[1..]);
        assert re == [re[0]] + re[1..] && text == [text[0]] + text[1..];
      }
    }
  }

  function Dots(n: nat): seq<char> { if n == 0 then [] else ['.'] + Dots(n - 1) }

  /** A dot stands for any character. */
  lemma {:induction false} DotsMatchAnything(n: nat, text: seq<char>)
    ensures PrefixMatches(Read(Dots(n)), text) <==> n <= |text|
    decreases n
  {
    hide PrefixMatches;
    if n == 0 {
      PrefixEmpty(false, text);
    } else {
      var re := Dots(n);
      assert re[1..] == Dots(n - 1) && (n > 1 ==> re[1] == '.');
      PrefixOne('.', Read(re[1..]), text);
      if text != [] { DotsMatchAnything(n - 1, text[1..]); }
    }
  }

  // ----- grep.c -----

  method Match(re: seq<char>, text: seq<char>) returns (r: int)
    ensures r == if Matches(re, text) then 1 else 0
  {
    if re != [] && re[0] == '^' {
      r := Matchhere(re[1..], text);
      return;
    }
    hide PrefixMatches, Read;
    var t := text;
    ghost var i := 0;
    while true
      invariant 0 <= i <= |text| && t == text[i..]
      invariant forall k | 0 <= k < i :: !PrefixMatches(Read(re), text[k..])
      decreases |t|
    {
      r := Matchhere(re, t);
      if r != 0 { return 1; }
      if t == [] { break; }
      t := t[1..];
      i := i + 1;
    }
    return 0;
  }

  method Matchhere(re: seq<char>, text: seq<char>) returns (r: int)
    ensures r == if PrefixMatches(Read(re), text) then 1 else 0
    decreases |re|, |text| + 1
  {
    hide PrefixMatches;
    if re == [] {
      PrefixEmpty(false, text);
      return 1;
    }
    if |re| > 1 && re[1] == '*' {
      r := Matchstar(re[0], re[2..], text);
      return;
    }
    if re[0] == '$' && |re| == 1 {
      assert re == ['$'];
      PrefixEmpty(true, text);
      return if text == [] then 1 else 0;
    }
    PrefixOne(re[0], Read(re[1..]), text);
    if text != [] && (re[0] == '.' || re[0] == text[0]) {
      r := Matchhere(re[1..], text[1..]);
      return;
    }
    return 0;
  }

  method Matchstar(c: char, re: seq<char>, text: seq<char>) returns (r: int)
    ensures var p := Read(re); r == if PrefixMatches(Pattern([Star(c)] + p.items, p.atEnd), text) then 1 else 0
    decreases |re| + 1, 0
  {
    hide PrefixMatches;
    var t := text;
    ghost var p := Read(re);
    ghost var star := Pattern([Star(c)] + p.items, p.atEnd);
    while true
      invariant PrefixMatches(star, text) <==> PrefixMatches(star, t)
      decreases |t|
    {
      PrefixStar(c, p, t);
      r := Matchhere(re, t);
      if r != 0 { return 1; }
      if t == [] { break; }
      var x := t[0];
      t := t[1..];
      if x != c && c != '.' { break; }
    }
    return 0;
  }
}
