/** backend/internal/log_file/log_file_iterator.go: cutting a stream of runes into brace-balanced objects.
    The reader delivers runes and then reports the end of the input; invalid bytes arrive as U+FFFD. */
module JsonIterators {
  import opened Wrappers
  import opened Texts

  const REPLACEMENT := '\U{FFFD}'

  // ----- The reference: what the objects of a text are -----

  // The scanner never sees replacement characters.
  function Clean(s: string): (r: string)
    ensures REPLACEMENT !in r
  {
    if s == [] then [] else if s[0] == REPLACEMENT then Clean(s[1..]) else [s[0]] + Clean(s[1..])
  }

  lemma {:induction false} CleanIsIdentity(s: string)
    requires REPLACEMENT !in s
    ensures Clean(s) == s
  {
    if s == [] {
    } else {
      CleanIsIdentity(s[1..]);
      assert s == [s[0]] + s[1..];
    }
  }

  function Weight(c: char): int {
    if c == '{' then 1 else if c == '}' then -1 else 0
  }

  // Opening braces minus closing braces.
  function Depth(s: string): int {
    if s == [] then 0 else Depth(s[..|s| - 1]) + Weight(s[|s| - 1])
  }

  // From an opening brace on, all braces have stayed open.
  ghost predicate IsOpen(s: string) {
    s != [] && s[0] == '{' && forall i :: 1 <= i <= |s| ==> Depth(s[..i]) > 0
  }

  // An object starts with a brace that its last rune closes, and no earlier one.
  ghost predicate IsObject(s: string) {
    |s| >= 2 && IsOpen(s[..|s| - 1]) && Depth(s) == 0
  }

  ghost predicate IsGap(s: string) {
    '{' !in s
  }

  ghost predicate Splits(s: string, gap: string, o: string, rest: string) {
    s == gap + o + rest && IsGap(gap) && IsObject(o)
  }

  ghost predicate HasObject(s: string) {
    exists gap, o, rest :: Splits(s, gap, o, rest)
  }

  // The objects of a text, first to last.
  ghost function Objects(s: string): seq<string>
    decreases |s|
  {
    if HasObject(s) then
      var gap, o, rest :| Splits(s, gap, o, rest);
      [o] + Objects(rest)
    else
      []
  }

  // What may follow the last object: a gap, or a gap and an object that is never finished.
  ghost predicate IsTail(s: string) {
    exists gap, u :: s == gap + u && IsGap(gap) && (u == [] || IsOpen(u))
  }

  lemma ObjectStartsOpen(o: string)
    requires IsObject(o)
    ensures o[0] == '{' && forall i :: 1 <= i < |o| ==> Depth(o[..i]) > 0
  {
    assert o[..|o| - 1][0] == o[0];
    forall i | 1 <= i < |o|
      ensures Depth(o[..i]) > 0
    {
      assert o[..|o| - 1][..i] == o[..i];
    }
  }

  // A text determines where the gap before its first brace ends.
  lemma GapsAgree(gap: string, x: string, gap': string, x': string)
    requires gap + x == gap' + x' && IsGap(gap) && IsGap(gap')
    requires (x == [] || x[0] == '{') && (x' == [] || x'[0] == '{')
    ensures gap == gap' && x == x'
  {
    CutAtFirst(gap, x, gap', x', '{');
  }

  // An object is not the start of anything that stays open, nor of a different object.
  lemma NoObjectInOpen(u: string, o: string, rest: string)
    requires IsOpen(u) && IsObject(o)
    ensures u != o + rest
  {
    Cut(o, rest);
  }

  lemma ObjectsAgree(o: string, rest: string, o': string, rest': string)
    requires IsObject(o) && IsObject(o') && o + rest == o' + rest'
    ensures o == o' && rest == rest'
  {
    ObjectStartsOpen(o);
    ObjectStartsOpen(o');
    Cut(o, rest);
    Cut(o', rest');
    assert |o| <= |o'| ==> o'[..|o|] == (o' + rest')[..|o|];
    assert |o'| <= |o| ==> o[..|o'|] == (o + rest)[..|o'|];
  }

  lemma SplitsAgree(s: string, gap: string, o: string, rest: string, gap': string, o': string, rest': string)
    requires Splits(s, gap, o, rest) && Splits(s, gap', o', rest')
    ensures gap == gap' && o == o' && rest == rest'
  {
    ObjectStartsOpen(o);
    ObjectStartsOpen(o');
    assert s == gap + (o + rest) && s == gap' + (o' + rest');
    GapsAgree(gap, o + rest, gap', o' + rest');
    ObjectsAgree(o, rest, o', rest');
  }

  lemma ObjectsOfSplit(s: string, gap: string, o: string, rest: string)
    requires Splits(s, gap, o, rest)
    ensures Objects(s) == [o] + Objects(rest)
  {
    var gap', o', rest' :| Splits(s, gap', o', rest') && Objects(s) == [o'] + Objects(rest');
    SplitsAgree(s, gap, o, rest, gap', o', rest');
  }

  lemma TailHasNoObject(s: string, gap: string, u: string)
    requires s == gap + u && IsGap(gap) && (u == [] || IsOpen(u))
    ensures !HasObject(s) && Objects(s) == []
  {
    if HasObject(s) {
      var gap', o, rest :| Splits(s, gap', o, rest);
      ObjectStartsOpen(o);
      assert s == gap' + (o + rest);
      GapsAgree(gap', o + rest, gap, u);
      NoObjectInOpen(u, o, rest);
      assert false;
    }
  }

  // ----- Round trip -----

  // Objects written down one after the other, each after a gap, and a tail.
  function Weave(gaps: seq<string>, objs: seq<string>, tail: string): string
    requires |gaps| == |objs|
  {
    if objs == [] then tail else gaps[0] + objs[0] + Weave(gaps[1..], objs[1..], tail)
  }

  lemma {:induction false} WeaveRoundTrip(gaps: seq<string>, objs: seq<string>, tail: string)
    requires |gaps| == |objs| && IsTail(tail)
    requires forall i :: 0 <= i < |objs| ==> IsGap(gaps[i]) && IsObject(objs[i])
    ensures Objects(Weave(gaps, objs, tail)) == objs
  {
    if objs == [] {
      var gap, u :| tail == gap + u && IsGap(gap) && (u == [] || IsOpen(u));
      TailHasNoObject(tail, gap, u);
    } else {
      WeaveRoundTrip(gaps[1..], objs[1..], tail);
      ObjectsOfSplit(Weave(gaps, objs, tail), gaps[0], objs[0], Weave(gaps[1..], objs[1..], tail));
    }
  }

  // Written down without replacement characters, a list of objects is what a new iterator has to deliver.
  lemma WrittenObjectsAreRead(gaps: seq<string>, objs: seq<string>, tail: string)
    requires |gaps| == |objs| && IsTail(tail) && REPLACEMENT !in Weave(gaps, objs, tail)
    requires forall i :: 0 <= i < |objs| ==> IsGap(gaps[i]) && IsObject(objs[i])
    ensures Objects(Clean(Weave(gaps, objs, tail))) == objs
  {
    CleanIsIdentity(Weave(gaps, objs, tail));
    WeaveRoundTrip(gaps, objs, tail);
  }

  lemma ObjectIsReadBack(o: string)
    requires IsObject(o)
    ensures Objects(o) == [o]
  {
    assert [] + o + [] == o;
    ObjectsOfSplit(o, [], o, []);
    TailHasNoObject([], [], []);
  }

  // One piece of text is read back as it was written exactly when its braces are balanced, with none closed too early.
  lemma ReadBackIff(o: string)
    ensures Objects(o) == [o] <==> IsObject(o)
  {
    if IsObject(o) {
      ObjectIsReadBack(o);
    }
    if Objects(o) == [o] {
      var gap, o', rest :| Splits(o, gap, o', rest);
      ObjectsOfSplit(o, gap, o', rest);
      assert ([o'] + Objects(rest))[0] == [o][0];
    }
  }

  lemma CutShort()
    ensures IsObject(['{', '"', '}'])
  {
    var s := ['{', '"', '}'];
    assert s[..2] == ['{', '"'] && s[..2][..1] == ['{'] && s[..2][..2] == s[..2];
    assert Depth([]) == 0 && ['{'][..0] == [];
    assert Depth(['{']) == 1;
    assert Depth(s[..2]) == 1;
    assert forall i :: 1 <= i <= 2 ==> Depth(s[..2][..i]) > 0;
  }

  // Braces in JSON strings count like any others: {"}"} is cut short after the string's brace.
  lemma BraceInStringCutsShort()
    ensures Objects(['{', '"', '}', '"', '}']) == [['{', '"', '}']]
    ensures !IsObject(['{', '"', '}', '"', '}'])
  {
    var s, o, rest := ['{', '"', '}', '"', '}'], ['{', '"', '}'], ['"', '}'];
    CutShort();
    assert s == [] + o + rest;
    ObjectsOfSplit(s, [], o, rest);
    TailHasNoObject(rest, rest, []);
    ReadBackIff(s);
  }

  lemma DepthSnoc(s: string, c: char)
    ensures Depth(s + [c]) == Depth(s) + Weight(c)
  {
    assert (s + [c])[..|s|] == s;
  }

  // Reading one more rune of something that is still open: it stays open, or it is now an object.
  lemma OpenSnoc(u: string, c: char)
    requires IsOpen(u)
    ensures Depth(u + [c]) >= 0
    ensures if Depth(u + [c]) == 0 then IsObject(u + [c]) else IsOpen(u + [c])
  {
    var v := u + [c];
    DepthSnoc(u, c);
    assert u == u[..|u|] && v[..|v| - 1] == u;
    forall i | 1 <= i <= |u|
      ensures Depth(v[..i]) > 0
    {
      assert v[..i] == u[..i];
    }
    assert v[..|v|] == v;
  }

  // A text that starts with a brace stays open to its end or starts with an object.
  lemma {:induction false} OpenOrObject(s: string, n: nat) returns (m: nat)
    requires s != [] && s[0] == '{' && 1 <= n <= |s|
    ensures IsOpen(s[..n]) || (m <= |s| && IsObject(s[..m]))
    decreases n
  {
    m := 0;
    if n == 1 {
      DepthSnoc([], '{');
      assert s[..1] == [] + ['{'];
      assert s[..1][..1] == s[..1];
    } else {
      m := OpenOrObject(s, n - 1);
      if IsOpen(s[..n - 1]) {
        OpenSnoc(s[..n - 1], s[n - 1]);
        assert s[..n] == s[..n - 1] + [s[n - 1]];
        m := n;
      }
    }
  }

  lemma {:induction false} GapToFirstBrace(s: string)
    ensures var k := FirstIndex(s, '{'); IsGap(s[..k]) && (k < |s| ==> s[k] == '{')
  {
    if s == [] || s[0] == '{' {
    } else {
      GapToFirstBrace(s[1..]);
      assert s[..FirstIndex(s, '{')] == [s[0]] + s[1..][..FirstIndex(s[1..], '{')];
    }
  }

  lemma StartsWithObject(gap: string, u: string, m: nat)
    requires IsGap(gap) && m <= |u| && IsObject(u[..m])
    ensures HasObject(gap + u)
  {
    assert gap + u == gap + u[..m] + u[m..];
    assert Splits(gap + u, gap, u[..m], u[m..]);
  }

  lemma NoObjectIsTail(s: string)
    requires !HasObject(s)
    ensures IsTail(s)
  {
    var k := FirstIndex(s, '{');
    var gap, u := s[..k], s[k..];
    GapToFirstBrace(s);
    assert s == gap + u;
    if u != [] && !IsOpen(u) {
      assert u[..|u|] == u;
      var m := OpenOrObject(u, |u|);
      StartsWithObject(gap, u, m);
    }
  }

  // Every text is its objects, woven with gaps and a tail, and they alone are its objects.
  lemma {:induction false} TextIsWeave(s: string) returns (gaps: seq<string>, tail: string)
    ensures |gaps| == |Objects(s)| && s == Weave(gaps, Objects(s), tail) && IsTail(tail)
    ensures forall i :: 0 <= i < |gaps| ==> IsGap(gaps[i]) && IsObject(Objects(s)[i])
    decreases |s|
  {
    if HasObject(s) {
      var gap, o, rest :| Splits(s, gap, o, rest);
      ObjectsOfSplit(s, gap, o, rest);
      gaps, tail := TextIsWeave(rest);
      gaps := [gap] + gaps;
    } else {
      NoObjectIsTail(s);
      gaps, tail := [], s;
    }
  }

  // ----- The iterator -----

  lemma NextRune(gap: string, entry: string, r: char, rest: string)
    ensures gap + entry + ([r] + rest) == gap + (entry + [r]) + rest
    ensures entry == [] ==> gap + entry + ([r] + rest) == (gap + [r]) + entry + rest
  {
  }

  // One more rune of an entry, or the brace that starts it.
  lemma Grows(entry: string, r: char)
    requires if entry == [] then r == '{' else IsOpen(entry)
    ensures Depth(entry + [r]) == Depth(entry) + Weight(r) >= 0
    ensures if Depth(entry + [r]) == 0 then IsObject(entry + [r]) else IsOpen(entry + [r])
  {
    DepthSnoc(entry, r);
    if entry == [] {
      assert (entry + [r])[..1] == entry + [r];
    } else {
      OpenSnoc(entry, r);
    }
  }

  function Listed(o: Option<string>): seq<string> {
    match o
    case None => []
    case Some(s) => [s]
  }

  lemma MoveAcross<T>(a: seq<T>, x: T, b: seq<T>)
    ensures (a + [x]) + b == a + ([x] + b)
  {
  }

  class JsonIterator {
    const input: string
    var pos: nat
    var next: Option<string>
    var afterNext: Option<string>
    var done: bool

    ghost predicate Valid()
      reads this
    {
      && pos <= |input|
      && (afterNext.Some? ==> next.Some?)
      && (done ==> Objects(Unread()) == [])
    }

    ghost function Unread(): string
      requires pos <= |input|
      reads this
    {
      Clean(input[pos..])
    }

    // What Next is still to deliver: the two slots, and the objects not yet read.
    ghost function Remaining(): seq<string>
      requires pos <= |input|
      reads this
    {
      Listed(next) + Listed(afterNext) + Objects(Unread())
    }

    constructor (src: string)
      ensures Valid() && input == src && Remaining() == Objects(Clean(src))
    {
      input, pos := src, 0;
      next, afterNext, done := None, None, false;
      new;
      assert src[0..] == src;
    }

    // Delivers the first object of what is left to read, or reports the end of the input.
    method ReadNextObject() returns (r: Option<string>)
      requires pos <= |input|
      modifies this`pos
      ensures pos <= |input|
      ensures Objects(old(Unread())) == Listed(r) + Objects(Unread())
      ensures r == None ==> Objects(Unread()) == []
    {
      ghost var unread := Unread();
      ghost var gap := "";
      var entry := "";
      var stack := 0;
      while true
        invariant pos <= |input|
        invariant unread == gap + entry + Unread()
        invariant IsGap(gap) && stack == Depth(entry) && (entry == [] || IsOpen(entry))
        decreases |input| - pos
      {
        if pos == |input| {
          TailHasNoObject(unread, gap, entry);
          return None;
        }
        var r := input[pos];
        ghost var rest := Clean(input[pos + 1..]);
        assert Unread() == (if r == REPLACEMENT then rest else [r] + rest) by {
          assert input[pos..][0] == r && input[pos..][1..] == input[pos + 1..];
        }
        pos := pos + 1;
        if r == REPLACEMENT {
          continue;
        }
        NextRune(gap, entry, r, rest);
        if entry == [] && r != '{' {
          gap := gap + [r];
          continue;
        }
        ghost var before := entry;
        entry := entry + [r];
        Grows(before, r);
        if r == '{' {
          stack := stack + 1;
        }
        if r == '}' {
          stack := stack - 1;
        }
        if stack == 0 {
          ObjectsOfSplit(unread, gap, entry, Unread());
          return Some(entry);
        }
        assert stack >= 0;
        if stack < 0 {
          entry := "";
          stack := 0;
        }
      }
    }

    method Advance()
      requires Valid()
      modifies this
      ensures Valid()
      ensures Remaining() == if old(next) == None then old(Remaining()) else old(Remaining())[1..]
      ensures next == None ==> Remaining() == []
    {
      ghost var left := Objects(Unread());
      next := afterNext;
      afterNext := None;
      if next == None {
        var first := ReadNextObject();
        if first == None {
          done := true;
          assert left == [];
          return;
        }
        next := first;
      }
      assert Remaining() == if old(next) == None then old(Remaining()) else old(Remaining())[1..];
      if afterNext == None {
        FillSecond();
      }
    }

    // The part of Advance that fills the second slot.
    method FillSecond()
      requires Valid() && next.Some? && afterNext == None
      modifies this`pos, this`afterNext, this`done
      ensures Valid() && Remaining() == old(Remaining())
    {
      var second := ReadNextObject();
      if second == None {
        done := true;
        return;
      }
      afterNext := second;
    }

    // Asked first, it loses, repeats and reorders nothing, and says whether Next has something to deliver.
    method HasNext() returns (b: bool)
      requires Valid()
      modifies this
      ensures Valid() && Remaining() == old(Remaining())
      ensures b == (Remaining() != []) == next.Some?
    {
      if next.Some? {
        return true;
      }
      if done {
        return false;
      }
      if next == None {
        Advance();
      }
      return next.Some?;
    }

    // Called before the first HasNext it delivers the empty string, and nothing is lost.
    method Next() returns (s: string)
      requires Valid()
      modifies this
      ensures Valid()
      ensures old(next).Some? ==> [s] + Remaining() == old(Remaining())
      ensures old(next) == None ==> s == "" && Remaining() == old(Remaining())
    {
      s := "";
      if next.Some? {
        s := next.value;
      }
      Advance();
    }

    method Collect() returns (entries: seq<string>)
      requires Valid()
      modifies this
      ensures Valid() && entries == old(Remaining()) && Remaining() == []
    {
      entries := [];
      var more := HasNext();
      while more
        invariant Valid() && entries + Remaining() == old(Remaining())
        invariant more == (Remaining() != []) == next.Some?
        decreases |Remaining()|
      {
        var entry := Next();
        MoveAcross(entries, entry, Remaining());
        entries := entries + [entry];
        more := HasNext();
      }
    }
  }
}
