/**
 * The Python string operations the request handler relies on: `str.isspace`,
 * `str.strip()`, `' '.join(...)` and repeated `+=`. `str.split(' ')` and the
 * first line of a string are readers the handler never calls; they state
 * what the join and the cue lines hold, as round trips.
 */
module PyText {

  /**
   * `c.isspace()` in Python 3: the characters whose bidirectional class is
   * WS, B or S, or whose category is Zs.
   */
  predicate IsSpace(c: char)
  {
    || ('\t' <= c <= '\r')
    || ('\U{1C}' <= c <= ' ')
    || c == '\U{85}' || c == '\U{A0}' || c == '\U{1680}'
    || ('\U{2000}' <= c <= '\U{200A}')
    || c == '\U{2028}' || c == '\U{2029}' || c == '\U{202F}' || c == '\U{205F}' || c == '\U{3000}'
  }

  /** Where `s.lstrip()` starts looking from `i`: the first index at or after `i` that is not white space. */
  function SkipSpaces(s: string, i: nat): (r: nat)
    requires i <= |s|
    ensures i <= r <= |s|
    ensures forall k :: i <= k < r ==> IsSpace(s[k])
    ensures r == |s| || !IsSpace(s[r])
    decreases |s| - i
  {
    if i < |s| && IsSpace(s[i]) then SkipSpaces(s, i + 1) else i
  }

  /** Where `rstrip()` ends, scanning back from `j` but not past `lo`. */
  function BackOverSpaces(s: string, lo: nat, j: nat): (r: nat)
    requires lo <= j <= |s|
    ensures lo <= r <= j
    ensures forall k :: r <= k < j ==> IsSpace(s[k])
    ensures r == lo || !IsSpace(s[r - 1])
    decreases j
  {
    if j > lo && IsSpace(s[j - 1]) then BackOverSpaces(s, lo, j - 1) else j
  }

  /** Where the stripped text starts in `s`. */
  function StripStart(s: string): nat
  {
    SkipSpaces(s, 0)
  }

  /** Where the stripped text ends in `s`. */
  function StripEnd(s: string): nat
  {
    BackOverSpaces(s, StripStart(s), |s|)
  }

  /**
   * `s.strip()`: the slice of `s` between its leading and its trailing
   * white space, which neither starts nor ends with white space itself.
   */
  function Strip(s: string): (r: string)
    ensures StripStart(s) <= StripEnd(s) <= |s| && r == s[StripStart(s)..StripEnd(s)]
    ensures forall k :: 0 <= k < StripStart(s) ==> IsSpace(s[k])
    ensures forall k :: StripEnd(s) <= k < |s| ==> IsSpace(s[k])
    ensures r == [] || (!IsSpace(r[0]) && !IsSpace(r[|r| - 1]))
  {
    s[StripStart(s)..StripEnd(s)]
  }

  /** A string is its own strip exactly when it is empty or has no space at either end. */
  lemma StripFixedPoint(s: string)
    ensures Strip(s) == s <==> (s == [] || (!IsSpace(s[0]) && !IsSpace(s[|s| - 1])))
  {
  }

  /** Stripping twice is stripping once. */
  lemma StripIdempotent(s: string)
    ensures Strip(Strip(s)) == Strip(s)
  {
    StripFixedPoint(Strip(s));
  }

  function SumLengths(parts: seq<string>): nat
  {
    if parts == [] then 0 else SumLengths(parts[..|parts| - 1]) + |parts[|parts| - 1]|
  }

  /**
   * `' '.join(parts)`: the parts in order with exactly one space between
   * neighbours, so its length is theirs plus one per gap; `' '.join([])` is "".
   */
  function JoinWithSpace(parts: seq<string>): (r: string)
    ensures parts == [] ==> r == ""
    ensures parts != [] ==> |r| == SumLengths(parts) + |parts| - 1
    decreases |parts|
  {
    if |parts| == 0 then ""
    else if |parts| == 1 then parts[0]
    else JoinWithSpace(parts[..|parts| - 1]) + " " + parts[|parts| - 1]
  }

  /** Where part `i` starts in `' '.join(parts)`: the lengths of the parts before it, plus one space after each. */
  function JoinOffset(parts: seq<string>, i: nat): nat
    requires i <= |parts|
  {
    SumLengths(parts[..i]) + i
  }

  lemma SumLengthsPrefixSnoc(parts: seq<string>, i: nat)
    requires i < |parts|
    ensures SumLengths(parts[..i + 1]) == SumLengths(parts[..i]) + |parts[i]|
  {
    assert parts[..i + 1][..i] == parts[..i];
  }

  /**
   * Every part appears in `' '.join(parts)` at its offset, followed by a
   * space unless it is the last part.
   */
  lemma {:induction false} JoinWithSpacePlacement(parts: seq<string>, i: nat)
    requires i < |parts|
    ensures var r, k := JoinWithSpace(parts), JoinOffset(parts, i);
            && k + |parts[i]| <= |r|
            && r[k..k + |parts[i]|] == parts[i]
            && (i + 1 < |parts| ==> k + |parts[i]| < |r| && r[k + |parts[i]|] == ' ')
    decreases |parts|
  {
    var r, k := JoinWithSpace(parts), JoinOffset(parts, i);
    if |parts| == 1 {
      assert parts[..0] == [];
    } else {
      var init, last := parts[..|parts| - 1], parts[|parts| - 1];
      var ri := JoinWithSpace(init);
      assert r == ri + " " + last;
      if i < |init| {
        JoinWithSpacePlacement(init, i);
        assert init[..i] == parts[..i];
        assert init[i] == parts[i];
        assert r[k..k + |parts[i]|] == ri[k..k + |parts[i]|];
        if i + 1 == |init| {
          SumLengthsPrefixSnoc(init, i);
          assert init[..i + 1] == init;
        }
      } else {
        assert parts[..i] == init;
        assert r[k..k + |parts[i]|] == last;
      }
    }
  }

  /**
   * `s.split(' ')`: the pieces between single spaces, empty ones included;
   * there is always at least one piece and no piece holds a space.
   */
  function SplitOnSpace(s: string): (parts: seq<string>)
    ensures |parts| >= 1
    ensures forall i :: 0 <= i < |parts| ==> ' ' !in parts[i]
    decreases |s|
  {
    if s == [] then [""]
    else
      var init := SplitOnSpace(s[..|s| - 1]);
      if s[|s| - 1] == ' ' then init + [""]
      else init[..|init| - 1] + [init[|init| - 1] + [s[|s| - 1]]]
  }

  lemma {:induction false} SplitOnSpaceNoSpace(y: string)
    requires ' ' !in y
    ensures SplitOnSpace(y) == [y]
    decreases |y|
  {
    if y != [] {
      assert y[..|y| - 1] + [y[|y| - 1]] == y;
      SplitOnSpaceNoSpace(y[..|y| - 1]);
    }
  }

  /** The pieces with one more character added to the last. */
  function ExtendLast(parts: seq<string>, c: char): seq<string>
    requires |parts| >= 1
  {
    parts[..|parts| - 1] + [parts[|parts| - 1] + [c]]
  }

  /** One more character either starts a new piece (a space) or extends the last one. */
  lemma SplitOnSpaceSnoc(s: string, c: char)
    ensures SplitOnSpace(s + [c]) == if c == ' ' then SplitOnSpace(s) + [""] else ExtendLast(SplitOnSpace(s), c)
  {
    assert (s + [c])[..|s|] == s;
  }

  lemma ExtendLastAppend(a: seq<string>, b: seq<string>, c: char)
    requires |b| >= 1
    ensures ExtendLast(a + b, c) == a + ExtendLast(b, c)
  {
    assert (a + b)[..|a + b| - 1] == a + b[..|b| - 1];
  }

  /** Splitting at a space splits the two sides independently. */
  lemma {:induction false} SplitOnSpaceAppend(x: string, y: string)
    ensures SplitOnSpace(x + " " + y) == SplitOnSpace(x) + SplitOnSpace(y)
    decreases |y|
  {
    if y == [] {
      assert x + " " + y == x + [' '];
      SplitOnSpaceSnoc(x, ' ');
    } else {
      var y', c := y[..|y| - 1], y[|y| - 1];
      assert x + " " + y == (x + " " + y') + [c];
      assert y == y' + [c];
      SplitOnSpaceSnoc(x + " " + y', c);
      SplitOnSpaceSnoc(y', c);
      SplitOnSpaceAppend(x, y');
      if c != ' ' {
        ExtendLastAppend(SplitOnSpace(x), SplitOnSpace(y'), c);
      }
    }
  }

  /** Three space-free words joined by single spaces split back into those words. */
  lemma SplitOnSpaceThreeWords(a: string, m: string, b: string)
    requires ' ' !in a && ' ' !in m && ' ' !in b
    ensures SplitOnSpace(a + " " + m + " " + b) == [a, m, b]
  {
    SplitOnSpaceAppend(a + " " + m, b);
    SplitOnSpaceAppend(a, m);
    SplitOnSpaceNoSpace(a);
    SplitOnSpaceNoSpace(m);
    SplitOnSpaceNoSpace(b);
  }

  /** `' '.join` is undone by `split(' ')` when no part holds a space. */
  lemma {:induction false} SplitOnSpaceJoin(parts: seq<string>)
    requires |parts| >= 1
    requires forall i :: 0 <= i < |parts| ==> ' ' !in parts[i]
    ensures SplitOnSpace(JoinWithSpace(parts)) == parts
    decreases |parts|
  {
    if |parts| == 1 {
      SplitOnSpaceNoSpace(parts[0]);
    } else {
      var init, last := parts[..|parts| - 1], parts[|parts| - 1];
      SplitOnSpaceJoin(init);
      SplitOnSpaceNoSpace(last);
      SplitOnSpaceAppend(JoinWithSpace(init), last);
      assert init + [last] == parts;
    }
  }

  /** The string built by `out = ''` followed by `out += piece` for each piece in order. */
  function Concat(pieces: seq<string>): (r: string)
    ensures |r| == SumLengths(pieces)
  {
    if pieces == [] then "" else Concat(pieces[..|pieces| - 1]) + pieces[|pieces| - 1]
  }

  /** One more `+=` appends one piece. */
  lemma ConcatSnoc(pieces: seq<string>, piece: string)
    ensures Concat(pieces + [piece]) == Concat(pieces) + piece
  {
    assert (pieces + [piece])[..|pieces|] == pieces;
  }

  /** Accumulating two runs of pieces one after the other is concatenating their results. */
  lemma {:induction false} ConcatAppend(a: seq<string>, b: seq<string>)
    ensures Concat(a + b) == Concat(a) + Concat(b)
    decreases |b|
  {
    if b == [] {
      assert a + b == a;
    } else {
      assert (a + b)[..|a + b| - 1] == a + b[..|b| - 1];
      ConcatAppend(a, b[..|b| - 1]);
    }
  }

  /** The characters of `s` before its first line break (all of `s` if there is none). */
  function FirstLine(s: string): string
  {
    if s == [] || s[0] == '\n' then [] else [s[0]] + FirstLine(s[1..])
  }

  /** What follows the first line break of `s` (nothing if there is none). */
  function AfterFirstLine(s: string): string
  {
    if s == [] then [] else if s[0] == '\n' then s[1..] else AfterFirstLine(s[1..])
  }

  /** A line without a break, then a break, then the rest, splits back into the line and the rest. */
  lemma {:induction false} FirstLineOf(line: string, rest: string)
    requires '\n' !in line
    ensures FirstLine(line + "\n" + rest) == line
    ensures AfterFirstLine(line + "\n" + rest) == rest
    decreases |line|
  {
    if line != [] {
      assert (line + "\n" + rest)[1..] == line[1..] + "\n" + rest;
      FirstLineOf(line[1..], rest);
    }
  }
}
