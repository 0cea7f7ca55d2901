/**
 * The string operations of the server: trimming, lower-casing, splitting and joining.
 * Whitespace is the Unicode `White_Space` set; letter case is mapped for ASCII letters.
 */
module Text {
  import opened Core

  predicate IsWhitespace(c: char) {
    var n := c as int;
    || 0x09 <= n <= 0x0D || n == 0x20 || n == 0x85 || n == 0xA0 || n == 0x1680
    || 0x2000 <= n <= 0x200A || n == 0x2028 || n == 0x2029 || n == 0x202F || n == 0x205F || n == 0x3000
  }

  function LowerChar(c: char): char {
    if 'A' <= c <= 'Z' then (c as int + 32) as char else c
  }

  function Lower(s: string): (r: string)
    ensures |r| == |s|
  {
    seq(|s|, i requires 0 <= i < |s| => LowerChar(s[i]))
  }

  /** Drops the longest prefix of characters satisfying `p`. */
  function DropWhile(s: string, p: char -> bool): string {
    if s != [] && p(s[0]) then DropWhile(s[1..], p) else s
  }

  /** Drops the longest suffix of characters satisfying `p`. */
  function DropWhileEnd(s: string, p: char -> bool): string {
    if s != [] && p(s[|s| - 1]) then DropWhileEnd(s[..|s| - 1], p) else s
  }

  function TrimBy(s: string, p: char -> bool): string {
    DropWhileEnd(DropWhile(s, p), p)
  }

  function Trim(s: string): string { TrimBy(s, IsWhitespace) }

  /** Neither end of `s` satisfies `p`. */
  predicate CleanEnds(s: string, p: char -> bool) {
    s != [] ==> !p(s[0]) && !p(s[|s| - 1])
  }

  /** Trimming leaves clean ends. */
  lemma {:induction false} TrimByClean(s: string, p: char -> bool)
    ensures CleanEnds(TrimBy(s, p), p)
  {
    DropWhileClean(s, p);
    DropWhileEndClean(DropWhile(s, p), p);
  }

  lemma {:induction false} DropWhileClean(s: string, p: char -> bool)
    ensures DropWhile(s, p) != [] ==> !p(DropWhile(s, p)[0])
  {
    if s != [] && p(s[0]) { DropWhileClean(s[1..], p); }
  }

  lemma {:induction false} DropWhileEndClean(s: string, p: char -> bool)
    requires s != [] ==> !p(s[0])
    ensures CleanEnds(DropWhileEnd(s, p), p)
  {
    if s != [] && p(s[|s| - 1]) { DropWhileEndClean(s[..|s| - 1], p); }
  }

  /** Trimming a string with clean ends changes nothing. */
  lemma {:induction false} TrimByFixed(s: string, p: char -> bool)
    requires CleanEnds(s, p)
    ensures TrimBy(s, p) == s
  {}

  function TrimLower(s: string): string { Lower(Trim(s)) }

  /** Canonicalising a piece of text twice is the same as doing it once. */
  lemma {:induction false} TrimLowerIdempotent(s: string)
    ensures TrimLower(TrimLower(s)) == TrimLower(s)
  {
    var t := Trim(s);
    TrimByClean(s, IsWhitespace);
    assert CleanEnds(Lower(t), IsWhitespace);
    TrimByFixed(Lower(t), IsWhitespace);
    assert Lower(Lower(t)) == Lower(t);
  }

  /** Code-point order on strings, which is also the byte order of their UTF-8 encodings. */
  predicate LexLess(a: string, b: string) {
    if b == [] then false
    else if a == [] then true
    else a[0] < b[0] || (a[0] == b[0] && LexLess(a[1..], b[1..]))
  }

  lemma {:induction false} LexTrichotomy(a: string, b: string)
    ensures LexLess(a, b) || a == b || LexLess(b, a)
    ensures !(LexLess(a, b) && LexLess(b, a))
    ensures LexLess(a, b) ==> a != b
  {
    if a != [] && b != [] {
      LexTrichotomy(a[1..], b[1..]);
      assert a == [a[0]] + a[1..] && b == [b[0]] + b[1..];
    }
  }

  lemma {:induction false} LexTransitive(a: string, b: string, c: string)
    requires LexLess(a, b) && LexLess(b, c)
    ensures LexLess(a, c)
  {
    if a != [] && a[0] == b[0] && b[0] == c[0] {
      LexTransitive(a[1..], b[1..], c[1..]);
    }
  }

  // ---------------------------------------------------------------------
  // Splitting and joining
  // ---------------------------------------------------------------------

  predicate Lacks(s: string, c: char) { forall i | 0 <= i < |s| :: s[i] != c }

  /** The pieces between occurrences of `c`; always at least one. */
  function Split(s: string, c: char): (r: seq<string>)
    ensures r != []
  {
    if s == [] then [[]]
    else if s[0] == c then [[]] + Split(s[1..], c)
    else
      var r := Split(s[1..], c);
      [[s[0]] + r[0]] + r[1..]
  }

  /** What precedes and what follows the first occurrence of `c`. */
  function SplitOnce(s: string, c: char): Option<(string, string)> {
    if s == [] then None
    else if s[0] == c then Some(([], s[1..]))
    else
      match SplitOnce(s[1..], c)
      case None => None
      case Some((a, b)) => Some(([s[0]] + a, b))
  }

  function TakeRun(s: string, separates: char -> bool): string {
    if s == [] || separates(s[0]) then [] else [s[0]] + TakeRun(s[1..], separates)
  }

  lemma {:induction false} TakeRunLength(s: string, separates: char -> bool)
    ensures |TakeRun(s, separates)| <= |s| && TakeRun(s, separates) == s[..|TakeRun(s, separates)|]
    ensures s != [] && !separates(s[0]) ==> TakeRun(s, separates) != []
  {
    if s != [] && !separates(s[0]) { TakeRunLength(s[1..], separates); }
  }

  lemma {:induction false} DropWhileShrinks(s: string, p: char -> bool)
    ensures |DropWhile(s, p)| <= |s|
  {
    if s != [] && p(s[0]) { DropWhileShrinks(s[1..], p); }
  }

  /** The maximal runs of characters that do not separate, in order. */
  function Runs(s: string, separates: char -> bool): seq<string>
    decreases |s|
  {
    DropWhileShrinks(s, separates);
    DropWhileClean(s, separates);
    var t := DropWhile(s, separates);
    TakeRunLength(t, separates);
    if t == [] then [] else [TakeRun(t, separates)] + Runs(t[|TakeRun(t, separates)|..], separates)
  }

  function Words(s: string): seq<string> { Runs(s, IsWhitespace) }

  function Join(parts: seq<string>, separator: string): string {
    if parts == [] then []
    else if |parts| == 1 then parts[0]
    else parts[0] + separator + Join(parts[1..], separator)
  }

  lemma {:induction false} SplitHead(a: string, c: char, b: string)
    requires Lacks(a, c)
    ensures Split(a + [c] + b, c) == [a] + Split(b, c)
  {
    if a == [] {
      assert (a + [c] + b)[1..] == b;
    } else {
      assert (a + [c] + b)[1..] == a[1..] + [c] + b;
      SplitHead(a[1..], c, b);
      assert [a[0]] + a[1..] == a;
    }
  }

  lemma {:induction false} SplitWhole(a: string, c: char)
    requires Lacks(a, c)
    ensures Split(a, c) == [a]
  {
    if a != [] {
      SplitWhole(a[1..], c);
      assert [a[0]] + a[1..] == a;
    }
  }

  /** No piece contains the separator. */
  lemma {:induction false} PiecesLack(s: string, c: char)
    ensures forall part | part in Split(s, c) :: Lacks(part, c)
  {
    if s != [] {
      PiecesLack(s[1..], c);
      var r := Split(s[1..], c);
      assert r[0] in r && forall part | part in r[1..] :: part in r;
    }
  }

  lemma {:induction false} SplitOnceAt(a: string, c: char, b: string)
    requires Lacks(a, c)
    ensures SplitOnce(a + [c] + b, c) == Some((a, b))
  {
    if a == [] {
      assert (a + [c] + b)[1..] == b;
    } else {
      assert (a + [c] + b)[1..] == a[1..] + [c] + b;
      SplitOnceAt(a[1..], c, b);
      assert [a[0]] + a[1..] == a;
    }
  }

  lemma {:induction false} SplitOnceLacks(s: string, c: char, d: char)
    requires Lacks(s, d)
    ensures SplitOnce(s, c).Some? ==> Lacks(SplitOnce(s, c).value.1, d)
  {
    if s != [] && s[0] != c { SplitOnceLacks(s[1..], c, d); }
  }

  lemma {:induction false} DropWhileLacks(s: string, p: char -> bool, d: char)
    requires Lacks(s, d)
    ensures Lacks(DropWhile(s, p), d)
  {
    if s != [] && p(s[0]) { DropWhileLacks(s[1..], p, d); }
  }

  lemma {:induction false} DropWhileEndLacks(s: string, p: char -> bool, d: char)
    requires Lacks(s, d)
    ensures Lacks(DropWhileEnd(s, p), d)
  {
    if s != [] && p(s[|s| - 1]) { DropWhileEndLacks(s[..|s| - 1], p, d); }
  }

  lemma {:induction false} TrimByLacks(s: string, p: char -> bool, d: char)
    requires Lacks(s, d)
    ensures Lacks(TrimBy(s, p), d)
  {
    DropWhileLacks(s, p, d);
    DropWhileEndLacks(DropWhile(s, p), p, d);
  }

  predicate IsWord(w: string) { w != [] && forall i | 0 <= i < |w| :: !IsWhitespace(w[i]) }

  lemma {:induction false} TakeRunStops(w: string, rest: string, separates: char -> bool)
    requires forall i | 0 <= i < |w| :: !separates(w[i])
    requires rest == [] || separates(rest[0])
    ensures TakeRun(w + rest, separates) == w
  {
    if w != [] {
      assert (w + rest)[1..] == w[1..] + rest;
      TakeRunStops(w[1..], rest, separates);
    } else {
      assert w + rest == rest;
    }
  }

  lemma {:induction false} RunsSkip(s: string, separates: char -> bool)
    requires s != [] && separates(s[0])
    ensures Runs(s, separates) == Runs(s[1..], separates)
  {}

  lemma {:induction false} RunsFirst(w: string, rest: string, separates: char -> bool)
    requires w != [] && forall i | 0 <= i < |w| :: !separates(w[i])
    requires rest == [] || separates(rest[0])
    ensures Runs(w + rest, separates) == [w] + Runs(rest, separates)
  {
    var s := w + rest;
    assert s[0] == w[0];
    assert DropWhile(s, separates) == s;
    TakeRunStops(w, rest, separates);
    assert s[|w|..] == rest;
  }

  /** Words joined by single spaces are found again. */
  lemma {:induction false} WordsOfJoin(ws: seq<string>)
    requires forall w | w in ws :: IsWord(w)
    ensures Words(Join(ws, " ")) == ws
  {
    if ws != [] {
      var w, tail := ws[0], ws[1..];
      assert w in ws && ws == [w] + tail;
      WordsOfJoin(tail);
      if tail == [] {
        RunsFirst(w, [], IsWhitespace);
        assert w + [] == w;
      } else {
        var rest := " " + Join(tail, " ");
        RunsFirst(w, rest, IsWhitespace);
        RunsSkip(rest, IsWhitespace);
        assert rest[1..] == Join(tail, " ");
        Associative(w, " ", Join(tail, " "));
      }
    }
  }

  /** `w` occurs at position `i`, with nothing but separators or the ends of `s` around it. */
  ghost predicate StandsAlone(s: string, i: int, w: string, separates: char -> bool) {
    && w != [] && 0 <= i && i + |w| <= |s| && s[i..i + |w|] == w
    && (forall k | i <= k < i + |w| :: !separates(s[k]))
    && (i == 0 || separates(s[i - 1]))
    && (i + |w| == |s| || separates(s[i + |w|]))
  }

  lemma {:induction false} TakeRunMaximal(s: string, separates: char -> bool)
    ensures var n := |TakeRun(s, separates)|;
            n <= |s| && (forall k | 0 <= k < n :: !separates(s[k])) && (n == |s| || separates(s[n]))
  {
    if s != [] && !separates(s[0]) {
      TakeRunMaximal(s[1..], separates);
      assert forall k | 1 <= k < |s| :: s[k] == s[1..][k - 1];
    }
  }

  lemma {:induction false} AloneInTail(s: string, n: nat, i: int, w: string, separates: char -> bool)
    requires n <= i && StandsAlone(s, i, w, separates)
    ensures StandsAlone(s[n..], i - n, w, separates)
  {}

  lemma {:induction false} AloneInWhole(s: string, n: nat, j: int, w: string, separates: char -> bool)
    requires 0 < n <= |s| && StandsAlone(s[n..], j, w, separates)
    requires j > 0 || separates(s[n - 1])
    ensures StandsAlone(s, n + j, w, separates)
  {}

  /** The runs are exactly the stretches of text that stand alone. */
  lemma {:induction false} RunsIff(s: string, w: string, separates: char -> bool)
    ensures w in Runs(s, separates) <==> exists i :: StandsAlone(s, i, w, separates)
    decreases |s|
  {
    if s == [] {
    } else if separates(s[0]) {
      RunsIff(s[1..], w, separates);
      RunsSkip(s, separates);
      AloneAfterSeparator(s, w, separates);
    } else {
      var run := TakeRun(s, separates);
      TakeRunLength(s, separates);
      TakeRunMaximal(s, separates);
      var rest := s[|run|..];
      assert s == run + rest;
      RunsIff(rest, w, separates);
      RunsFirst(run, rest, separates);
      AloneAfterRun(s, w, separates);
    }
  }

  lemma {:induction false} AloneAfterSeparator(s: string, w: string, separates: char -> bool)
    requires s != [] && separates(s[0])
    ensures (exists i :: StandsAlone(s, i, w, separates)) <==> (exists j :: StandsAlone(s[1..], j, w, separates))
  {
    if i :| StandsAlone(s, i, w, separates) { AloneInTail(s, 1, i, w, separates); }
    if j :| StandsAlone(s[1..], j, w, separates) { AloneInWhole(s, 1, j, w, separates); }
  }

  lemma {:induction false} AloneAfterRun(s: string, w: string, separates: char -> bool)
    requires s != [] && !separates(s[0])
    ensures var run := TakeRun(s, separates);
            |run| <= |s| &&
            ((exists i :: StandsAlone(s, i, w, separates)) <==>
               w == run || (exists j :: StandsAlone(s[|run|..], j, w, separates)))
  {
    var run := TakeRun(s, separates);
    TakeRunLength(s, separates);
    TakeRunMaximal(s, separates);
    assert StandsAlone(s, 0, run, separates);
    if i :| StandsAlone(s, i, w, separates) {
      if i > 0 { AloneInTail(s, |run|, i, w, separates); } else { AloneAtStart(s, w, separates); }
    }
    if j :| StandsAlone(s[|run|..], j, w, separates) { AloneInWhole(s, |run|, j, w, separates); }
  }

  lemma {:induction false} AloneAtStart(s: string, w: string, separates: char -> bool)
    requires StandsAlone(s, 0, w, separates)
    ensures w == TakeRun(s, separates)
  {
    TakeRunStops(w, s[|w|..], separates);
    assert w + s[|w|..] == s;
  }

  // ---------------------------------------------------------------------
  // What the operations mean
  // ---------------------------------------------------------------------

  /** ASCII capitals become small letters and nothing else changes. */
  lemma {:induction false} LowerMeans(s: string, i: nat)
    requires i < |s|
    ensures !('A' <= Lower(s)[i] <= 'Z')
    ensures 'A' <= s[i] <= 'Z' ==> Lower(s)[i] as int - 'a' as int == s[i] as int - 'A' as int
    ensures !('A' <= s[i] <= 'Z') ==> Lower(s)[i] == s[i]
  {}

  /** Trimming removes nothing but matching characters at the two ends. */
  lemma {:induction false} TrimByMeans(s: string, p: char -> bool) returns (left: nat, right: nat)
    ensures left <= right <= |s| && TrimBy(s, p) == s[left..right]
    ensures (forall i | 0 <= i < left :: p(s[i])) && (forall i | right <= i < |s| :: p(s[i]))
  {
    left := DroppedFront(s, p);
    var kept := DroppedBack(s[left..], p);
    right := left + kept;
    assert s[left..][..kept] == s[left..right];
    assert forall i | right <= i < |s| :: s[i] == s[left..][i - left];
  }

  lemma {:induction false} DroppedFront(s: string, p: char -> bool) returns (n: nat)
    ensures n <= |s| && DropWhile(s, p) == s[n..] && forall i | 0 <= i < n :: p(s[i])
  {
    if s != [] && p(s[0]) {
      var k := DroppedFront(s[1..], p);
      n := k + 1;
      assert s[1..][k..] == s[n..];
      assert forall i | 1 <= i < n :: s[i] == s[1..][i - 1];
    } else {
      n := 0;
    }
  }

  lemma {:induction false} DroppedBack(s: string, p: char -> bool) returns (n: nat)
    ensures n <= |s| && DropWhileEnd(s, p) == s[..n] && forall i | n <= i < |s| :: p(s[i])
  {
    if s != [] && p(s[|s| - 1]) {
      n := DroppedBack(s[..|s| - 1], p);
      assert s[..|s| - 1][..n] == s[..n];
      assert forall i | n <= i < |s| - 1 :: s[i] == s[..|s| - 1][i];
    } else {
      n := |s|;
    }
  }

  /** Blanks, tabs and line breaks are whitespace; visible ASCII is not. */
  lemma {:induction false} WhitespaceMeans(c: char)
    ensures c == ' ' || c == '\t' || c == '\n' || c == '\r' ==> IsWhitespace(c)
    ensures '!' <= c <= '~' ==> !IsWhitespace(c)
  {}

  /** Splitting and joining again gives the text back. */
  lemma {:induction false} JoinOfSplit(s: string, c: char)
    ensures Join(Split(s, c), [c]) == s
  {
    if s != [] {
      var rest := Split(s[1..], c);
      JoinOfSplit(s[1..], c);
      assert s == [s[0]] + s[1..];
      if s[0] == c {
        assert Split(s, c)[1..] == rest;
      } else if |rest| > 1 {
        var head := [[s[0]] + rest[0]];
        assert (head + rest[1..])[1..] == rest[1..];
        Associative([s[0]], rest[0], [c]);
        Associative([s[0]], rest[0] + [c], Join(rest[1..], [c]));
      }
    }
  }

  /** What precedes the first separator, what follows it, or nothing when there is none. */
  lemma {:induction false} SplitOnceMeans(s: string, c: char)
    ensures SplitOnce(s, c).None? <==> Lacks(s, c)
    ensures SplitOnce(s, c).Some? ==>
              var (a, b) := SplitOnce(s, c).value; Lacks(a, c) && s == a + [c] + b
  {
    if s != [] && s[0] != c {
      SplitOnceMeans(s[1..], c);
      assert s == [s[0]] + s[1..];
      assert Lacks(s, c) <==> Lacks(s[1..], c) by { assert forall i | 1 <= i < |s| :: s[i] == s[1..][i - 1]; }
      assert forall i | 0 <= i < |s[1..]| :: s[1..][i] == s[i + 1];
    }
  }
}
