/** internal/caldav/contentline.go: escaping TEXT values and folding content
    lines, octet by octet, with their inverses from RFC 5545 sections 3.1 and
    3.3.11. */
module ContentLines {
  type Octet = b: int | 0 <= b < 256
  type Text = seq<Octet>

  const HTAB: Octet := 9
  const LF: Octet := 10
  const CR: Octet := 13
  const SPACE: Octet := 32
  const COMMA: Octet := 44
  const COLON: Octet := 58
  const SEMICOLON: Octet := 59
  const BACKSLASH: Octet := 92
  const UPPER_N: Octet := 78
  const LOWER_N: Octet := 110

  const CRLF: Text := [CR, LF]
  const FOLD: Text := [CR, LF, SPACE]
  const NEWLINE: Text := [BACKSLASH, LOWER_N]

  const MAX_OCTETS := 75

  /** The octets of an ASCII text. */
  function Ascii(s: string): (t: Text)
    requires forall i :: 0 <= i < |s| ==> s[i] as int < 128
    ensures |t| == |s| && forall i :: 0 <= i < |s| ==> t[i] == s[i] as int
  {
    seq(|s|, i requires 0 <= i < |s| => s[i] as int)
  }

  /** The octets written and looked for, as characters; a continuation octet of UTF-8 is
      one whose two leading bits are 10. */
  lemma OctetsAre()
    ensures [HTAB, LF, CR, SPACE, COMMA, COLON, SEMICOLON, BACKSLASH, UPPER_N, LOWER_N] == Ascii("\t\n\r ,:;\\Nn")
    ensures CRLF == Ascii("\r\n") && FOLD == Ascii("\r\n ") && NEWLINE == Ascii("\\n")
    ensures forall c: Octet :: Continuation(c) <==> c / 64 == 2
  {
  }

  // ----------------------------------------------------------------- escaping

  /** The escape of what s starts with, and how many octets that is. */
  function Unit(s: Text): (u: (Text, nat))
    requires s != []
    ensures 0 < u.1 <= |s|
  {
    if s[0] in {BACKSLASH, SEMICOLON, COMMA} then ([BACKSLASH, s[0]], 1)
    else if s[0] == CR then (NEWLINE, if |s| > 1 && s[1] == LF then 2 else 1)
    else if s[0] == LF then (NEWLINE, 1)
    else ([s[0]], 1)
  }

  function Escaped(s: Text): Text
    decreases |s|
  {
    if s == [] then [] else Unit(s).0 + Escaped(s[Unit(s).1..])
  }

  /** RFC 5545 section 3.3.11 read backwards. */
  function Unescaped(s: Text): Text {
    if s == [] then []
    else if s[0] == BACKSLASH && |s| > 1 then
      [if s[1] == LOWER_N || s[1] == UPPER_N then LF else s[1]] + Unescaped(s[2..])
    else [s[0]] + Unescaped(s[1..])
  }

  /** The text with every line break written as LF. */
  function Normalized(s: Text): Text
    decreases |s|
  {
    if s == [] then []
    else if s[0] == CR && |s| > 1 && s[1] == LF then [LF] + Normalized(s[2..])
    else if s[0] == CR then [LF] + Normalized(s[1..])
    else [s[0]] + Normalized(s[1..])
  }

  predicate NeedsEscape(c: Octet) {
    c in {BACKSLASH, SEMICOLON, COMMA, CR, LF}
  }

  method EscapeText(s: Text) returns (r: Text)
    ensures r == Escaped(s)
  {
    hide Escaped;
    var plain := true;
    for k := 0 to |s|
      invariant plain <==> forall j :: 0 <= j < k ==> !NeedsEscape(s[j])
    {
      if NeedsEscape(s[k]) { plain := false; }
    }
    if plain {
      PlainIsEscaped(s);
      return s;
    }
    r := [];
    var i := 0;
    EscapedNothing();
    assert s[0..] == s;
    while i < |s|
      invariant i <= |s|
      invariant r + Escaped(s[i..]) == Escaped(s)
    {
      ghost var u := Unit(s[i..]);
      ghost var r0, i0 := r, i;
      var c := s[i];
      if c == BACKSLASH || c == SEMICOLON || c == COMMA {
        r := r + [BACKSLASH, c];
      } else if c == CR {
        if i + 1 < |s| && s[i + 1] == LF {
          i := i + 1;
        }
        r := r + NEWLINE;
      } else if c == LF {
        r := r + NEWLINE;
      } else {
        r := r + [c];
      }
      i := i + 1;
      EscapedStep(s, i0, r0);
      assert r == r0 + u.0 && i == i0 + u.1;
    }
    assert s[i..] == [] && r + [] == r;
  }

  lemma {:induction false} EscapedStep(s: Text, i: nat, r: Text)
    requires i < |s|
    ensures var u := Unit(s[i..]);
            r + Escaped(s[i..]) == (r + u.0) + Escaped(s[i + u.1..])
  {
  }

  lemma EscapedNothing()
    ensures Escaped([]) == []
  {
  }

  lemma {:induction false} PlainIsEscaped(s: Text)
    requires forall j :: 0 <= j < |s| ==> !NeedsEscape(s[j])
    ensures Escaped(s) == s
    decreases |s|
  {
    if s != [] {
      var rest := s[1..];
      assert !NeedsEscape(s[0]);
      assert forall j :: 0 <= j < |rest| ==> rest[j] == s[j + 1];
      PlainIsEscaped(rest);
      assert [s[0]] + rest == s;
    }
  }

  lemma UnescapePair(c: Octet, t: Text)
    ensures Unescaped([BACKSLASH, c] + t) == [if c == LOWER_N || c == UPPER_N then LF else c] + Unescaped(t)
  {
    assert ([BACKSLASH, c] + t)[2..] == t;
  }

  lemma UnescapePlain(c: Octet, t: Text)
    requires c != BACKSLASH
    ensures Unescaped([c] + t) == [c] + Unescaped(t)
  {
    assert ([c] + t)[1..] == t;
  }

  /** What a unit of the text is normalised to. */
  lemma NormalizedUnit(s: Text)
    requires s != []
    ensures Normalized(s) == [if s[0] == CR then LF else s[0]] + Normalized(s[Unit(s).1..])
  {
  }

  lemma EscapedUnit(s: Text)
    requires s != []
    ensures Escaped(s) == Unit(s).0 + Escaped(s[Unit(s).1..])
  {
  }

  /** Unescaping undoes escaping, up to the spelling of line breaks. */
  lemma {:induction false} UnescapeUndoesEscape(s: Text)
    ensures Unescaped(Escaped(s)) == Normalized(s)
    decreases |s|
  {
    if s != [] {
      hide Escaped, Unescaped, Normalized;
      var rest := s[Unit(s).1..];
      UnescapeUndoesEscape(rest);
      EscapedUnit(s);
      NormalizedUnit(s);
      if s[0] in {BACKSLASH, SEMICOLON, COMMA} {
        UnescapePair(s[0], Escaped(rest));
      } else if s[0] == CR || s[0] == LF {
        UnescapePair(LOWER_N, Escaped(rest));
      } else {
        UnescapePlain(s[0], Escaped(rest));
      }
    }
  }

  predicate BreakFree(s: Text) {
    CR !in s && LF !in s
  }

  /** No value can end its line early. */
  lemma {:induction false} EscapedIsBreakFree(s: Text)
    ensures BreakFree(Escaped(s))
    decreases |s|
  {
    if s != [] {
      EscapedIsBreakFree(s[Unit(s).1..]);
    }
  }

  // ------------------------------------------------------------------ folding

  predicate Continuation(c: Octet) {
    0x80 <= c < 0xC0
  }

  /** The last index up to n that is 0 or starts a rune. */
  function BackOff(s: Text, n: nat): (k: nat)
    requires n < |s|
    ensures k <= n
    ensures k > 0 ==> !Continuation(s[k])
    ensures forall j :: k < j <= n ==> Continuation(s[j])
  {
    if n > 0 && Continuation(s[n]) then BackOff(s, n - 1) else n
  }

  /** The first index from n on that ends s or starts a rune. */
  function Forward(s: Text, n: nat): (k: nat)
    requires n <= |s|
    ensures n <= k <= |s|
    ensures k < |s| ==> !Continuation(s[k])
    decreases |s| - n
  {
    if n < |s| && Continuation(s[n]) then Forward(s, n + 1) else n
  }

  /** Where a line longer than the limit is cut. */
  function CutAt(s: Text, limit: nat): (n: nat)
    requires 0 < limit < |s|
    ensures 0 < n <= |s|
  {
    if BackOff(s, limit) == 0 then Forward(s, limit) else BackOff(s, limit)
  }

  function FoldRest(s: Text, limit: nat): Text
    requires limit > 0
    decreases |s|
  {
    if |s| <= limit then s
    else
      var n := CutAt(s, limit);
      s[..n] + FOLD + FoldRest(s[n..], MAX_OCTETS - 1)
  }

  function Folded(line: Text): Text {
    FoldRest(line, MAX_OCTETS)
  }

  method FoldLine(line: Text) returns (r: Text)
    ensures r == Folded(line)
  {
    hide CutAt;
    if |line| <= MAX_OCTETS { return line; }
    r := [];
    var start := 0;
    var limit := MAX_OCTETS;
    assert line[0..] == line;
    while true
      invariant start <= |line| && limit > 0
      invariant r + FoldRest(line[start..], limit) == Folded(line)
      decreases |line| - start
    {
      if |line| - start <= limit {
        r := r + line[start..];
        return;
      }
      var end := FindCut(line, start, limit);
      FoldStep(line, start, end, limit, r);
      r := r + line[start..end] + FOLD;
      start := end;
      limit := MAX_OCTETS - 1;
    }
  }

  lemma FoldStep(line: Text, start: nat, end: nat, limit: nat, r: Text)
    requires 0 < limit < |line| - start && start < end <= |line| && end - start == CutAt(line[start..], limit)
    ensures r + FoldRest(line[start..], limit) == r + line[start..end] + FOLD + FoldRest(line[end..], MAX_OCTETS - 1)
  {
    hide CutAt;
    var rest := line[start..];
    assert line[start..end] == rest[..end - start] && line[end..] == rest[end - start..];
  }

  /** The cut of one fragment: back to a rune boundary, else past the rune. */
  method FindCut(line: Text, start: nat, limit: nat) returns (end: nat)
    requires 0 < limit < |line| - start
    ensures start < end <= |line| && end - start == CutAt(line[start..], limit)
  {
    ghost var rest := line[start..];
    end := start + limit;
    while end > start && Continuation(line[end])
      invariant start <= end < |line|
      invariant BackOff(rest, limit) == BackOff(rest, end - start)
    {
      end := end - 1;
    }
    if end == start {
      end := start + limit;
      while end < |line| && Continuation(line[end])
        invariant start + limit <= end <= |line|
        invariant Forward(rest, limit) == Forward(rest, end - start)
      {
        end := end + 1;
      }
    }
  }

  /** RFC 5545 section 3.1: CRLF followed by one white space is removed. */
  function Unfolded(s: Text): Text {
    if s == [] then []
    else if FoldAt(s, 0) then Unfolded(s[3..])
    else [s[0]] + Unfolded(s[1..])
  }

  predicate IsBlank(c: Octet) {
    c == SPACE || c == HTAB
  }

  predicate FoldAt(s: Text, i: nat) {
    i + 2 < |s| && s[i] == CR && s[i + 1] == LF && IsBlank(s[i + 2])
  }

  predicate FoldFree(s: Text) {
    forall i: nat | i < |s| :: !FoldAt(s, i)
  }

  lemma {:induction false} UnfoldIdle(s: Text)
    requires FoldFree(s)
    ensures Unfolded(s) == s
    decreases |s|
  {
    if s != [] {
      forall i: nat ensures !FoldAt(s[1..], i) {
        assert !FoldAt(s, i + 1);
      }
      UnfoldIdle(s[1..]);
    }
  }

  lemma UnfoldHead(c: Octet, t: Text)
    requires !FoldAt([c] + t, 0)
    ensures Unfolded([c] + t) == [c] + Unfolded(t)
  {
    assert ([c] + t)[1..] == t;
  }

  lemma UnfoldGap(f: Text, t: Text)
    requires |f| == 3 && FoldAt(f, 0)
    ensures Unfolded(f + t) == Unfolded(t)
  {
    assert (f + t)[3..] == t && FoldAt(f + t, 0);
  }

  lemma FoldBefore(a: Text, t: Text)
    requires a != [] && t != [] && t[0] == CR
    ensures FoldAt(a + t, 0) <==> FoldAt(a, 0)
  {
  }

  /** Nothing is folded across a carriage return. */
  lemma {:induction false} UnfoldBeforeReturn(a: Text, t: Text)
    requires t != [] && t[0] == CR
    ensures Unfolded(a + t) == Unfolded(a) + Unfolded(t)
    decreases |a|
  {
    hide Unfolded, FoldAt;
    UnfoldNothing();
    if a == [] {
      assert a + t == t;
    } else {
      FoldBefore(a, t);
      if FoldAt(a, 0) {
        UnfoldFirst(a);
        UnfoldFirst(a + t);
        assert (a + t)[3..] == a[3..] + t;
        UnfoldBeforeReturn(a[3..], t);
      } else {
        assert a == [a[0]] + a[1..] && a + t == [a[0]] + (a[1..] + t);
        UnfoldHead(a[0], a[1..]);
        UnfoldHead(a[0], a[1..] + t);
        UnfoldBeforeReturn(a[1..], t);
      }
    }
  }

  lemma UnfoldNothing()
    ensures Unfolded([]) == []
  {
  }

  lemma UnfoldFirst(s: Text)
    requires FoldAt(s, 0)
    ensures |s| >= 3 && Unfolded(s) == Unfolded(s[3..])
  {
  }

  /** Unfolding works on both sides of a fold independently. */
  lemma UnfoldAtFold(a: Text, b: Text)
    ensures Unfolded(a + FOLD + b) == Unfolded(a) + Unfolded(b)
  {
    hide Unfolded;
    assert a + FOLD + b == a + (FOLD + b);
    UnfoldBeforeReturn(a, FOLD + b);
    UnfoldGap(FOLD, b);
  }

  lemma FoldFreeParts(s: Text, n: nat)
    requires n <= |s| && FoldFree(s)
    ensures FoldFree(s[..n]) && FoldFree(s[n..])
  {
    forall i: nat | i < |s[..n]| ensures !FoldAt(s[..n], i) {
      assert !FoldAt(s, i);
    }
    forall i: nat | i < |s[n..]| ensures !FoldAt(s[n..], i) {
      assert !FoldAt(s, n + i);
    }
  }

  lemma {:induction false} UnfoldUndoesFoldRest(s: Text, limit: nat)
    requires limit > 0 && FoldFree(s)
    ensures Unfolded(FoldRest(s, limit)) == s
    decreases |s|
  {
    hide CutAt, FoldFree;
    if |s| <= limit {
      UnfoldIdle(s);
    } else {
      var n := CutAt(s, limit);
      FoldFreeParts(s, n);
      UnfoldIdle(s[..n]);
      UnfoldUndoesFoldRest(s[n..], MAX_OCTETS - 1);
      UnfoldAtFold(s[..n], FoldRest(s[n..], MAX_OCTETS - 1));
    }
  }

  /** Unfolding gives back every line that held no fold of its own. */
  lemma UnfoldUndoesFold(line: Text)
    requires FoldFree(line)
    ensures Unfolded(Folded(line)) == line
  {
    UnfoldUndoesFoldRest(line, MAX_OCTETS);
  }

  // ------------------------------------------------- physical lines and UTF-8

  /** The pieces of the line between the folds. */
  function Fragments(s: Text, limit: nat): (fs: seq<Text>)
    requires limit > 0
    ensures fs != []
    decreases |s|
  {
    if |s| <= limit then [s]
    else
      var n := CutAt(s, limit);
      [s[..n]] + Fragments(s[n..], MAX_OCTETS - 1)
  }

  /** Splits at every CRLF. */
  function SplitLines(s: Text): (ls: seq<Text>)
    ensures ls != []
  {
    if s == [] then [[]]
    else if BreakAt(s, 0) then [[]] + SplitLines(s[2..])
    else
      var rest := SplitLines(s[1..]);
      [[s[0]] + rest[0]] + rest[1..]
  }

  /** The lines a reader sees: the first fragment, then each other one behind a
      space. */
  function Physical(fs: seq<Text>): seq<Text> {
    if fs == [] then [] else [fs[0]] + Behind(fs[1..])
  }

  function Behind(fs: seq<Text>): (r: seq<Text>)
    ensures |r| == |fs|
    ensures forall i :: 0 <= i < |fs| ==> r[i] == [SPACE] + fs[i]
  {
    if fs == [] then [] else [[SPACE] + fs[0]] + Behind(fs[1..])
  }

  /** CR LF side by side. */
  ghost predicate HasBreak(t: Text) {
    exists i :: BreakAt(t, i)
  }

  predicate BreakAt(t: Text, i: int) {
    0 <= i < |t| - 1 && t[i] == CR && t[i + 1] == LF
  }

  lemma BreakFreeHasNoBreak(t: Text)
    requires BreakFree(t)
    ensures !HasBreak(t)
  {
  }

  lemma SliceHasNoBreak(t: Text, from: nat, to: nat)
    requires from <= to <= |t| && !HasBreak(t)
    ensures !HasBreak(t[from..to])
  {
    forall i ensures !BreakAt(t[from..to], i) {
      assert !BreakAt(t, from + i);
    }
  }

  lemma {:induction false} SplitAtBreak(a: Text, b: Text)
    requires !HasBreak(a)
    ensures SplitLines(a + CRLF + b) == [a] + SplitLines(b)
    decreases |a|
  {
    var s := a + CRLF + b;
    if a == [] {
      assert s[2..] == b;
    } else {
      assert s[1..] == a[1..] + CRLF + b;
      assert !BreakAt(a, 0);
      SliceHasNoBreak(a, 1, |a|);
      assert a[1..|a|] == a[1..];
      SplitAtBreak(a[1..], b);
      assert SplitLines(s[1..])[1..] == SplitLines(b);
      assert [a[0]] + a[1..] == a;
    }
  }

  /** A split line holds no line break. */
  lemma {:induction false} SplitHasNoBreak(s: Text)
    ensures forall l :: l in SplitLines(s) ==> !HasBreak(l)
    ensures SplitLines(s)[0] != [] ==> s != [] && SplitLines(s)[0][0] == s[0]
    decreases |s|
  {
    if s != [] {
      if BreakAt(s, 0) {
        SplitHasNoBreak(s[2..]);
      } else {
        SplitHasNoBreak(s[1..]);
        var rest := SplitLines(s[1..]);
        var l := [s[0]] + rest[0];
        assert rest[0] in rest;
        forall i ensures !BreakAt(l, i) {
          if i > 0 { assert !BreakAt(rest[0], i - 1); }
        }
      }
    }
  }

  lemma {:induction false} SplitPlain(a: Text)
    requires BreakFree(a)
    ensures SplitLines(a) == [a]
    decreases |a|
  {
    if a != [] {
      SplitPlain(a[1..]);
      assert [a[0]] + a[1..] == a;
    }
  }

  lemma {:induction false} FoldedLines(s: Text, limit: nat)
    requires limit > 0 && BreakFree(s)
    ensures SplitLines(FoldRest(s, limit)) == Physical(Fragments(s, limit))
    ensures SplitLines([SPACE] + FoldRest(s, limit)) == Behind(Fragments(s, limit))
    decreases |s|
  {
    if |s| <= limit {
      SplitPlain(s);
      SplitPlain([SPACE] + s);
    } else {
      var n := CutAt(s, limit);
      var rest := FoldRest(s[n..], MAX_OCTETS - 1);
      FoldedLines(s[n..], MAX_OCTETS - 1);
      assert s[..n] + FOLD + rest == s[..n] + CRLF + ([SPACE] + rest);
      assert [SPACE] + (s[..n] + FOLD + rest) == ([SPACE] + s[..n]) + CRLF + ([SPACE] + rest);
      BreakFreeHasNoBreak(s[..n]);
      BreakFreeHasNoBreak([SPACE] + s[..n]);
      SplitAtBreak(s[..n], [SPACE] + rest);
      SplitAtBreak([SPACE] + s[..n], [SPACE] + rest);
    }
  }

  /** The length of the UTF-8 sequence s starts with (RFC 3629), 0 if malformed. */
  function RuneLength(s: Text): (n: nat)
    ensures n <= |s| && n <= 4
    ensures forall j :: 1 <= j < n ==> Continuation(s[j])
    ensures n > 0 ==> !Continuation(s[0])
  {
    if s == [] then 0
    else if s[0] < 0x80 then 1
    else if 0xC2 <= s[0] <= 0xDF && |s| >= 2 && Continuation(s[1]) then 2
    else if 0xE0 <= s[0] <= 0xEF && |s| >= 3 && Continuation(s[1]) && Continuation(s[2]) &&
            (s[0] == 0xE0 ==> s[1] >= 0xA0) && (s[0] == 0xED ==> s[1] <= 0x9F) then 3
    else if 0xF0 <= s[0] <= 0xF4 && |s| >= 4 && Continuation(s[1]) && Continuation(s[2]) && Continuation(s[3]) &&
            (s[0] == 0xF0 ==> s[1] >= 0x90) && (s[0] == 0xF4 ==> s[1] <= 0x8F) then 4
    else 0
  }

  predicate ValidUtf8(s: Text)
    decreases |s|
  {
    s == [] || (RuneLength(s) > 0 && ValidUtf8(s[RuneLength(s)..]))
  }

  lemma {:induction false} RunePrefix(s: Text, k: nat)
    requires 0 < RuneLength(s) <= k <= |s|
    ensures RuneLength(s[..k]) == RuneLength(s)
  {
  }

  lemma NothingIsValid()
    ensures ValidUtf8([])
  {
  }

  lemma ValidRune(s: Text)
    requires s != []
    ensures ValidUtf8(s) <==> RuneLength(s) > 0 && ValidUtf8(s[RuneLength(s)..])
  {
  }

  /** Valid text cut where a rune starts is valid on both sides. */
  lemma {:induction false} CutIsValid(s: Text, k: nat)
    requires ValidUtf8(s) && k <= |s| && (k == |s| || k == 0 || !Continuation(s[k]))
    ensures ValidUtf8(s[..k]) && ValidUtf8(s[k..])
    decreases |s|
  {
    hide ValidUtf8, RuneLength;
    NothingIsValid();
    if k == 0 {
      assert s[0..] == s;
    } else {
      var n := RuneLength(s);
      ValidRune(s);
      assert k >= n;
      CutIsValid(s[n..], k - n);
      RunePrefix(s, k);
      ValidRune(s[..k]);
      assert s[n..][..k - n] == s[..k][n..];
      assert s[n..][k - n..] == s[k..];
    }
  }

  /** In valid text there is a rune boundary within the limit. */
  lemma {:induction false} BoundaryExists(s: Text, limit: nat)
    requires ValidUtf8(s) && 4 <= limit < |s|
    ensures BackOff(s, limit) > 0
  {
  }

  lemma {:induction false} FragmentsAreValid(s: Text, limit: nat)
    requires ValidUtf8(s) && 4 <= limit
    ensures forall f :: f in Fragments(s, limit)[1..] ==> ValidUtf8(f) && |f| <= MAX_OCTETS - 1
    ensures ValidUtf8(Fragments(s, limit)[0]) && |Fragments(s, limit)[0]| <= limit
    decreases |s|
  {
    if |s| > limit {
      BoundaryExists(s, limit);
      var n := CutAt(s, limit);
      CutIsValid(s, n);
      FragmentsAreValid(s[n..], MAX_OCTETS - 1);
      var fs := Fragments(s[n..], MAX_OCTETS - 1);
      assert Fragments(s, limit)[1..] == fs;
      assert forall f :: f in fs ==> f == fs[0] || f in fs[1..];
    }
  }

  /** Every physical line of folded valid text is valid and at most 75 octets,
      the leading space included. */
  lemma FoldedLinesAreShort(line: Text)
    requires BreakFree(line) && ValidUtf8(line)
    ensures forall p :: p in SplitLines(Folded(line)) ==> ValidUtf8(p) && |p| <= 75
  {
    FoldedLines(line, MAX_OCTETS);
    FragmentsAreValid(line, MAX_OCTETS);
    assert Folded(line) == FoldRest(line, MAX_OCTETS);
    hide ValidUtf8, Folded, Fragments, Behind, SplitLines;
    var fs := Fragments(line, MAX_OCTETS);
    var more := fs[1..];
    forall p | p in Behind(more) ensures ValidUtf8(p) && |p| <= MAX_OCTETS {
      var i :| 0 <= i < |more| && p == Behind(more)[i];
      assert p == [SPACE] + more[i] && more[i] in more;
      AsciiPrepend(SPACE, more[i]);
    }
    assert SplitLines(Folded(line)) == [fs[0]] + Behind(more);
  }

  /** Every fragment but the last has no room for another rune of four octets. */
  predicate Full(fs: seq<Text>, limit: nat) {
    forall i :: 0 <= i < |fs| - 1 ==> |fs[i]| + 4 > (if i == 0 then limit else 74)
  }

  lemma FullCons(first: Text, rest: seq<Text>, limit: nat)
    requires |first| + 4 > limit && Full(rest, 74)
    ensures Full([first] + rest, limit)
  {
    var fs := [first] + rest;
    forall i | 0 <= i < |fs| - 1 ensures |fs[i]| + 4 > (if i == 0 then limit else 74) {
      if i > 0 { assert fs[i] == rest[i - 1]; }
    }
  }

  /** Nothing is folded without need: what fits stays on its line, and a longer line is cut
      only where no further rune would fit. */
  lemma {:induction false} FragmentsAreFull(s: Text, limit: nat)
    requires ValidUtf8(s) && 4 <= limit
    ensures Full(Fragments(s, limit), limit)
    decreases |s|
  {
    hide Full, CutAt, ValidUtf8;
    FullOne(s, limit);
    if |s| > limit {
      BoundaryIsClose(s, limit);
      var n := CutAt(s, limit);
      FragmentsAreFull(s[n..], MAX_OCTETS - 1);
      FullCons(s[..n], Fragments(s[n..], MAX_OCTETS - 1), limit);
    }
  }

  lemma FullOne(s: Text, limit: nat)
    ensures Full([s], limit)
  {
  }

  lemma ShortIsKept(line: Text)
    requires |line| <= 75
    ensures Folded(line) == line
  {
  }

  /** In valid text the last boundary before the limit is at most three octets away. */
  lemma {:induction false} BoundaryIsClose(s: Text, limit: nat)
    requires ValidUtf8(s) && 4 <= limit < |s|
    ensures CutAt(s, limit) + 4 > limit && ValidUtf8(s[CutAt(s, limit)..])
  {
    BoundaryWithin(s, limit);
    BoundaryExists(s, limit);
    CutIsValid(s, CutAt(s, limit));
  }

  lemma {:induction false} BoundaryWithin(s: Text, n: nat)
    requires ValidUtf8(s) && n < |s|
    ensures BackOff(s, n) + 4 > n
    decreases |s|
  {
    hide ValidUtf8, RuneLength;
    ValidRune(s);
    var r := RuneLength(s);
    if n < r {
      assert BackOff(s, n) >= 0;
    } else {
      var rest := s[r..];
      ValidRune(rest);
      assert rest[0] == s[r];
      BoundaryWithin(rest, n - r);
      BackOffShifts(s, r, n);
    }
  }

  /** Behind a boundary the same octets are passed over. */
  lemma {:induction false} BackOffShifts(s: Text, r: nat, n: nat)
    requires r <= n < |s|
    ensures BackOff(s, n) >= r + BackOff(s[r..], n - r) || Continuation(s[r])
    decreases n
  {
    assert s[r..][n - r] == s[n];
    if n > r && Continuation(s[n]) { BackOffShifts(s, r, n - 1); }
  }

  // ------------------------------------------------------------ content lines

  /** The logical line of a property. */
  function Logical(name: Text, value: Text): Text {
    name + [COLON] + value
  }

  lemma {:induction false} HighOctetsStay(a: Text, b: Text)
    requires forall j :: 0 <= j < |a| ==> a[j] >= 0x80
    ensures Escaped(a + b) == a + Escaped(b)
    decreases |a|
  {
    hide Escaped;
    if a == [] {
      assert a + b == b;
    } else {
      assert (a + b)[1..] == a[1..] + b;
      HighOctetStays(a + b);
      HighOctetsStay(a[1..], b);
    }
  }

  lemma HighOctetStays(s: Text)
    requires s != [] && s[0] >= 0x80
    ensures Escaped(s) == [s[0]] + Escaped(s[1..])
  {
  }

  lemma {:induction false} ValidPrepend(a: Text, s: Text)
    requires 0 < RuneLength(a) == |a| && ValidUtf8(s)
    ensures ValidUtf8(a + s)
  {
  }

  lemma {:induction false} AsciiPrepend(c: Octet, s: Text)
    requires c < 0x80 && ValidUtf8(s)
    ensures ValidUtf8([c] + s)
  {
  }

  lemma {:induction false} ValidTwice(a: Octet, b: Octet, s: Text)
    requires a < 0x80 && b < 0x80 && ValidUtf8(s)
    ensures ValidUtf8([a, b] + s)
  {
  }

  lemma {:induction false} HighRuneEscapes(s: Text)
    requires s != [] && s[0] >= 0x80 && RuneLength(s) > 0 && ValidUtf8(Escaped(s[RuneLength(s)..]))
    ensures ValidUtf8(Escaped(s))
  {
    hide ValidUtf8, Escaped;
    var n := RuneLength(s);
    HighOctetsStay(s[..n], s[n..]);
    assert s[..n] + s[n..] == s;
    RunePrefix(s, n);
    ValidPrepend(s[..n], Escaped(s[n..]));
  }

  lemma {:induction false} AsciiUnitLeaves(s: Text)
    requires s != [] && s[0] < 0x80 && ValidUtf8(s)
    ensures ValidUtf8(s[Unit(s).1..])
  {
  }

  /** Escaping keeps text valid. */
  lemma {:induction false} EscapedIsValid(s: Text)
    requires ValidUtf8(s)
    ensures ValidUtf8(Escaped(s))
    decreases |s|
  {
    if s != [] {
      if s[0] >= 0x80 {
        EscapedIsValid(s[RuneLength(s)..]);
        HighRuneEscapes(s);
      } else {
        var u := Unit(s);
        AsciiUnitLeaves(s);
        EscapedIsValid(s[u.1..]);
        assert Escaped(s) == u.0 + Escaped(s[u.1..]);
        hide ValidUtf8;
        if |u.0| == 2 {
          ValidTwice(u.0[0], u.0[1], Escaped(s[u.1..]));
        } else {
          AsciiPrepend(u.0[0], Escaped(s[u.1..]));
        }
      }
    }
  }

  lemma {:induction false} AsciiThenValid(name: Text, s: Text)
    requires (forall j :: 0 <= j < |name| ==> name[j] < 0x80) && ValidUtf8(s)
    ensures ValidUtf8(name + s)
    decreases |name|
  {
    hide ValidUtf8;
    if name == [] {
      assert name + s == s;
    } else {
      AsciiThenValid(name[1..], s);
      AsciiPrepend(name[0], name[1..] + s);
      assert name + s == [name[0]] + (name[1..] + s);
    }
  }

  /** Whatever valid text a TEXT property holds, its physical lines are valid and
      at most 75 octets. */
  lemma TextLinesAreShort(name: Text, value: Text)
    requires BreakFree(name) && (forall j :: 0 <= j < |name| ==> name[j] < 0x80) && ValidUtf8(value)
    ensures forall p :: p in SplitLines(Folded(Logical(name, Escaped(value)))) ==> ValidUtf8(p) && |p| <= 75
  {
    EscapedIsValid(value);
    EscapedIsBreakFree(value);
    AsciiThenValid(name + [COLON], Escaped(value));
    FoldedLinesAreShort(Logical(name, Escaped(value)));
  }

  method ContentLine(name: Text, value: Text) returns (r: Text)
    ensures r == Folded(Logical(name, Escaped(value))) + CRLF
  {
    var escaped := EscapeText(value);
    var folded := FoldLine(name + [COLON] + escaped);
    r := folded + CRLF;
  }

  method RawContentLine(name: Text, value: Text) returns (r: Text)
    ensures r == Folded(Logical(name, value)) + CRLF
  {
    var folded := FoldLine(name + [COLON] + value);
    r := folded + CRLF;
  }
}
