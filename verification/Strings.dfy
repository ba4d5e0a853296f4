/** String helpers of the Go library, over ASCII case and white space. */
module Strings {
  function LowerChar(c: char): char {
    if 'A' <= c <= 'Z' then c + 32 as char else c
  }

  function ToLower(s: string): (r: string)
    ensures |r| == |s|
  {
    if s == "" then "" else [LowerChar(s[0])] + ToLower(s[1..])
  }

  predicate IsSpace(c: char) {
    c in {' ', '\t', '\n', '\r', 11 as char, 12 as char}
  }

  function TrimLeft(s: string): string {
    if s != "" && IsSpace(s[0]) then TrimLeft(s[1..]) else s
  }

  function TrimRight(s: string): string {
    if s != "" && IsSpace(s[|s| - 1]) then TrimRight(s[..|s| - 1]) else s
  }

  function TrimSpace(s: string): string {
    TrimRight(TrimLeft(s))
  }

  predicate HasPrefix(s: string, p: string) {
    |p| <= |s| && s[..|p|] == p
  }

  predicate HasSuffix(s: string, p: string) {
    |p| <= |s| && s[|s| - |p|..] == p
  }

  /** Index of the first character of s in cs, or |s|. */
  function FirstOf(s: string, cs: set<char>): (i: nat)
    ensures i <= |s|
    ensures forall k :: 0 <= k < i ==> s[k] !in cs
    ensures i < |s| ==> s[i] in cs
  {
    if s == "" || s[0] in cs then 0 else 1 + FirstOf(s[1..], cs)
  }

  function UpperChar(c: char): char {
    if 'a' <= c <= 'z' then c - 32 as char else c
  }

  function ToUpper(s: string): (r: string)
    ensures |r| == |s|
    ensures forall i :: 0 <= i < |s| ==> r[i] == UpperChar(s[i])
  {
    if s == "" then "" else [UpperChar(s[0])] + ToUpper(s[1..])
  }

  /** strings.Split(s, "\n"). */
  function SplitLines(s: string): (ls: seq<string>)
    ensures ls != []
    ensures forall l :: l in ls ==> '\n' !in l
  {
    if s == "" then [""]
    else
      var rest := SplitLines(s[1..]);
      if s[0] == '\n' then [""] + rest else [[s[0]] + rest[0]] + rest[1..]
  }

  /** strings.Join(ls, "\n"). */
  function JoinLines(ls: seq<string>): string {
    if ls == [] then ""
    else if |ls| == 1 then ls[0]
    else ls[0] + "\n" + JoinLines(ls[1..])
  }

  lemma {:induction false} SplitPlainLine(l: string)
    requires '\n' !in l
    ensures SplitLines(l) == [l]
    decreases |l|
  {
    if l != "" {
      SplitPlainLine(l[1..]);
      assert [l[0]] + l[1..] == l;
    }
  }

  lemma {:induction false} SplitFirstLine(l: string, s: string)
    requires '\n' !in l
    ensures SplitLines(l + "\n" + s) == [l] + SplitLines(s)
    decreases |l|
  {
    var t := l + "\n" + s;
    if l == "" {
      assert t[1..] == s;
    } else {
      assert t[1..] == l[1..] + "\n" + s;
      SplitFirstLine(l[1..], s);
      assert SplitLines(t[1..])[1..] == SplitLines(s);
      assert [l[0]] + l[1..] == l;
    }
  }

  /** Splitting undoes joining. */
  lemma {:induction false} SplitJoin(ls: seq<string>)
    requires ls != [] && forall l :: l in ls ==> '\n' !in l
    ensures SplitLines(JoinLines(ls)) == ls
    decreases |ls|
  {
    assert ls[0] in ls;
    if |ls| == 1 {
      SplitPlainLine(ls[0]);
    } else {
      SplitJoin(ls[1..]);
      SplitFirstLine(ls[0], JoinLines(ls[1..]));
    }
  }

  /** Joining undoes splitting. */
  lemma {:induction false} JoinSplit(s: string)
    ensures JoinLines(SplitLines(s)) == s
    decreases |s|
  {
    if s != "" {
      JoinSplit(s[1..]);
      var rest := SplitLines(s[1..]);
      var ls := SplitLines(s);
      if s[0] == '\n' {
        assert ls[1..] == rest;
      } else {
        assert ls[1..] == rest[1..];
      }
    }
  }

  /** strings.Contains: p occurs in s as a contiguous substring. */
  predicate Occurs(s: string, p: string) {
    exists i :: 0 <= i <= |s| - |p| && OccursAt(s, p, i)
  }

  predicate OccursAt(s: string, p: string, i: int) {
    0 <= i <= |s| - |p| && s[i..i + |p|] == p
  }

  /** A pattern without a line break occurs in joined text when it occurs in one
      of the lines. */
  lemma {:induction false} OccursInJoin(ls: seq<string>, p: string)
    requires ls != [] && p != "" && '\n' !in p
    ensures Occurs(JoinLines(ls), p) <==> exists k :: 0 <= k < |ls| && Occurs(ls[k], p)
    decreases |ls|
  {
    if |ls| > 1 {
      var rest := JoinLines(ls[1..]);
      OccursInJoin(ls[1..], p);
      OccursAround(ls[0], rest, p);
      if Occurs(rest, p) {
        var k :| 0 <= k < |ls[1..]| && Occurs(ls[1..][k], p);
        assert ls[k + 1] == ls[1..][k];
      }
      if k :| 0 < k < |ls| && Occurs(ls[k], p) {
        assert ls[1..][k - 1] == ls[k];
      }
    }
  }

  lemma OccurrenceCovers(s: string, p: string, i: int, n: int)
    requires OccursAt(s, p, i) && i <= n < i + |p|
    ensures s[n] in p
  {
  }

  lemma SliceRight(a: string, b: string, j: int, n: nat)
    requires 0 <= j <= |b| - n
    ensures (a + "\n" + b)[|a| + 1 + j..|a| + 1 + j + n] == b[j..j + n]
  {
  }

  lemma OccursLeft(a: string, b: string, p: string)
    requires Occurs(a, p)
    ensures Occurs(a + "\n" + b, p)
  {
    var i :| 0 <= i <= |a| - |p| && OccursAt(a, p, i);
    assert (a + "\n" + b)[i..i + |p|] == a[i..i + |p|];
    assert OccursAt(a + "\n" + b, p, i);
  }

  lemma OccursRight(a: string, b: string, p: string)
    requires Occurs(b, p)
    ensures Occurs(a + "\n" + b, p)
  {
    var i :| 0 <= i <= |b| - |p| && OccursAt(b, p, i);
    var j := |a| + 1 + i;
    SliceRight(a, b, i, |p|);
    assert OccursAt(a + "\n" + b, p, j);
  }

  lemma OccursAround(a: string, b: string, p: string)
    requires p != "" && '\n' !in p
    ensures Occurs(a + "\n" + b, p) <==> Occurs(a, p) || Occurs(b, p)
  {
    hide Occurs;
    if Occurs(a, p) { OccursLeft(a, b, p); }
    if Occurs(b, p) { OccursRight(a, b, p); }
    if Occurs(a + "\n" + b, p) { OccursOnOneSide(a, b, p); }
  }

  lemma OccursOnOneSide(a: string, b: string, p: string)
    requires p != "" && '\n' !in p && Occurs(a + "\n" + b, p)
    ensures Occurs(a, p) || Occurs(b, p)
  {
    var s := a + "\n" + b;
    var i :| 0 <= i <= |s| - |p| && OccursAt(s, p, i);
    assert s[|a|] == '\n';
    if i <= |a| < i + |p| { OccurrenceCovers(s, p, i, |a|); }
    if i + |p| <= |a| {
      assert a[i..i + |p|] == s[i..i + |p|];
      assert OccursAt(a, p, i);
    } else {
      var j := i - |a| - 1;
      SliceRight(a, b, j, |p|);
      assert OccursAt(b, p, j);
    }
  }

  // --------------------------------------------------------------- letter case

  /** The same letter, typed in any case. */
  predicate SameLetter(typed: char, c: char) {
    typed == c || ('A' <= typed <= 'Z' && c as int == typed as int + 32)
  }

  predicate Spells(typed: string, word: string) {
    |typed| == |word| && forall i :: 0 <= i < |word| ==> SameLetter(typed[i], word[i])
  }

  predicate NoCapitals(s: string) {
    forall i :: 0 <= i < |s| ==> !('A' <= s[i] <= 'Z')
  }

  lemma {:induction false} LowerAt(s: string, i: nat)
    requires i < |s|
    ensures ToLower(s)[i] == LowerChar(s[i])
    decreases |s|
  {
    if i > 0 { LowerAt(s[1..], i - 1); }
  }

  lemma LowerSpells(typed: string, word: string)
    requires NoCapitals(word)
    ensures ToLower(typed) == word <==> Spells(typed, word)
  {
    hide ToLower;
    forall i | 0 <= i < |typed| ensures ToLower(typed)[i] == LowerChar(typed[i]) { LowerAt(typed, i); }
    if |typed| == |word| {
      forall i | 0 <= i < |word| ensures SameLetter(typed[i], word[i]) <==> LowerChar(typed[i]) == word[i] {
        LetterLower(typed[i], word[i]);
      }
      if Spells(typed, word) { assert ToLower(typed) == word; }
    }
  }

  lemma LetterLower(t: char, c: char)
    requires !('A' <= c <= 'Z')
    ensures SameLetter(t, c) <==> LowerChar(t) == c
  {
  }

  // ------------------------------------------------------------------- blanks

  predicate Solid(s: string) {
    forall i :: 0 <= i < |s| ==> !IsSpace(s[i])
  }

  predicate Blank(s: string) {
    forall i :: 0 <= i < |s| ==> IsSpace(s[i])
  }

  /** t is s without the blanks around it. */
  predicate Trims(s: string, t: string) {
    exists a: nat, b: nat :: a <= b <= |s| && TrimsAt(s, t, a, b)
  }

  predicate TrimsAt(s: string, t: string, a: nat, b: nat)
    requires a <= b <= |s|
  {
    Blank(s[..a]) && Blank(s[b..]) && s[a..b] == t && (t == "" || (!IsSpace(t[0]) && !IsSpace(t[|t| - 1])))
  }

  lemma {:induction false} LeftBlanks(s: string)
    ensures |TrimLeft(s)| <= |s| && s[|s| - |TrimLeft(s)|..] == TrimLeft(s)
    ensures Blank(s[..|s| - |TrimLeft(s)|]) && (TrimLeft(s) != "" ==> !IsSpace(TrimLeft(s)[0]))
    decreases |s|
  {
    hide IsSpace;
    if s != "" && IsSpace(s[0]) {
      LeftBlanks(s[1..]);
      var n := |s| - |TrimLeft(s)|;
      assert s[..n] == [s[0]] + s[1..][..n - 1];
    }
  }

  lemma {:induction false} RightBlanks(s: string)
    ensures |TrimRight(s)| <= |s| && s[..|TrimRight(s)|] == TrimRight(s)
    ensures Blank(s[|TrimRight(s)|..]) && (TrimRight(s) != "" ==> !IsSpace(TrimRight(s)[|TrimRight(s)| - 1]))
    decreases |s|
  {
    hide IsSpace;
    if s != "" && IsSpace(s[|s| - 1]) {
      RightBlanks(s[..|s| - 1]);
      var n := |TrimRight(s)|;
      assert s[n..] == s[..|s| - 1][n..] + [s[|s| - 1]];
    }
  }

  lemma TrimSpaceTrims(s: string)
    ensures Trims(s, TrimSpace(s))
  {
    hide IsSpace, Blank;
    var l := TrimLeft(s);
    var t := TrimRight(l);
    LeftBlanks(s);
    RightBlanks(l);
    var a := |s| - |l|;
    var b := a + |t|;
    assert s[a..b] == t && s[b..] == l[|t|..];
    assert TrimsAt(s, t, a, b);
  }

  /** There is one way to do it. */
  lemma TrimsOnce(s: string, t: string, u: string)
    requires Trims(s, t) && Trims(s, u)
    ensures t == u
  {
    hide IsSpace;
    var a: nat, b: nat :| a <= b <= |s| && TrimsAt(s, t, a, b);
    var c: nat, d: nat :| c <= d <= |s| && TrimsAt(s, u, c, d);
    if t != "" && u != "" {
      SameStart(s, t, a, b, c);
      SameStart(s, u, c, d, a);
      SameEnd(s, t, a, b, d);
      SameEnd(s, u, c, d, b);
    } else if t != "" {
      OneIsInside(s, t, a, b, c, d);
    } else if u != "" {
      OneIsInside(s, u, c, d, a, b);
    }
  }

  lemma BlankPrefix(s: string, n: nat)
    requires n <= |s| && Blank(s[..n])
    ensures forall i :: 0 <= i < n ==> IsSpace(s[i])
  {
    hide IsSpace;
    forall i | 0 <= i < n ensures IsSpace(s[i]) { assert s[..n][i] == s[i]; }
  }

  lemma BlankSuffix(s: string, n: nat)
    requires n <= |s| && Blank(s[n..])
    ensures forall i :: n <= i < |s| ==> IsSpace(s[i])
  {
    hide IsSpace;
    forall i | n <= i < |s| ensures IsSpace(s[i]) { assert s[n..][i - n] == s[i]; }
  }

  lemma SameStart(s: string, t: string, a: nat, b: nat, c: nat)
    requires a <= b <= |s| && TrimsAt(s, t, a, b) && t != "" && c <= |s| && Blank(s[..c])
    ensures c <= a
  {
    hide IsSpace;
    BlankPrefix(s, c);
    assert s[a] == t[0];
  }

  lemma SameEnd(s: string, t: string, a: nat, b: nat, d: nat)
    requires a <= b <= |s| && TrimsAt(s, t, a, b) && t != "" && d <= |s| && Blank(s[d..])
    ensures b <= d
  {
    hide IsSpace;
    BlankSuffix(s, d);
    assert s[b - 1] == t[|t| - 1];
  }

  /** A text that is blank all through has nothing between its blanks. */
  lemma OneIsInside(s: string, t: string, a: nat, b: nat, c: nat, d: nat)
    requires a <= b <= |s| && TrimsAt(s, t, a, b) && t != "" && c <= d <= |s| && Blank(s[..c]) && Blank(s[d..])
    ensures c < d
  {
    hide IsSpace;
    SameStart(s, t, a, b, c);
    SameEnd(s, t, a, b, d);
  }
}
