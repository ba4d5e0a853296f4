/** The LIKE patterns of internal/db/folder_search.go and
    internal/db/message_mutations.go, against what LIKE with backslash as the escape
    character matches. */
module LikePattern {
  import opened Strings

  /** LIKE: % is any text, _ any character, a backslash makes the next character
      literal. A pattern that ends in the escape character matches nothing. */
  predicate Like(p: string, t: string)
    decreases |p|, |t|
  {
    if p == "" then t == ""
    else if p[0] == '%' then Like(p[1..], t) || (t != "" && Like(p, t[1..]))
    else if p[0] == '\\' then |p| > 1 && t != "" && t[0] == p[1] && Like(p[2..], t[1..])
    else t != "" && (p[0] == '_' || t[0] == p[0]) && Like(p[1..], t[1..])
  }

  function EscapeLikeChar(c: char): string {
    match c
    case '\\' => "\\\\"
    case '%' => "\\%"
    case '_' => "\\_"
    case _ => [c]
  }

  /** EscapeLikePattern. */
  function EscapeLikePattern(s: string): string {
    if s == "" then "" else EscapeLikeChar(s[0]) + EscapeLikePattern(s[1..])
  }

  function LikeContainsPattern(s: string): string {
    "%" + EscapeLikePattern(s) + "%"
  }

  /** An escaped text matches itself and goes on with the pattern behind it. */
  lemma {:induction false} EscapedIsLiteral(s: string, p: string, t: string)
    ensures Like(EscapeLikePattern(s) + p, t) <==> HasPrefix(t, s) && Like(p, t[|s|..])
    decreases |s|
  {
    if s == "" {
      assert EscapeLikePattern(s) + p == p && t[0..] == t;
    } else {
      var rest := EscapeLikePattern(s[1..]) + p;
      assert EscapeLikePattern(s) + p == EscapeLikeChar(s[0]) + rest;
      OneIsLiteral(s[0], rest, t);
      if t != "" {
        EscapedIsLiteral(s[1..], p, t[1..]);
        PrefixStep(t, s);
      }
    }
  }

  lemma OneIsLiteral(c: char, p: string, t: string)
    ensures Like(EscapeLikeChar(c) + p, t) <==> t != "" && t[0] == c && Like(p, t[1..])
  {
  }

  lemma PrefixStep(t: string, s: string)
    requires t != "" && s != ""
    ensures HasPrefix(t, s) <==> t[0] == s[0] && HasPrefix(t[1..], s[1..])
    ensures |t| >= |s| ==> t[1..][|s| - 1..] == t[|s|..]
  {
  }

  lemma {:induction false} AnyMatches(t: string)
    ensures Like("%", t)
    decreases |t|
  {
    assert "%"[1..] == "";
    if t != "" { AnyMatches(t[1..]); }
  }

  /** A leading % lets the rest of the pattern start anywhere. */
  lemma {:induction false} StartsAnywhere(p: string, t: string)
    ensures Like("%" + p, t) <==> exists i :: 0 <= i <= |t| && Like(p, t[i..])
    decreases |t|
  {
    assert ("%" + p)[1..] == p && t[0..] == t;
    if t != "" {
      var u := t[1..];
      StartsAnywhere(p, u);
      if Like("%" + p, u) {
        var i :| 0 <= i <= |u| && Like(p, u[i..]);
        assert t[i + 1..] == u[i..];
      }
      if i :| 0 < i <= |t| && Like(p, t[i..]) {
        assert u[i - 1..] == t[i..];
      }
    }
  }

  /** The pattern built for s matches exactly the values that contain s. */
  lemma ContainsPatternIsContains(s: string, t: string)
    ensures Like(LikeContainsPattern(s), t) <==> Occurs(t, s)
  {
    hide Like, EscapeLikePattern;
    var p := EscapeLikePattern(s) + "%";
    assert LikeContainsPattern(s) == "%" + p;
    StartsAnywhere(p, t);
    forall i | 0 <= i <= |t| ensures Like(p, t[i..]) <==> OccursAt(t, s, i) {
      EscapedIsLiteral(s, "%", t[i..]);
      if HasPrefix(t[i..], s) { AnyMatches(t[i..][|s|..]); }
      PrefixIsOccurrence(t, s, i);
    }
  }

  lemma PrefixIsOccurrence(t: string, s: string, i: nat)
    requires i <= |t|
    ensures HasPrefix(t[i..], s) <==> OccursAt(t, s, i)
  {
  }

  // --------------------------------------------------------- ignoring ASCII case

  predicate ILike(p: string, t: string) {
    Like(ToLower(p), ToLower(t))
  }

  lemma {:induction false} LowerConcat(a: string, b: string)
    ensures ToLower(a + b) == ToLower(a) + ToLower(b)
    decreases |a|
  {
    if a == "" {
      assert a + b == b;
    } else {
      assert (a + b)[1..] == a[1..] + b;
      LowerConcat(a[1..], b);
    }
  }

  lemma {:induction false} EscapeConcat(a: string, b: string)
    ensures EscapeLikePattern(a + b) == EscapeLikePattern(a) + EscapeLikePattern(b)
    decreases |a|
  {
    if a == "" {
      assert a + b == b;
    } else {
      assert (a + b)[1..] == a[1..] + b;
      EscapeConcat(a[1..], b);
    }
  }

  lemma LowerOne(c: char)
    ensures ToLower(EscapeLikeChar(c)) == EscapeLikeChar(LowerChar(c))
  {
  }

  lemma {:induction false} LowerEscape(s: string)
    ensures ToLower(EscapeLikePattern(s)) == EscapeLikePattern(ToLower(s))
    decreases |s|
  {
    if s != "" {
      LowerEscape(s[1..]);
      LowerOne(s[0]);
      LowerConcat(EscapeLikeChar(s[0]), EscapeLikePattern(s[1..]));
      var l := ToLower(s);
      assert l == [LowerChar(s[0])] + ToLower(s[1..]) && l[0] == LowerChar(s[0]) && l[1..] == ToLower(s[1..]);
    }
  }

  lemma ILikeContains(s: string, t: string)
    ensures ILike(LikeContainsPattern(s), t) <==> Occurs(ToLower(t), ToLower(s))
  {
    hide Like;
    LowerEscape(s);
    LowerConcat("%" + EscapeLikePattern(s), "%");
    LowerConcat("%", EscapeLikePattern(s));
    LowerPercent();
    hide ToLower, EscapeLikePattern;
    ContainsPatternIsContains(ToLower(s), ToLower(t));
  }

  lemma LowerPercent()
    ensures ToLower("%") == "%"
  {
  }

  // ------------------------------------------------------------------- senders

  /** The patterns for the values that are not blank. */
  function Patterns(before: string, values: seq<string>, after: string): seq<string> {
    if values == [] then []
    else
      var v := TrimSpace(values[0]);
      (if v != "" then ["%" + before + EscapeLikePattern(v) + after + "%"] else [])
      + Patterns(before, values[1..], after)
  }

  method SenderPatterns(addresses: seq<string>, domains: seq<string>) returns (patterns: seq<string>)
    ensures patterns == Patterns("<", addresses, ">") + Patterns("@", domains, ">")
  {
    hide TrimSpace, EscapeLikePattern, Patterns;
    patterns := [];
    PatternsEnd("<", addresses, ">");
    PatternsEnd("@", domains, ">");
    for i := 0 to |addresses|
      invariant patterns + Patterns("<", addresses[i..], ">") == Patterns("<", addresses, ">")
    {
      PatternsStep("<", addresses, i, ">");
      var a := TrimSpace(addresses[i]);
      if a != "" { patterns := patterns + ["%" + "<" + EscapeLikePattern(a) + ">" + "%"]; }
    }
    assert patterns + [] == patterns;
    var first := patterns;
    for i := 0 to |domains|
      invariant patterns + Patterns("@", domains[i..], ">") == first + Patterns("@", domains, ">")
    {
      PatternsStep("@", domains, i, ">");
      var d := TrimSpace(domains[i]);
      if d != "" { patterns := patterns + ["%" + "@" + EscapeLikePattern(d) + ">" + "%"]; }
    }
    assert patterns + [] == patterns;
  }

  lemma PatternsEnd(before: string, values: seq<string>, after: string)
    ensures values[0..] == values && Patterns(before, values[|values|..], after) == []
  {
  }

  lemma PatternsStep(before: string, values: seq<string>, i: nat, after: string)
    requires i < |values|
    ensures var v := TrimSpace(values[i]);
            Patterns(before, values[i..], after) ==
            (if v != "" then ["%" + before + EscapeLikePattern(v) + after + "%"] else [])
            + Patterns(before, values[i + 1..], after)
  {
  }

  /** What ILIKE ANY selects. */
  predicate AnyILike(patterns: seq<string>, t: string) {
    exists i :: 0 <= i < |patterns| && ILike(patterns[i], t)
  }

  /** Some value, trimmed and not blank, stands in t between the two brackets. */
  predicate Named(before: string, values: seq<string>, after: string, t: string) {
    exists i :: 0 <= i < |values| && TrimSpace(values[i]) != "" &&
                Occurs(ToLower(t), ToLower(before + TrimSpace(values[i]) + after))
  }

  /** Text without a character that LIKE treats specially. */
  lemma BracketsAreLiteral()
    ensures EscapeLikePattern("<") == "<" && EscapeLikePattern(">") == ">" && EscapeLikePattern("@") == "@"
  {
  }

  lemma OnePattern(before: string, v: string, after: string, t: string)
    requires EscapeLikePattern(before) == before && EscapeLikePattern(after) == after
    ensures ILike("%" + before + EscapeLikePattern(v) + after + "%", t) <==>
            Occurs(ToLower(t), ToLower(before + v + after))
  {
    hide ToLower, Occurs, Like, ILike, EscapeLikePattern;
    EscapeConcat(before + v, after);
    EscapeConcat(before, v);
    ILikeContains(before + v + after, t);
    assert LikeContainsPattern(before + v + after) == "%" + before + EscapeLikePattern(v) + after + "%";
  }

  lemma {:induction false} PatternsMean(before: string, values: seq<string>, after: string, t: string)
    requires EscapeLikePattern(before) == before && EscapeLikePattern(after) == after
    ensures AnyILike(Patterns(before, values, after), t) <==> Named(before, values, after, t)
    decreases |values|
  {
    hide ILike, EscapeLikePattern, ToLower, Occurs, TrimSpace;
    if values != [] {
      var v, rest := TrimSpace(values[0]), values[1..];
      PatternsMean(before, rest, after, t);
      var first := if v != "" then ["%" + before + EscapeLikePattern(v) + after + "%"] else [];
      AnyConcat(first, Patterns(before, rest, after), t);
      if v != "" { OnePattern(before, v, after, t); }
      assert AnyILike(first, t) <==> v != "" && ILike("%" + before + EscapeLikePattern(v) + after + "%", t) by {
        if v != "" { assert first[0] == "%" + before + EscapeLikePattern(v) + after + "%"; }
      }
      NamedFirst(before, values, after, t);
    }
  }

  lemma AnyConcat(a: seq<string>, b: seq<string>, t: string)
    ensures AnyILike(a + b, t) <==> AnyILike(a, t) || AnyILike(b, t)
  {
    hide ILike;
    if i :| 0 <= i < |a| && ILike(a[i], t) { assert (a + b)[i] == a[i]; }
    if i :| 0 <= i < |b| && ILike(b[i], t) { assert (a + b)[|a| + i] == b[i]; }
  }

  lemma NamedFirst(before: string, values: seq<string>, after: string, t: string)
    requires values != []
    ensures Named(before, values, after, t) <==>
            || (TrimSpace(values[0]) != "" && Occurs(ToLower(t), ToLower(before + TrimSpace(values[0]) + after)))
            || Named(before, values[1..], after, t)
  {
  }

  /** A sender purge selects exactly the messages whose From holds one of the
      bracketed addresses or one of the domains after an @, taken literally. */
  lemma SenderPatternsMean(addresses: seq<string>, domains: seq<string>, from: string)
    ensures AnyILike(Patterns("<", addresses, ">") + Patterns("@", domains, ">"), from) <==>
            Named("<", addresses, ">", from) || Named("@", domains, ">", from)
  {
    hide AnyILike, Named, Patterns;
    BracketsAreLiteral();
    PatternsMean("<", addresses, ">", from);
    PatternsMean("@", domains, ">", from);
    AnyConcat(Patterns("<", addresses, ">"), Patterns("@", domains, ">"), from);
  }
}
