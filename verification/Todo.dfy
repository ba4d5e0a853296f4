/** SetTodoCompletion of internal/caldav/todo.go: marking a task done or not done
    by rewriting the lines of its calendar. Case is ASCII case. */
module Todo {
  import opened Strings
  import opened CalendarLines

  const MARK := "BEGIN:VTODO"

  /** The line without its carriage returns, in upper case. */
  function Bare(line: string): string {
    ToUpper(TrimReturns(line))
  }

  predicate Opens(line: string) {
    HasPrefix(Bare(line), "BEGIN:VTODO")
  }

  predicate Closes(line: string) {
    HasPrefix(Bare(line), "END:VTODO")
  }

  /** isCompletionProp. */
  predicate IsCompletionProp(bare: string) {
    TrimSpace(bare[..FirstOf(bare, {':', ';'})]) in {"STATUS", "COMPLETED", "PERCENT-COMPLETE"}
  }

  predicate Owned(line: string) {
    IsCompletionProp(Bare(line))
  }

  /** The line starts with the word, in any case. */
  predicate StartsWith(line: string, word: string) {
    |word| <= |line| && forall i :: 0 <= i < |word| ==> UpperChar(line[i]) == word[i]
  }

  lemma UpperPrefix(s: string, word: string)
    ensures HasPrefix(ToUpper(s), word) <==> StartsWith(s, word)
  {
    var u := ToUpper(s);
    if StartsWith(s, word) { assert u[..|word|] == word; }
    if HasPrefix(u, word) { assert forall i :: 0 <= i < |word| ==> u[..|word|][i] == u[i]; }
  }

  /** A line opens or closes a task by how it starts, in any case; the carriage returns
      at its end do not matter. */
  lemma DelimitersAreKnown(line: string)
    ensures Opens(line) <==> StartsWith(line, "BEGIN:VTODO")
    ensures Closes(line) <==> StartsWith(line, "END:VTODO")
  {
    hide ToUpper, TrimReturns, HasPrefix, StartsWith;
    UpperPrefix(TrimReturns(line), "BEGIN:VTODO");
    UpperPrefix(TrimReturns(line), "END:VTODO");
    TrimmedStart(line, "BEGIN:VTODO");
    TrimmedStart(line, "END:VTODO");
  }

  lemma {:induction false} TrimmedStart(line: string, word: string)
    requires '\r' !in word
    ensures StartsWith(TrimReturns(line), word) <==> StartsWith(line, word)
    decreases |line|
  {
    if line != "" && line[|line| - 1] == '\r' {
      var init := line[..|line| - 1];
      TrimmedStart(init, word);
      assert forall i :: 0 <= i < |init| ==> init[i] == line[i];
      assert |word| == |line| ==> word[|line| - 1] != '\r' == UpperChar(line[|line| - 1]);
    }
  }

  /** A property is owned by its name, in any case, up to the first colon or semicolon and
      without the blanks around it. */
  lemma OwnedMeans(name: string, rest: string)
    requires ':' !in name && ';' !in name && '\r' !in name && rest != "" && rest[0] in {':', ';'}
    requires rest[|rest| - 1] != '\r'
    ensures Owned(name + rest) <==>
            exists t :: Trims(ToUpper(name), t) && t in {"STATUS", "COMPLETED", "PERCENT-COMPLETE"}
  {
    hide TrimSpace, Trims, ToUpper, Bare, FirstOf;
    NameOfBare(name, rest);
    var u := ToUpper(name);
    TrimSpaceTrims(u);
    forall t | Trims(u, t) ensures t == TrimSpace(u) { TrimsOnce(u, t, TrimSpace(u)); }
  }

  lemma NameOfBare(name: string, rest: string)
    requires ':' !in name && ';' !in name && rest != "" && rest[0] in {':', ';'} && rest[|rest| - 1] != '\r'
    ensures var bare := Bare(name + rest); bare[..FirstOf(bare, {':', ';'})] == ToUpper(name)
  {
    var line := name + rest;
    NothingTrimmed(line);
    hide ToUpper, TrimReturns, FirstOf;
    var bare, u := ToUpper(line), ToUpper(name);
    assert bare[|name|] == UpperChar(line[|name|]) == rest[0];
    forall k | 0 <= k < |name| ensures bare[k] == u[k] && bare[k] !in {':', ';'} {
      assert line[k] == name[k];
    }
    FirstIsAt(bare, |name|);
    assert bare[..|name|] == u;
  }

  lemma NothingTrimmed(line: string)
    requires line == "" || line[|line| - 1] != '\r'
    ensures TrimReturns(line) == line
  {
  }

  lemma FirstIsAt(s: string, n: nat)
    requires n < |s| && s[n] in {':', ';'} && forall k :: 0 <= k < n ==> s[k] !in {':', ';'}
    ensures FirstOf(s, {':', ';'}) == n
  {
  }

  function TodoStatus(done: bool): string {
    if done then "COMPLETED" else "NEEDS-ACTION"
  }

  /** The lines written at the top of a task. */
  function Props(done: bool, stamp: Stamp, terminator: string): seq<string> {
    [PropLine("STATUS", TodoStatus(done), terminator)] +
    if done then [PropLine("COMPLETED", stamp, terminator), PropLine("PERCENT-COMPLETE", "100", terminator)] else []
  }

  function PropLine(name: string, value: string, terminator: string): string {
    name + ":" + value + terminator
  }

  /** The loop from a given state: inside a task, and just after its BEGIN. */
  function Rewrite(ls: seq<string>, inTodo: bool, just: bool, done: bool, stamp: Stamp): seq<string> {
    if ls == [] then []
    else if Opens(ls[0]) then [ls[0]] + Rewrite(ls[1..], true, true, done, stamp)
    else if Closes(ls[0]) then [ls[0]] + Rewrite(ls[1..], false, just, done, stamp)
    else Emitted(ls[0], inTodo, just, done, stamp) + Rewrite(ls[1..], inTodo, false, done, stamp)
  }

  /** What a line that is no delimiter becomes. */
  function Emitted(line: string, inTodo: bool, just: bool, done: bool, stamp: Stamp): seq<string> {
    (if just then Props(done, stamp, Terminator(line)) else []) +
    (if inTodo && Owned(line) then [] else [line])
  }

  lemma {:induction false} RewriteStep(ls: seq<string>, i: nat, inTodo: bool, just: bool, done: bool, stamp: Stamp, out: seq<string>)
    requires i < |ls|
    ensures out + Rewrite(ls[i..], inTodo, just, done, stamp) ==
            if Opens(ls[i]) then out + [ls[i]] + Rewrite(ls[i + 1..], true, true, done, stamp)
            else if Closes(ls[i]) then out + [ls[i]] + Rewrite(ls[i + 1..], false, just, done, stamp)
            else out + Emitted(ls[i], inTodo, just, done, stamp) + Rewrite(ls[i + 1..], inTodo, false, done, stamp)
  {
    hide Emitted, Opens, Closes;
    assert ls[i..][0] == ls[i] && ls[i..][1..] == ls[i + 1..];
  }

  lemma RewriteNothing(done: bool, stamp: Stamp)
    ensures forall inTodo, just :: Rewrite([], inTodo, just, done, stamp) == []
  {
  }

  function SetTodo(x: string, done: bool, stamp: Stamp): string {
    if x == "" || !Occurs(x, MARK) then x
    else JoinLines(Rewrite(SplitLines(x), false, false, done, stamp))
  }

  method SetTodoCompletion(x: string, done: bool, stamp: Stamp) returns (r: string)
    ensures r == SetTodo(x, done, stamp)
  {
    hide Rewrite, Opens, Closes, Owned, Props, Terminator, SplitLines, JoinLines, Occurs;
    if x == "" || !Occurs(x, MARK) { return x; }
    var lines := SplitLines(x);
    var out := [];
    var inTodo, justOpened := false, false;
    assert lines[0..] == lines;
    RewriteNothing(done, stamp);
    for i := 0 to |lines|
      invariant out + Rewrite(lines[i..], inTodo, justOpened, done, stamp) == Rewrite(lines, false, false, done, stamp)
    {
      var line := lines[i];
      ghost var out0, just0 := out, justOpened;
      RewriteStep(lines, i, inTodo, justOpened, done, stamp, out);
      if Opens(line) {
        inTodo := true;
        out := out + [line];
        justOpened := true;
      } else if Closes(line) {
        inTodo := false;
        out := out + [line];
      } else {
        if justOpened {
          out := out + Props(done, stamp, Terminator(line));
          justOpened := false;
        }
        if !(inTodo && Owned(line)) {
          out := out + [line];
        }
        assert out == out0 + Emitted(line, inTodo, just0, done, stamp);
      }
    }
    assert lines[|lines|..] == [] && out + [] == out;
    r := JoinLines(out);
  }

  // -------------------------------------------------------- what is rewritten

  /** The lines that survive: all but the completion properties of tasks. */
  function Others(ls: seq<string>, inTodo: bool): seq<string> {
    if ls == [] then []
    else if Opens(ls[0]) then [ls[0]] + Others(ls[1..], true)
    else if Closes(ls[0]) then [ls[0]] + Others(ls[1..], false)
    else (if inTodo && Owned(ls[0]) then [] else [ls[0]]) + Others(ls[1..], inTodo)
  }

  /** How many lines are reached just after the BEGIN of a task already closed,
      so that its properties land outside of it. */
  function Strays(ls: seq<string>, inTodo: bool, just: bool): nat {
    if ls == [] then 0
    else if Opens(ls[0]) then Strays(ls[1..], true, true)
    else if Closes(ls[0]) then Strays(ls[1..], false, just)
    else (if just && !inTodo then 1 else 0) + Strays(ls[1..], inTodo, false)
  }

  /** How many times properties are written. */
  function Writes(ls: seq<string>, just: bool): nat {
    if ls == [] then 0
    else if Opens(ls[0]) then Writes(ls[1..], true)
    else if Closes(ls[0]) then Writes(ls[1..], just)
    else (if just then 1 else 0) + Writes(ls[1..], false)
  }

  /** A line the rewriting writes: not a delimiter, owned, and ending as asked. */
  predicate IsWritten(line: string, terminator: string) {
    !Opens(line) && !Closes(line) && Owned(line) && Terminator(line) == terminator &&
    '\n' !in line && !Occurs(line, MARK)
  }

  predicate OwnedName(name: string) {
    name == "STATUS" || name == "COMPLETED" || name == "PERCENT-COMPLETE"
  }

  /** Upper-case letters and dashes, not like a delimiter at either end. */
  predicate PlainName(name: string) {
    name != "" && name[0] != 'B' && name[0] != 'E' && name[|name| - 1] != 'N' &&
    forall i :: 0 <= i < |name| ==> 'A' <= name[i] <= 'Z' || name[i] == '-'
  }

  lemma OwnedIsPlain(name: string)
    requires OwnedName(name)
    ensures PlainName(name)
  {
  }

  lemma {:induction false} WrittenLine(name: string, value: string, terminator: string)
    requires OwnedName(name) && terminator in {"", "\r"}
    requires forall i :: 0 <= i < |value| ==> value[i] !in {':', '\n', '\r'}
    ensures IsWritten(PropLine(name, value, terminator), terminator)
  {
    hide *;
    OwnedIsPlain(name);
    UpperBody(name, value);
    NoMark(name, value, terminator);
    WrittenBody(name, value, terminator);
    WrittenParts(name, value, terminator);
  }

  lemma WrittenBody(name: string, value: string, terminator: string)
    requires terminator in {"", "\r"} && PlainName(name)
    requires forall i :: 0 <= i < |value| ==> value[i] !in {':', '\n', '\r'}
    ensures TrimReturns(PropLine(name, value, terminator)) == name + ":" + value
    ensures Terminator(PropLine(name, value, terminator)) == terminator
    ensures '\n' !in PropLine(name, value, terminator)
  {
  }

  lemma WrittenParts(name: string, value: string, terminator: string)
    requires PlainName(name) && TrimReturns(PropLine(name, value, terminator)) == name + ":" + value
    requires Terminator(PropLine(name, value, terminator)) == terminator
    requires '\n' !in PropLine(name, value, terminator) && !Occurs(PropLine(name, value, terminator), MARK)
    requires ToUpper(name + ":" + value)[0] == name[0] && IsCompletionProp(ToUpper(name + ":" + value))
    ensures IsWritten(PropLine(name, value, terminator), terminator)
  {
    hide TrimReturns, Terminator, PropLine, ToUpper, Occurs, IsCompletionProp, HasPrefix;
    NotDelimiter(ToUpper(name + ":" + value));
  }

  lemma NotDelimiter(bare: string)
    requires bare != "" && bare[0] != 'B' && bare[0] != 'E'
    ensures !HasPrefix(bare, "BEGIN:VTODO") && !HasPrefix(bare, "END:VTODO")
  {
  }

  lemma {:induction false} UpperBody(name: string, value: string)
    requires OwnedName(name) && PlainName(name)
    ensures var bare := ToUpper(name + ":" + value);
            bare[0] == name[0] && IsCompletionProp(bare)
  {
    hide ToUpper;
    var body := name + ":" + value;
    var bare := ToUpper(body);
    assert bare[|name|] == UpperChar(body[|name|]) == ':';
    forall i | 0 <= i < |name| ensures bare[i] == name[i] && bare[i] != ':' && bare[i] != ';' {
      assert bare[i] == UpperChar(body[i]) && body[i] == name[i];
    }
    assert bare[..|name|] == name;
    assert FirstOf(bare, {':', ';'}) == |name|;
    assert TrimSpace(name) == name;
  }

  lemma {:induction false} NoMark(name: string, value: string, terminator: string)
    requires PlainName(name) && terminator in {"", "\r"}
    requires forall i :: 0 <= i < |value| ==> value[i] != ':'
    ensures !Occurs(PropLine(name, value, terminator), MARK)
  {
    var line := name + ":" + value + terminator;
    assert forall k :: 0 <= k < |line| && line[k] == ':' ==> k == |name|;
    forall i ensures !OccursAt(line, MARK, i) {
      if 0 <= i <= |line| - |MARK| {
        var part := line[i..i + |MARK|];
        assert part[5] == line[i + 5] && part[4] == line[i + 4];
        assert MARK[5] == ':' && MARK[4] == 'N';
        assert i + 5 == |name| ==> line[i + 4] == name[|name| - 1];
      }
    }
  }

  /** All that Props writes is recognised as written. */
  lemma {:induction false} PropsAreWritten(done: bool, stamp: Stamp, terminator: string)
    requires terminator in {"", "\r"}
    ensures forall i :: 0 <= i < |Props(done, stamp, terminator)| ==> IsWritten(Props(done, stamp, terminator)[i], terminator)
    ensures |Props(done, stamp, terminator)| == if done then 3 else 1
  {
    hide IsWritten, PropLine;
    assert forall i :: 0 <= i < |stamp| ==> stamp[i] in stamp;
    WrittenLine("STATUS", TodoStatus(done), terminator);
    WrittenLine("COMPLETED", stamp, terminator);
    WrittenLine("PERCENT-COMPLETE", "100", terminator);
  }

  // ---------------------------------------------------------- the second write

  /** A second rewriting drops what the first one wrote and writes its own. */
  lemma {:induction false} RewriteWritten(ps: seq<string>, rest: seq<string>, terminator: string, done: bool, stamp: Stamp)
    requires forall i :: 0 <= i < |ps| ==> IsWritten(ps[i], terminator)
    ensures Rewrite(ps + rest, true, false, done, stamp) == Rewrite(rest, true, false, done, stamp)
    decreases |ps|
  {
    hide IsWritten;
    if ps == [] {
      assert ps + rest == rest;
    } else {
      assert (ps + rest)[1..] == ps[1..] + rest;
      WrittenIsDropped(ps[0], terminator, done, stamp);
      RewriteWritten(ps[1..], rest, terminator, done, stamp);
    }
  }

  lemma WrittenIsDropped(line: string, terminator: string, done: bool, stamp: Stamp)
    requires IsWritten(line, terminator)
    ensures !Opens(line) && !Closes(line)
    ensures Emitted(line, true, false, done, stamp) == []
    ensures Emitted(line, true, true, done, stamp) == Props(done, stamp, terminator)
    ensures Emitted(line, false, false, done, stamp) == [line]
    ensures Emitted(line, false, true, done, stamp) == Props(done, stamp, terminator) + [line]
  {
  }

  lemma RewriteOne(line: string, rest: seq<string>, inTodo: bool, just: bool, done: bool, stamp: Stamp)
    requires !Opens(line) && !Closes(line)
    ensures Rewrite([line] + rest, inTodo, just, done, stamp) ==
            Emitted(line, inTodo, just, done, stamp) + Rewrite(rest, inTodo, false, done, stamp)
  {
  }

  /** What a first rewriting wrote after BEGIN becomes what the second writes. */
  lemma {:induction false} PropsTwice(ps: seq<string>, rest: seq<string>, terminator: string, done: bool, stamp: Stamp)
    requires ps != [] && forall i :: 0 <= i < |ps| ==> IsWritten(ps[i], terminator)
    ensures Rewrite(ps + rest, true, true, done, stamp) ==
            Props(done, stamp, terminator) + Rewrite(rest, true, false, done, stamp)
  {
    hide Rewrite, Opens, Closes, Emitted, Props, IsWritten;
    WrittenIsDropped(ps[0], terminator, done, stamp);
    assert forall i :: 0 <= i < |ps[1..]| ==> ps[1..][i] == ps[i + 1];
    RewriteWritten(ps[1..], rest, terminator, done, stamp);
    RewriteOne(ps[0], ps[1..] + rest, true, true, done, stamp);
    assert [ps[0]] + (ps[1..] + rest) == ps + rest;
  }

  /** One ordinary line after two rewritings. */
  lemma {:induction false} EmittedTwice(line: string, rest: seq<string>, inTodo: bool, just: bool,
                                        done1: bool, stamp1: Stamp, done2: bool, stamp2: Stamp)
    requires !Opens(line) && !Closes(line) && (just ==> inTodo)
    ensures Rewrite(Emitted(line, inTodo, just, done1, stamp1) + rest, inTodo, just, done2, stamp2) ==
            Emitted(line, inTodo, just, done2, stamp2) + Rewrite(rest, inTodo, false, done2, stamp2)
  {
    hide Rewrite, Opens, Closes, Owned, Terminator, Props, IsWritten;
    var t := Terminator(line);
    var kept := if inTodo && Owned(line) then [] else [line];
    KeptRewrites(line, rest, inTodo, done2, stamp2);
    if just {
      TerminatorKinds(line);
      PropsAreWritten(done1, stamp1, t);
      PropsTwice(Props(done1, stamp1, t), kept + rest, t, done2, stamp2);
      assert Emitted(line, inTodo, just, done1, stamp1) + rest == Props(done1, stamp1, t) + (kept + rest);
    } else {
      assert Emitted(line, inTodo, just, done1, stamp1) == kept;
      assert Emitted(line, inTodo, just, done2, stamp2) == kept;
    }
  }

  lemma KeptRewrites(line: string, rest: seq<string>, inTodo: bool, done: bool, stamp: Stamp)
    requires !Opens(line) && !Closes(line)
    ensures var kept := if inTodo && Owned(line) then [] else [line];
            Rewrite(kept + rest, inTodo, false, done, stamp) == kept + Rewrite(rest, inTodo, false, done, stamp)
  {
    hide Opens, Closes, Owned;
    if inTodo && Owned(line) {
      assert [] + rest == rest;
    } else {
      assert ([line] + rest)[1..] == rest;
    }
  }

  /** Without strays, the second rewriting leaves nothing of the first. */
  lemma {:induction false} SecondRewriteWins(ls: seq<string>, inTodo: bool, just: bool,
                                             done1: bool, stamp1: Stamp, done2: bool, stamp2: Stamp)
    requires Strays(ls, inTodo, just) == 0
    ensures Rewrite(Rewrite(ls, inTodo, just, done1, stamp1), inTodo, just, done2, stamp2) ==
            Rewrite(ls, inTodo, just, done2, stamp2)
    decreases |ls|
  {
    hide Opens, Closes, Emitted;
    if ls != [] {
      var line, rest := ls[0], ls[1..];
      if Opens(line) {
        SecondRewriteWins(rest, true, true, done1, stamp1, done2, stamp2);
        var once := Rewrite(rest, true, true, done1, stamp1);
        assert ([line] + once)[1..] == once;
      } else if Closes(line) {
        SecondRewriteWins(rest, false, just, done1, stamp1, done2, stamp2);
        var once := Rewrite(rest, false, just, done1, stamp1);
        assert ([line] + once)[1..] == once;
      } else {
        SecondRewriteWins(rest, inTodo, false, done1, stamp1, done2, stamp2);
        EmittedTwice(line, Rewrite(rest, inTodo, false, done1, stamp1), inTodo, just, done1, stamp1, done2, stamp2);
      }
    }
  }

  /** Every stray line gains one more STATUS from a second rewriting. */
  lemma {:induction false} StraysAccumulate(ls: seq<string>, inTodo: bool, just: bool, stamp: Stamp)
    ensures |Rewrite(Rewrite(ls, inTodo, just, false, stamp), inTodo, just, false, stamp)| ==
            |Rewrite(ls, inTodo, just, false, stamp)| + Strays(ls, inTodo, just)
    decreases |ls|
  {
    hide Opens, Closes, Emitted;
    if ls != [] {
      var line, rest := ls[0], ls[1..];
      if Opens(line) {
        StraysAccumulate(rest, true, true, stamp);
        var once := Rewrite(rest, true, true, false, stamp);
        assert ([line] + once)[1..] == once;
      } else if Closes(line) {
        StraysAccumulate(rest, false, just, stamp);
        var once := Rewrite(rest, false, just, false, stamp);
        assert ([line] + once)[1..] == once;
      } else {
        StraysAccumulate(rest, inTodo, false, stamp);
        var once := Rewrite(rest, inTodo, false, false, stamp);
        if just && !inTodo {
          StrayTwice(line, once, stamp);
        } else {
          EmittedTwice(line, once, inTodo, just, false, stamp, false, stamp);
        }
      }
    }
  }

  lemma {:induction false} StrayTwice(line: string, rest: seq<string>, stamp: Stamp)
    requires !Opens(line) && !Closes(line)
    ensures |Rewrite(Emitted(line, false, true, false, stamp) + rest, false, true, false, stamp)| ==
            |Emitted(line, false, true, false, stamp)| + 1 + |Rewrite(rest, false, false, false, stamp)|
  {
    hide Rewrite, Opens, Closes, Owned, Terminator, Props, IsWritten;
    var t := Terminator(line);
    var ps := Props(false, stamp, t);
    TerminatorKinds(line);
    PropsAreWritten(false, stamp, t);
    WrittenIsDropped(ps[0], t, false, stamp);
    RewriteOne(ps[0], [line] + rest, false, true, false, stamp);
    assert Emitted(line, false, true, false, stamp) + rest == [ps[0]] + ([line] + rest);
    KeptRewrites(line, rest, false, false, stamp);
  }

  // ------------------------------------------------------------- what is kept

  lemma {:induction false} OthersOfWritten(ps: seq<string>, rest: seq<string>, terminator: string)
    requires forall i :: 0 <= i < |ps| ==> IsWritten(ps[i], terminator)
    ensures Others(ps + rest, true) == Others(rest, true)
    decreases |ps|
  {
    hide Opens, Closes, Owned, Terminator, Occurs;
    if ps == [] {
      assert ps + rest == rest;
    } else {
      assert (ps + rest)[1..] == ps[1..] + rest;
      OthersOfWritten(ps[1..], rest, terminator);
    }
  }

  /** Without strays every line but the completion properties of tasks is kept,
      in order, and nothing else is added. */
  lemma {:induction false} OthersAreKept(ls: seq<string>, inTodo: bool, just: bool, done: bool, stamp: Stamp)
    requires Strays(ls, inTodo, just) == 0
    ensures Others(Rewrite(ls, inTodo, just, done, stamp), inTodo) == Others(ls, inTodo)
    decreases |ls|
  {
    hide Opens, Closes, Owned, Emitted;
    if ls != [] {
      var line, rest := ls[0], ls[1..];
      if Opens(line) {
        OthersAreKept(rest, true, true, done, stamp);
        var once := Rewrite(rest, true, true, done, stamp);
        assert ([line] + once)[1..] == once;
      } else if Closes(line) {
        OthersAreKept(rest, false, just, done, stamp);
        var once := Rewrite(rest, false, just, done, stamp);
        assert ([line] + once)[1..] == once;
      } else {
        OthersAreKept(rest, inTodo, false, done, stamp);
        var once := Rewrite(rest, inTodo, false, done, stamp);
        OthersOfEmitted(line, once, inTodo, just, done, stamp);
      }
    }
  }

  lemma KeptOthers(line: string, rest: seq<string>, inTodo: bool)
    requires !Opens(line) && !Closes(line)
    ensures var kept := if inTodo && Owned(line) then [] else [line];
            Others(kept + rest, inTodo) == kept + Others(rest, inTodo)
  {
    hide Opens, Closes, Owned;
    if inTodo && Owned(line) {
      assert [] + rest == rest;
    } else {
      assert ([line] + rest)[1..] == rest;
    }
  }

  lemma {:induction false} OthersOfEmitted(line: string, rest: seq<string>, inTodo: bool, just: bool, done: bool, stamp: Stamp)
    requires !Opens(line) && !Closes(line) && (just ==> inTodo)
    ensures Others(Emitted(line, inTodo, just, done, stamp) + rest, inTodo) ==
            (if inTodo && Owned(line) then [] else [line]) + Others(rest, inTodo)
  {
    hide Others, Opens, Closes, Owned, Terminator, Props, IsWritten;
    var kept := if inTodo && Owned(line) then [] else [line];
    KeptOthers(line, rest, inTodo);
    if just {
      var ps := Props(done, stamp, Terminator(line));
      TerminatorKinds(line);
      PropsAreWritten(done, stamp, Terminator(line));
      OthersOfWritten(ps, kept + rest, Terminator(line));
      assert Emitted(line, inTodo, just, done, stamp) + rest == ps + (kept + rest);
    } else {
      assert Emitted(line, inTodo, just, done, stamp) == kept;
    }
  }

  // ----------------------------------------------------------- one task, one state

  /** Tasks are delimited, do not nest, and hold at least one ordinary line. */
  predicate Delimited(ls: seq<string>, inTodo: bool, just: bool) {
    if ls == [] then !inTodo && !just
    else if Opens(ls[0]) then !inTodo && !just && Delimited(ls[1..], true, true)
    else if Closes(ls[0]) then inTodo && !just && Delimited(ls[1..], false, false)
    else (just ==> inTodo) && Delimited(ls[1..], inTodo, false)
  }

  /** The completion properties of the to-do entered before, then of every to-do
      that follows. */
  function States(ls: seq<string>, inTodo: bool): (g: seq<seq<string>>)
    ensures g != []
  {
    if ls == [] then [[]]
    else if Opens(ls[0]) then [[]] + States(ls[1..], true)
    else if Closes(ls[0]) then States(ls[1..], false)
    else
      var g := States(ls[1..], inTodo);
      if inTodo && Owned(ls[0]) then [[ls[0]] + g[0]] + g[1..] else g
  }

  /** A task that is done has that status, the time stamp and all of its per cent; one
      that is not needs action and has neither. */
  predicate IsState(g: seq<string>, done: bool, stamp: Stamp) {
    exists t :: t in {"", "\r"} &&
      g == if done then ["STATUS:COMPLETED" + t, "COMPLETED:" + stamp + t, "PERCENT-COMPLETE:100" + t]
           else ["STATUS:NEEDS-ACTION" + t]
  }

  lemma {:induction false} StatesOfWritten(ps: seq<string>, rest: seq<string>, terminator: string)
    requires forall i :: 0 <= i < |ps| ==> IsWritten(ps[i], terminator)
    ensures States(ps + rest, true) == [ps + States(rest, true)[0]] + States(rest, true)[1..]
    decreases |ps|
  {
    hide Opens, Closes, Owned, Terminator, Occurs;
    if ps == [] {
      assert ps + rest == rest && ps + States(rest, true)[0] == States(rest, true)[0];
    } else {
      assert (ps + rest)[1..] == ps[1..] + rest;
      StatesOfWritten(ps[1..], rest, terminator);
      assert [ps[0]] + (ps[1..] + States(rest, true)[0]) == ps + States(rest, true)[0];
    }
  }

  lemma KeptStates(line: string, rest: seq<string>, inTodo: bool)
    requires !Opens(line) && !Closes(line)
    ensures var kept := if inTodo && Owned(line) then [] else [line];
            States(kept + rest, inTodo) == States(rest, inTodo)
  {
    hide Opens, Closes, Owned;
    if inTodo && Owned(line) {
      assert [] + rest == rest;
    } else {
      assert ([line] + rest)[1..] == rest;
    }
  }

  lemma {:induction false} StatesOfEmitted(line: string, rest: seq<string>, inTodo: bool, just: bool, done: bool, stamp: Stamp)
    requires !Opens(line) && !Closes(line) && (just ==> inTodo)
    ensures var g := States(rest, inTodo);
            States(Emitted(line, inTodo, just, done, stamp) + rest, inTodo) ==
            if just then [Props(done, stamp, Terminator(line)) + g[0]] + g[1..] else g
  {
    hide States, Opens, Closes, Owned, Terminator, Props, IsWritten;
    var kept := if inTodo && Owned(line) then [] else [line];
    KeptStates(line, rest, inTodo);
    if just {
      var ps := Props(done, stamp, Terminator(line));
      TerminatorKinds(line);
      PropsAreWritten(done, stamp, Terminator(line));
      StatesOfWritten(ps, kept + rest, Terminator(line));
      assert Emitted(line, inTodo, just, done, stamp) + rest == ps + (kept + rest);
    } else {
      assert Emitted(line, inTodo, just, done, stamp) == kept;
    }
  }

  /** Every task ends up with exactly the properties written: one STATUS, and when
      done one COMPLETED and one PERCENT-COMPLETE. */
  lemma {:induction false} TasksGetOneState(ls: seq<string>, inTodo: bool, just: bool, done: bool, stamp: Stamp)
    requires Delimited(ls, inTodo, just)
    ensures var g := States(Rewrite(ls, inTodo, just, done, stamp), inTodo);
            (if just then IsState(g[0], done, stamp) else g[0] == []) &&
            forall i :: 1 <= i < |g| ==> IsState(g[i], done, stamp)
    decreases |ls|
  {
    hide Opens, Closes, Emitted, Terminator, Owned, IsState;
    if ls != [] {
      var line, rest := ls[0], ls[1..];
      if Opens(line) {
        TasksGetOneState(rest, true, true, done, stamp);
        var once := Rewrite(rest, true, true, done, stamp);
        assert ([line] + once)[1..] == once;
      } else if Closes(line) {
        TasksGetOneState(rest, false, false, done, stamp);
        var once := Rewrite(rest, false, false, done, stamp);
        assert ([line] + once)[1..] == once;
      } else {
        TasksGetOneState(rest, inTodo, false, done, stamp);
        StatesOfEmitted(line, Rewrite(rest, inTodo, false, done, stamp), inTodo, just, done, stamp);
        if just { StateOf(line, done, stamp); }
      }
    }
  }

  lemma StateOf(line: string, done: bool, stamp: Stamp)
    ensures IsState(Props(done, stamp, Terminator(line)) + [], done, stamp)
  {
    hide Terminator;
    var t := Terminator(line);
    TerminatorKinds(line);
    var g := Props(done, stamp, t) + [];
    Literals();
    assert g == Props(done, stamp, t);
  }

  lemma Literals()
    ensures "STATUS" + ":" + "COMPLETED" == "STATUS:COMPLETED" && "STATUS" + ":" + "NEEDS-ACTION" == "STATUS:NEEDS-ACTION"
    ensures "COMPLETED" + ":" == "COMPLETED:" && "PERCENT-COMPLETE" + ":" + "100" == "PERCENT-COMPLETE:100"
  {
  }

  lemma {:induction false} DelimitedHasNoStrays(ls: seq<string>, inTodo: bool, just: bool)
    requires Delimited(ls, inTodo, just)
    ensures Strays(ls, inTodo, just) == 0
    decreases |ls|
  {
    hide Opens, Closes;
    if ls != [] {
      var line, rest := ls[0], ls[1..];
      if Opens(line) { DelimitedHasNoStrays(rest, true, true); }
      else if Closes(line) { DelimitedHasNoStrays(rest, false, false); }
      else { DelimitedHasNoStrays(rest, inTodo, false); }
    }
  }

  // -------------------------------------------------------------- whole calendars

  /** A later write fully overrides an earlier one. */
  ghost predicate LaterWins(x: string) {
    forall done1, stamp1, done2, stamp2 ::
      SetTodo(SetTodo(x, done1, stamp1), done2, stamp2) == SetTodo(x, done2, stamp2)
  }

  predicate MarkIn(ls: seq<string>) {
    exists k :: 0 <= k < |ls| && Occurs(ls[k], MARK)
  }

  /** Nothing to rewrite; or no task is closed before an ordinary line follows its
      BEGIN, and a line that is kept holds the mark the next write looks for. */
  predicate Overridable(x: string) {
    Occurs(x, MARK) ==>
      var ls := SplitLines(x);
      Strays(ls, false, false) == 0 && MarkIn(Others(ls, false))
  }

  lemma {:induction false} LinesOfEmitted(line: string, inTodo: bool, just: bool, done: bool, stamp: Stamp)
    ensures |Emitted(line, inTodo, just, done, stamp)| ==
            (if just then (if done then 3 else 1) else 0) + (if inTodo && Owned(line) then 0 else 1)
    ensures forall l :: l in Emitted(line, inTodo, just, done, stamp) ==> '\n' !in l || l == line
    ensures MarkIn(Emitted(line, inTodo, just, done, stamp)) <==> !(inTodo && Owned(line)) && Occurs(line, MARK)
  {
    hide Owned, Props, Terminator, Occurs, Opens, Closes;
    TerminatorKinds(line);
    PropsAreWritten(done, stamp, Terminator(line));
    var out := Emitted(line, inTodo, just, done, stamp);
    if !(inTodo && Owned(line)) { assert out[|out| - 1] == line; }
  }

  lemma {:induction false} MarkInConcat(a: seq<string>, b: seq<string>)
    ensures MarkIn(a + b) <==> MarkIn(a) || MarkIn(b)
  {
    hide Occurs;
    if MarkIn(a) {
      var k :| 0 <= k < |a| && Occurs(a[k], MARK);
      assert (a + b)[k] == a[k];
    }
    if MarkIn(b) {
      var k :| 0 <= k < |b| && Occurs(b[k], MARK);
      assert (a + b)[|a| + k] == b[k];
    }
  }

  /** The lines of a rewriting: how many, that none is broken, where the mark is. */
  lemma {:induction false} RewriteShape(ls: seq<string>, inTodo: bool, just: bool, done: bool, stamp: Stamp)
    requires forall l :: l in ls ==> '\n' !in l
    ensures var out := Rewrite(ls, inTodo, just, done, stamp);
            |out| == |Others(ls, inTodo)| + (if done then 3 else 1) * Writes(ls, just) &&
            (forall l :: l in out ==> '\n' !in l) &&
            (MarkIn(out) <==> MarkIn(Others(ls, inTodo)))
    decreases |ls|
  {
    hide Opens, Closes, Owned, Emitted, MarkIn;
    NoMarkInNothing();
    if ls != [] {
      var line, rest := ls[0], ls[1..];
      if Opens(line) {
        RewriteShape(rest, true, true, done, stamp);
        MarkInConcat([line], Rewrite(rest, true, true, done, stamp));
        MarkInConcat([line], Others(rest, true));
      } else if Closes(line) {
        RewriteShape(rest, false, just, done, stamp);
        MarkInConcat([line], Rewrite(rest, false, just, done, stamp));
        MarkInConcat([line], Others(rest, false));
      } else {
        RewriteShape(rest, inTodo, false, done, stamp);
        LinesOfEmitted(line, inTodo, just, done, stamp);
        MarkOfOne(line);
        MarkInConcat(Emitted(line, inTodo, just, done, stamp), Rewrite(rest, inTodo, false, done, stamp));
        MarkInConcat(if inTodo && Owned(line) then [] else [line], Others(rest, inTodo));
      }
    }
  }

  lemma NoMarkInNothing()
    ensures !MarkIn([])
  {
  }

  lemma MarkOfOne(line: string)
    ensures MarkIn([line]) <==> Occurs(line, MARK)
  {
    assert [line][0] == line;
  }

  /** A line is dropped only from a task that was entered. */
  lemma {:induction false} DroppedMeansWritten(ls: seq<string>, inTodo: bool, just: bool)
    ensures |Others(ls, inTodo)| <= |ls|
    ensures Others(ls, inTodo) == ls || Writes(ls, just) > 0 || (inTodo && !just)
    decreases |ls|
  {
    hide Opens, Closes, Owned;
    if ls != [] {
      var line, rest := ls[0], ls[1..];
      if Opens(line) { DroppedMeansWritten(rest, true, true); }
      else if Closes(line) { DroppedMeansWritten(rest, false, just); }
      else { DroppedMeansWritten(rest, inTodo, false); }
    }
  }

  lemma {:induction false} StraysAreWrites(ls: seq<string>, inTodo: bool, just: bool)
    ensures Strays(ls, inTodo, just) <= Writes(ls, just)
    decreases |ls|
  {
    hide Opens, Closes;
    if ls != [] {
      var line, rest := ls[0], ls[1..];
      if Opens(line) { StraysAreWrites(rest, true, true); }
      else if Closes(line) { StraysAreWrites(rest, false, just); }
      else { StraysAreWrites(rest, inTodo, false); }
    }
  }

  lemma MarkPlain()
    ensures '\n' !in MARK && MARK != ""
  {
  }

  /** The mark of a calendar is in one of its lines. */
  lemma MarkOfText(x: string)
    ensures Occurs(x, MARK) <==> MarkIn(SplitLines(x))
  {
    hide Occurs;
    MarkPlain();
    JoinSplit(x);
    OccursInJoin(SplitLines(x), MARK);
  }

  /** A rewritten calendar, split again. */
  lemma {:induction false} SetTodoLines(x: string, done: bool, stamp: Stamp)
    requires Occurs(x, MARK)
    ensures var ls := SplitLines(x); var y := SetTodo(x, done, stamp);
            SplitLines(y) == Rewrite(ls, false, false, done, stamp) &&
            (Occurs(y, MARK) <==> MarkIn(Others(ls, false)))
  {
    hide Occurs, Rewrite, Others;
    var ls := SplitLines(x);
    MarkIsNotEmpty(x);
    RewriteShape(ls, false, false, done, stamp);
    RewriteNotEmpty(ls, done, stamp);
    SplitJoin(Rewrite(ls, false, false, done, stamp));
    MarkOfText(SetTodo(x, done, stamp));
  }

  lemma RewriteNotEmpty(ls: seq<string>, done: bool, stamp: Stamp)
    requires ls != []
    ensures Rewrite(ls, false, false, done, stamp) != []
  {
  }

  lemma {:induction false} OverridableWins(x: string, done1: bool, stamp1: Stamp, done2: bool, stamp2: Stamp)
    requires Overridable(x)
    ensures SetTodo(SetTodo(x, done1, stamp1), done2, stamp2) == SetTodo(x, done2, stamp2)
  {
    hide Rewrite, Others, Strays, Occurs;
    if Occurs(x, MARK) {
      var ls := SplitLines(x);
      SetTodoLines(x, done1, stamp1);
      MarkIsNotEmpty(SetTodo(x, done1, stamp1));
      MarkIsNotEmpty(x);
      SecondRewriteWins(ls, false, false, done1, stamp1, done2, stamp2);
    }
  }

  lemma MarkIsNotEmpty(x: string)
    ensures Occurs(x, MARK) ==> x != ""
  {
  }

  /** A later write fully overrides an earlier one exactly when the calendar is
      overridable. */
  lemma LaterWinsExactly(x: string)
    ensures LaterWins(x) <==> Overridable(x)
  {
    if Overridable(x) {
      forall done1, stamp1, done2, stamp2
        ensures SetTodo(SetTodo(x, done1, stamp1), done2, stamp2) == SetTodo(x, done2, stamp2)
      {
        OverridableWins(x, done1, stamp1, done2, stamp2);
      }
    } else {
      NotOverridable(x, "19700101T000000Z");
    }
  }

  lemma {:induction false} NotOverridable(x: string, stamp: Stamp)
    requires !Overridable(x)
    ensures SetTodo(SetTodo(x, true, stamp), false, stamp) != SetTodo(x, false, stamp) ||
            SetTodo(SetTodo(x, false, stamp), false, stamp) != SetTodo(x, false, stamp)
  {
    hide Rewrite, Others, Strays, Writes, Occurs;
    var ls := SplitLines(x);
    SetTodoLines(x, true, stamp);
    SetTodoLines(x, false, stamp);
    RewriteShape(ls, false, false, true, stamp);
    RewriteShape(ls, false, false, false, stamp);
    if MarkIn(Others(ls, false)) {
      SetTodoLines(SetTodo(x, false, stamp), false, stamp);
      StraysAccumulate(ls, false, false, stamp);
    } else {
      MarkOfText(x);
      DroppedMeansWritten(ls, false, false);
      assert SetTodo(SetTodo(x, true, stamp), false, stamp) == SetTodo(x, true, stamp);
    }
  }

  /** Every line but the completion properties of tasks is kept in order, and each
      task of `out` has exactly the state asked for. */
  predicate OneStateEach(ls: seq<string>, out: seq<string>, done: bool, stamp: Stamp) {
    Others(out, false) == Others(ls, false) && States(out, false)[0] == [] &&
    forall i :: 1 <= i < |States(out, false)| ==> IsState(States(out, false)[i], done, stamp)
  }

  lemma DelimitedLines(ls: seq<string>, done: bool, stamp: Stamp)
    requires Delimited(ls, false, false)
    ensures OneStateEach(ls, Rewrite(ls, false, false, done, stamp), done, stamp)
  {
    hide Rewrite, Others, States, Strays, Delimited, IsState;
    DelimitedHasNoStrays(ls, false, false);
    OthersAreKept(ls, false, false, done, stamp);
    TasksGetOneState(ls, false, false, done, stamp);
  }

  /** A calendar with delimited, non-empty tasks keeps every other line in order and
      gives each of its tasks exactly the state asked for. */
  lemma DelimitedCalendars(x: string, done: bool, stamp: Stamp)
    requires Occurs(x, "BEGIN:VTODO") && Delimited(SplitLines(x), false, false)
    ensures Strays(SplitLines(x), false, false) == 0
    ensures OneStateEach(SplitLines(x), SplitLines(SetTodo(x, done, stamp)), done, stamp)
  {
    hide OneStateEach, Rewrite, Strays, Delimited, SetTodo, Occurs;
    DelimitedHasNoStrays(SplitLines(x), false, false);
    SetTodoLines(x, done, stamp);
    DelimitedLines(SplitLines(x), done, stamp);
  }
}
