/** EnsureDTSTAMP of internal/caldav/dtstamp.go: a time stamp for every event that
    lacks one. */
module DtStamp {
  import opened Strings
  import opened CalendarLines

  const EVENT := "BEGIN:VEVENT"

  predicate Begins(line: string) {
    HasPrefix(TrimReturns(line), "BEGIN:VEVENT")
  }

  predicate Ends(line: string) {
    HasPrefix(TrimReturns(line), "END:VEVENT")
  }

  predicate IsStamp(line: string) {
    HasPrefix(TrimReturns(line), "DTSTAMP")
  }

  /** What begins or ends an event, or is a stamp, does so at the start of its line; the
      carriage returns at its end do not matter. */
  lemma LinesAreKnown(line: string)
    ensures Begins(line) <==> HasPrefix(line, "BEGIN:VEVENT")
    ensures Ends(line) <==> HasPrefix(line, "END:VEVENT")
    ensures IsStamp(line) <==> HasPrefix(line, "DTSTAMP")
  {
    hide TrimReturns, HasPrefix;
    TrimmedPrefix(line, "BEGIN:VEVENT");
    TrimmedPrefix(line, "END:VEVENT");
    TrimmedPrefix(line, "DTSTAMP");
  }

  /** A line of the output, and whether the rewriting added it. */
  datatype Out = Out(line: string, added: bool)

  function Unchanged(ls: seq<string>): (os: seq<Out>)
    ensures |os| == |ls| && forall i :: 0 <= i < |ls| ==> os[i] == Out(ls[i], false)
  {
    if ls == [] then [] else [Out(ls[0], false)] + Unchanged(ls[1..])
  }

  function LinesOf(os: seq<Out>): (ls: seq<string>)
    ensures |ls| == |os| && forall i :: 0 <= i < |os| ==> ls[i] == os[i].line
  {
    if os == [] then [] else [os[0].line] + LinesOf(os[1..])
  }

  function StampLine(first: string, stamp: Stamp): string {
    "DTSTAMP:" + stamp + Terminator(first)
  }

  /** flush: the buffered lines, a stamp after the first when they have none. */
  function Flushed(block: seq<string>, hasStamp: bool, stamp: Stamp): seq<Out> {
    if block == [] then []
    else if hasStamp then Unchanged(block)
    else [Out(block[0], false), Out(StampLine(block[0], stamp), true)] + Unchanged(block[1..])
  }

  /** The loop and the final flush, from a given state. */
  function Scan(ls: seq<string>, block: seq<string>, inEvent: bool, hasStamp: bool, stamp: Stamp): seq<Out>
    decreases |ls|
  {
    if ls == [] then Flushed(block, hasStamp, stamp)
    else if Begins(ls[0]) then Scan(ls[1..], block + [ls[0]], true, false, stamp)
    else if Ends(ls[0]) then Flushed(block + [ls[0]], hasStamp, stamp) + Scan(ls[1..], [], false, hasStamp, stamp)
    else if inEvent then Scan(ls[1..], block + [ls[0]], true, hasStamp || IsStamp(ls[0]), stamp)
    else [Out(ls[0], false)] + Scan(ls[1..], block, false, hasStamp, stamp)
  }

  function Ensured(x: string, stamp: Stamp): string {
    if x == "" || !Occurs(x, EVENT) then x
    else JoinLines(LinesOf(Scan(SplitLines(x), [], false, false, stamp)))
  }

  lemma {:induction false} LinesOfConcat(a: seq<Out>, b: seq<Out>)
    ensures LinesOf(a + b) == LinesOf(a) + LinesOf(b)
  {
  }

  lemma {:induction false} LinesOfUnchanged(ls: seq<string>)
    ensures LinesOf(Unchanged(ls)) == ls
  {
  }

  method Flush(block: seq<string>, hasStamp: bool, stamp: Stamp) returns (out: seq<string>)
    ensures out == LinesOf(Flushed(block, hasStamp, stamp))
  {
    LinesOfUnchanged(block);
    if |block| == 0 { return []; }
    out := block;
    if !hasStamp {
      LinesOfUnchanged(block[1..]);
      var terminator := if HasSuffix(block[0], "\r") then "\r" else "";
      out := [block[0], "DTSTAMP:" + stamp + terminator] + block[1..];
    }
  }

  /** One line of the loop. */
  lemma {:induction false} ScanStep(ls: seq<string>, i: nat, block: seq<string>, inEvent: bool, hasStamp: bool, stamp: Stamp)
    requires i < |ls|
    ensures var line := ls[i]; var rest := ls[i + 1..];
            LinesOf(Scan(ls[i..], block, inEvent, hasStamp, stamp)) ==
            if Begins(line) then LinesOf(Scan(rest, block + [line], true, false, stamp))
            else if Ends(line) then
              LinesOf(Flushed(block + [line], hasStamp, stamp)) + LinesOf(Scan(rest, [], false, hasStamp, stamp))
            else if inEvent then LinesOf(Scan(rest, block + [line], true, hasStamp || IsStamp(line), stamp))
            else [line] + LinesOf(Scan(rest, block, false, hasStamp, stamp))
  {
    hide Begins, Ends, IsStamp, Flushed, LinesOf;
    var line, rest := ls[i], ls[i + 1..];
    assert ls[i..][0] == line && ls[i..][1..] == rest;
    LinesOfConcat(Flushed(block + [line], hasStamp, stamp), Scan(rest, [], false, hasStamp, stamp));
    LinesOfConcat([Out(line, false)], Scan(rest, block, false, hasStamp, stamp));
    assert LinesOf([Out(line, false)]) == [line];
  }

  lemma ScanEnd(block: seq<string>, inEvent: bool, hasStamp: bool, stamp: Stamp)
    ensures Scan([], block, inEvent, hasStamp, stamp) == Flushed(block, hasStamp, stamp)
  {
  }

  method EnsureDTSTAMP(x: string, stamp: Stamp) returns (r: string)
    ensures r == Ensured(x, stamp)
  {
    hide Begins, Ends, IsStamp, Flushed, LinesOf, Scan, Occurs, JoinLines, HasPrefix;
    if x == "" || !Occurs(x, EVENT) { return x; }
    var lines := SplitLines(x);
    var out: seq<string> := [];
    var block: seq<string> := [];
    var inEvent, hasStamp := false, false;
    ghost var want := LinesOf(Scan(lines, [], false, false, stamp));
    assert lines[0..] == lines;
    for i := 0 to |lines|
      invariant out + LinesOf(Scan(lines[i..], block, inEvent, hasStamp, stamp)) == want
    {
      var line := lines[i];
      ScanStep(lines, i, block, inEvent, hasStamp, stamp);
      if Begins(line) {
        inEvent, hasStamp := true, false;
        block := block + [line];
      } else if Ends(line) {
        block := block + [line];
        var flushed := Flush(block, hasStamp, stamp);
        out := out + flushed;
        block := [];
        inEvent := false;
      } else if inEvent {
        if IsStamp(line) { hasStamp := true; }
        block := block + [line];
      } else {
        out := out + [line];
      }
    }
    assert lines[|lines|..] == [];
    ScanEnd(block, inEvent, hasStamp, stamp);
    var flushed := Flush(block, hasStamp, stamp);
    r := JoinLines(out + flushed);
  }

  // ---------------------------------------------------------------- what is added

  /** The lines that were there before. */
  function Originals(os: seq<Out>): seq<string> {
    if os == [] then []
    else if os[0].added then Originals(os[1..])
    else [os[0].line] + Originals(os[1..])
  }

  lemma {:induction false} OriginalsConcat(a: seq<Out>, b: seq<Out>)
    ensures Originals(a + b) == Originals(a) + Originals(b)
    decreases |a|
  {
    if a == [] {
      assert a + b == b;
    } else {
      assert (a + b)[1..] == a[1..] + b;
      OriginalsConcat(a[1..], b);
    }
  }

  lemma {:induction false} OriginalsUnchanged(ls: seq<string>)
    ensures Originals(Unchanged(ls)) == ls
    decreases |ls|
  {
    if ls != [] { OriginalsUnchanged(ls[1..]); }
  }

  lemma {:induction false} OriginalsFlushed(block: seq<string>, hasStamp: bool, stamp: Stamp)
    ensures Originals(Flushed(block, hasStamp, stamp)) == block
  {
    if block != [] {
      OriginalsUnchanged(block);
      OriginalsUnchanged(block[1..]);
      var added := [Out(block[0], false), Out(StampLine(block[0], stamp), true)];
      OriginalsConcat(added, Unchanged(block[1..]));
      assert added[1..][1..] == [];
      assert Originals(added) == [block[0]];
    }
  }

  lemma OneOriginal(line: string, os: seq<Out>)
    ensures Originals([Out(line, false)] + os) == [line] + Originals(os)
  {
    assert ([Out(line, false)] + os)[1..] == os;
  }

  /** For any lines whatever, erasing what was added gives back the input. */
  lemma {:induction false} ErasingGivesInput(ls: seq<string>, block: seq<string>, inEvent: bool, hasStamp: bool, stamp: Stamp)
    requires !inEvent ==> block == []
    ensures Originals(Scan(ls, block, inEvent, hasStamp, stamp)) == block + ls
    decreases |ls|
  {
    hide Begins, Ends, IsStamp, Flushed, Originals;
    OriginalsFlushed(block, hasStamp, stamp);
    if ls == [] {
      assert block + ls == block;
    } else {
      var line, rest := ls[0], ls[1..];
      assert block + [line] + rest == block + ls;
      OneOriginal(line, Scan(rest, block, false, hasStamp, stamp));
      if Begins(line) {
        ErasingGivesInput(rest, block + [line], true, false, stamp);
      } else if Ends(line) {
        ErasingGivesInput(rest, [], false, hasStamp, stamp);
        OriginalsFlushed(block + [line], hasStamp, stamp);
        OriginalsConcat(Flushed(block + [line], hasStamp, stamp), Scan(rest, [], false, hasStamp, stamp));
      } else if inEvent {
        ErasingGivesInput(rest, block + [line], true, hasStamp || IsStamp(line), stamp);
      } else {
        ErasingGivesInput(rest, block, false, hasStamp, stamp);
      }
    }
  }

  // -------------------------------------------------------- every event is stamped

  /** Events do not nest and end where they begin; the last may lack its end. */
  predicate Delimited(ls: seq<string>, inEvent: bool) {
    if ls == [] then true
    else if Begins(ls[0]) then !inEvent && Delimited(ls[1..], true)
    else if Ends(ls[0]) then inEvent && Delimited(ls[1..], false)
    else Delimited(ls[1..], inEvent)
  }

  /** Every event, counting the one being read, has a stamp before it ends. */
  predicate Stamped(ls: seq<string>, inEvent: bool, hasStamp: bool) {
    if ls == [] then inEvent ==> hasStamp
    else if Begins(ls[0]) then (inEvent ==> hasStamp) && Stamped(ls[1..], true, false)
    else if Ends(ls[0]) then (inEvent ==> hasStamp) && Stamped(ls[1..], false, hasStamp)
    else Stamped(ls[1..], inEvent, hasStamp || (inEvent && IsStamp(ls[0])))
  }

  /** The buffer of an event: its BEGIN and ordinary lines. */
  predicate IsBody(body: seq<string>) {
    forall i :: 0 <= i < |body| ==> !Begins(body[i]) && !Ends(body[i])
  }

  predicate HasStampIn(body: seq<string>) {
    exists i :: 0 <= i < |body| && IsStamp(body[i])
  }

  predicate IsBlock(block: seq<string>, hasStamp: bool) {
    block != [] && Begins(block[0]) && IsBody(block[1..]) && hasStamp == HasStampIn(block[1..])
  }

  lemma {:induction false} ThroughBody(body: seq<string>, rest: seq<string>, hasStamp: bool)
    requires IsBody(body)
    ensures Stamped(body + rest, true, hasStamp) == Stamped(rest, true, hasStamp || HasStampIn(body))
    ensures Delimited(body + rest, true) == Delimited(rest, true)
    decreases |body|
  {
    hide Begins, Ends, IsStamp;
    if body == [] {
      assert body + rest == rest;
    } else {
      assert (body + rest)[1..] == body[1..] + rest;
      assert !Begins(body[0]) && !Ends(body[0]);
      BodyTail(body);
      ThroughBody(body[1..], rest, hasStamp || IsStamp(body[0]));
    }
  }

  lemma BodyTail(body: seq<string>)
    requires body != [] && IsBody(body)
    ensures IsBody(body[1..]) && (HasStampIn(body) <==> IsStamp(body[0]) || HasStampIn(body[1..]))
  {
  }

  lemma BlockGrows(block: seq<string>, hasStamp: bool, line: string)
    requires IsBlock(block, hasStamp) && !Begins(line) && !Ends(line)
    ensures IsBlock(block + [line], hasStamp || IsStamp(line))
  {
    hide Begins, Ends, IsStamp;
    var b := (block + [line])[1..];
    assert b == block[1..] + [line];
    if HasStampIn(block[1..]) {
      var i :| 0 <= i < |block[1..]| && IsStamp(block[1..][i]);
      assert b[i] == block[1..][i];
    }
    assert b[|block| - 1] == line;
  }

  /** The stamp line is an ordinary line that counts as a stamp. */
  lemma StampLineIsStamp(first: string, stamp: Stamp)
    ensures var l := StampLine(first, stamp);
            IsStamp(l) && !Begins(l) && !Ends(l) && '\n' !in l
  {
    var body := "DTSTAMP:" + stamp;
    TerminatorKinds(first);
    assert body[|body| - 1] != '\r' by {
      if stamp != "" { assert body[|body| - 1] in stamp; }
    }
    TrimmedLine(body, Terminator(first));
    assert body[..7] == "DTSTAMP" && body[0] == 'D';
  }

  lemma BeginStep(line: string, rest: seq<string>, before: bool)
    requires Begins(line)
    ensures Stamped([line] + rest, false, before) == Stamped(rest, true, false)
    ensures Delimited([line] + rest, false) == Delimited(rest, true)
  {
  }

  lemma StampStep(line: string, rest: seq<string>)
    requires IsStamp(line) && !Begins(line) && !Ends(line)
    ensures Stamped([line] + rest, true, false) == Stamped(rest, true, true)
    ensures Delimited([line] + rest, true) == Delimited(rest, true)
  {
  }

  lemma EndStep(line: string, rest: seq<string>)
    requires Ends(line) && !Begins(line)
    ensures Stamped([line] + rest, true, true) == Stamped(rest, false, true)
    ensures Delimited([line] + rest, true) == Delimited(rest, false)
  {
  }

  /** The lines of a flushed event. */
  lemma {:induction false} FlushedLines(block: seq<string>, hasStamp: bool, stamp: Stamp)
    requires block != []
    ensures LinesOf(Flushed(block, hasStamp, stamp)) ==
            [block[0]] + (if hasStamp then [] else [StampLine(block[0], stamp)]) + block[1..]
  {
  }

  /** A flushed event, whatever follows it, is stamped. */
  lemma {:induction false} FlushedIsStamped(block: seq<string>, hasStamp: bool, stamp: Stamp, rest: seq<string>, before: bool)
    requires IsBlock(block, hasStamp)
    ensures var out := LinesOf(Flushed(block, hasStamp, stamp)) + rest;
            Stamped(out, false, before) == Stamped(rest, true, true) && Delimited(out, false) == Delimited(rest, true)
  {
    hide Begins, Ends, IsStamp, StampLine, Stamped, Delimited, Flushed, LinesOf, HasStampIn, IsBody;
    var first, body := block[0], block[1..];
    FlushedLines(block, hasStamp, stamp);
    var out := LinesOf(Flushed(block, hasStamp, stamp)) + rest;
    if hasStamp {
      ThroughBody(body, rest, false);
      BeginStep(first, body + rest, before);
      assert out == [first] + (body + rest);
    } else {
      var l := StampLine(first, stamp);
      StampLineIsStamp(first, stamp);
      ThroughBody(body, rest, true);
      StampStep(l, body + rest);
      BeginStep(first, [l] + (body + rest), before);
      assert out == [first] + ([l] + (body + rest));
    }
  }

  /** The state of the loop between lines of delimited input. */
  predicate GoodState(block: seq<string>, inEvent: bool, hasStamp: bool) {
    if inEvent then IsBlock(block, hasStamp) else block == []
  }

  /** The output is delimited and every event in it is stamped. */
  lemma {:induction false} OutputIsStamped(ls: seq<string>, block: seq<string>, inEvent: bool, hasStamp: bool,
                                           stamp: Stamp, before: bool)
    requires Delimited(ls, inEvent) && GoodState(block, inEvent, hasStamp)
    ensures var out := LinesOf(Scan(ls, block, inEvent, hasStamp, stamp));
            Stamped(out, false, before) && Delimited(out, false)
    decreases |ls|
  {
    hide Begins, Ends, IsStamp, Flushed, IsBlock, LinesOf;
    assert ls[0..] == ls;
    if ls == [] {
      ScanEnd(block, inEvent, hasStamp, stamp);
      if inEvent {
        FlushedIsStamped(block, hasStamp, stamp, [], before);
        assert LinesOf(Flushed(block, hasStamp, stamp)) + [] == LinesOf(Flushed(block, hasStamp, stamp));
      } else {
        FlushedNothing(hasStamp, stamp);
      }
    } else {
      var line, rest := ls[0], ls[1..];
      ScanStep(ls, 0, block, inEvent, hasStamp, stamp);
      if Begins(line) {
        NewBlock(line);
        assert block + [line] == [line];
        OutputIsStamped(rest, [line], true, false, stamp, before);
      } else if Ends(line) {
        OutputIsStamped(rest, [], false, hasStamp, stamp, true);
        EventIsStamped(block, hasStamp, line, stamp, LinesOf(Scan(rest, [], false, hasStamp, stamp)), before);
      } else if inEvent {
        BlockGrows(block, hasStamp, line);
        OutputIsStamped(rest, block + [line], true, hasStamp || IsStamp(line), stamp, before);
      } else {
        OutputIsStamped(rest, block, false, hasStamp, stamp, before);
        var out := LinesOf(Scan(rest, block, false, hasStamp, stamp));
        assert ([line] + out)[1..] == out;
      }
    }
  }

  lemma FlushedNothing(hasStamp: bool, stamp: Stamp)
    ensures LinesOf(Flushed([], hasStamp, stamp)) == []
  {
  }

  lemma NewBlock(line: string)
    requires Begins(line)
    ensures IsBlock([line], false)
  {
  }

  /** A whole event, flushed at its END. */
  lemma {:induction false} EventIsStamped(block: seq<string>, hasStamp: bool, end: string, stamp: Stamp,
                                          rest: seq<string>, before: bool)
    requires IsBlock(block, hasStamp) && Ends(end) && !Begins(end)
    ensures var out := LinesOf(Flushed(block + [end], hasStamp, stamp)) + rest;
            Stamped(out, false, before) == Stamped(rest, false, true) && Delimited(out, false) == Delimited(rest, false)
  {
    hide Begins, Ends, IsStamp, StampLine, Stamped, Delimited, Flushed, LinesOf, HasStampIn, IsBody;
    FlushedIsStamped(block, hasStamp, stamp, [end] + rest, before);
    EndStep(end, rest);
    FlushedLines(block + [end], hasStamp, stamp);
    FlushedLines(block, hasStamp, stamp);
    assert (block + [end])[1..] == block[1..] + [end] && (block + [end])[0] == block[0];
    assert LinesOf(Flushed(block + [end], hasStamp, stamp)) + rest ==
           LinesOf(Flushed(block, hasStamp, stamp)) + ([end] + rest);
  }

  /** Stamped, delimited lines are left as they are. */
  lemma {:induction false} StampedIsKept(ls: seq<string>, block: seq<string>, inEvent: bool, hasStamp: bool,
                                         before: bool, stamp: Stamp)
    requires Delimited(ls, inEvent) && GoodState(block, inEvent, hasStamp)
    requires Stamped(ls, inEvent, if inEvent then hasStamp else before)
    ensures LinesOf(Scan(ls, block, inEvent, hasStamp, stamp)) == block + ls
    decreases |ls|
  {
    hide Begins, Ends, IsStamp, Flushed, IsBlock, LinesOf;
    assert ls[0..] == ls;
    FlushedStamped(block, stamp);
    if ls == [] {
      ScanEnd(block, inEvent, hasStamp, stamp);
      FlushedNothing(hasStamp, stamp);
      assert block + ls == block;
    } else {
      var line, rest := ls[0], ls[1..];
      ScanStep(ls, 0, block, inEvent, hasStamp, stamp);
      assert block + [line] + rest == block + ls;
      if Begins(line) {
        NewBlock(line);
        assert block + [line] == [line];
        StampedIsKept(rest, [line], true, false, before, stamp);
      } else if Ends(line) {
        StampedIsKept(rest, [], false, hasStamp, hasStamp, stamp);
        FlushedStamped(block + [line], stamp);
      } else if inEvent {
        BlockGrows(block, hasStamp, line);
        StampedIsKept(rest, block + [line], true, hasStamp || IsStamp(line), before, stamp);
      } else {
        StampedIsKept(rest, block, false, hasStamp, before, stamp);
      }
    }
  }

  lemma FlushedStamped(block: seq<string>, stamp: Stamp)
    ensures LinesOf(Flushed(block, true, stamp)) == block
  {
  }

  // -------------------------------------------------------------- whole calendars

  /** No line of the output is broken, and the mark stays in some line. */
  lemma {:induction false} ScanShape(ls: seq<string>, block: seq<string>, inEvent: bool, hasStamp: bool, stamp: Stamp)
    requires !inEvent ==> block == []
    requires (forall l :: l in ls ==> '\n' !in l) && (forall l :: l in block ==> '\n' !in l)
    ensures var out := LinesOf(Scan(ls, block, inEvent, hasStamp, stamp));
            (forall l :: l in out ==> '\n' !in l) && (forall l :: l in block + ls ==> l in out)
    decreases |ls|
  {
    hide Begins, Ends, IsStamp, Flushed, LinesOf;
    assert ls[0..] == ls;
    FlushedShape(block, hasStamp, stamp);
    if ls == [] {
      ScanEnd(block, inEvent, hasStamp, stamp);
    } else {
      var line, rest := ls[0], ls[1..];
      ScanStep(ls, 0, block, inEvent, hasStamp, stamp);
      assert line in ls && forall l :: l in rest ==> l in ls;
      assert block + ls == block + [line] + rest;
      FlushedShape(block + [line], hasStamp, stamp);
      if Begins(line) {
        ScanShape(rest, block + [line], true, false, stamp);
      } else if Ends(line) {
        ScanShape(rest, [], false, hasStamp, stamp);
      } else if inEvent {
        ScanShape(rest, block + [line], true, hasStamp || IsStamp(line), stamp);
      } else {
        ScanShape(rest, block, false, hasStamp, stamp);
      }
    }
  }

  lemma {:induction false} FlushedShape(block: seq<string>, hasStamp: bool, stamp: Stamp)
    ensures var out := LinesOf(Flushed(block, hasStamp, stamp));
            forall l :: l in block ==> l in out
    ensures (forall l :: l in block ==> '\n' !in l) ==>
            forall l :: l in LinesOf(Flushed(block, hasStamp, stamp)) ==> '\n' !in l
  {
    hide StampLine;
    LinesOfUnchanged(block);
    if block != [] {
      LinesOfUnchanged(block[1..]);
      StampLineIsStamp(block[0], stamp);
      assert block == [block[0]] + block[1..];
      assert LinesOf(Flushed(block, false, stamp)) == [block[0], StampLine(block[0], stamp)] + block[1..];
    }
  }

  /** A calendar rewritten, split again. */
  lemma {:induction false} EnsuredLines(x: string, stamp: Stamp)
    requires x != "" && Occurs(x, EVENT)
    ensures var out := LinesOf(Scan(SplitLines(x), [], false, false, stamp));
            SplitLines(Ensured(x, stamp)) == out && Ensured(x, stamp) != "" && Occurs(Ensured(x, stamp), EVENT)
  {
    hide Occurs, Scan, LinesOf;
    var ls := SplitLines(x);
    var out := LinesOf(Scan(ls, [], false, false, stamp));
    ScanShape(ls, [], false, false, stamp);
    assert [] + ls == ls;
    assert ls[0] in [] + ls;
    SplitJoin(out);
    EventPlain();
    JoinSplit(x);
    OccursInJoin(ls, EVENT);
    OccursInJoin(out, EVENT);
    var k :| 0 <= k < |ls| && Occurs(ls[k], EVENT);
    assert ls[k] in [] + ls;
    var j :| 0 <= j < |out| && out[j] == ls[k];
    NotEmpty(Ensured(x, stamp));
  }

  lemma EventPlain()
    ensures '\n' !in EVENT && EVENT != ""
  {
  }

  lemma NotEmpty(x: string)
    ensures Occurs(x, EVENT) ==> x != ""
  {
  }

  /** A second call changes nothing, whatever time stamp it brings. */
  lemma {:induction false} EnsuringIsIdempotent(x: string, stamp1: Stamp, stamp2: Stamp)
    requires Delimited(SplitLines(x), false)
    ensures Ensured(Ensured(x, stamp1), stamp2) == Ensured(x, stamp1)
  {
    hide Occurs, Scan, LinesOf, Delimited, Stamped;
    if x != "" && Occurs(x, EVENT) {
      var y := Ensured(x, stamp1);
      EnsuredLines(x, stamp1);
      OutputIsStamped(SplitLines(x), [], false, false, stamp1, false);
      StampedIsKept(SplitLines(y), [], false, false, false, stamp2);
      assert [] + SplitLines(y) == SplitLines(y);
      JoinSplit(y);
    }
  }

  /** A line that was added is a stamp of that time, ended as one of the calendar's lines. */
  predicate AddedIsStamp(o: Out, stamp: Stamp) {
    o.added ==> o.line == "DTSTAMP:" + stamp || o.line == "DTSTAMP:" + stamp + "\r"
  }

  lemma FlushedAdds(block: seq<string>, hasStamp: bool, stamp: Stamp)
    ensures forall o :: o in Flushed(block, hasStamp, stamp) ==> AddedIsStamp(o, stamp)
  {
    if block != [] {
      TerminatorKinds(block[0]);
      assert "DTSTAMP:" + stamp + "" == "DTSTAMP:" + stamp;
    }
  }

  lemma {:induction false} AddedAreStamps(ls: seq<string>, block: seq<string>, inEvent: bool, hasStamp: bool, stamp: Stamp)
    ensures forall o :: o in Scan(ls, block, inEvent, hasStamp, stamp) ==> AddedIsStamp(o, stamp)
    decreases |ls|
  {
    hide Begins, Ends, IsStamp, Flushed;
    FlushedAdds(block, hasStamp, stamp);
    if ls != [] {
      var line, rest := ls[0], ls[1..];
      FlushedAdds(block + [line], hasStamp, stamp);
      if Begins(line) { AddedAreStamps(rest, block + [line], true, false, stamp); }
      else if Ends(line) { AddedAreStamps(rest, [], false, hasStamp, stamp); }
      else if inEvent { AddedAreStamps(rest, block + [line], true, hasStamp || IsStamp(line), stamp); }
      else { AddedAreStamps(rest, block, false, hasStamp, stamp); }
    }
  }

  /** Every event of a delimited calendar comes out stamped, what was added are stamps of
      the time given, and erasing them gives back the calendar. */
  lemma {:induction false} EventsComeOutStamped(x: string, stamp: Stamp)
    requires x != "" && Occurs(x, "BEGIN:VEVENT") && Delimited(SplitLines(x), false)
    ensures Stamped(SplitLines(Ensured(x, stamp)), false, false)
    ensures SplitLines(Ensured(x, stamp)) == LinesOf(Scan(SplitLines(x), [], false, false, stamp))
    ensures forall o :: o in Scan(SplitLines(x), [], false, false, stamp) ==> AddedIsStamp(o, stamp)
    ensures JoinLines(Originals(Scan(SplitLines(x), [], false, false, stamp))) == x
  {
    hide Occurs, Scan, LinesOf, Delimited, Stamped;
    EnsuredLines(x, stamp);
    AddedAreStamps(SplitLines(x), [], false, false, stamp);
    OutputIsStamped(SplitLines(x), [], false, false, stamp, false);
    ErasingGivesInput(SplitLines(x), [], false, false, stamp);
    assert [] + SplitLines(x) == SplitLines(x);
    JoinSplit(x);
  }
}
