/** generateICalData of internal/web/handlers_calendar.go, read back as RFC 5545
    prescribes: unfold, split into content lines, split each at its first colon,
    unescape the TEXT values. */
module ICalendar {
  import opened Wrappers
  import opened ContentLines

  datatype Event = Event(uid: Text, summary: Text, description: Text, location: Text,
                         start: int, end: Option<int>, rrule: Text)

  datatype Property = Property(name: Text, value: Text)

  /** Time formatted as 20060102T150405Z: nothing in it breaks a line. */
  type Stamp = t: Text | BreakFree(t) witness []

  const BEGIN: Text := [66, 69, 71, 73, 78]
  const END: Text := [69, 78, 68]
  const VERSION: Text := [86, 69, 82, 83, 73, 79, 78]
  const PRODID: Text := [80, 82, 79, 68, 73, 68]
  const UID: Text := [85, 73, 68]
  const DTSTAMP: Text := [68, 84, 83, 84, 65, 77, 80]
  const SUMMARY: Text := [83, 85, 77, 77, 65, 82, 89]
  const DESCRIPTION: Text := [68, 69, 83, 67, 82, 73, 80, 84, 73, 79, 78]
  const LOCATION: Text := [76, 79, 67, 65, 84, 73, 79, 78]
  const DTSTART: Text := [68, 84, 83, 84, 65, 82, 84]
  const DTEND: Text := [68, 84, 69, 78, 68]
  const RRULE: Text := [82, 82, 85, 76, 69]

  const NAMES: set<Text> := {BEGIN, END, VERSION, PRODID, UID, DTSTAMP, SUMMARY, DESCRIPTION, LOCATION,
                             DTSTART, DTEND, RRULE}

  const VCALENDAR: Text := [86, 67, 65, 76, 69, 78, 68, 65, 82]
  const VEVENT: Text := [86, 69, 86, 69, 78, 84]
  const TWO_ZERO: Text := [50, 46, 48]
  /** -//DDMailServer//Calendar//EN */
  const PRODUCT: Text := [45, 47, 47, 68, 68, 77, 97, 105, 108, 83, 101, 114, 118, 101, 114, 47, 47,
                          67, 97, 108, 101, 110, 100, 97, 114, 47, 47, 69, 78]

  /** The names, as characters. */
  lemma NamesAre()
    ensures BEGIN == Ascii("BEGIN") && END == Ascii("END") && VERSION == Ascii("VERSION") && PRODID == Ascii("PRODID")
    ensures UID == Ascii("UID") && DTSTAMP == Ascii("DTSTAMP") && SUMMARY == Ascii("SUMMARY")
    ensures DESCRIPTION == Ascii("DESCRIPTION") && LOCATION == Ascii("LOCATION")
    ensures DTSTART == Ascii("DTSTART") && DTEND == Ascii("DTEND") && RRULE == Ascii("RRULE")
  {
  }

  /** The fixed values. */
  lemma ValuesAre()
    ensures VCALENDAR == Ascii("VCALENDAR") && VEVENT == Ascii("VEVENT") && TWO_ZERO == Ascii("2.0")
    ensures PRODUCT == Ascii("-//DDMailServer//Calendar//EN")
  {
  }

  const HOUR_MS := 3600 * 1000

  function EndOf(e: Event): int {
    if e.end.Some? && e.end.value != 0 then e.end.value else e.start + HOUR_MS
  }

  /** The names whose value is TEXT written through ContentLine. */
  predicate IsText(name: Text) {
    name in {UID, SUMMARY, DESCRIPTION, LOCATION}
  }

  /** The name of a property: no colon, no line break, and not blank first. */
  predicate IsName(name: Text) {
    name != [] && COLON !in name && BreakFree(name) && !IsBlank(name[0])
  }

  function Opening(e: Event, now: Stamp): seq<Property> {
    [Property(BEGIN, VCALENDAR), Property(VERSION, TWO_ZERO), Property(PRODID, PRODUCT),
     Property(BEGIN, VEVENT), Property(UID, e.uid), Property(DTSTAMP, now), Property(SUMMARY, e.summary)]
  }

  /** A property that is left out when it has no value. */
  function Optional(name: Text, value: Text): seq<Property> {
    if value != [] then [Property(name, value)] else []
  }

  const CLOSING := [Property(END, VEVENT), Property(END, VCALENDAR)]

  /** The properties an event stands for, in order, values not yet encoded. */
  function Intended(e: Event, fmt: int -> Stamp, now: int): seq<Property> {
    Opening(e, fmt(now)) + Optional(DESCRIPTION, e.description) + Optional(LOCATION, e.location)
    + [Property(DTSTART, fmt(e.start)), Property(DTEND, fmt(EndOf(e)))]
    + Optional(RRULE, e.rrule) + CLOSING
  }

  /** The value of a property as it is written on its line. */
  function Wire(p: Property): Text {
    if IsText(p.name) then Escaped(p.value) else p.value
  }

  /** The line of a property, folded and ended. */
  function Line(p: Property): Text {
    Folded(Logical(p.name, Wire(p))) + CRLF
  }

  function Written(ps: seq<Property>): Text {
    if ps == [] then [] else Line(ps[0]) + Written(ps[1..])
  }

  /** Every fixed property is short enough not to be folded. */
  lemma FixedLine(name: Text, value: Text)
    requires |name| + 1 + |value| <= MAX_OCTETS
    ensures Folded(Logical(name, value)) == name + [COLON] + value
  {
  }

  lemma {:induction false} WrittenSnoc(ps: seq<Property>, p: Property)
    ensures Written(ps + [p]) == Written(ps) + Line(p)
    decreases |ps|
  {
    if ps == [] {
      assert [p][1..] == [];
    } else {
      assert (ps + [p])[1..] == ps[1..] + [p];
      WrittenSnoc(ps[1..], p);
    }
  }

  method Add(ical: Text, ghost ps: seq<Property>, name: Text, value: Text) returns (r: Text, ghost qs: seq<Property>)
    requires ical == Written(ps) && !IsText(name) && |name| + 1 + |value| <= MAX_OCTETS
    ensures qs == ps + [Property(name, value)] && r == Written(qs)
  {
    r := ical + (name + [COLON] + value) + CRLF;
    qs := ps + [Property(name, value)];
    FixedLine(name, value);
    WrittenSnoc(ps, Property(name, value));
  }

  method AddText(ical: Text, ghost ps: seq<Property>, name: Text, value: Text) returns (r: Text, ghost qs: seq<Property>)
    requires ical == Written(ps) && IsText(name)
    ensures qs == ps + [Property(name, value)] && r == Written(qs)
  {
    var line := ContentLine(name, value);
    r := ical + line;
    qs := ps + [Property(name, value)];
    WrittenSnoc(ps, Property(name, value));
  }

  lemma WrittenNothing()
    ensures Written([]) == []
  {
  }

  method AddOptionalText(ical: Text, ghost ps: seq<Property>, name: Text, value: Text)
    returns (r: Text, ghost qs: seq<Property>)
    requires ical == Written(ps) && IsText(name)
    ensures qs == ps + Optional(name, value) && r == Written(qs)
  {
    r, qs := ical, ps;
    if value != [] {
      r, qs := AddText(ical, ps, name, value);
    }
  }

  method AddRule(ical: Text, ghost ps: seq<Property>, rrule: Text) returns (r: Text, ghost qs: seq<Property>)
    requires ical == Written(ps)
    ensures qs == ps + Optional(RRULE, rrule) && r == Written(qs)
  {
    r, qs := ical, ps;
    if rrule != [] {
      var line := RawContentLine(RRULE, rrule);
      r := r + line;
      qs := ps + [Property(RRULE, rrule)];
      WrittenSnoc(ps, Property(RRULE, rrule));
    }
  }

  method AddOpening(e: Event, now: Stamp) returns (ical: Text, ghost ps: seq<Property>)
    requires |now| <= 40
    ensures ps == Opening(e, now) && ical == Written(ps)
  {
    hide Written;
    WrittenNothing();
    ical, ps := Add([], [], BEGIN, VCALENDAR);
    ical, ps := Add(ical, ps, VERSION, TWO_ZERO);
    ical, ps := Add(ical, ps, PRODID, PRODUCT);
    ical, ps := Add(ical, ps, BEGIN, VEVENT);
    ical, ps := AddText(ical, ps, UID, e.uid);
    ical, ps := Add(ical, ps, DTSTAMP, now);
    ical, ps := AddText(ical, ps, SUMMARY, e.summary);
  }

  method GenerateICalData(e: Event, fmt: int -> Stamp, now: int) returns (ical: Text)
    requires forall t :: |fmt(t)| <= 40
    ensures ical == Written(Intended(e, fmt, now))
  {
    hide Written, Opening, Optional;
    var dtstart := fmt(e.start);
    var dtend := if e.end.Some? && e.end.value != 0 then fmt(e.end.value) else fmt(e.start + HOUR_MS);
    ghost var ps;
    ical, ps := AddOpening(e, fmt(now));
    ical, ps := AddOptionalText(ical, ps, DESCRIPTION, e.description);
    ical, ps := AddOptionalText(ical, ps, LOCATION, e.location);
    ghost var before := ps;
    ical, ps := Add(ical, ps, DTSTART, dtstart);
    ical, ps := Add(ical, ps, DTEND, dtend);
    assert ps == before + [Property(DTSTART, dtstart), Property(DTEND, dtend)];
    ical, ps := AddRule(ical, ps, e.rrule);
    before := ps;
    ical, ps := Add(ical, ps, END, VEVENT);
    ical, ps := Add(ical, ps, END, VCALENDAR);
    assert ps == before + CLOSING;
  }

  // ------------------------------------------------------------------ reading

  function FirstColon(l: Text): (i: nat)
    ensures i <= |l|
    ensures forall k :: 0 <= k < i ==> l[k] != COLON
    ensures i < |l| ==> l[i] == COLON
  {
    if l == [] || l[0] == COLON then 0 else 1 + FirstColon(l[1..])
  }

  /** One content line read back. */
  function ReadLine(l: Text): Property {
    var i := FirstColon(l);
    var name, value := l[..i], if i < |l| then l[i + 1..] else [];
    Property(name, if IsText(name) then Unescaped(value) else value)
  }

  function ReadLines(ls: seq<Text>): (ps: seq<Property>)
    ensures |ps| == |ls|
    ensures forall i :: 0 <= i < |ls| ==> ps[i] == ReadLine(ls[i])
  {
    if ls == [] then [] else [ReadLine(ls[0])] + ReadLines(ls[1..])
  }

  /** The properties of a calendar text. The text after the last line break is
      not a content line. */
  function ReadCalendar(t: Text): seq<Property> {
    var ls := SplitLines(Unfolded(t));
    ReadLines(ls[..|ls| - 1])
  }

  /** What reading makes of a value: line breaks in TEXT become LF. */
  function ReadBack(p: Property): Property {
    if IsText(p.name) then p.(value := Normalized(p.value)) else p
  }

  function AllReadBack(ps: seq<Property>): (r: seq<Property>)
    ensures |r| == |ps|
    ensures forall i :: 0 <= i < |ps| ==> r[i] == ReadBack(ps[i])
  {
    if ps == [] then [] else [ReadBack(ps[0])] + AllReadBack(ps[1..])
  }

  ghost predicate Writable(p: Property) {
    IsName(p.name) && !HasBreak(Logical(p.name, Wire(p)))
  }

  ghost predicate AllWritable(ps: seq<Property>) {
    forall p :: p in ps ==> Writable(p)
  }

  lemma UnfoldBreak(b: Text)
    requires b == [] || !IsBlank(b[0])
    ensures Unfolded(CRLF + b) == CRLF + Unfolded(b)
  {
    hide Unfolded;
    assert CRLF + b == [CR] + ([LF] + b);
    UnfoldHead(CR, [LF] + b);
    UnfoldHead(LF, b);
  }

  /** Unfolding works on both sides of a line break that starts a new line. */
  lemma UnfoldAtBreak(a: Text, b: Text)
    requires b == [] || !IsBlank(b[0])
    ensures Unfolded(a + CRLF + b) == Unfolded(a) + CRLF + Unfolded(b)
  {
    hide Unfolded;
    assert a + CRLF + b == a + (CRLF + b);
    UnfoldBeforeReturn(a, CRLF + b);
    UnfoldBreak(b);
  }

  lemma NoBreakNoFold(t: Text)
    requires !HasBreak(t)
    ensures FoldFree(t)
  {
    forall i: nat | i < |t| ensures !FoldAt(t, i) {
      assert !BreakAt(t, i);
    }
  }

  lemma LineStart(p: Property)
    requires IsName(p.name)
    ensures Line(p)[0] == p.name[0]
  {
  }

  /** The lines of a written calendar, unfolded and split, are the logical lines. */
  lemma {:induction false} WrittenSplits(ps: seq<Property>)
    requires AllWritable(ps)
    ensures var ls := SplitLines(Unfolded(Written(ps)));
            |ls| == |ps| + 1 && forall i :: 0 <= i < |ps| ==> ls[i] == Logical(ps[i].name, Wire(ps[i]))
    decreases |ps|
  {
    if ps != [] {
      var l := Logical(ps[0].name, Wire(ps[0]));
      var rest := Written(ps[1..]);
      assert Writable(ps[0]);
      WrittenSplits(ps[1..]);
      if ps[1..] != [] {
        assert Writable(ps[1]);
        LineStart(ps[1]);
      }
      assert Written(ps) == Folded(l) + CRLF + rest;
      UnfoldAtBreak(Folded(l), rest);
      NoBreakNoFold(l);
      UnfoldUndoesFold(l);
      SplitAtBreak(l, Unfolded(rest));
    }
  }

  lemma {:induction false} ColonAfterName(name: Text, value: Text)
    requires COLON !in name
    ensures FirstColon(Logical(name, value)) == |name|
  {
    var l := Logical(name, value);
    assert l[|name|] == COLON;
    assert forall k :: 0 <= k < |name| ==> l[k] == name[k];
  }

  /** A written line reads back as its property. */
  lemma ReadLineBack(p: Property)
    requires IsName(p.name)
    ensures ReadLine(Logical(p.name, Wire(p))) == ReadBack(p)
  {
    ColonAfterName(p.name, Wire(p));
    var l := Logical(p.name, Wire(p));
    assert l[..|p.name|] == p.name && l[|p.name| + 1..] == Wire(p);
    UnescapeUndoesEscape(p.value);
  }

  lemma WrittenReadsBack(ps: seq<Property>)
    requires AllWritable(ps)
    ensures ReadCalendar(Written(ps)) == AllReadBack(ps)
  {
    WrittenSplits(ps);
    forall i | 0 <= i < |ps| ensures ReadLine(Logical(ps[i].name, Wire(ps[i]))) == ReadBack(ps[i]) {
      assert Writable(ps[i]);
      ReadLineBack(ps[i]);
    }
  }

  lemma LogicalBreaks(name: Text, value: Text)
    requires IsName(name)
    ensures HasBreak(Logical(name, value)) <==> HasBreak(value)
  {
    var l := Logical(name, value);
    if HasBreak(value) {
      var i :| BreakAt(value, i);
      assert BreakAt(l, |name| + 1 + i);
    }
    if HasBreak(l) {
      var i :| BreakAt(l, i);
      assert i > |name|;
      assert BreakAt(value, i - |name| - 1);
    }
  }

  lemma NamesAreNames()
    ensures forall name :: name in NAMES ==> IsName(name)
  {
  }

  lemma ConstantsAreBreakFree()
    ensures BreakFree(VCALENDAR) && BreakFree(VEVENT) && BreakFree(TWO_ZERO) && BreakFree(PRODUCT)
  {
  }

  /** Every property but a recurrence rule is written whatever its value. */
  lemma IntendedIsWritable(e: Event, fmt: int -> Stamp, now: int, p: Property)
    requires p in Intended(e, fmt, now)
    ensures IsName(p.name)
    ensures p.name == RRULE ==> p.value == e.rrule && e.rrule != []
    ensures p.name != RRULE ==> Writable(p)
  {
    NamesAreNames();
    ConstantsAreBreakFree();
    if p.name != RRULE {
      if IsText(p.name) {
        EscapedIsBreakFree(p.value);
      }
      BreakFreeHasNoBreak(Wire(p));
      LogicalBreaks(p.name, Wire(p));
    }
  }

  /** Reading back the generated calendar gives exactly the intended properties,
      TEXT values equal up to the spelling of line breaks, if and only if the
      recurrence rule holds no line break of its own. */
  lemma CalendarReadsBack(e: Event, fmt: int -> Stamp, now: int)
    ensures var ps := Intended(e, fmt, now);
            ReadCalendar(Written(ps)) == AllReadBack(ps) <==> !HasBreak(e.rrule)
  {
    var ps := Intended(e, fmt, now);
    if !HasBreak(e.rrule) {
      forall p | p in ps ensures Writable(p) {
        IntendedIsWritable(e, fmt, now, p);
        if p.name == RRULE { LogicalBreaks(RRULE, e.rrule); }
      }
      WrittenReadsBack(ps);
    } else {
      RuleLineBreaks(e, fmt, now);
    }
  }

  /** A value read from one line holds no line break. */
  lemma ReadHasNoBreak(t: Text, i: nat)
    requires i < |SplitLines(Unfolded(t))|
    ensures var p := ReadLine(SplitLines(Unfolded(t))[i]); IsText(p.name) || !HasBreak(p.value)
  {
    hide HasBreak, SplitLines, Unfolded, Unescaped, FirstColon, IsText;
    BreakFreeHasNoBreak([]);
    SplitHasNoBreak(Unfolded(t));
    var l := SplitLines(Unfolded(t))[i];
    var k := FirstColon(l);
    if k < |l| {
      SliceHasNoBreak(l, k + 1, |l|);
      assert l[k + 1..|l|] == l[k + 1..];
    }
  }

  lemma RuleLineBreaks(e: Event, fmt: int -> Stamp, now: int)
    requires HasBreak(e.rrule)
    ensures ReadCalendar(Written(Intended(e, fmt, now))) != AllReadBack(Intended(e, fmt, now))
  {
    hide Written, SplitLines, Unfolded, ReadLine, HasBreak, Intended;
    var ps := Intended(e, fmt, now);
    var got := ReadCalendar(Written(ps));
    RuleIsThere(e, fmt, now);
    var i := |ps| - 3;
    if |got| == |ps| {
      ReadHasNoBreak(Written(ps), i);
      var ls := SplitLines(Unfolded(Written(ps)));
      assert got[i] == ReadLine(ls[i]);
      assert AllReadBack(ps)[i] == ReadBack(ps[i]) == Property(RRULE, e.rrule);
    }
  }

  lemma RuleIsThere(e: Event, fmt: int -> Stamp, now: int)
    requires HasBreak(e.rrule)
    ensures var ps := Intended(e, fmt, now);
            |ps| > 3 && ps[|ps| - 3] == Property(RRULE, e.rrule) && !IsText(RRULE)
  {
  }

  // ----------------------------------------------------- what a reader finds there

  /** The values of a property, in order. */
  function ValuesOf(ps: seq<Property>, name: Text): seq<Text> {
    if ps == [] then [] else (if ps[0].name == name then [ps[0].value] else []) + ValuesOf(ps[1..], name)
  }

  lemma {:induction false} ValuesConcat(a: seq<Property>, b: seq<Property>, name: Text)
    ensures ValuesOf(a + b, name) == ValuesOf(a, name) + ValuesOf(b, name)
    decreases |a|
  {
    if a == [] {
      assert a + b == b;
    } else {
      assert (a + b)[1..] == a[1..] + b;
      ValuesConcat(a[1..], b, name);
    }
  }

  function AllNormalized(vs: seq<Text>): seq<Text> {
    if vs == [] then [] else [Normalized(vs[0])] + AllNormalized(vs[1..])
  }

  lemma {:induction false} ValuesReadBack(ps: seq<Property>, name: Text)
    ensures ValuesOf(AllReadBack(ps), name) ==
            if IsText(name) then AllNormalized(ValuesOf(ps, name)) else ValuesOf(ps, name)
    decreases |ps|
  {
    hide IsText, Normalized, AllReadBack;
    ReadBackCons(ps);
    if ps != [] {
      var got, rest := AllReadBack(ps), ps[1..];
      ValuesReadBack(rest, name);
      assert got[0] == ReadBack(ps[0]) && got[1..] == AllReadBack(rest);
      if ps[0].name == name {
        NormalizedCons(ps[0].value, ValuesOf(rest, name));
      } else {
        assert ValuesOf(ps, name) == ValuesOf(rest, name) && ValuesOf(got, name) == ValuesOf(got[1..], name);
      }
    }
  }

  lemma ReadBackCons(ps: seq<Property>)
    ensures AllReadBack(ps) == if ps == [] then [] else [ReadBack(ps[0])] + AllReadBack(ps[1..])
  {
  }

  lemma NormalizedCons(v: Text, vs: seq<Text>)
    ensures AllNormalized([v] + vs) == [Normalized(v)] + AllNormalized(vs)
  {
    assert ([v] + vs)[1..] == vs;
  }

  function IfAny(t: Text): seq<Text> {
    if t == [] then [] else [t]
  }

  /** The values an intended property list has under a name. */
  function ValueMeant(e: Event, fmt: int -> Stamp, now: int, name: Text): seq<Text> {
    if name == UID then [e.uid]
    else if name == DTSTAMP then [fmt(now)]
    else if name == SUMMARY then [e.summary]
    else if name == DESCRIPTION then IfAny(e.description)
    else if name == LOCATION then IfAny(e.location)
    else if name == DTSTART then [fmt(e.start)]
    else if name == DTEND then [fmt(if e.end.Some? && e.end.value != 0 then e.end.value else e.start + 3_600_000)]
    else if name == RRULE then IfAny(e.rrule)
    else []
  }

  /** Names of the event's own properties. */
  const OWN: set<Text> := {UID, DTSTAMP, SUMMARY, DESCRIPTION, LOCATION, DTSTART, DTEND, RRULE}

  lemma OneValue(p: Property, name: Text)
    ensures ValuesOf([p], name) == if p.name == name then [p.value] else []
    ensures ValuesOf([], name) == []
  {
    assert [p][1..] == [];
  }

  lemma OptionalValue(name: Text, value: Text, n: Text)
    ensures ValuesOf(Optional(name, value), n) == if name == n then IfAny(value) else []
  {
    OneValue(Property(name, value), n);
  }

  lemma ClosingHasNone(name: Text)
    requires name in OWN
    ensures ValuesOf(CLOSING, name) == []
  {
    assert CLOSING == [CLOSING[0]] + [CLOSING[1]];
    ValuesConcat([CLOSING[0]], [CLOSING[1]], name);
    OneValue(CLOSING[0], name);
    OneValue(CLOSING[1], name);
  }

  lemma OpeningValues(e: Event, now: Stamp, name: Text)
    requires name in OWN
    ensures ValuesOf(Opening(e, now), name) ==
            if name == UID then [e.uid] else if name == DTSTAMP then [now] else if name == SUMMARY then [e.summary] else []
  {
    hide ValuesOf;
    var ps := Opening(e, now);
    var front, back := [ps[0], ps[1], ps[2], ps[3]], [ps[4], ps[5], ps[6]];
    assert ps == front + back;
    ValuesConcat(front, back, name);
    FrontHasNone(e, now, name);
    assert back == [ps[4]] + ([ps[5]] + [ps[6]]);
    ValuesConcat([ps[4]], [ps[5]] + [ps[6]], name);
    ValuesConcat([ps[5]], [ps[6]], name);
    OneValue(ps[4], name);
    OneValue(ps[5], name);
    OneValue(ps[6], name);
  }

  lemma FrontHasNone(e: Event, now: Stamp, name: Text)
    requires name in OWN
    ensures var ps := Opening(e, now); ValuesOf([ps[0], ps[1], ps[2], ps[3]], name) == []
  {
    hide ValuesOf;
    var ps := Opening(e, now);
    assert [ps[0], ps[1], ps[2], ps[3]] == [ps[0]] + ([ps[1]] + ([ps[2]] + [ps[3]]));
    ValuesConcat([ps[0]], [ps[1]] + ([ps[2]] + [ps[3]]), name);
    ValuesConcat([ps[1]], [ps[2]] + [ps[3]], name);
    ValuesConcat([ps[2]], [ps[3]], name);
    OneValue(ps[0], name);
    OneValue(ps[1], name);
    OneValue(ps[2], name);
    OneValue(ps[3], name);
  }

  lemma IntendedValues(e: Event, fmt: int -> Stamp, now: int, name: Text)
    requires name in OWN
    ensures ValuesOf(Intended(e, fmt, now), name) == ValueMeant(e, fmt, now, name)
  {
    hide ValuesOf, Opening, Optional;
    var a, b, c := Opening(e, fmt(now)), Optional(DESCRIPTION, e.description), Optional(LOCATION, e.location);
    var start, end := Property(DTSTART, fmt(e.start)), Property(DTEND, fmt(EndOf(e)));
    var r := Optional(RRULE, e.rrule);
    assert [start, end] == [start] + [end];
    ValuesConcat(a, b, name);
    ValuesConcat(a + b, c, name);
    ValuesConcat(a + b + c, [start, end], name);
    ValuesConcat([start], [end], name);
    ValuesConcat(a + b + c + [start, end], r, name);
    ValuesConcat(a + b + c + [start, end] + r, CLOSING, name);
    OpeningValues(e, fmt(now), name);
    OptionalValue(DESCRIPTION, e.description, name);
    OptionalValue(LOCATION, e.location, name);
    OneValue(start, name);
    OneValue(end, name);
    OptionalValue(RRULE, e.rrule, name);
    ClosingHasNone(name);
  }

  /** A reader finds one event inside one calendar of version 2.0. */
  lemma EventIsFramed(e: Event, fmt: int -> Stamp, now: int)
    requires !HasBreak(e.rrule)
    ensures var got := ReadCalendar(Written(Intended(e, fmt, now))); var n := |got|;
            && n > 5 && got[0] == Property(BEGIN, VCALENDAR)
            && got[1] == Property(VERSION, [50, 46, 48]) && got[2] == Property(PRODID, PRODUCT)
            && got[3] == Property(BEGIN, VEVENT) && got[n - 2] == Property(END, VEVENT) && got[n - 1] == Property(END, VCALENDAR)
            && forall i :: 4 <= i < n - 2 ==> got[i].name in OWN
  {
    hide Written, HasBreak, ReadCalendar, Normalized;
    CalendarReadsBack(e, fmt, now);
    IntendedIsFramed(e, fmt, now);
    FrameIsNoText();
    hide Intended, IsText;
    var ps := Intended(e, fmt, now);
    assert forall i :: 0 <= i < |ps| ==> AllReadBack(ps)[i] == ReadBack(ps[i]);
  }

  lemma FrameIsNoText()
    ensures !IsText(BEGIN) && !IsText(END) && !IsText(VERSION) && !IsText(PRODID)
  {
  }

  lemma IntendedIsFramed(e: Event, fmt: int -> Stamp, now: int)
    ensures var ps := Intended(e, fmt, now); var n := |ps|;
            && n > 5 && ps[0] == Property(BEGIN, VCALENDAR)
            && ps[1] == Property(VERSION, [50, 46, 48]) && ps[2] == Property(PRODID, PRODUCT)
            && ps[3] == Property(BEGIN, VEVENT) && ps[n - 2] == Property(END, VEVENT) && ps[n - 1] == Property(END, VCALENDAR)
            && forall i :: 4 <= i < n - 2 ==> ps[i].name in OWN
  {
    hide OWN, UID, DTSTAMP, SUMMARY, DESCRIPTION, LOCATION, DTSTART, DTEND, RRULE, EndOf;
    OwnNames();
    var a, b, c := Opening(e, fmt(now)), Optional(DESCRIPTION, e.description), Optional(LOCATION, e.location);
    var d, r := [Property(DTSTART, fmt(e.start)), Property(DTEND, fmt(EndOf(e)))], Optional(RRULE, e.rrule);
    OwnConcat(b, c);
    OwnConcat(b + c, d);
    OwnConcat(b + c + d, r);
    var own := b + c + d + r;
    assert Intended(e, fmt, now) == a + own + CLOSING;
    FrameAround(a, own);
  }

  predicate AllOwn(ps: seq<Property>) {
    forall i :: 0 <= i < |ps| ==> ps[i].name in OWN
  }

  lemma OwnConcat(a: seq<Property>, b: seq<Property>)
    requires AllOwn(a) && AllOwn(b)
    ensures AllOwn(a + b)
  {
    hide OWN;
  }

  lemma FrameAround(a: seq<Property>, own: seq<Property>)
    requires |a| == 7 && a[4].name in OWN && a[5].name in OWN && a[6].name in OWN && AllOwn(own)
    ensures var ps := a + own + CLOSING; var n := |ps|;
            && (forall i :: 0 <= i < 7 ==> ps[i] == a[i])
            && ps[n - 2] == Property(END, VEVENT) && ps[n - 1] == Property(END, VCALENDAR)
            && forall i :: 4 <= i < n - 2 ==> ps[i].name in OWN
  {
    hide OWN;
    var ps := a + own + CLOSING;
    forall i | 4 <= i < |ps| - 2 ensures ps[i].name in OWN {
      if i >= 7 { assert ps[i] == own[i - 7]; }
    }
  }

  lemma OwnNames()
    ensures UID in OWN && DTSTAMP in OWN && SUMMARY in OWN && DESCRIPTION in OWN && LOCATION in OWN && DTSTART in OWN
    ensures DTEND in OWN && RRULE in OWN
  {
  }

  /** A reader of the generated calendar finds under each name the event's own value and
      no other: DTEND is the end, or an hour after the start when there is none; a
      description, a place or a rule appears only if there is one. */
  lemma EventReadsBack(e: Event, fmt: int -> Stamp, now: int, name: Text)
    requires !HasBreak(e.rrule) && name in OWN
    ensures ValuesOf(ReadCalendar(Written(Intended(e, fmt, now))), name) ==
            if name in {UID, SUMMARY, DESCRIPTION, LOCATION} then AllNormalized(ValueMeant(e, fmt, now, name))
            else ValueMeant(e, fmt, now, name)
  {
    hide ValuesOf, Written, Intended, ValueMeant, HasBreak, AllNormalized, ReadCalendar;
    CalendarReadsBack(e, fmt, now);
    ValuesReadBack(Intended(e, fmt, now), name);
    IntendedValues(e, fmt, now, name);
  }
}
