/** What the line rewriters of internal/caldav share: a time stamp, and the
    carriage returns at the end of a line split at line feeds. */
module CalendarLines {
  import opened Strings

  /** Time formatted as 20060102T150405Z. */
  type Stamp = s: string | forall c :: c in s ==> '0' <= c <= '9' || c in {'T', 'Z', '-'} witness ""

  function TrimReturns(line: string): string {
    if line != "" && line[|line| - 1] == '\r' then TrimReturns(line[..|line| - 1]) else line
  }

  function Terminator(line: string): string {
    if HasSuffix(line, "\r") then "\r" else ""
  }

  lemma {:induction false} TrimmedLine(body: string, terminator: string)
    requires terminator in {"", "\r"} && body != "" && body[|body| - 1] != '\r'
    ensures TrimReturns(body + terminator) == body && Terminator(body + terminator) == terminator
  {
  }

  lemma {:induction false} TrimmedPrefix(line: string, word: string)
    requires '\r' !in word
    ensures HasPrefix(TrimReturns(line), word) <==> HasPrefix(line, word)
    decreases |line|
  {
    if line != "" && line[|line| - 1] == '\r' {
      var init := line[..|line| - 1];
      TrimmedPrefix(init, word);
      NotTheWhole(line, word);
      if HasPrefix(line, word) { assert init[..|word|] == line[..|word|]; }
      if HasPrefix(init, word) { assert init[..|word|] == line[..|word|]; }
    }
  }

  lemma NotTheWhole(line: string, word: string)
    requires line != "" && line[|line| - 1] !in word
    ensures HasPrefix(line, word) ==> |word| < |line|
  {
    assert line[..|line|] == line;
  }

  lemma TerminatorKinds(line: string)
    ensures Terminator(line) in {"", "\r"}
  {
  }
}
