/** The text of an hourly log (`gateway/src/storage.rs`): how the writer reads a file back into its cache of lines,
    and how it renders that cache into the next version of the file. */
module HourLog {

  /** Unicode's `White_Space`, which Rust's `trim` removes. */
  predicate IsSpace(c: char) {
    || '\t' <= c <= '\r' || c == ' ' || c == '\U{85}' || c == '\U{A0}' || c == '\U{1680}'
    || '\U{2000}' <= c <= '\U{200A}' || c == '\U{2028}' || c == '\U{2029}' || c == '\U{202F}'
    || c == '\U{205F}' || c == '\U{3000}'
  }

  predicate Blank(line: string) {
    forall i :: 0 <= i < |line| ==> IsSpace(line[i])
  }

  predicate EndsInReturn(line: string) {
    line != "" && line[|line| - 1] == '\r'
  }

  /** A line the cache may hold. */
  predicate Entry(line: string) {
    !Blank(line) && '\n' !in line
  }

  /** A line that survives being written and read; every serialized frame is one. */
  predicate Clean(line: string) {
    Entry(line) && !EndsInReturn(line)
  }

  predicate AllEntries(lines: seq<string>) {
    forall i :: 0 <= i < |lines| ==> Entry(lines[i])
  }

  predicate AllClean(lines: seq<string>) {
    forall i :: 0 <= i < |lines| ==> Clean(lines[i])
  }

  function LineEnd(s: string): (i: nat)
    ensures i <= |s| && '\n' !in s[..i] && (i < |s| ==> s[i] == '\n')
  {
    if s == "" || s[0] == '\n' then 0
    else
      var i := LineEnd(s[1..]) + 1;
      assert s[..i] == [s[0]] + s[1..][..i - 1];
      i
  }

  function Chomp(line: string): string {
    if EndsInReturn(line) then line[..|line| - 1] else line
  }

  /** Rust's `str::lines`: a `\r` is dropped only before the `\n` that ends its line. */
  function Lines(s: string): seq<string> {
    if s == "" then []
    else
      var i := LineEnd(s);
      if i == |s| then [s] else [Chomp(s[..i])] + Lines(s[i + 1..])
  }

  function WithoutBlanks(lines: seq<string>): seq<string> {
    if lines == [] then []
    else (if Blank(lines[0]) then [] else [lines[0]]) + WithoutBlanks(lines[1..])
  }

  /** The cache read from a file. */
  function Parse(s: string): seq<string> {
    WithoutBlanks(Lines(s))
  }

  function Join(lines: seq<string>): string {
    if lines == [] then ""
    else if |lines| == 1 then lines[0]
    else lines[0] + "\n" + Join(lines[1..])
  }

  /** The file written from a cache. */
  function Render(lines: seq<string>): string {
    if Join(lines) == "" then "" else Join(lines) + "\n"
  }

  function Chomped(lines: seq<string>): (r: seq<string>)
    ensures |r| == |lines|
  {
    seq(|lines|, i requires 0 <= i < |lines| => Chomp(lines[i]))
  }

  // ---------- Laws ----------

  /** The 25 characters of `White_Space`, by code point. */
  lemma SpacesAre(c: char)
    ensures IsSpace(c) <==>
              c as int in {0x9, 0xA, 0xB, 0xC, 0xD, 0x20, 0x85, 0xA0, 0x1680, 0x2000, 0x2001, 0x2002, 0x2003, 0x2004, 0x2005,
                           0x2006, 0x2007, 0x2008, 0x2009, 0x200A, 0x2028, 0x2029, 0x202F, 0x205F, 0x3000}
  {
  }

  lemma {:induction false} LinesAreOneLine(s: string)
    ensures forall i :: 0 <= i < |Lines(s)| ==> '\n' !in Lines(s)[i]
  {
    if s != "" && LineEnd(s) < |s| {
      LinesAreOneLine(s[LineEnd(s) + 1..]);
    }
  }

  lemma {:induction false} WithoutBlanksIsEntries(lines: seq<string>)
    requires forall i :: 0 <= i < |lines| ==> '\n' !in lines[i]
    ensures AllEntries(WithoutBlanks(lines))
  {
    if lines != [] {
      WithoutBlanksIsEntries(lines[1..]);
    }
  }

  /** Whatever a file holds, the cache read from it holds entries only. */
  lemma ParsedIsEntries(s: string)
    ensures AllEntries(Parse(s))
  {
    LinesAreOneLine(s);
    WithoutBlanksIsEntries(Lines(s));
  }

  lemma {:induction false} LineEndAt(line: string, rest: string)
    requires '\n' !in line
    ensures LineEnd(line + "\n" + rest) == |line|
  {
    if line != "" {
      LineEndAt(line[1..], rest);
      assert (line + "\n" + rest)[1..] == line[1..] + "\n" + rest;
    }
  }

  lemma {:induction false} LinesOfFirst(line: string, rest: string)
    requires '\n' !in line
    ensures Lines(line + "\n" + rest) == [Chomp(line)] + Lines(rest)
  {
    var s := line + "\n" + rest;
    LineEndAt(line, rest);
    assert s[..|line|] == line && s[|line| + 1..] == rest;
  }

  lemma {:induction false} WithoutBlanksOfFirst(line: string, rest: seq<string>)
    requires !Blank(line)
    ensures WithoutBlanks([line] + rest) == [line] + WithoutBlanks(rest)
  {
    assert ([line] + rest)[1..] == rest;
  }

  lemma RenderOfFirst(lines: seq<string>)
    requires AllEntries(lines) && lines != []
    ensures Render(lines) == lines[0] + "\n" + Render(lines[1..])
  {
  }

  lemma ChompOfEntry(line: string)
    requires Entry(line)
    ensures Entry(Chomp(line))
  {
    var i :| 0 <= i < |line| && !IsSpace(line[i]);
    assert i < |Chomp(line)| && Chomp(line)[i] == line[i];
  }

  lemma ReadsBackNothing()
    ensures Parse(Render([])) == []
  {
  }

  /** Writing a cache and reading it back drops one trailing `\r` of every line, and does nothing else. */
  lemma {:induction false} ReadsBackChomped(lines: seq<string>)
    requires AllEntries(lines)
    ensures Parse(Render(lines)) == Chomped(lines)
  {
    hide Lines, Render, Blank, WithoutBlanks, EndsInReturn;
    if lines == [] {
      ReadsBackNothing();
    } else {
      var line, rest := lines[0], lines[1..];
      assert Entry(line);
      RenderOfFirst(lines);
      LinesOfFirst(line, Render(rest));
      ChompOfEntry(line);
      WithoutBlanksOfFirst(Chomp(line), Lines(Render(rest)));
      ReadsBackChomped(rest);
      assert Chomped(lines) == [Chomp(line)] + Chomped(rest);
    }
  }

  /** The round trip holds exactly for caches with no line ending in `\r`. */
  lemma RoundTripExactly(lines: seq<string>)
    requires AllEntries(lines)
    ensures Parse(Render(lines)) == lines <==> AllClean(lines)
  {
    ReadsBackChomped(lines);
    if !AllClean(lines) {
      var i :| 0 <= i < |lines| && !Clean(lines[i]);
      assert |Chomped(lines)[i]| < |lines[i]|;
    } else {
      assert forall i :: 0 <= i < |lines| ==> Clean(lines[i]);
      assert Chomped(lines) == lines;
    }
  }
}
