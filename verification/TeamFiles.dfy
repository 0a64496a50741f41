/**
A team file as bytes, as lines and as entries: where an entry's lines are, and the edits that touch only them.
The YAML of an entry is read through a line grammar: an entry starts at a line "- ", comment lines directly above it
are its head comment (the first entry's belong to the file's header), every other line belongs to the entry above it.
*/
module TeamFiles {
  import opened Common
  import CIJobs

  // ----- bytes and lines

  /** The index after the first newline; the length without one. */
  function LineEnd(b: string): (n: nat)
    ensures n <= |b| && (b != "" ==> n > 0)
  {
    if b == "" then 0 else if b[0] == '\n' then 1 else 1 + LineEnd(b[1..])
  }

  function SplitLines(b: string): seq<string>
    decreases |b|
  {
    if b == "" then [] else [b[..LineEnd(b)]] + SplitLines(b[LineEnd(b)..])
  }

  function Join(lines: seq<string>): string {
    if lines == [] then "" else lines[0] + Join(lines[1..])
  }

  /** A line with its newline. */
  predicate Terminated(line: string) {
    line != "" && line[|line| - 1] == '\n' && LineEnd(line) == |line|
  }

  /** Lines as a file has them: every one ends in its only newline, the last may lack it. */
  predicate AreLines(lines: seq<string>) {
    lines == [] || (
      && lines[0] != "" && LineEnd(lines[0]) == |lines[0]|
      && (|lines| > 1 ==> Terminated(lines[0]))
      && AreLines(lines[1..]))
  }

  lemma {:induction false} LineEndOfTerminated(line: string, rest: string)
    requires line != "" && LineEnd(line) == |line|
    requires rest == "" || line[|line| - 1] == '\n'
    ensures LineEnd(line + rest) == |line|
  {
    if rest == "" {
      assert line + rest == line;
    } else if |line| > 1 {
      assert (line + rest)[1..] == line[1..] + rest;
      LineEndOfTerminated(line[1..], rest);
    }
  }

  lemma {:induction false} LineEndsOnce(b: string)
    requires b != ""
    ensures LineEnd(b[..LineEnd(b)]) == LineEnd(b)
    ensures LineEnd(b) < |b| ==> b[LineEnd(b) - 1] == '\n'
  {
    if b[0] != '\n' && |b| > 1 {
      LineEndsOnce(b[1..]);
      assert b[..LineEnd(b)][1..] == b[1..][..LineEnd(b[1..])];
    }
  }

  /** Splitting loses nothing, and gives lines. */
  lemma {:induction false} JoinSplit(b: string)
    ensures Join(SplitLines(b)) == b && AreLines(SplitLines(b))
    decreases |b|
  {
    if b != "" {
      var line, rest := FirstLine(b);
      JoinSplit(rest);
      PrependLine(line, SplitLines(rest));
    }
  }

  lemma FirstLine(b: string) returns (line: string, rest: string)
    requires b != ""
    ensures b == line + rest && |rest| < |b| && SplitLines(b) == [line] + SplitLines(rest)
    ensures line != "" && LineEnd(line) == |line|
    ensures SplitLines(rest) != [] ==> line[|line| - 1] == '\n'
  {
    LineEndsOnce(b);
    line, rest := b[..LineEnd(b)], b[LineEnd(b)..];
  }

  lemma PrependLine(line: string, lines: seq<string>)
    requires line != "" && LineEnd(line) == |line| && AreLines(lines)
    requires lines != [] ==> line[|line| - 1] == '\n'
    ensures Join([line] + lines) == line + Join(lines) && AreLines([line] + lines)
  {
    assert ([line] + lines)[1..] == lines;
  }

  /** Lines joined split into themselves. */
  lemma {:induction false} SplitJoin(lines: seq<string>)
    requires AreLines(lines)
    ensures SplitLines(Join(lines)) == lines
  {
    if lines != [] {
      SplitJoin(lines[1..]);
      var line, rest := lines[0], Join(lines[1..]);
      if |lines| == 1 {
        assert rest == "";
      }
      LineEndOfTerminated(line, rest);
      assert Join(lines) == line + rest;
      assert (line + rest)[..|line|] == line && (line + rest)[|line|..] == rest;
      assert lines == [line] + lines[1..];
    }
  }

  lemma {:induction false} JoinAppend(a: seq<string>, b: seq<string>)
    ensures Join(a + b) == Join(a) + Join(b)
  {
    if a == [] {
      assert a + b == b;
    } else {
      assert (a + b)[1..] == a[1..] + b;
      JoinAppend(a[1..], b);
    }
  }

  /** The byte offset of line n, found by the loop that adds the lines up. */
  method OffsetOf(lines: seq<string>, n: nat) returns (off: nat)
    ensures off == |Join(lines[..if n < |lines| then n else |lines|])|
  {
    off := 0;
    var i := 0;
    while i < n && i < |lines|
      invariant 0 <= i <= |lines| && i <= n
      invariant off == |Join(lines[..i])|
    {
      assert lines[..i + 1] == lines[..i] + [lines[i]];
      JoinAppend(lines[..i], [lines[i]]);
      off := off + |lines[i]|;
      i := i + 1;
    }
  }

  // ----- the line grammar

  predicate IsStart(line: string) {
    |line| >= 2 && line[0] == '-' && line[1] == ' '
  }

  predicate IsComment(line: string) {
    line != "" && line[0] == '#'
  }

  predicate IsBlank(line: string) {
    CIJobs.TrimSpace(line) == ""
  }

  const NAME_KEY := "- name: "

  function NameOf(start: string): string {
    if NAME_KEY <= start then CIJobs.TrimSpace(start[|NAME_KEY|..]) else ""
  }

  /** An entry: the comment lines above it, and its own lines from "- name" on. */
  datatype Entry = Entry(head: seq<string>, body: seq<string>)

  datatype File = File(header: seq<string>, entries: seq<Entry>)

  function FlattenEntries(entries: seq<Entry>): seq<string> {
    if entries == [] then [] else entries[0].head + entries[0].body + FlattenEntries(entries[1..])
  }

  function Flatten(f: File): seq<string> {
    f.header + FlattenEntries(f.entries)
  }

  function FirstStart(lines: seq<string>): (n: nat)
    ensures n <= |lines| && (n < |lines| ==> IsStart(lines[n]))
  {
    if lines == [] || IsStart(lines[0]) then 0 else 1 + FirstStart(lines[1..])
  }

  /** How many comment lines end the lines. */
  function CommentsAtEnd(lines: seq<string>): (c: nat)
    ensures c <= |lines|
  {
    if lines == [] || !IsComment(lines[|lines| - 1]) then 0 else 1 + CommentsAtEnd(lines[..|lines| - 1])
  }

  function ParseEntries(head: seq<string>, lines: seq<string>): (entries: seq<Entry>)
    requires lines != [] && IsStart(lines[0])
    ensures entries != []
    decreases |lines|
  {
    var n := 1 + FirstStart(lines[1..]);
    if n == |lines| then [Entry(head, lines)]
    else
      var c := CommentsAtEnd(lines[..n]);
      [Entry(head, lines[..n - c])] + ParseEntries(lines[n - c..n], lines[n..])
  }

  function Parse(lines: seq<string>): File {
    var s := FirstStart(lines);
    File(lines[..s], if s == |lines| then [] else ParseEntries([], lines[s..]))
  }

  predicate NoStart(lines: seq<string>) {
    forall line :: line in lines ==> !IsStart(line)
  }

  predicate AllComments(lines: seq<string>) {
    forall line :: line in lines ==> IsComment(line)
  }

  predicate IsBody(body: seq<string>) {
    body != [] && IsStart(body[0]) && NoStart(body[1..])
  }

  predicate EndsInComment(lines: seq<string>) {
    lines != [] && IsComment(lines[|lines| - 1])
  }

  /** Entries as parsing finds them: comments directly above the next entry are the next entry's. */
  predicate WellSplit(entries: seq<Entry>) {
    entries == [] || (
      && AllComments(entries[0].head) && IsBody(entries[0].body)
      && (|entries| > 1 ==> !EndsInComment(entries[0].body))
      && WellSplit(entries[1..]))
  }

  predicate WellFormed(f: File) {
    && NoStart(f.header) && WellSplit(f.entries)
    && (f.entries != [] ==> f.entries[0].head == [])
  }

  lemma {:induction false} FirstStartOf(a: seq<string>, b: seq<string>)
    requires NoStart(a) && (b == [] || IsStart(b[0]))
    ensures FirstStart(a + b) == |a|
  {
    if a == [] {
      assert a + b == b;
    } else {
      assert (a + b)[1..] == a[1..] + b && (a + b)[0] == a[0];
      assert a[0] in a;
      FirstStartOf(a[1..], b);
    }
  }

  lemma {:induction false} CommentsAtEndOf(a: seq<string>, comments: seq<string>)
    requires AllComments(comments) && a != [] && !EndsInComment(a)
    ensures CommentsAtEnd(a + comments) == |comments|
  {
    if comments == [] {
      assert a + comments == a;
    } else {
      var front, last := comments[..|comments| - 1], comments[|comments| - 1];
      assert (a + comments)[..|a + comments| - 1] == a + front && (a + comments)[|a + comments| - 1] == last;
      assert last in comments;
      CommentsAtEndOf(a, front);
    }
  }

  /** Parsing one entry off the front: its body ends where the next entry's head comment begins. */
  lemma ParseOneEntry(head: seq<string>, body: seq<string>, nextHead: seq<string>, next: seq<string>)
    requires IsBody(body) && !EndsInComment(body) && AllComments(nextHead) && next != [] && IsStart(next[0])
    ensures (body + nextHead + next)[0] == body[0]
    ensures ParseEntries(head, body + nextHead + next) == [Entry(head, body)] + ParseEntries(nextHead, next)
  {
    var lines := body + nextHead + next;
    var n := |body| + |nextHead|;
    assert lines[1..] == (body[1..] + nextHead) + next;
    FirstStartOf(body[1..] + nextHead, next);
    assert lines[..n] == body + nextHead;
    CommentsAtEndOf(body, nextHead);
    assert lines[..|body|] == body && lines[|body|..n] == nextHead && lines[n..] == next;
  }

  lemma ParseLastEntry(head: seq<string>, body: seq<string>)
    requires IsBody(body)
    ensures ParseEntries(head, body) == [Entry(head, body)]
  {
    assert body[1..] + [] == body[1..];
    FirstStartOf(body[1..], []);
  }

  lemma {:induction false} ParseFlattenEntries(e: Entry, rest: seq<Entry>)
    requires AllComments(e.head) && IsBody(e.body) && WellSplit(rest)
    requires rest != [] ==> !EndsInComment(e.body)
    ensures (e.body + FlattenEntries(rest))[0] == e.body[0]
    ensures ParseEntries(e.head, e.body + FlattenEntries(rest)) == [e] + rest
    decreases |rest|
  {
    if rest == [] {
      assert e.body + FlattenEntries(rest) == e.body;
      ParseLastEntry(e.head, e.body);
    } else {
      var f, others := rest[0], rest[1..];
      ParseFlattenEntries(f, others);
      FlattenAfter(e.body, rest);
      ParseOneEntry(e.head, e.body, f.head, f.body + FlattenEntries(others));
    }
  }

  lemma FlattenAfter(lines: seq<string>, entries: seq<Entry>)
    requires entries != []
    ensures lines + FlattenEntries(entries) ==
        lines + entries[0].head + (entries[0].body + FlattenEntries(entries[1..]))
    ensures entries == [entries[0]] + entries[1..]
  {
    FlattenHead(entries);
    var rest := entries[0].body + FlattenEntries(entries[1..]);
    assert lines + (entries[0].head + rest) == lines + entries[0].head + rest;
  }

  lemma FlattenFirst(entries: seq<Entry>)
    requires entries != [] && entries[0].head == []
    ensures FlattenEntries(entries) == entries[0].body + FlattenEntries(entries[1..])
    ensures entries == [entries[0]] + entries[1..]
  {
    assert [] + entries[0].body == entries[0].body;
  }

  /** Lines after a header: the entries parse as they would alone. */
  lemma ParseAfterHeader(header: seq<string>, lines: seq<string>)
    requires NoStart(header) && lines != [] && IsStart(lines[0])
    ensures Parse(header + lines) == File(header, ParseEntries([], lines))
  {
    FirstStartOf(header, lines);
    assert (header + lines)[..|header|] == header && (header + lines)[|header|..] == lines;
  }

  lemma ParseHeaderOnly(header: seq<string>)
    requires NoStart(header)
    ensures Parse(header) == File(header, [])
  {
    assert header + [] == header;
    FirstStartOf(header, []);
  }

  /** Reading what was written gives the file back. */
  lemma ParseFlatten(f: File)
    requires WellFormed(f)
    ensures Parse(Flatten(f)) == f
  {
    if f.entries == [] {
      assert Flatten(f) == f.header;
      ParseHeaderOnly(f.header);
    } else {
      var e, rest := f.entries[0], f.entries[1..];
      ParseFlattenEntries(e, rest);
      FlattenFirst(f.entries);
      ParseAfterHeader(f.header, e.body + FlattenEntries(rest));
    }
  }

  lemma {:induction false} NoStartBefore(lines: seq<string>)
    ensures NoStart(lines[..FirstStart(lines)])
  {
    if lines != [] && !IsStart(lines[0]) {
      NoStartBefore(lines[1..]);
      assert lines[..FirstStart(lines)] == [lines[0]] + lines[1..][..FirstStart(lines[1..])];
    }
  }

  lemma {:induction false} CommentsCounted(lines: seq<string>)
    ensures var c := CommentsAtEnd(lines);
            AllComments(lines[|lines| - c..]) && !EndsInComment(lines[..|lines| - c])
  {
    if lines != [] && IsComment(lines[|lines| - 1]) {
      var front, c := lines[..|lines| - 1], CommentsAtEnd(lines);
      CommentsCounted(front);
      assert lines[|lines| - c..] == front[|front| - (c - 1)..] + [lines[|lines| - 1]];
      assert lines[..|lines| - c] == front[..|front| - (c - 1)];
    } else {
      assert lines[..|lines|] == lines;
    }
  }

  lemma FewerCommentsThanLines(lines: seq<string>)
    requires lines != [] && !IsComment(lines[0])
    ensures CommentsAtEnd(lines) < |lines|
  {
    if |lines| > 1 {
      FewerCommentsThanLines(lines[..|lines| - 1]);
    }
  }

  /** One entry off the front of any lines that start with one. */
  lemma SplitOneEntry(lines: seq<string>) returns (body: seq<string>, nextHead: seq<string>, next: seq<string>)
    requires lines != [] && IsStart(lines[0])
    ensures lines == body + nextHead + next && IsBody(body) && AllComments(nextHead)
    ensures if next == [] then nextHead == [] else IsStart(next[0]) && !EndsInComment(body)
    ensures |next| < |lines|
  {
    var n := 1 + FirstStart(lines[1..]);
    NoStartBefore(lines[1..]);
    if n == |lines| {
      assert lines[1..][..FirstStart(lines[1..])] == lines[1..];
      body, nextHead, next := lines, [], [];
    } else {
      var c := CommentsAtEnd(lines[..n]);
      CommentsCounted(lines[..n]);
      body, nextHead, next := lines[..n - c], lines[n - c..n], lines[n..];
      assert lines[..n][n - c..] == nextHead && lines[..n][..n - c] == body;
      FewerCommentsThanLines(lines[..n]);
      forall line | line in body[1..]
        ensures !IsStart(line)
      {
        assert line in lines[1..][..n - 1];
      }
    }
  }

  lemma {:induction false} FlattenParseEntries(head: seq<string>, lines: seq<string>)
    requires lines != [] && IsStart(lines[0]) && AllComments(head)
    ensures FlattenEntries(ParseEntries(head, lines)) == head + lines
    ensures WellSplit(ParseEntries(head, lines)) && ParseEntries(head, lines)[0].head == head
    decreases |lines|
  {
    var body, nextHead, next := SplitOneEntry(lines);
    if next == [] {
      assert lines == body;
      ParseLastEntry(head, body);
      OneEntrySplit(Entry(head, body));
    } else {
      ParseOneEntry(head, body, nextHead, next);
      FlattenParseEntries(nextHead, next);
      var rest := ParseEntries(nextHead, next);
      PrependEntry(Entry(head, body), rest);
      Regroup(head, body, nextHead, next);
      assert ParseEntries(head, lines) == [Entry(head, body)] + rest;
    }
  }

  lemma Regroup(a: seq<string>, b: seq<string>, c: seq<string>, d: seq<string>)
    ensures a + (b + c + d) == a + b + (c + d)
  {
  }

  lemma OneEntrySplit(e: Entry)
    requires AllComments(e.head) && IsBody(e.body)
    ensures FlattenEntries([e]) == e.head + e.body && WellSplit([e])
  {
    assert [e][1..] == [];
    assert FlattenEntries([]) == [];
  }

  lemma PrependEntry(e: Entry, rest: seq<Entry>)
    requires rest != [] && AllComments(e.head) && IsBody(e.body) && !EndsInComment(e.body) && WellSplit(rest)
    ensures FlattenEntries([e] + rest) == e.head + e.body + FlattenEntries(rest) && WellSplit([e] + rest)
  {
    assert ([e] + rest)[1..] == rest;
  }

  /** Every sequence of lines reads as a well-formed file, and nothing of it is lost. */
  lemma FlattenParse(lines: seq<string>)
    ensures Flatten(Parse(lines)) == lines && WellFormed(Parse(lines))
  {
    var s := FirstStart(lines);
    NoStartBefore(lines);
    assert lines == lines[..s] + lines[s..];
    if s < |lines| {
      FlattenParseEntries([], lines[s..]);
      assert Parse(lines) == File(lines[..s], ParseEntries([], lines[s..]));
      assert [] + lines[s..] == lines[s..];
    } else {
      assert Parse(lines) == File(lines[..s], []);
      assert FlattenEntries([]) == [];
    }
  }

  /** The file the bytes stand for. */
  function Read(bytes: string): File {
    Parse(SplitLines(bytes))
  }

  function Write(f: File): string {
    Join(Flatten(f))
  }

  lemma WriteRead(bytes: string)
    ensures Write(Read(bytes)) == bytes && WellFormed(Read(bytes)) && AreLines(Flatten(Read(bytes)))
  {
    JoinSplit(bytes);
    FlattenParse(SplitLines(bytes));
  }

  lemma ReadWrite(f: File)
    requires WellFormed(f) && AreLines(Flatten(f))
    ensures Read(Write(f)) == f
  {
    SplitJoin(Flatten(f));
    ParseFlatten(f);
  }

  // ----- where an entry is

  function EntryName(e: Entry): string {
    if e.body == [] then "" else NameOf(e.body[0])
  }

  /** The first entry of the name; the number of entries without one. */
  function IndexOf(entries: seq<Entry>, name: string): (k: nat)
    ensures k <= |entries| && (k < |entries| ==> EntryName(entries[k]) == name)
  {
    if entries == [] || EntryName(entries[0]) == name then 0 else 1 + IndexOf(entries[1..], name)
  }

  /** The lines before entry k's own lines, with its head comment, and the lines after them. */
  function Before(f: File, k: nat): seq<string>
    requires k < |f.entries|
  {
    f.header + FlattenEntries(f.entries[..k]) + f.entries[k].head
  }

  function After(f: File, k: nat): seq<string>
    requires k < |f.entries|
  {
    FlattenEntries(f.entries[k + 1..])
  }

  datatype EditError = NotAList | EntryNotFound

  /** The byte offsets of the entry's own lines. */
  function EntryRange(bytes: string, name: string): (r: Result<(nat, nat), EditError>)
  {
    var f := Read(bytes);
    var k := IndexOf(f.entries, name);
    if f.entries == [] then Failure(NotAList)
    else if k == |f.entries| then Failure(EntryNotFound)
    else
      var start := |Join(Before(f, k))|;
      Success((start, start + |Join(f.entries[k].body)|))
  }

  lemma {:induction false} FlattenAppend(a: seq<Entry>, b: seq<Entry>)
    ensures FlattenEntries(a + b) == FlattenEntries(a) + FlattenEntries(b)
  {
    if a == [] {
      assert a + b == b;
    } else {
      assert (a + b)[1..] == a[1..] + b;
      FlattenAppend(a[1..], b);
      FlattenHead(a);
      FlattenHead(a + b);
    }
  }

  lemma FlattenHead(entries: seq<Entry>)
    requires entries != []
    ensures FlattenEntries(entries) == entries[0].head + (entries[0].body + FlattenEntries(entries[1..]))
  {
  }

  /** The file around entry k. */
  lemma FlattenAround(f: File, k: nat)
    requires k < |f.entries|
    ensures Flatten(f) == Before(f, k) + (f.entries[k].body + After(f, k))
  {
    assert f.entries == f.entries[..k] + f.entries[k..];
    FlattenAppend(f.entries[..k], f.entries[k..]);
    FlattenHead(f.entries[k..]);
    assert f.entries[k..][1..] == f.entries[k + 1..];
  }

  /** The range holds exactly the entry's own bytes: what is before is the header, the other entries and the entry's
      head comment, what is after are the entries behind it with their comments. */
  lemma RangeIsTheEntry(bytes: string, name: string)
    requires EntryRange(bytes, name).Success?
    ensures var f, r := Read(bytes), EntryRange(bytes, name).value;
            var k := IndexOf(f.entries, name);
            && r.0 <= r.1 <= |bytes|
            && bytes[..r.0] == Join(Before(f, k)) && bytes[r.0..r.1] == Join(f.entries[k].body) &&
                bytes[r.1..] == Join(After(f, k))
  {
    var f := Read(bytes);
    var k := IndexOf(f.entries, name);
    WriteRead(bytes);
    FlattenAround(f, k);
    JoinAppend(Before(f, k), f.entries[k].body + After(f, k));
    JoinAppend(f.entries[k].body, After(f, k));
  }

  /** entryRange as the code finds it: the item of the name, its line, and the line where the next item's head comment
      starts, as byte offsets. */
  method FindEntryRange(bytes: string, name: string) returns (r: Result<(nat, nat), EditError>)
    ensures r == EntryRange(bytes, name)
  {
    var f := Read(bytes);
    var lines := SplitLines(bytes);
    if |f.entries| == 0 {
      return Failure(NotAList);
    }
    var idx := FindItem(f.entries, name);
    if idx == |f.entries| {
      return Failure(EntryNotFound);
    }
    var startLine := ItemLine(f, idx);
    var endLine := |lines|;
    if idx + 1 < |f.entries| {
      endLine := ItemLine(f, idx + 1) - |f.entries[idx + 1].head|;
    }
    ItemLines(bytes, idx);
    assert lines[..startLine] == Before(f, idx) && lines[..endLine] == Before(f, idx) + f.entries[idx].body;
    var start := OffsetOf(lines, startLine);
    var end := OffsetOf(lines, endLine);
    RangeFound(bytes, name, start, end);
    return Success((start, end));
  }

  lemma RangeFound(bytes: string, name: string, start: nat, end: nat)
    requires IndexOf(Read(bytes).entries, name) < |Read(bytes).entries|
    requires var f, k := Read(bytes), IndexOf(Read(bytes).entries, name);
             start == |Join(Before(f, k))| && end == |Join(Before(f, k) + f.entries[k].body)|
    ensures EntryRange(bytes, name) == Success((start, end))
  {
    var f, k := Read(bytes), IndexOf(Read(bytes).entries, name);
    JoinAppend(Before(f, k), f.entries[k].body);
  }

  method FindItem(entries: seq<Entry>, name: string) returns (idx: nat)
    ensures idx == IndexOf(entries, name)
  {
    idx := 0;
    while idx < |entries| && EntryName(entries[idx]) != name
      invariant 0 <= idx <= |entries|
      invariant IndexOf(entries, name) == idx + IndexOf(entries[idx..], name)
    {
      assert entries[idx..][1..] == entries[idx + 1..];
      idx := idx + 1;
    }
  }

  /** The lines up to an item, and up to the next item's head comment. */
  lemma ItemLines(bytes: string, k: nat)
    requires k < |Read(bytes).entries|
    ensures var f, lines := Read(bytes), SplitLines(bytes);
            && ItemLine(f, k) <= |lines| && lines[..ItemLine(f, k)] == Before(f, k)
            && 0 <= ItemEnd(f, k, |lines|) <= |lines| &&
                lines[..ItemEnd(f, k, |lines|)] == Before(f, k) + f.entries[k].body
  {
    FlattenParse(SplitLines(bytes));
    ItemLinesOf(Read(bytes), SplitLines(bytes), k);
  }

  /** The line behind the item: the next one's head comment, or the end of the file. */
  function ItemEnd(f: File, k: nat, last: nat): int
    requires k < |f.entries|
  {
    if k + 1 < |f.entries| then ItemLine(f, k + 1) - |f.entries[k + 1].head| else last
  }

  lemma ItemLinesOf(f: File, lines: seq<string>, k: nat)
    requires k < |f.entries| && Flatten(f) == lines
    ensures ItemLine(f, k) <= |lines| && lines[..ItemLine(f, k)] == Before(f, k)
    ensures 0 <= ItemEnd(f, k, |lines|) <= |lines| &&
        lines[..ItemEnd(f, k, |lines|)] == Before(f, k) + f.entries[k].body
  {
    FlattenAround(f, k);
    ItemLineIsBefore(f, k);
    Prefixes(lines, Before(f, k), f.entries[k].body, After(f, k));
    if k + 1 < |f.entries| {
      NextItemLine(f, k);
    } else {
      assert After(f, k) == [];
    }
  }

  lemma Prefixes(lines: seq<string>, a: seq<string>, b: seq<string>, c: seq<string>)
    requires lines == a + (b + c)
    ensures |lines| == |a| + |b| + |c| && lines[..|a|] == a && lines[..|a| + |b|] == a + b
  {
  }

  /** The line an item of the list stands on, counted from 0. */
  function ItemLine(f: File, k: nat): nat
    requires k < |f.entries|
  {
    |f.header| + |FlattenEntries(f.entries[..k])| + |f.entries[k].head|
  }

  lemma ItemLineIsBefore(f: File, k: nat)
    requires k < |f.entries|
    ensures ItemLine(f, k) == |Before(f, k)|
  {
  }

  lemma NextItemLine(f: File, k: nat)
    requires k + 1 < |f.entries|
    ensures ItemLine(f, k + 1) - |f.entries[k + 1].head| == |Before(f, k)| + |f.entries[k].body|
  {
    assert f.entries[..k + 1] == f.entries[..k] + [f.entries[k]];
    FlattenAppend(f.entries[..k], [f.entries[k]]);
    assert [f.entries[k]][1..] == [];
    FlattenHead([f.entries[k]]);
  }

  // ----- declarations

  /** An entry as it is compared and rendered: its name, its head comment, its lines without what trails them. */
  datatype Declaration = Declaration(name: string, head: seq<string>, body: seq<string>)

  /** The lines without the blank and comment lines at their end. */
  function Trimmed(body: seq<string>): (r: seq<string>)
    ensures body != [] ==> r != [] && r[0] == body[0]
  {
    if |body| > 1 && (IsBlank(body[|body| - 1]) || IsComment(body[|body| - 1])) then Trimmed(body[..|body| - 1])
        else body
  }

  function Terminate(line: string): string {
    if line != "" && line[|line| - 1] == '\n' then line else line + "\n"
  }

  /** The rendering of an entry's lines: nothing trailing, the last line ended. */
  function Canonical(body: seq<string>): seq<string>
    requires body != []
  {
    var t := Trimmed(body);
    t[..|t| - 1] + [Terminate(t[|t| - 1])]
  }

  function DeclarationOf(e: Entry): Declaration
    requires e.body != []
  {
    Declaration(EntryName(e), e.head, Canonical(e.body))
  }

  predicate AllTerminated(lines: seq<string>) {
    forall line :: line in lines ==> Terminated(line)
  }

  /** A declaration renders as one entry that can stand anywhere in a file. */
  predicate Renderable(d: Declaration) {
    && IsBody(d.body) && AllTerminated(d.body) && !EndsInComment(d.body)
    && AllComments(d.head) && AllTerminated(d.head)
    && NameOf(d.body[0]) == d.name && Canonical(d.body) == d.body
  }

  // ----- the edits

  /** The entry rewritten as the declaration renders, its own head comment kept. */
  function ReplaceEntry(bytes: string, name: string, d: Declaration): Result<string, EditError> {
    match EntryRange(bytes, name)
    case Failure(e) => Failure(e)
    case Success(r) =>
      RangeIsTheEntry(bytes, name);
      Success(bytes[..r.0] + Join(d.body) + bytes[r.1..])
  }

  function RemoveEntry(bytes: string, name: string): Result<string, EditError> {
    match EntryRange(bytes, name)
    case Failure(e) => Failure(e)
    case Success(r) =>
      RangeIsTheEntry(bytes, name);
      Success(bytes[..r.0] + bytes[r.1..])
  }

  /** The file with entry k's lines replaced. */
  function Replaced(f: File, k: nat, body: seq<string>): File
    requires k < |f.entries|
  {
    f.(entries := f.entries[..k] + [f.entries[k].(body := body)] + f.entries[k + 1..])
  }

  /** The file without entry k's lines: its head comment joins what stands below it, or above it at the end. */
  function Removed(f: File, k: nat): File
    requires k < |f.entries|
  {
    var a, h, b := f.entries[..k], f.entries[k].head, f.entries[k + 1..];
    if b != [] then
      if a == [] then File(f.header + h + b[0].head, [b[0].(head := [])] + b[1..])
      else File(f.header, a + ([b[0].(head := h + b[0].head)] + b[1..]))
    else if a == [] then File(f.header + h, [])
    else File(f.header, a[..k - 1] + [a[k - 1].(body := a[k - 1].body + h)])
  }

  lemma {:induction false} WellSplitAppend(a: seq<Entry>, b: seq<Entry>)
    ensures WellSplit(a + b) <==>
              WellSplit(a) && WellSplit(b) && (a != [] && b != [] ==> !EndsInComment(a[|a| - 1].body))
  {
    if a == [] {
      assert a + b == b;
    } else if |a| == 1 {
      assert (a + b)[1..] == b && a[1..] == [];
    } else {
      assert (a + b)[1..] == a[1..] + b;
      WellSplitAppend(a[1..], b);
    }
  }

  lemma {:induction false} AreLinesAppend(a: seq<string>, b: seq<string>)
    ensures AreLines(a + b) <==> AreLines(a) && AreLines(b) && (b != [] ==> AllTerminated(a))
  {
    if a == [] {
      assert a + b == b;
    } else {
      assert (a + b)[1..] == a[1..] + b;
      AreLinesAppend(a[1..], b);
      assert forall line :: line in a <==> line == a[0] || line in a[1..];
    }
  }

  lemma {:induction false} TerminatedAreLines(lines: seq<string>)
    requires AllTerminated(lines)
    ensures AreLines(lines)
  {
    if lines != [] {
      assert lines[0] in lines;
      TerminatedAreLines(lines[1..]);
    }
  }

  /** The parts of a file around an entry. */
  lemma AroundIsWell(f: File, k: nat)
    requires WellFormed(f) && AreLines(Flatten(f)) && k < |f.entries|
    ensures WellSplit(f.entries[..k]) && WellSplit(f.entries[k + 1..])
    ensures AllComments(f.entries[k].head) && IsBody(f.entries[k].body)
    ensures k + 1 < |f.entries| ==> !EndsInComment(f.entries[k].body)
    ensures k > 0 ==> !EndsInComment(f.entries[k - 1].body)
    ensures AllTerminated(Before(f, k)) && AreLines(After(f, k)) && AreLines(f.entries[k].body)
    ensures After(f, k) != [] ==> AllTerminated(f.entries[k].body)
  {
    var a, e, b := f.entries[..k], f.entries[k], f.entries[k + 1..];
    assert f.entries == a + ([e] + b);
    WellSplitAppend(a, [e] + b);
    WellSplitAppend([e], b);
    FlattenAround(f, k);
    AreLinesAppend(Before(f, k), e.body + After(f, k));
    AreLinesAppend(e.body, After(f, k));
  }

  lemma ReplacedIsWell(f: File, k: nat, body: seq<string>)
    requires WellFormed(f) && AreLines(Flatten(f)) && k < |f.entries|
    requires IsBody(body) && AllTerminated(body) && !EndsInComment(body)
    ensures WellFormed(Replaced(f, k, body)) && AreLines(Flatten(Replaced(f, k, body)))
    ensures Flatten(Replaced(f, k, body)) == Before(f, k) + (body + After(f, k))
  {
    AroundIsWell(f, k);
    var a, e, b := f.entries[..k], f.entries[k].(body := body), f.entries[k + 1..];
    var r := Replaced(f, k, body);
    assert r.entries == a + ([e] + b);
    assert WellSplit([e]) by {
      OneEntrySplit(e);
    }
    WellSplitAppend([e], b);
    WellSplitAppend(a, [e] + b);
    assert r.entries[..k] == a && r.entries[k] == e && r.entries[k + 1..] == b;
    FlattenAround(r, k);
    TerminatedAreLines(Before(f, k));
    TerminatedAreLines(body);
    AreLinesAppend(body, After(f, k));
    AreLinesAppend(Before(f, k), body + After(f, k));
  }

  /** Replacing an entry in the bytes replaces its lines and no other: the result reads as the same header, the same
      other entries with their comments, in the same order. */
  lemma ReplaceReads(bytes: string, name: string, d: Declaration)
    requires EntryRange(bytes, name).Success? && Renderable(d)
    ensures Read(ReplaceEntry(bytes, name, d).value) ==
        Replaced(Read(bytes), IndexOf(Read(bytes).entries, name), d.body)
  {
    var f := Read(bytes);
    var k := IndexOf(f.entries, name);
    WriteRead(bytes);
    RangeIsTheEntry(bytes, name);
    ReplacedIsWell(f, k, d.body);
    JoinAppend(d.body, After(f, k));
    JoinAppend(Before(f, k), d.body + After(f, k));
    assert ReplaceEntry(bytes, name, d).value == Write(Replaced(f, k, d.body));
    ReadWrite(Replaced(f, k, d.body));
  }

  lemma RemovedIsWell(f: File, k: nat)
    requires WellFormed(f) && AreLines(Flatten(f)) && k < |f.entries|
    ensures WellFormed(Removed(f, k)) && AreLines(Flatten(Removed(f, k)))
    ensures Flatten(Removed(f, k)) == Before(f, k) + After(f, k)
  {
    AroundIsWell(f, k);
    RemovedFlattens(f, k);
    TerminatedAreLines(Before(f, k));
    AreLinesAppend(Before(f, k), After(f, k));
    RemovedIsSplit(f, k);
  }

  lemma RemovedFlattens(f: File, k: nat)
    requires k < |f.entries| && f.entries[0].head == []
    ensures Flatten(Removed(f, k)) == Before(f, k) + After(f, k)
  {
    if k + 1 < |f.entries| {
      HeadMovesDown(f, k);
    } else {
      HeadMovesUp(f, k);
    }
  }

  lemma HeadMovesDown(f: File, k: nat)
    requires k + 1 < |f.entries| && f.entries[0].head == []
    ensures Flatten(Removed(f, k)) == Before(f, k) + After(f, k)
  {
    var a, h, b := f.entries[..k], f.entries[k].head, f.entries[k + 1..];
    FlattenHead(b);
    if a == [] {
      var bare := [b[0].(head := [])] + b[1..];
      assert bare[1..] == b[1..];
      FlattenHead(bare);
      assert FlattenEntries(a) == [];
    } else {
      var joined := [b[0].(head := h + b[0].head)] + b[1..];
      assert joined[1..] == b[1..];
      FlattenHead(joined);
      FlattenAppend(a, joined);
    }
  }

  lemma HeadMovesUp(f: File, k: nat)
    requires k + 1 == |f.entries| && f.entries[0].head == []
    ensures Flatten(Removed(f, k)) == Before(f, k) + After(f, k)
  {
    var a, h := f.entries[..k], f.entries[k].head;
    assert After(f, k) == [];
    if a == [] {
      assert FlattenEntries(a) == [];
    } else {
      var front, last := a[..k - 1], a[k - 1];
      assert a == front + [last];
      FlattenAppend(front, [last]);
      FlattenAppend(front, [last.(body := last.body + h)]);
      OneFlattens(last);
      OneFlattens(last.(body := last.body + h));
    }
  }

  lemma OneFlattens(e: Entry)
    ensures FlattenEntries([e]) == e.head + e.body
  {
    assert [e][1..] == [];
    assert FlattenEntries([]) == [];
  }

  lemma CommentIsNoStart(lines: seq<string>)
    requires AllComments(lines)
    ensures NoStart(lines)
  {
  }

  lemma RemovedIsSplit(f: File, k: nat)
    requires WellFormed(f) && k < |f.entries|
    requires WellSplit(f.entries[..k]) && WellSplit(f.entries[k + 1..]) && AllComments(f.entries[k].head)
    requires k > 0 ==> !EndsInComment(f.entries[k - 1].body)
    ensures WellFormed(Removed(f, k))
  {
    var a, h, b := f.entries[..k], f.entries[k].head, f.entries[k + 1..];
    CommentIsNoStart(h);
    if b != [] {
      CommentIsNoStart(b[0].head);
      var joined := [b[0].(head := h + b[0].head)] + b[1..];
      assert joined[1..] == b[1..];
      assert WellSplit(joined);
      WellSplitAppend(a, joined);
      var bare := [b[0].(head := [])] + b[1..];
      assert bare[1..] == b[1..];
      if a != [] {
        assert (a + joined)[0] == f.entries[0];
      }
    } else if a != [] {
      var front, last := a[..k - 1], a[k - 1];
      assert a == front + [last];
      WellSplitAppend(front, [last]);
      var longer := last.(body := last.body + h);
      assert longer.body[1..] == last.body[1..] + h;
      assert WellSplit([longer]) by {
        OneEntrySplit(longer);
      }
      WellSplitAppend(front, [longer]);
      assert (front + [longer])[0].head == f.entries[0].head;
    }
  }

  /** Removing an entry from the bytes leaves every other line: the result reads as the same other entries in the same
      order, the removed entry's comment now standing with its neighbour. */
  lemma RemoveReads(bytes: string, name: string)
    requires EntryRange(bytes, name).Success?
    ensures Read(RemoveEntry(bytes, name).value) == Removed(Read(bytes), IndexOf(Read(bytes).entries, name))
  {
    var f := Read(bytes);
    var k := IndexOf(f.entries, name);
    WriteRead(bytes);
    RangeIsTheEntry(bytes, name);
    RemovedIsWell(f, k);
    JoinAppend(Before(f, k), After(f, k));
    assert RemoveEntry(bytes, name).value == Write(Removed(f, k));
    ReadWrite(Removed(f, k));
  }
}
