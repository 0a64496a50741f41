/**
Re-rendering a pull request on a base that moved: the entries it changes against its merge base, written into the file
as it reads now. On declarations it is a three-way merge.
*/
module Rerender {
  import opened Common
  import opened TeamFiles
  import CIJobs

  // ----- what a file declares, by name

  /** An entry's name with its lines as rendered, or as they stand when raw. */
  function Row(e: Entry, raw: bool): (string, seq<string>) {
    (EntryName(e), if raw || e.body == [] then e.body else Canonical(e.body))
  }

  function Table(entries: seq<Entry>, raw: bool): (t: seq<(string, seq<string>)>)
    ensures |t| == |entries|
  {
    if entries == [] then [] else [Row(entries[0], raw)] + Table(entries[1..], raw)
  }

  function Lookup(t: seq<(string, seq<string>)>, name: string): Option<seq<string>> {
    if t == [] then None else if t[0].0 == name then Some(t[0].1) else Lookup(t[1..], name)
  }

  /** What the file declares under the name: the lines as rendered. */
  function Declared(f: File, name: string): Option<seq<string>> {
    Lookup(Table(f.entries, false), name)
  }

  /** The lines that stand in the file under the name. */
  function Standing(f: File, name: string): Option<seq<string>> {
    Lookup(Table(f.entries, true), name)
  }

  predicate Has(f: File, name: string) {
    IndexOf(f.entries, name) < |f.entries|
  }

  /** Entry names are distinct. */
  predicate Distinct(entries: seq<Entry>) {
    entries == [] || (IndexOf(entries[1..], EntryName(entries[0])) == |entries| - 1 && Distinct(entries[1..]))
  }

  lemma {:induction false} TableAppend(a: seq<Entry>, b: seq<Entry>, raw: bool)
    ensures Table(a + b, raw) == Table(a, raw) + Table(b, raw)
  {
    if a == [] {
      assert a + b == b;
    } else {
      assert (a + b)[1..] == a[1..] + b;
      TableAppend(a[1..], b, raw);
    }
  }

  lemma {:induction false} LookupAppend(a: seq<(string, seq<string>)>, b: seq<(string, seq<string>)>, name: string)
    ensures Lookup(a + b, name) == if Lookup(a, name).Some? then Lookup(a, name) else Lookup(b, name)
  {
    if a == [] {
      assert a + b == b;
    } else {
      assert (a + b)[1..] == a[1..] + b;
      LookupAppend(a[1..], b, name);
    }
  }

  lemma {:induction false} IndexAppend(a: seq<Entry>, b: seq<Entry>, name: string)
    ensures IndexOf(a + b, name) == if IndexOf(a, name) < |a| then IndexOf(a, name) else |a| + IndexOf(b, name)
  {
    if a == [] {
      assert a + b == b;
    } else {
      assert (a + b)[1..] == a[1..] + b;
      IndexAppend(a[1..], b, name);
    }
  }

  /** An entry is declared exactly when it stands in the file. */
  lemma {:induction false} LookupFinds(entries: seq<Entry>, name: string, raw: bool)
    ensures var k := IndexOf(entries, name);
            Lookup(Table(entries, raw), name) == if k < |entries| then Some(Row(entries[k], raw).1) else None
  {
    if entries != [] {
      LookupFinds(entries[1..], name, raw);
      assert Table(entries, raw)[1..] == Table(entries[1..], raw);
    }
  }

  lemma {:induction false} DistinctAppend(a: seq<Entry>, b: seq<Entry>)
    ensures Distinct(a + b) <==> Distinct(a) && Distinct(b) && Apart(a, b)
  {
    if a == [] {
      assert a + b == b;
    } else {
      assert (a + b)[1..] == a[1..] + b;
      DistinctAppend(a[1..], b);
      IndexAppend(a[1..], b, EntryName(a[0]));
    }
  }

  /** No entry of a has a name of b's. */
  predicate Apart(a: seq<Entry>, b: seq<Entry>) {
    a == [] || (IndexOf(b, EntryName(a[0])) == |b| && Apart(a[1..], b))
  }

  ghost predicate NoneShared(a: seq<Entry>, b: seq<Entry>) {
    forall name :: IndexOf(a, name) < |a| ==> IndexOf(b, name) == |b|
  }

  lemma {:induction false} ApartMeans(a: seq<Entry>, b: seq<Entry>)
    ensures Apart(a, b) <==> NoneShared(a, b)
  {
    if a != [] {
      ApartMeans(a[1..], b);
      if Apart(a, b) {
        forall name | IndexOf(a, name) < |a|
          ensures IndexOf(b, name) == |b|
        {
          if EntryName(a[0]) != name {
            assert IndexOf(a[1..], name) < |a[1..]|;
          }
        }
      }
      if NoneShared(a, b) {
        assert IndexOf(a, EntryName(a[0])) == 0;
        forall name | IndexOf(a[1..], name) < |a[1..]|
          ensures IndexOf(b, name) == |b|
        {
          assert IndexOf(a, name) < |a|;
        }
        assert NoneShared(a[1..], b);
      }
    }
  }

  /** Two lists of entries with the same names at the same places are equally distinct. */
  predicate SameNames(a: seq<Entry>, b: seq<Entry>) {
    |a| == |b| && forall i :: 0 <= i < |a| ==> EntryName(a[i]) == EntryName(b[i])
  }

  lemma {:induction false} SameNamesSameIndex(a: seq<Entry>, b: seq<Entry>, name: string)
    requires SameNames(a, b)
    ensures IndexOf(a, name) == IndexOf(b, name) && (Distinct(a) <==> Distinct(b))
  {
    if a != [] {
      assert SameNames(a[1..], b[1..]);
      SameNamesSameIndex(a[1..], b[1..], name);
      SameNamesSameIndex(a[1..], b[1..], EntryName(a[0]));
    }
  }

  // ----- what an edit does to the declarations

  lemma TableAround(entries: seq<Entry>, k: nat, raw: bool)
    requires k < |entries|
    ensures entries == entries[..k] + ([entries[k]] + entries[k + 1..])
    ensures Table(entries, raw) == Table(entries[..k], raw) + ([Row(entries[k], raw)] + Table(entries[k + 1..], raw))
  {
    assert entries == entries[..k] + ([entries[k]] + entries[k + 1..]);
    TableAppend(entries[..k], [entries[k]] + entries[k + 1..], raw);
    TableAppend([entries[k]], entries[k + 1..], raw);
    assert Table([entries[k]], raw) == [Row(entries[k], raw)];
  }

  /** In a file of distinct names, the entries around one have other names. */
  lemma DistinctAround(entries: seq<Entry>, k: nat)
    requires k < |entries| && Distinct(entries)
    ensures var name, a, b := EntryName(entries[k]), entries[..k], entries[k + 1..];
            && IndexOf(entries, name) == k && IndexOf(a, name) == |a| && IndexOf(b, name) == |b|
            && Distinct(a) && Distinct(b) && Apart(a, b) && Distinct(a + b)
  {
    var e, a, b := entries[k], entries[..k], entries[k + 1..];
    assert entries == a + ([e] + b);
    DistinctAppend(a, [e] + b);
    ApartMeans(a, [e] + b);
    assert ([e] + b)[1..] == b;
    forall name | IndexOf(a, name) < |a|
      ensures name != EntryName(e) && IndexOf(b, name) == |b|
    {
      assert IndexOf([e] + b, name) == |[e] + b|;
      IndexAppend([e], b, name);
    }
    assert NoneShared(a, b);
    ApartMeans(a, b);
    DistinctAppend(a, b);
    IndexAppend(a, [e] + b, EntryName(e));
  }

  /** Reading a name around entry k. */
  lemma LookupAround(entries: seq<Entry>, k: nat, raw: bool, name: string)
    requires k < |entries| && Distinct(entries)
    ensures Lookup(Table(entries, raw), name)
            == if name == EntryName(entries[k]) then Some(Row(entries[k], raw).1)
               else Lookup(Table(entries[..k], raw) + Table(entries[k + 1..], raw), name)
  {
    var e, a, b := entries[k], entries[..k], entries[k + 1..];
    TableAround(entries, k, raw);
    DistinctAround(entries, k);
    LookupAppend(Table(a, raw), [Row(e, raw)] + Table(b, raw), name);
    LookupAppend(Table(a, raw), Table(b, raw), name);
    LookupFinds(a, name, raw);
    assert ([Row(e, raw)] + Table(b, raw))[1..] == Table(b, raw);
  }

  lemma ReplacedAround(f: File, k: nat, body: seq<string>)
    requires k < |f.entries|
    ensures var r := Replaced(f, k, body);
            && |r.entries| == |f.entries| && r.entries[k] == f.entries[k].(body := body)
            && r.entries[..k] == f.entries[..k] && r.entries[k + 1..] == f.entries[k + 1..]
  {
  }

  lemma ReplacedDeclares(f: File, k: nat, body: seq<string>, raw: bool, name: string)
    requires k < |f.entries| && Distinct(f.entries) && body != [] && NameOf(body[0]) == EntryName(f.entries[k])
    ensures Distinct(Replaced(f, k, body).entries)
    ensures Lookup(Table(Replaced(f, k, body).entries, raw), name)
            == if name == EntryName(f.entries[k]) then Some(if raw then body else Canonical(body))
               else Lookup(Table(f.entries, raw), name)
  {
    var r := Replaced(f, k, body);
    ReplacedNames(f, k, body);
    SameNamesSameIndex(f.entries, r.entries, name);
    ReplacedAround(f, k, body);
    LookupAround(f.entries, k, raw, name);
    LookupAround(r.entries, k, raw, name);
  }

  lemma {:induction false} TrimmedWithComments(body: seq<string>, comments: seq<string>)
    requires body != [] && AllComments(comments)
    ensures Trimmed(body + comments) == Trimmed(body)
  {
    if comments == [] {
      assert body + comments == body;
    } else {
      var front, last := comments[..|comments| - 1], comments[|comments| - 1];
      assert last in comments;
      assert (body + comments)[..|body + comments| - 1] == body + front;
      TrimmedWithComments(body, front);
    }
  }

  lemma RemovedRows(f: File, k: nat)
    requires WellFormed(f) && k < |f.entries| && AllComments(f.entries[k].head)
    requires k > 0 ==> f.entries[k - 1].body != []
    ensures Table(Removed(f, k).entries, false) == Table(f.entries[..k], false) + Table(f.entries[k + 1..], false)
    ensures SameNames(Removed(f, k).entries, f.entries[..k] + f.entries[k + 1..])
  {
    if k + 1 < |f.entries| {
      RowsAbove(f, k);
    } else {
      RowsBelow(f, k);
    }
  }

  lemma RowsAbove(f: File, k: nat)
    requires k + 1 < |f.entries|
    ensures Table(Removed(f, k).entries, false) == Table(f.entries[..k], false) + Table(f.entries[k + 1..], false)
    ensures SameNames(Removed(f, k).entries, f.entries[..k] + f.entries[k + 1..])
  {
    var a, h, b := f.entries[..k], f.entries[k].head, f.entries[k + 1..];
    if a == [] {
      HeadDoesNotCount(b, []);
      assert Table(a, false) + Table(b, false) == Table(b, false);
      assert a + b == b;
    } else {
      HeadDoesNotCount(b, h + b[0].head);
      var joined := [b[0].(head := h + b[0].head)] + b[1..];
      TableAppend(a, joined, false);
      assert Removed(f, k).entries == a + joined;
      assert SameNames(joined, b);
    }
  }

  lemma HeadDoesNotCount(b: seq<Entry>, head: seq<string>)
    requires b != []
    ensures Table([b[0].(head := head)] + b[1..], false) == Table(b, false)
  {
    assert ([b[0].(head := head)] + b[1..])[1..] == b[1..];
  }

  lemma RowsBelow(f: File, k: nat)
    requires k + 1 == |f.entries| && AllComments(f.entries[k].head)
    requires k > 0 ==> f.entries[k - 1].body != []
    ensures Table(Removed(f, k).entries, false) == Table(f.entries[..k], false) + Table(f.entries[k + 1..], false)
    ensures SameNames(Removed(f, k).entries, f.entries[..k] + f.entries[k + 1..])
  {
    var a, h := f.entries[..k], f.entries[k].head;
    assert f.entries[k + 1..] == [] && a + [] == a;
    assert Table(a, false) + Table([], false) == Table(a, false);
    if a != [] {
      LastGrows(a[..k - 1], a[k - 1], h);
      assert a == a[..k - 1] + [a[k - 1]];
    }
  }

  /** Comments behind the last entry do not count. */
  lemma LastGrows(front: seq<Entry>, last: Entry, h: seq<string>)
    requires last.body != [] && AllComments(h)
    ensures Table(front + [last.(body := last.body + h)], false) == Table(front + [last], false)
    ensures SameNames(front + [last.(body := last.body + h)], front + [last])
  {
    var longer := last.(body := last.body + h);
    TrimmedWithComments(last.body, h);
    assert Row(longer, false) == Row(last, false);
    TableAppend(front, [longer], false);
    TableAppend(front, [last], false);
    OneRow(longer);
    OneRow(last);
  }

  lemma OneRow(e: Entry)
    ensures Table([e], false) == [Row(e, false)]
  {
    assert Table([e], false)[1..] == [];
  }

  lemma RemovedDeclares(f: File, k: nat, name: string)
    requires WellFormed(f) && AreLines(Flatten(f)) && k < |f.entries| && Distinct(f.entries)
    ensures Distinct(Removed(f, k).entries)
    ensures Declared(Removed(f, k), name) == if name == EntryName(f.entries[k]) then None else Declared(f, name)
  {
    var a, b := f.entries[..k], f.entries[k + 1..];
    AroundIsWell(f, k);
    if k > 0 {
      AroundIsWell(f, k - 1);
    }
    RemovedRows(f, k);
    DistinctAround(f.entries, k);
    SameNamesSameIndex(Removed(f, k).entries, a + b, name);
    LookupAround(f.entries, k, false, name);
    LookupAppend(Table(a, false), Table(b, false), name);
    LookupFinds(a, name, false);
    LookupFinds(b, name, false);
  }

  // ----- a new entry, as devctl inserts it

  /** Byte order of two names. */
  predicate Less(a: string, b: string) {
    b != "" && (a == "" || a[0] < b[0] || (a[0] == b[0] && Less(a[1..], b[1..])))
  }

  /** The alphabetical place: before the first entry with a later name. */
  function Place(entries: seq<Entry>, name: string): (p: nat)
    ensures p <= |entries|
  {
    if entries == [] || Less(name, EntryName(entries[0])) then 0 else 1 + Place(entries[1..], name)
  }

  function TerminateLast(lines: seq<string>): seq<string> {
    if lines == [] then [] else lines[..|lines| - 1] + [Terminate(lines[|lines| - 1])]
  }

  /** The last two entries after an insertion at the end. */
  function EndEntries(last: Entry, d: Declaration): (Entry, Entry) {
    var body := TerminateLast(last.body);
    var c := CommentsAtEnd(body);
    (last.(body := body[..|body| - c]), Entry(body[|body| - c..] + d.head, d.body))
  }

  /** The file with the declaration at its alphabetical place; comments that end the file move to the entry that now
      follows them. */
  function Inserted(f: File, d: Declaration): File {
    var p, n := Place(f.entries, d.name), |f.entries|;
    if n == 0 then File(TerminateLast(f.header) + d.head, [Entry([], d.body)])
    else if p == 0 then File(f.header + d.head, [Entry([], d.body)] + f.entries)
    else if p < n then f.(entries := f.entries[..p] + ([Entry(d.head, d.body)] + f.entries[p..]))
    else
      var (last, e) := EndEntries(f.entries[n - 1], d);
      f.(entries := f.entries[..n - 1] + [last, e])
  }

  function InsertEntry(bytes: string, d: Declaration): string {
    Write(Inserted(Read(bytes), d))
  }

  lemma {:induction false} LineEndWithNewline(line: string)
    requires line != "" && LineEnd(line) == |line| && line[|line| - 1] != '\n'
    ensures LineEnd(line + "\n") == |line| + 1
  {
    if |line| == 1 {
      assert (line + "\n")[1..] == "\n";
    } else {
      assert (line + "\n")[1..] == line[1..] + "\n";
      LineEndWithNewline(line[1..]);
    }
  }

  lemma {:induction false} TrimLeftWithNewline(s: string)
    ensures CIJobs.TrimLeft(s + "\n") == if CIJobs.TrimLeft(s) == "" then "" else CIJobs.TrimLeft(s) + "\n"
  {
    if s == "" {
      assert s + "\n" == "\n" && "\n"[1..] == "";
    } else {
      assert (s + "\n")[1..] == s[1..] + "\n";
      TrimLeftWithNewline(s[1..]);
    }
  }

  /** A newline at the end of a text does not change the text without its surrounding space. */
  lemma TrimWithNewline(s: string)
    ensures CIJobs.TrimSpace(s + "\n") == CIJobs.TrimSpace(s)
  {
    TrimLeftWithNewline(s);
    var t := CIJobs.TrimLeft(s);
    assert (t + "\n")[..|t|] == t;
  }

  lemma NameWithNewline(line: string)
    ensures NameOf(line + "\n") == NameOf(line)
  {
    if NAME_KEY <= line {
      assert (line + "\n")[|NAME_KEY|..] == line[|NAME_KEY|..] + "\n";
      TrimWithNewline(line[|NAME_KEY|..]);
    } else if |line| + 1 == |NAME_KEY| {
      assert (line + "\n")[|line|] != NAME_KEY[|line|];
    } else if |line| + 1 > |NAME_KEY| {
      assert (line + "\n")[..|NAME_KEY|] == line[..|NAME_KEY|];
    }
  }

  /** Ending a line keeps what the line is. */
  lemma TerminateKeeps(line: string)
    requires line != "" && LineEnd(line) == |line|
    ensures Terminated(Terminate(line)) && Terminate(Terminate(line)) == Terminate(line)
    ensures (IsStart(Terminate(line)) <==> IsStart(line)) && NameOf(Terminate(line)) == NameOf(line)
    ensures (IsComment(Terminate(line)) <==> IsComment(line)) && (IsBlank(Terminate(line)) <==> IsBlank(line))
  {
    if line[|line| - 1] != '\n' {
      var ended := line + "\n";
      assert ended[0] == line[0] && ended[|line|] == '\n' && |ended| == |line| + 1;
      LineEndWithNewline(line);
      TrimWithNewline(line);
      NameWithNewline(line);
      NoStartByNewline(line);
    }
  }

  lemma NoStartByNewline(line: string)
    requires line != "" && LineEnd(line) == |line|
    ensures IsStart(line + "\n") <==> IsStart(line)
  {
    if |line| == 1 {
      assert (line + "\n")[1] == '\n';
    } else {
      assert (line + "\n")[0] == line[0] && (line + "\n")[1] == line[1];
    }
  }

  /** Lines that may stand as an entry's own. */
  lemma {:induction false} TrimmedIsPrefix(body: seq<string>)
    requires body != []
    ensures |Trimmed(body)| <= |body| && Trimmed(body) == body[..|Trimmed(body)|]
    ensures |Trimmed(body)| > 1 ==> !IsBlank(Trimmed(body)[|Trimmed(body)| - 1]) && !EndsInComment(Trimmed(body))
  {
    if |body| > 1 && (IsBlank(body[|body| - 1]) || IsComment(body[|body| - 1])) {
      TrimmedIsPrefix(body[..|body| - 1]);
    } else {
      assert body[..|body|] == body;
    }
  }

  lemma {:induction false} LinesAreLines(lines: seq<string>, line: string)
    requires AreLines(lines) && line in lines
    ensures line != "" && LineEnd(line) == |line|
    ensures line in lines[..|lines| - 1] ==> Terminated(line)
  {
    if line != lines[0] {
      LinesAreLines(lines[1..], line);
      if line in lines[..|lines| - 1] {
        assert lines[..|lines| - 1] == [lines[0]] + lines[1..][..|lines[1..]| - 1];
      }
    } else if |lines| == 1 {
      assert lines[..0] == [];
    }
  }

  /** What an entry of a file declares can stand anywhere: its rendering is an entry's lines, ended, with nothing
      behind them. */
  lemma CanonicalIsRenderable(body: seq<string>)
    requires IsBody(body) && AreLines(body)
    ensures var r := Canonical(body);
            IsBody(r) && AllTerminated(r) && !EndsInComment(r) && NameOf(r[0]) == NameOf(body[0])
  {
    var t := Trimmed(body);
    TrimmedIsPrefix(body);
    var last := t[|t| - 1];
    assert body == t + body[|t|..];
    AreLinesAppend(t, body[|t|..]);
    LinesAreLines(t, last);
    TerminateKeeps(last);
    var r := Canonical(body);
    forall line | line in r
      ensures Terminated(line)
    {
      if line in t[..|t| - 1] {
        LinesAreLines(t, line);
      }
    }
    if |t| == 1 {
      assert r == [Terminate(t[0])];
    } else {
      assert r[0] == t[0];
      forall line | line in r[1..]
        ensures !IsStart(line)
      {
        if line != Terminate(last) {
          assert line in t[1..];
          assert line in body[1..];
        } else {
          assert last in body[1..];
        }
      }
    }
  }

  /** Rendering a rendering changes nothing. */
  lemma CanonicalTwice(body: seq<string>)
    requires IsBody(body) && AreLines(body)
    ensures Canonical(Canonical(body)) == Canonical(body)
  {
    var t := Trimmed(body);
    TrimmedIsPrefix(body);
    var last := t[|t| - 1];
    assert body == t + body[|t|..];
    AreLinesAppend(t, body[|t|..]);
    LinesAreLines(t, last);
    TerminateKeeps(last);
    var r := Canonical(body);
    assert r[|r| - 1] == Terminate(last);
    assert Trimmed(r) == r;
  }

  lemma DeclarationIsRenderable(f: File, k: nat)
    requires WellFormed(f) && AreLines(Flatten(f)) && k < |f.entries|
    ensures f.entries[k].body != [] && Renderable(DeclarationOf(f.entries[k]))
    ensures DeclarationOf(f.entries[k]).name == EntryName(f.entries[k])
  {
    AroundIsWell(f, k);
    CanonicalIsRenderable(f.entries[k].body);
    CanonicalTwice(f.entries[k].body);
  }

  // ----- the insertion keeps the file

  /** A body ended and freed of the comments behind it declares the same. */
  lemma TerminateLastKeeps(body: seq<string>)
    requires IsBody(body) && AreLines(body)
    ensures var t := TerminateLast(body);
            IsBody(t) && AllTerminated(t) && Canonical(t) == Canonical(body) && NameOf(t[0]) == NameOf(body[0])
  {
    EndedLines(body);
    EndedIsBody(body);
    EndedCanonical(body);
  }

  lemma EndedLines(body: seq<string>)
    requires body != [] && AreLines(body)
    ensures AllTerminated(TerminateLast(body))
  {
    var front, last := body[..|body| - 1], body[|body| - 1];
    LinesAreLines(body, last);
    TerminateKeeps(last);
    forall line | line in TerminateLast(body)
      ensures Terminated(line)
    {
      if line in front {
        LinesAreLines(body, line);
      }
    }
  }

  lemma EndedIsBody(body: seq<string>)
    requires IsBody(body) && AreLines(body)
    ensures IsBody(TerminateLast(body)) && NameOf(TerminateLast(body)[0]) == NameOf(body[0])
  {
    var last, t := body[|body| - 1], TerminateLast(body);
    LinesAreLines(body, last);
    TerminateKeeps(last);
    if |body| > 1 {
      assert t[0] == body[0] && t[1..] == body[1..|body| - 1] + [Terminate(last)];
      assert body[1..] == body[1..|body| - 1] + [last];
      forall line | line in t[1..]
        ensures !IsStart(line)
      {
        assert line == Terminate(last) || line in body[1..];
        assert last in body[1..];
      }
    }
  }

  lemma EndedCanonical(body: seq<string>)
    requires body != [] && AreLines(body)
    ensures Canonical(TerminateLast(body)) == Canonical(body)
  {
    var front, last := body[..|body| - 1], body[|body| - 1];
    assert body == front + [last] && TerminateLast(body) == front + [Terminate(last)];
    assert SameLine(last, Terminate(last)) by {
      LinesAreLines(body, last);
      TerminateKeeps(last);
    }
    SameEnd(front, last, Terminate(last));
  }

  /** Two lines that end an entry's rendering alike. */
  predicate SameLine(a: string, b: string) {
    Terminate(a) == Terminate(b) && (IsBlank(a) <==> IsBlank(b)) && (IsComment(a) <==> IsComment(b))
  }

  lemma SameEnd(front: seq<string>, last: string, last': string)
    requires SameLine(last, last')
    ensures Canonical(front + [last]) == Canonical(front + [last'])
  {
    CanonicalStep(front, last);
    CanonicalStep(front, last');
  }

  lemma CanonicalStep(front: seq<string>, last: string)
    ensures Canonical(front + [last])
         == if front != [] && (IsBlank(last) || IsComment(last)) then Canonical(front) else front + [Terminate(last)]
  {
    var body := front + [last];
    assert body[..|body| - 1] == front && body[|body| - 1] == last;
  }

  lemma CommentsSplitOff(body: seq<string>)
    requires IsBody(body) && AllTerminated(body)
    ensures CommentsAtEnd(body) < |body|
    ensures var c := CommentsAtEnd(body); IsBody(body[..|body| - c]) && !EndsInComment(body[..|body| - c])
    ensures var c := CommentsAtEnd(body); Canonical(body[..|body| - c]) == Canonical(body)
    ensures var c := CommentsAtEnd(body); AllComments(body[|body| - c..])
    ensures var c := CommentsAtEnd(body); AllTerminated(body[..|body| - c]) && AllTerminated(body[|body| - c..])
  {
    CommentsCounted(body);
    FewerCommentsThanLines(body);
    var c := CommentsAtEnd(body);
    assert body == body[..|body| - c] + body[|body| - c..];
    PartsKeep(body[..|body| - c], body[|body| - c..]);
  }

  lemma PartsKeep(kept: seq<string>, comments: seq<string>)
    requires IsBody(kept + comments) && AllTerminated(kept + comments) && kept != [] && AllComments(comments)
    ensures IsBody(kept) && AllTerminated(kept) && AllTerminated(comments) &&
        Canonical(kept) == Canonical(kept + comments)
  {
    assert forall line :: line in kept ==> line in kept + comments;
    assert forall line :: line in comments ==> line in kept + comments;
    assert (kept + comments)[1..] == kept[1..] + comments;
    assert forall line :: line in kept[1..] ==> line in kept[1..] + comments;
    TrimmedWithComments(kept, comments);
  }

  lemma InsertedFirst(f: File, d: Declaration)
    requires WellFormed(f) && AreLines(Flatten(f)) && Renderable(d) && f.entries == []
    ensures WellFormed(Inserted(f, d)) && AreLines(Flatten(Inserted(f, d)))
  {
    var e := Entry([], d.body);
    assert Flatten(f) == f.header;
    HeaderEnds(f.header);
    OneEntrySplit(e);
    CommentIsNoStart(d.head);
    assert Flatten(Inserted(f, d)) == TerminateLast(f.header) + d.head + d.body;
    TerminatedAreLines(TerminateLast(f.header) + d.head + d.body);
  }

  lemma HeaderEnds(header: seq<string>)
    requires NoStart(header) && AreLines(header)
    ensures NoStart(TerminateLast(header)) && AllTerminated(TerminateLast(header))
  {
    if header != [] {
      var front, last := header[..|header| - 1], header[|header| - 1];
      LinesAreLines(header, last);
      TerminateKeeps(last);
      forall line | line in TerminateLast(header)
        ensures Terminated(line) && !IsStart(line)
      {
        if line in front {
          LinesAreLines(header, line);
        }
      }
    }
  }

  /** The lines above the inserted entry's place and those from it on. */
  lemma LinesAtPlace(f: File, p: nat)
    requires WellFormed(f) && AreLines(Flatten(f)) && p < |f.entries|
    ensures var above, below := f.header + FlattenEntries(f.entries[..p]), FlattenEntries(f.entries[p..]);
            Flatten(f) == above + below && AllTerminated(above) && AreLines(below)
    ensures WellSplit(f.entries[..p]) && WellSplit(f.entries[p..]) && (p > 0 ==> !EndsInComment(f.entries[p - 1].body))
  {
    var a, b := f.entries[..p], f.entries[p..];
    assert f.entries == a + b;
    AroundIsWell(f, p);
    WellSplitAppend(a, b);
    FlattenAppend(a, b);
    var above, below := f.header + FlattenEntries(a), FlattenEntries(b);
    assert f.header + (FlattenEntries(a) + below) == above + below;
    AreLinesAppend(above, below);
    assert below != [] by {
      FlattenHead(b);
    }
  }

  /** Entries put together from well-split parts whose lines are ended. */
  lemma SpliceIsWell(header: seq<string>, a: seq<Entry>, middle: seq<Entry>, b: seq<Entry>)
    requires NoStart(header) && WellSplit(a) && WellSplit(middle) && WellSplit(b) && middle != []
    requires a != [] ==> !EndsInComment(a[|a| - 1].body)
    requires b != [] ==> !EndsInComment(middle[|middle| - 1].body)
    requires (if a != [] then a[0].head else middle[0].head) == []
    requires AllTerminated(header + FlattenEntries(a)) && AllTerminated(FlattenEntries(middle)) &&
        AreLines(FlattenEntries(b))
    ensures WellFormed(File(header, a + (middle + b))) && AreLines(Flatten(File(header, a + (middle + b))))
  {
    SpliceFlattens(header, a, middle, b);
    SpliceLines(header + FlattenEntries(a), FlattenEntries(middle), FlattenEntries(b));
    SpliceSplits(a, middle, b);
    SpliceFirst(a, middle, b);
  }

  lemma SpliceFirst(a: seq<Entry>, middle: seq<Entry>, b: seq<Entry>)
    requires middle != []
    ensures a + (middle + b) != [] && (a + (middle + b))[0] == if a != [] then a[0] else middle[0]
  {
  }

  lemma SpliceSplits(a: seq<Entry>, middle: seq<Entry>, b: seq<Entry>)
    requires WellSplit(a) && WellSplit(middle) && WellSplit(b) && middle != []
    requires a != [] ==> !EndsInComment(a[|a| - 1].body)
    requires b != [] ==> !EndsInComment(middle[|middle| - 1].body)
    ensures WellSplit(a + (middle + b))
  {
    WellSplitAppend(middle, b);
    WellSplitAppend(a, middle + b);
  }

  lemma SpliceFlattens(header: seq<string>, a: seq<Entry>, middle: seq<Entry>, b: seq<Entry>)
    ensures Flatten(File(header, a + (middle + b))) ==
        (header + FlattenEntries(a)) + FlattenEntries(middle) + FlattenEntries(b)
  {
    FlattenAppend(middle, b);
    FlattenAppend(a, middle + b);
    Regroup3(header, FlattenEntries(a), FlattenEntries(middle), FlattenEntries(b));
  }

  lemma Regroup3(a: seq<string>, b: seq<string>, c: seq<string>, d: seq<string>)
    ensures a + (b + (c + d)) == (a + b) + c + d
  {
  }

  lemma SpliceLines(above: seq<string>, middle: seq<string>, below: seq<string>)
    requires AllTerminated(above) && AllTerminated(middle) && AreLines(below)
    ensures AreLines(above + middle + below)
  {
    TerminatedAreLines(above + middle);
    AreLinesAppend(above + middle, below);
  }

  lemma InsertedBefore(f: File, d: Declaration)
    requires WellFormed(f) && AreLines(Flatten(f)) && Renderable(d) && Place(f.entries, d.name) < |f.entries|
    ensures WellFormed(Inserted(f, d)) && AreLines(Flatten(Inserted(f, d)))
  {
    var p := Place(f.entries, d.name);
    var a, b := f.entries[..p], f.entries[p..];
    LinesAtPlace(f, p);
    CommentIsNoStart(d.head);
    if p == 0 {
      var e := Entry([], d.body);
      OneEntrySplit(e);
      assert FlattenEntries([e]) == d.body && FlattenEntries([]) == [];
      SpliceIsWell(f.header + d.head, [], [e], b);
      assert [] + ([e] + b) == [e] + f.entries;
    } else {
      var e := Entry(d.head, d.body);
      OneEntrySplit(e);
      assert a[0] == f.entries[0];
      SpliceIsWell(f.header, a, [e], b);
    }
  }

  lemma EndEntriesAreWell(last: Entry, d: Declaration)
    requires Renderable(d) && AllComments(last.head) && AllTerminated(last.head) && IsBody(last.body) &&
        AreLines(last.body)
    ensures var (e, e') := EndEntries(last, d);
            WellSplit([e, e']) && AllTerminated(FlattenEntries([e, e'])) && e.body != [] && e'.body != []
  {
    TerminateLastKeeps(last.body);
    CommentsSplitOff(TerminateLast(last.body));
    var (e, e') := EndEntries(last, d);
    OneEntrySplit(e);
    OneEntrySplit(e');
    WellSplitAppend([e], [e']);
    FlattenAppend([e], [e']);
    assert [e, e'] == [e] + [e'];
  }

  lemma EndEntriesDeclare(last: Entry, d: Declaration)
    requires Renderable(d) && IsBody(last.body) && AreLines(last.body)
    ensures var (e, e') := EndEntries(last, d);
            && Row(e, false) == Row(last, false) && Row(e', false) == (d.name, d.body)
            && EntryName(e) == EntryName(last) && EntryName(e') == EntryName(Entry([], d.body))
  {
    EndKept(last.body);
    assert Canonical(d.body) == d.body;
  }

  /** What stays of the last entry's lines. */
  function KeptAtEnd(body: seq<string>): seq<string> {
    var t := TerminateLast(body);
    t[..|t| - CommentsAtEnd(t)]
  }

  /** The lines declare the same under the same name. */
  predicate DeclareTheSame(a: seq<string>, b: seq<string>) {
    a != [] && b != [] && Canonical(a) == Canonical(b) && NameOf(a[0]) == NameOf(b[0])
  }

  lemma EndKept(body: seq<string>)
    requires IsBody(body) && AreLines(body)
    ensures DeclareTheSame(KeptAtEnd(body), body)
  {
    TerminateLastKeeps(body);
    CommentsSplitOff(TerminateLast(body));
  }

  lemma InsertedAtEndIs(f: File, d: Declaration)
    requires f.entries != [] && Place(f.entries, d.name) == |f.entries|
    ensures var (e, e') := EndEntries(f.entries[|f.entries| - 1], d);
            Inserted(f, d).entries == f.entries[..|f.entries| - 1] + [e, e']
    ensures f.entries == f.entries[..|f.entries| - 1] + [f.entries[|f.entries| - 1]]
  {
  }

  lemma InsertedAtEnd(f: File, d: Declaration)
    requires WellFormed(f) && AreLines(Flatten(f)) && Renderable(d) && f.entries != [] &&
        Place(f.entries, d.name) == |f.entries|
    ensures WellFormed(Inserted(f, d)) && AreLines(Flatten(Inserted(f, d)))
  {
    var n := |f.entries|;
    var a, last := f.entries[..n - 1], f.entries[n - 1];
    var (e, e') := EndEntries(last, d);
    AroundIsWell(f, n - 1);
    LinesAtPlace(f, n - 1);
    EndEntriesAreWell(last, d);
    assert FlattenEntries([]) == [];
    if n > 1 {
      assert a[0] == f.entries[0];
    }
    SpliceIsWell(f.header, a, [e, e'], []);
    assert [e, e'] + [] == [e, e'];
  }

  lemma InsertedIsWell(f: File, d: Declaration)
    requires WellFormed(f) && AreLines(Flatten(f)) && Renderable(d)
    ensures WellFormed(Inserted(f, d)) && AreLines(Flatten(Inserted(f, d)))
  {
    if f.entries == [] {
      InsertedFirst(f, d);
    } else if Place(f.entries, d.name) < |f.entries| {
      InsertedBefore(f, d);
    } else {
      InsertedAtEnd(f, d);
    }
  }

  /** What the rows of a file with one more entry are, around its place. */
  ghost predicate RowsAround(f: File, d: Declaration, p: nat) {
    && p <= |f.entries|
    && Table(Inserted(f, d).entries, false) ==
        Table(f.entries[..p], false) + ([(d.name, d.body)] + Table(f.entries[p..], false))
    && SameNames(Inserted(f, d).entries, f.entries[..p] + ([Entry([], d.body)] + f.entries[p..]))
  }

  lemma InsertedRows(f: File, d: Declaration)
    requires WellFormed(f) && AreLines(Flatten(f)) && Renderable(d)
    ensures RowsAround(f, d, Place(f.entries, d.name))
  {
    if f.entries == [] {
      RowsFirst(f, d);
    } else if Place(f.entries, d.name) < |f.entries| {
      RowsBefore(f, d);
    } else {
      RowsAtEnd(f, d);
    }
  }

  lemma RowsFirst(f: File, d: Declaration)
    requires Renderable(d) && f.entries == []
    ensures RowsAround(f, d, 0)
  {
    var none, one := f.entries[..0], [Entry([], d.body)];
    assert none == [] && f.entries[0..] == [] && none + (one + []) == one;
    OneRow(one[0]);
    assert Table(none, false) + ([(d.name, d.body)] + Table(f.entries[0..], false)) == [(d.name, d.body)];
  }

  lemma RenderedRow(head: seq<string>, d: Declaration)
    requires Renderable(d)
    ensures Row(Entry(head, d.body), false) == (d.name, d.body) &&
        EntryName(Entry(head, d.body)) == EntryName(Entry([], d.body))
  {
  }

  lemma SpliceRows(a: seq<Entry>, e: Entry, b: seq<Entry>)
    ensures Table(a + ([e] + b), false) == Table(a, false) + ([Row(e, false)] + Table(b, false))
  {
    TableAppend([e], b, false);
    TableAppend(a, [e] + b, false);
    OneRow(e);
  }

  lemma SpliceNames(a: seq<Entry>, e: Entry, x: Entry, b: seq<Entry>)
    requires EntryName(e) == EntryName(x)
    ensures SameNames(a + ([e] + b), a + ([x] + b))
  {
  }

  lemma InsertedBeforeIs(f: File, d: Declaration)
    requires Place(f.entries, d.name) < |f.entries|
    ensures var p := Place(f.entries, d.name);
            Inserted(f, d).entries == f.entries[..p] + ([Entry(if p == 0 then [] else d.head, d.body)] + f.entries[p..])
  {
    assert f.entries[..0] == [] && f.entries[0..] == f.entries;
  }

  lemma RowsBefore(f: File, d: Declaration)
    requires Renderable(d) && Place(f.entries, d.name) < |f.entries|
    ensures RowsAround(f, d, Place(f.entries, d.name))
  {
    var p := Place(f.entries, d.name);
    var head := if p == 0 then [] else d.head;
    InsertedBeforeIs(f, d);
    RenderedRow(head, d);
    SpliceRows(f.entries[..p], Entry(head, d.body), f.entries[p..]);
    SpliceNames(f.entries[..p], Entry(head, d.body), Entry([], d.body), f.entries[p..]);
  }

  lemma RowsAtEnd(f: File, d: Declaration)
    requires WellFormed(f) && AreLines(Flatten(f)) && Renderable(d) && f.entries != [] &&
        Place(f.entries, d.name) == |f.entries|
    ensures RowsAround(f, d, |f.entries|)
  {
    var n := |f.entries|;
    var a, last := f.entries[..n - 1], f.entries[n - 1];
    var (e, e') := EndEntries(last, d);
    InsertedAtEndIs(f, d);
    assert IsBody(last.body) && AreLines(last.body) by {
      AroundIsWell(f, n - 1);
    }
    EndEntriesDeclare(last, d);
    EndRows(a, last, e, e');
    EndNames(a, last, e, e', Entry([], d.body));
    RowsAroundEnd(f, d);
  }

  lemma RowsAroundEnd(f: File, d: Declaration)
    requires Table(Inserted(f, d).entries, false) == Table(f.entries, false) + [(d.name, d.body)]
    requires SameNames(Inserted(f, d).entries, f.entries + [Entry([], d.body)])
    ensures RowsAround(f, d, |f.entries|)
  {
    assert f.entries[..|f.entries|] == f.entries && f.entries[|f.entries|..] == [];
    assert [Entry([], d.body)] + [] == [Entry([], d.body)];
    assert Table([], false) == [] && [(d.name, d.body)] + [] == [(d.name, d.body)];
  }

  lemma EndRows(a: seq<Entry>, last: Entry, e: Entry, e': Entry)
    requires Row(e, false) == Row(last, false)
    ensures Table(a + [e, e'], false) == Table(a + [last], false) + [Row(e', false)]
  {
    assert [e, e'] == [e] + [e'];
    TableAppend(a, [last], false);
    TableAppend(a, [e] + [e'], false);
    TableAppend([e], [e'], false);
    OneRow(last);
    OneRow(e);
    OneRow(e');
  }

  lemma EndNames(a: seq<Entry>, last: Entry, e: Entry, e': Entry, x: Entry)
    requires EntryName(e) == EntryName(last) && EntryName(e') == EntryName(x)
    ensures SameNames(a + [e, e'], a + [last] + [x])
  {
  }

  lemma InsertedDeclares(f: File, d: Declaration, name: string)
    requires WellFormed(f) && AreLines(Flatten(f)) && Renderable(d) && Distinct(f.entries) && !Has(f, d.name)
    ensures Distinct(Inserted(f, d).entries)
    ensures Declared(Inserted(f, d), name) == if name == d.name then Some(d.body) else Declared(f, name)
  {
    var p := Place(f.entries, d.name);
    var a, b, e := f.entries[..p], f.entries[p..], Entry([], d.body);
    assert f.entries == a + b;
    InsertedRows(f, d);
    assert RowsAround(f, d, p);
    RowBetween(a, b, d, name);
    IndexAppend(a, b, d.name);
    DistinctAppend(a, b);
    InsertKeepsDistinct(a, e, b);
    SameNamesSameIndex(Inserted(f, d).entries, a + ([e] + b), name);
  }

  lemma RowBetween(a: seq<Entry>, b: seq<Entry>, d: Declaration, name: string)
    requires IndexOf(a + b, d.name) == |a + b|
    ensures Lookup(Table(a, false) + ([(d.name, d.body)] + Table(b, false)), name)
         == if name == d.name then Some(d.body) else Lookup(Table(a + b, false), name)
  {
    TableAppend(a, b, false);
    LookupAppend(Table(a, false), [(d.name, d.body)] + Table(b, false), name);
    LookupAppend(Table(a, false), Table(b, false), name);
    assert ([(d.name, d.body)] + Table(b, false))[1..] == Table(b, false);
    IndexAppend(a, b, d.name);
    LookupFinds(a, d.name, false);
  }

  lemma InsertKeepsDistinct(a: seq<Entry>, e: Entry, b: seq<Entry>)
    requires Distinct(a) && Distinct(b) && Apart(a, b) && IndexOf(a, EntryName(e)) == |a| &&
        IndexOf(b, EntryName(e)) == |b|
    ensures Distinct(a + ([e] + b))
  {
    assert ([e] + b)[1..] == b;
    ApartMeans(a, b);
    forall name | IndexOf(a, name) < |a|
      ensures IndexOf([e] + b, name) == |[e] + b|
    {
      assert name != EntryName(e);
    }
    assert NoneShared(a, [e] + b);
    ApartMeans(a, [e] + b);
    DistinctAppend(a, [e] + b);
  }

  lemma InsertReads(bytes: string, d: Declaration)
    requires Renderable(d)
    ensures Read(InsertEntry(bytes, d)) == Inserted(Read(bytes), d)
  {
    WriteRead(bytes);
    InsertedIsWell(Read(bytes), d);
    ReadWrite(Inserted(Read(bytes), d));
  }

  // ----- the three edits on bytes, as they change what the bytes declare

  lemma HasIsDeclared(f: File, name: string)
    ensures Has(f, name) <==> Declared(f, name).Some?
    ensures Has(f, name) <==> Standing(f, name).Some?
  {
    LookupFinds(f.entries, name, false);
    LookupFinds(f.entries, name, true);
  }

  lemma ReplaceStep(bytes: string, d: Declaration)
    requires Distinct(Read(bytes).entries) && Has(Read(bytes), d.name) && Renderable(d)
    ensures ReplaceEntry(bytes, d.name, d).Success?
    ensures var f, g := Read(bytes), Read(ReplaceEntry(bytes, d.name, d).value);
            && Distinct(g.entries)
            && (forall n :: Declared(g, n) == if n == d.name then Some(d.body) else Declared(f, n))
            && (forall n :: Standing(g, n) == if n == d.name then Some(d.body) else Standing(f, n))
  {
    var f := Read(bytes);
    var k := IndexOf(f.entries, d.name);
    WriteRead(bytes);
    ReplaceReads(bytes, d.name, d);
    var g := Replaced(f, k, d.body);
    forall n
      ensures Distinct(g.entries) && Declared(g, n) == if n == d.name then Some(d.body) else Declared(f, n)
      ensures Standing(g, n) == if n == d.name then Some(d.body) else Standing(f, n)
    {
      ReplacedDeclares(f, k, d.body, false, n);
      ReplacedDeclares(f, k, d.body, true, n);
    }
    ReplacedDeclares(f, k, d.body, true, "");
  }

  lemma Rejoin(bytes: string, i: nat, j: nat)
    requires i <= j <= |bytes|
    ensures bytes == bytes[..i] + bytes[i..j] + bytes[j..]
  {
  }

  /** Replacing an entry by the very lines that stand there changes no byte. */
  lemma ReplaceVerbatim(bytes: string, d: Declaration)
    requires Has(Read(bytes), d.name) && Standing(Read(bytes), d.name) == Some(d.body)
    ensures ReplaceEntry(bytes, d.name, d) == Success(bytes)
  {
    LookupFinds(Read(bytes).entries, d.name, true);
    RangeIsTheEntry(bytes, d.name);
    var r := EntryRange(bytes, d.name).value;
    Rejoin(bytes, r.0, r.1);
  }

  lemma RemoveStep(bytes: string, name: string)
    requires Distinct(Read(bytes).entries) && Has(Read(bytes), name)
    ensures RemoveEntry(bytes, name).Success?
    ensures var f, g := Read(bytes), Read(RemoveEntry(bytes, name).value);
            && Distinct(g.entries)
            && (forall n :: Declared(g, n) == if n == name then None else Declared(f, n))
  {
    var f := Read(bytes);
    var k := IndexOf(f.entries, name);
    WriteRead(bytes);
    RemoveReads(bytes, name);
    forall n
      ensures Distinct(Removed(f, k).entries) && Declared(Removed(f, k), n) == if n == name then None
          else Declared(f, n)
    {
      RemovedDeclares(f, k, n);
    }
    RemovedDeclares(f, k, "");
  }

  lemma InsertStep(bytes: string, d: Declaration)
    requires Distinct(Read(bytes).entries) && !Has(Read(bytes), d.name) && Renderable(d)
    ensures var f, g := Read(bytes), Read(InsertEntry(bytes, d));
            && Distinct(g.entries)
            && (forall n :: Declared(g, n) == if n == d.name then Some(d.body) else Declared(f, n))
  {
    var f := Read(bytes);
    WriteRead(bytes);
    InsertReads(bytes, d);
    forall n
      ensures Distinct(Inserted(f, d).entries) && Declared(Inserted(f, d), n) == if n == d.name then Some(d.body)
          else Declared(f, n)
    {
      InsertedDeclares(f, d, n);
    }
    InsertedDeclares(f, d, "");
  }

  // ----- head comments

  /** The comment lines above the entry of the name. */
  function HeadIn(entries: seq<Entry>, name: string): Option<seq<string>> {
    var k := IndexOf(entries, name);
    if k < |entries| then Some(entries[k].head) else None
  }

  /** Every entry of f is in g under the same head comment. */
  ghost predicate HeadsKept(f: File, g: File) {
    forall n :: HeadIn(f.entries, n).Some? ==> HeadIn(g.entries, n) == HeadIn(f.entries, n)
  }

  lemma HeadAppend(a: seq<Entry>, b: seq<Entry>, name: string)
    ensures HeadIn(a + b, name) == if HeadIn(a, name).Some? then HeadIn(a, name) else HeadIn(b, name)
  {
    IndexAppend(a, b, name);
  }

  lemma HeadOfOne(e: Entry, name: string)
    ensures HeadIn([e], name) == if EntryName(e) == name then Some(e.head) else None
  {
    assert [e][1..] == [];
  }

  /** Another body under the same name and head changes no head. */
  lemma BodyKeepsHeads(a: seq<Entry>, e: Entry, e': Entry, b: seq<Entry>, name: string)
    requires EntryName(e') == EntryName(e) && e'.head == e.head
    ensures HeadIn(a + ([e'] + b), name) == HeadIn(a + ([e] + b), name)
  {
    HeadAppend(a, [e'] + b, name);
    HeadAppend([e'], b, name);
    HeadAppend(a, [e] + b, name);
    HeadAppend([e], b, name);
    HeadOfOne(e, name);
    HeadOfOne(e', name);
  }

  /** Nor does an entry of another name put between the others. */
  lemma EntryKeepsHeads(a: seq<Entry>, e: Entry, b: seq<Entry>, name: string)
    requires EntryName(e) != name
    ensures HeadIn(a + ([e] + b), name) == HeadIn(a + b, name)
  {
    HeadAppend(a, [e] + b, name);
    HeadAppend([e], b, name);
    HeadAppend(a, b, name);
    HeadOfOne(e, name);
  }

  lemma ReplacedKeepsHeads(f: File, k: nat, body: seq<string>)
    requires k < |f.entries| && body != [] && NameOf(body[0]) == EntryName(f.entries[k])
    ensures HeadsKept(f, Replaced(f, k, body))
  {
    var a, e, b := f.entries[..k], f.entries[k], f.entries[k + 1..];
    assert f.entries == a + ([e] + b);
    assert Replaced(f, k, body).entries == a + ([e.(body := body)] + b);
    forall n
      ensures HeadIn(Replaced(f, k, body).entries, n) == HeadIn(f.entries, n)
    {
      BodyKeepsHeads(a, e, e.(body := body), b, n);
    }
  }

  lemma InsertedKeepsHeads(f: File, d: Declaration)
    requires WellFormed(f) && AreLines(Flatten(f)) && Renderable(d) && !Has(f, d.name)
    ensures HeadsKept(f, Inserted(f, d))
  {
    var p, n := Place(f.entries, d.name), |f.entries|;
    forall name | HeadIn(f.entries, name).Some?
      ensures HeadIn(Inserted(f, d).entries, name) == HeadIn(f.entries, name)
    {
      assert name != d.name;
      if p == 0 {
        EntryKeepsHeads([], Entry([], d.body), f.entries, name);
        assert [] + ([Entry([], d.body)] + f.entries) == [Entry([], d.body)] + f.entries && [] + f.entries == f.entries;
      } else if p < n {
        EntryKeepsHeads(f.entries[..p], Entry(d.head, d.body), f.entries[p..], name);
        assert f.entries[..p] + f.entries[p..] == f.entries;
      } else {
        EndKeepsHeads(f, d, name);
      }
    }
  }

  lemma EndKeepsHeads(f: File, d: Declaration, name: string)
    requires WellFormed(f) && AreLines(Flatten(f)) && Renderable(d) && name != d.name
    requires f.entries != [] && Place(f.entries, d.name) == |f.entries|
    ensures HeadIn(Inserted(f, d).entries, name) == HeadIn(f.entries, name)
  {
    var n := |f.entries|;
    var front, last := f.entries[..n - 1], f.entries[n - 1];
    var (kept, e) := EndEntries(last, d);
    AroundIsWell(f, n - 1);
    EndEntriesDeclare(last, d);
    InsertedAtEndIs(f, d);
    TwoAtEnd(front, last, kept, e, name);
  }

  lemma TwoAtEnd(front: seq<Entry>, last: Entry, kept: Entry, e: Entry, name: string)
    requires EntryName(kept) == EntryName(last) && kept.head == last.head && EntryName(e) != name
    ensures HeadIn(front + [kept, e], name) == HeadIn(front + [last], name)
  {
    assert [kept, e] == [kept] + [e];
    BodyKeepsHeads(front, last, kept, [e], name);
    EntryKeepsHeads(front + [last], e, [], name);
    assert front + ([last] + [e]) == front + [last] + ([e] + []) && front + [last] + [] == front + [last];
  }

  // ----- the three-way merge

  /** The file declares d as it is, its head comment included. */
  predicate DeclaresAs(f: File, d: Declaration) {
    var k := IndexOf(f.entries, d.name);
    k < |f.entries| && f.entries[k].body != [] && DeclarationOf(f.entries[k]) == d
  }

  /** The pull request changes, adds or removes the entry. */
  predicate Touched(before: File, after: File, name: string) {
    var k := IndexOf(after.entries, name);
    if k < |after.entries| then after.entries[k].body != [] && !DeclaresAs(before, DeclarationOf(after.entries[k]))
    else Has(before, name)
  }

  /** An entry reads as the pull request's where it touched it, and otherwise as on the base now. */
  function Merged(before: File, after: File, current: File, name: string): Option<seq<string>> {
    if !Touched(before, after, name) then Declared(current, name)
    else if Has(after, name) then Declared(after, name)
    else None
  }

  /** On the base now the touched entry stands line for line as the pull request renders it, or is gone if it removes
      it. */
  predicate Verbatim(before: File, after: File, current: File, name: string) {
    if Has(after, name) then Standing(current, name) == Declared(after, name) else !Has(current, name)
  }

  datatype RerenderError = RemovesTheFile | CannotEdit(e: EditError) | NotATeamFile(path: string) | OnRefAlready

  /** The first i entries of after are applied. */
  ghost predicate Applied(before: File, after: File, current: File, out: File, i: nat) {
    && Distinct(out.entries)
    && forall n :: Declared(out, n)
                   == if Has(after, n) && IndexOf(after.entries, n) < i && Touched(before, after, n)
                      then Declared(after, n) else Declared(current, n)
  }

  /** What the first i entries of after leave in the bytes: nothing changed as long as all stood there verbatim; and
      unless one was inserted, each stands as rendered. */
  ghost predicate AppliedBytes(before: File, after: File, now: string, out: string, i: nat, inserted: bool) {
    && (VerbatimUpTo(before, after, Read(now), i) ==> out == now)
    && (inserted ==> exists n :: Has(after, n) && Touched(before, after, n) && !Has(Read(now), n))
    && (!inserted ==> StandsUpTo(before, after, Read(out), i))
  }

  /** The touched ones of the first i entries of after are on the base as after has them. */
  ghost predicate VerbatimUpTo(before: File, after: File, current: File, i: nat) {
    forall n :: Has(after, n) && IndexOf(after.entries, n) < i && Touched(before, after, n) ==>
        Verbatim(before, after, current, n)
  }

  /** The touched ones of the first i entries of after stand in the file as after declares them. */
  ghost predicate StandsUpTo(before: File, after: File, out: File, i: nat) {
    forall n :: Has(after, n) && IndexOf(after.entries, n) < i && Touched(before, after, n) ==>
        Standing(out, n) == Declared(after, n)
  }

  /** Entry i of after, as the loop meets it. */
  lemma EntryMet(before: File, after: File, i: nat)
    requires WellFormed(after) && AreLines(Flatten(after)) && Distinct(after.entries) && i < |after.entries|
    ensures after.entries[i].body != []
    ensures var d := DeclarationOf(after.entries[i]);
            && Renderable(d) && IndexOf(after.entries, d.name) == i && Declared(after, d.name) == Some(d.body)
            && (Touched(before, after, d.name) <==> !DeclaresAs(before, d))
            && (forall n :: IndexOf(after.entries, n) < i + 1 <==> IndexOf(after.entries, n) < i || n == d.name)
  {
    DeclarationIsRenderable(after, i);
    DistinctAround(after.entries, i);
    var d := DeclarationOf(after.entries[i]);
    LookupFinds(after.entries, d.name, false);
    OneEntryLess(after, i, d.name);
  }

  lemma UntouchedStep(before: File, after: File, now: string, out: string, i: nat, inserted: bool)
    requires WellFormed(after) && AreLines(Flatten(after)) && Distinct(after.entries) && i < |after.entries|
    requires Applied(before, after, Read(now), Read(out), i) && AppliedBytes(before, after, now, out, i, inserted)
    requires after.entries[i].body != [] && !Touched(before, after, EntryName(after.entries[i]))
    ensures Applied(before, after, Read(now), Read(out), i + 1) &&
        AppliedBytes(before, after, now, out, i + 1, inserted)
  {
    EntryMet(before, after, i);
  }

  /** After a touched entry: what one edit makes of the file's declarations carries the merge one entry further. */
  lemma TouchedDeclares(before: File, after: File, current: File, f: File, g: File, i: nat)
    requires WellFormed(after) && AreLines(Flatten(after)) && Distinct(after.entries) && i < |after.entries|
    requires Applied(before, after, current, f, i)
    requires after.entries[i].body != [] && Touched(before, after, EntryName(after.entries[i]))
    requires Distinct(g.entries)
    requires var d := DeclarationOf(after.entries[i]);
             forall n :: Declared(g, n) == if n == d.name then Some(d.body) else Declared(f, n)
    ensures Applied(before, after, current, g, i + 1)
  {
    EntryMet(before, after, i);
  }

  lemma ReplacedBytes(before: File, after: File, now: string, out: string, next: string, i: nat, inserted: bool)
    requires WellFormed(after) && AreLines(Flatten(after)) && Distinct(after.entries) && i < |after.entries|
    requires AppliedBytes(before, after, now, out, i, inserted)
    requires after.entries[i].body != [] && Touched(before, after, EntryName(after.entries[i]))
    requires var d := DeclarationOf(after.entries[i]);
             && (forall n :: Standing(Read(next), n) == if n == d.name then Some(d.body) else Standing(Read(out), n))
             && (Standing(Read(out), d.name) == Some(d.body) ==> next == out)
    ensures AppliedBytes(before, after, now, next, i + 1, inserted)
  {
    EntryMet(before, after, i);
    var d := DeclarationOf(after.entries[i]);
    if !inserted {
      StandsOneMore(before, after, Read(out), Read(next), d.name, i);
    }
    if VerbatimUpTo(before, after, Read(now), i + 1) {
      assert Verbatim(before, after, Read(now), d.name);
      assert VerbatimUpTo(before, after, Read(now), i);
    }
  }

  lemma StandsOneMore(before: File, after: File, f: File, g: File, name: string, i: nat)
    requires Distinct(after.entries) && Has(after, name) && IndexOf(after.entries, name) == i &&
        StandsUpTo(before, after, f, i)
    requires forall n :: Standing(g, n) == if n == name then Declared(after, name) else Standing(f, n)
    ensures StandsUpTo(before, after, g, i + 1)
  {
    forall n | Has(after, n) && IndexOf(after.entries, n) < i + 1 && Touched(before, after, n)
      ensures Standing(g, n) == Declared(after, n)
    {
      if n != name {
        assert EntryName(after.entries[IndexOf(after.entries, n)]) == n;
      }
    }
  }

  lemma InsertedBytes(before: File, after: File, now: string, out: string, next: string, i: nat, inserted: bool)
    requires WellFormed(after) && AreLines(Flatten(after)) && Distinct(after.entries) && i < |after.entries|
    requires AppliedBytes(before, after, now, out, i, inserted)
    requires after.entries[i].body != [] && Touched(before, after, EntryName(after.entries[i]))
    requires !Has(Read(now), EntryName(after.entries[i]))
    ensures AppliedBytes(before, after, now, next, i + 1, true)
  {
    EntryMet(before, after, i);
    var name := EntryName(after.entries[i]);
    HasIsDeclared(Read(now), name);
    assert Has(after, name) && IndexOf(after.entries, name) < i + 1 && !Verbatim(before, after, Read(now), name);
  }

  lemma ReplaceStepHeads(bytes: string, d: Declaration)
    requires Has(Read(bytes), d.name) && Renderable(d)
    ensures ReplaceEntry(bytes, d.name, d).Success?
    ensures HeadsKept(Read(bytes), Read(ReplaceEntry(bytes, d.name, d).value))
  {
    ReplaceReads(bytes, d.name, d);
    ReplacedKeepsHeads(Read(bytes), IndexOf(Read(bytes).entries, d.name), d.body);
  }

  lemma InsertStepHeads(bytes: string, d: Declaration)
    requires !Has(Read(bytes), d.name) && Renderable(d)
    ensures HeadsKept(Read(bytes), Read(InsertEntry(bytes, d)))
  {
    WriteRead(bytes);
    InsertReads(bytes, d);
    InsertedKeepsHeads(Read(bytes), d);
  }

  lemma HeadsKeptTwice(f: File, g: File, h: File)
    requires HeadsKept(f, g) && HeadsKept(g, h)
    ensures HeadsKept(f, h)
  {
    forall n | HeadIn(f.entries, n).Some?
      ensures HeadIn(h.entries, n) == HeadIn(f.entries, n)
    {
      assert HeadIn(g.entries, n) == HeadIn(f.entries, n);
    }
  }

  // ----- the order of the entries

  /** The entries stand in the alphabetical order of their names. */
  ghost predicate Alphabetical(entries: seq<Entry>) {
    forall i, j :: 0 <= i < j < |entries| ==> Less(EntryName(entries[i]), EntryName(entries[j]))
  }

  lemma {:induction false} LessChains(a: string, b: string, c: string)
    requires Less(a, b) && Less(b, c)
    ensures Less(a, c)
  {
    if a != "" && a[0] == b[0] == c[0] {
      LessChains(a[1..], b[1..], c[1..]);
    }
  }

  lemma {:induction false} OneIsLess(a: string, b: string)
    ensures a == b || Less(a, b) || Less(b, a)
  {
    if a != "" && b != "" && a[0] == b[0] {
      OneIsLess(a[1..], b[1..]);
      assert a == [a[0]] + a[1..] && b == [b[0]] + b[1..];
    }
  }

  /** Before the place every name comes first, and the one at it comes later. */
  lemma {:induction false} PlaceMeans(entries: seq<Entry>, name: string)
    ensures var p := Place(entries, name);
            && (p < |entries| ==> Less(name, EntryName(entries[p])))
            && forall i :: 0 <= i < p ==> !Less(name, EntryName(entries[i]))
  {
    if entries != [] && !Less(name, EntryName(entries[0])) {
      PlaceMeans(entries[1..], name);
      forall i | 0 <= i < Place(entries, name)
        ensures !Less(name, EntryName(entries[i]))
      {
        assert i > 0 ==> entries[1..][i - 1] == entries[i];
      }
    }
  }

  lemma AlphabeticalNames(a: seq<Entry>, b: seq<Entry>)
    requires SameNames(a, b)
    ensures Alphabetical(a) <==> Alphabetical(b)
  {
  }

  /** The name belongs between the first p names and the others. */
  ghost predicate Parts(entries: seq<Entry>, p: nat, name: string) {
    forall i :: 0 <= i < |entries| ==>
      if i < p then Less(EntryName(entries[i]), name) else Less(name, EntryName(entries[i]))
  }

  lemma PlaceParts(entries: seq<Entry>, name: string)
    requires Alphabetical(entries) && IndexOf(entries, name) == |entries|
    ensures Parts(entries, Place(entries, name), name)
  {
    var p := Place(entries, name);
    PlaceMeans(entries, name);
    NoneHasName(entries, name);
    forall i | 0 <= i < |entries|
      ensures if i < p then Less(EntryName(entries[i]), name) else Less(name, EntryName(entries[i]))
    {
      OneIsLess(EntryName(entries[i]), name);
      if i > p {
        LessChains(name, EntryName(entries[p]), EntryName(entries[i]));
      }
    }
  }

  /** A new name at its place among ordered ones. */
  lemma PlacedInOrder(entries: seq<Entry>, e: Entry, p: nat)
    requires Alphabetical(entries) && p <= |entries| && Parts(entries, p, EntryName(e))
    ensures Alphabetical(entries[..p] + ([e] + entries[p..]))
  {
    var placed := entries[..p] + ([e] + entries[p..]);
    forall i, j | 0 <= i < j < |placed|
      ensures Less(EntryName(placed[i]), EntryName(placed[j]))
    {
      assert placed[i] == if i < p then entries[i] else if i == p then e else entries[i - 1];
      assert placed[j] == if j < p then entries[j] else if j == p then e else entries[j - 1];
    }
  }

  lemma {:induction false} NoneHasName(entries: seq<Entry>, name: string)
    requires IndexOf(entries, name) == |entries|
    ensures forall i :: 0 <= i < |entries| ==> EntryName(entries[i]) != name
  {
    if entries != [] {
      NoneHasName(entries[1..], name);
      forall i | 0 <= i < |entries|
        ensures EntryName(entries[i]) != name
      {
        assert i > 0 ==> entries[1..][i - 1] == entries[i];
      }
    }
  }

  lemma EndedNames(entries: seq<Entry>, e: Entry, kept: Entry, e': Entry, g: seq<Entry>)
    requires entries != [] && g == entries[..|entries| - 1] + [kept, e']
    requires EntryName(kept) == EntryName(entries[|entries| - 1]) && EntryName(e) == EntryName(e')
    ensures SameNames(entries + [e], g)
  {
  }

  lemma InsertedLastEntries(f: File, d: Declaration)
    requires f.entries != [] && Place(f.entries, d.name) == |f.entries|
    ensures var n := |f.entries|;
            var (kept, e) := EndEntries(f.entries[n - 1], d);
            Inserted(f, d).entries == f.entries[..n - 1] + [kept, e]
  {
  }

  lemma EndEntriesNames(last: Entry, d: Declaration)
    requires Renderable(d) && IsBody(last.body) && AreLines(last.body)
    ensures var (kept, e) := EndEntries(last, d);
            EntryName(kept) == EntryName(last) && EntryName(e) == EntryName(Entry(d.head, d.body))
  {
    EndEntriesDeclare(last, d);
  }

  lemma InsertedLast(f: File, d: Declaration)
    requires f.entries != [] && Place(f.entries, d.name) == |f.entries| && Renderable(d)
    requires var last := f.entries[|f.entries| - 1]; IsBody(last.body) && AreLines(last.body)
    ensures SameNames(f.entries + [Entry(d.head, d.body)], Inserted(f, d).entries)
  {
    var last := f.entries[|f.entries| - 1];
    EndEntriesNames(last, d);
    InsertedLastEntries(f, d);
    var (kept, e) := EndEntries(last, d);
    EndedNames(f.entries, Entry(d.head, d.body), kept, e, Inserted(f, d).entries);
  }

  lemma LastIsWell(f: File)
    requires WellFormed(f) && AreLines(Flatten(f)) && f.entries != []
    ensures var last := f.entries[|f.entries| - 1]; IsBody(last.body) && AreLines(last.body)
  {
    AroundIsWell(f, |f.entries| - 1);
  }

  /** The names after an insertion: the new one at its place. */
  lemma InsertedNames(f: File, d: Declaration)
    requires WellFormed(f) && AreLines(Flatten(f)) && Renderable(d)
    ensures var p := Place(f.entries, d.name);
            SameNames(f.entries[..p] + ([Entry(d.head, d.body)] + f.entries[p..]), Inserted(f, d).entries)
  {
    var p, n, e := Place(f.entries, d.name), |f.entries|, Entry(d.head, d.body);
    if p == n > 0 {
      LastIsWell(f);
      InsertedLast(f, d);
      assert f.entries[..p] + ([e] + f.entries[p..]) == f.entries + [e];
    } else {
      InsertedInside(f, d, p);
    }
  }

  lemma InsertedInside(f: File, d: Declaration, p: nat)
    requires p == Place(f.entries, d.name) && (p < |f.entries| || f.entries == [])
    ensures SameNames(f.entries[..p] + ([Entry(d.head, d.body)] + f.entries[p..]), Inserted(f, d).entries)
  {
    if p == 0 {
      assert f.entries[..0] == [] && f.entries[0..] == f.entries;
    }
  }

  lemma InsertedInOrder(f: File, d: Declaration)
    requires WellFormed(f) && AreLines(Flatten(f)) && Renderable(d) && !Has(f, d.name) && Alphabetical(f.entries)
    ensures Alphabetical(Inserted(f, d).entries)
  {
    var p, e := Place(f.entries, d.name), Entry(d.head, d.body);
    PlaceParts(f.entries, d.name);
    PlacedInOrder(f.entries, e, p);
    InsertedNames(f, d);
    AlphabeticalNames(f.entries[..p] + ([e] + f.entries[p..]), Inserted(f, d).entries);
  }

  lemma WithoutInOrder(entries: seq<Entry>, k: nat)
    requires Alphabetical(entries) && k < |entries|
    ensures Alphabetical(entries[..k] + entries[k + 1..])
  {
    var rest := entries[..k] + entries[k + 1..];
    forall i, j | 0 <= i < j < |rest|
      ensures Less(EntryName(rest[i]), EntryName(rest[j]))
    {
      assert rest[i] == if i < k then entries[i] else entries[i + 1];
      assert rest[j] == if j < k then entries[j] else entries[j + 1];
    }
  }

  lemma RemovedNames(f: File, k: nat)
    requires WellFormed(f) && AreLines(Flatten(f)) && k < |f.entries|
    ensures SameNames(Removed(f, k).entries, f.entries[..k] + f.entries[k + 1..])
  {
    AroundIsWell(f, k);
    if k > 0 {
      AroundIsWell(f, k - 1);
    }
    RemovedRows(f, k);
  }

  lemma RemovedInOrder(f: File, k: nat)
    requires WellFormed(f) && AreLines(Flatten(f)) && k < |f.entries| && Alphabetical(f.entries)
    ensures Alphabetical(Removed(f, k).entries)
  {
    RemovedNames(f, k);
    WithoutInOrder(f.entries, k);
    AlphabeticalNames(Removed(f, k).entries, f.entries[..k] + f.entries[k + 1..]);
  }

  lemma ReplaceStepOrder(bytes: string, d: Declaration)
    requires Has(Read(bytes), d.name) && Renderable(d)
    ensures ReplaceEntry(bytes, d.name, d).Success?
    ensures Alphabetical(Read(bytes).entries) ==> Alphabetical(Read(ReplaceEntry(bytes, d.name, d).value).entries)
  {
    var f, k := Read(bytes), IndexOf(Read(bytes).entries, d.name);
    ReplaceReads(bytes, d.name, d);
    ReplacedNames(f, k, d.body);
    AlphabeticalNames(f.entries, Replaced(f, k, d.body).entries);
  }

  lemma ReplacedNames(f: File, k: nat, body: seq<string>)
    requires k < |f.entries| && body != [] && NameOf(body[0]) == EntryName(f.entries[k])
    ensures SameNames(f.entries, Replaced(f, k, body).entries)
  {
  }

  lemma InsertStepOrder(bytes: string, d: Declaration)
    requires !Has(Read(bytes), d.name) && Renderable(d)
    ensures Alphabetical(Read(bytes).entries) ==> Alphabetical(Read(InsertEntry(bytes, d)).entries)
  {
    WriteRead(bytes);
    InsertReads(bytes, d);
    if Alphabetical(Read(bytes).entries) {
      InsertedInOrder(Read(bytes), d);
    }
  }

  lemma RemoveStepOrder(bytes: string, name: string)
    requires EntryRange(bytes, name).Success?
    ensures RemoveEntry(bytes, name).Success?
    ensures Alphabetical(Read(bytes).entries) ==> Alphabetical(Read(RemoveEntry(bytes, name).value).entries)
  {
    WriteRead(bytes);
    RemoveReads(bytes, name);
    if Alphabetical(Read(bytes).entries) {
      RemovedInOrder(Read(bytes), IndexOf(Read(bytes).entries, name));
    }
  }

  // ----- what a pull request that only changes entries leaves alone

  /** The lines an entry of the base has once the first i entries of after are applied. */
  function NewBody(before: File, after: File, e: Entry, i: nat): seq<string> {
    var k := IndexOf(after.entries, EntryName(e));
    if k < |after.entries| && k < i && Touched(before, after, EntryName(e)) && after.entries[k].body != []
    then Canonical(after.entries[k].body) else e.body
  }

  /** The same header, and the same entries at the same places under the same comments, with new lines for the touched
      ones alone. */
  ghost predicate Rebodied(before: File, after: File, f: File, g: File, i: nat) {
    && g.header == f.header && SameNames(f.entries, g.entries)
    && forall k :: 0 <= k < |f.entries| ==>
         g.entries[k].head == f.entries[k].head && g.entries[k].body == NewBody(before, after, f.entries[k], i)
  }

  /** The next entry of after changes the lines of its own name alone. */
  lemma NewBodyOn(before: File, after: File, e: Entry, i: nat)
    requires WellFormed(after) && AreLines(Flatten(after)) && Distinct(after.entries) && i < |after.entries|
    requires after.entries[i].body != []
    ensures var d := DeclarationOf(after.entries[i]);
            NewBody(before, after, e, i + 1)
            == if EntryName(e) == d.name && Touched(before, after, d.name) then d.body else NewBody(before, after, e, i)
  {
    EntryMet(before, after, i);
  }

  lemma RebodiedStays(before: File, after: File, f: File, g: File, i: nat)
    requires WellFormed(after) && AreLines(Flatten(after)) && Distinct(after.entries) && i < |after.entries|
    requires Rebodied(before, after, f, g, i) && !Touched(before, after, EntryName(after.entries[i]))
    ensures Rebodied(before, after, f, g, i + 1)
  {
    EntryMet(before, after, i);
    forall k | 0 <= k < |f.entries|
      ensures g.entries[k].body == NewBody(before, after, f.entries[k], i + 1)
    {
      NewBodyOn(before, after, f.entries[k], i);
    }
  }

  lemma RebodiedOn(before: File, after: File, f: File, g: File, i: nat, k: nat, d: Declaration)
    requires WellFormed(after) && AreLines(Flatten(after)) && Distinct(after.entries) && i < |after.entries|
    requires Rebodied(before, after, f, g, i)
    requires after.entries[i].body != [] && d == DeclarationOf(after.entries[i]) && Touched(before, after, d.name)
    requires Distinct(f.entries) && k < |f.entries| && EntryName(f.entries[k]) == d.name
    ensures Rebodied(before, after, f, Replaced(g, k, d.body), i + 1)
  {
    EntryMet(before, after, i);
    var h := Replaced(g, k, d.body);
    ReplacedNames(g, k, d.body);
    forall j | 0 <= j < |f.entries|
      ensures h.entries[j].head == f.entries[j].head
      ensures h.entries[j].body == NewBody(before, after, f.entries[j], i + 1)
    {
      NewBodyOn(before, after, f.entries[j], i);
      if j == k {
        assert h.entries[j] == g.entries[j].(body := d.body);
      } else {
        assert h.entries[j] == g.entries[j];
        DistinctNames(f.entries, j, k);
      }
    }
  }

  lemma DistinctNames(entries: seq<Entry>, j: nat, k: nat)
    requires Distinct(entries) && j < |entries| && k < |entries| && j != k
    ensures EntryName(entries[j]) != EntryName(entries[k])
  {
    DistinctAround(entries, j);
    DistinctAround(entries, k);
  }

  /** One replacement carries it one entry further. */
  lemma ReplacedRebodies(before: File, after: File, now: string, out: string, i: nat)
    requires WellFormed(after) && AreLines(Flatten(after)) && Distinct(after.entries) && i < |after.entries|
    requires after.entries[i].body != [] && Touched(before, after, EntryName(after.entries[i]))
    requires Distinct(Read(now).entries) && Rebodied(before, after, Read(now), Read(out), i)
    requires Has(Read(out), EntryName(after.entries[i]))
    ensures var d := DeclarationOf(after.entries[i]);
            ReplaceEntry(out, d.name, d).Success?
            && Rebodied(before, after, Read(now), Read(ReplaceEntry(out, d.name, d).value), i + 1)
  {
    EntryMet(before, after, i);
    var d := DeclarationOf(after.entries[i]);
    ReplaceReads(out, d.name, d);
    var k := IndexOf(Read(out).entries, d.name);
    RebodiedOn(before, after, Read(now), Read(out), i, k, d);
  }

  /** Every entry the pull request changes is on the base. */
  ghost predicate NothingInserted(before: File, after: File, current: File) {
    forall n :: Has(after, n) && Touched(before, after, n) ==> Has(current, n)
  }

  /** The shape of the file after the first i entries: still in order if it was, and with nothing to insert still the
      same entries at the same places. */
  ghost predicate Shaped(before: File, after: File, now: string, out: string, i: nat, inserted: bool) {
    && (Alphabetical(Read(now).entries) ==> Alphabetical(Read(out).entries))
    && (NothingInserted(before, after, Read(now)) ==>
          !inserted && Rebodied(before, after, Read(now), Read(out), i))
  }

  lemma StartsShaped(before: File, after: File, now: string)
    ensures Shaped(before, after, now, now, 0, false)
  {
  }

  lemma UntouchedShapes(before: File, after: File, now: string, out: string, i: nat, inserted: bool)
    requires WellFormed(after) && AreLines(Flatten(after)) && Distinct(after.entries) && i < |after.entries|
    requires Shaped(before, after, now, out, i, inserted) && !Touched(before, after, EntryName(after.entries[i]))
    ensures Shaped(before, after, now, out, i + 1, inserted)
  {
    if NothingInserted(before, after, Read(now)) {
      RebodiedStays(before, after, Read(now), Read(out), i);
    }
  }

  lemma ReplacedShapes(before: File, after: File, now: string, out: string, i: nat, inserted: bool)
    requires WellFormed(after) && AreLines(Flatten(after)) && Distinct(after.entries) && i < |after.entries|
    requires after.entries[i].body != [] && Touched(before, after, EntryName(after.entries[i]))
    requires Distinct(Read(now).entries) && Has(Read(out), EntryName(after.entries[i]))
    requires Shaped(before, after, now, out, i, inserted)
    ensures var d := DeclarationOf(after.entries[i]);
            ReplaceEntry(out, d.name, d).Success?
            && Shaped(before, after, now, ReplaceEntry(out, d.name, d).value, i + 1, inserted)
  {
    EntryMet(before, after, i);
    ReplaceStepOrder(out, DeclarationOf(after.entries[i]));
    if NothingInserted(before, after, Read(now)) {
      ReplacedRebodies(before, after, now, out, i);
    }
  }

  lemma InsertedShapes(before: File, after: File, now: string, out: string, i: nat, inserted: bool)
    requires WellFormed(after) && AreLines(Flatten(after)) && Distinct(after.entries) && i < |after.entries|
    requires after.entries[i].body != [] && Touched(before, after, EntryName(after.entries[i]))
    requires !Has(Read(out), EntryName(after.entries[i])) && !Has(Read(now), EntryName(after.entries[i]))
    requires Shaped(before, after, now, out, i, inserted)
    ensures Shaped(before, after, now, InsertEntry(out, DeclarationOf(after.entries[i])), i + 1, true)
  {
    EntryMet(before, after, i);
    InsertStepOrder(out, DeclarationOf(after.entries[i]));
    assert Has(after, EntryName(after.entries[i]));
  }

  /** One touched entry of after, written in place or at its alphabetical place. */
  method ApplyOne(before: File, after: File, now: string, out: string, i: nat, ghost inserted: bool)
    returns (next: string, ghost inserted': bool)
    requires WellFormed(after) && AreLines(Flatten(after)) && Distinct(after.entries) && i < |after.entries|
    requires after.entries[i].body != [] && Touched(before, after, EntryName(after.entries[i]))
    requires Applied(before, after, Read(now), Read(out), i) && AppliedBytes(before, after, now, out, i, inserted)
    requires Distinct(Read(now).entries) && Shaped(before, after, now, out, i, inserted)
    ensures Applied(before, after, Read(now), Read(next), i + 1) &&
        AppliedBytes(before, after, now, next, i + 1, inserted')
    ensures HeadsKept(Read(out), Read(next))
    ensures Shaped(before, after, now, next, i + 1, inserted')
  {
    ghost var f := Read(out);
    var d := DeclarationOf(after.entries[i]);
    assert Renderable(d) && (Has(Read(now), d.name) <==> Has(f, d.name)) by {
      EntryMet(before, after, i);
      HasIsDeclared(Read(now), d.name);
      HasIsDeclared(f, d.name);
    }
    assert Distinct(f.entries);
    if Has(Read(now), d.name) {
      next := ReplaceChecked(out, d);
      inserted' := inserted;
      ReplacedBytes(before, after, now, out, next, i, inserted);
      ReplacedShapes(before, after, now, out, i, inserted);
    } else {
      InsertedShapes(before, after, now, out, i, inserted);
      InsertStep(out, d);
      next := InsertEntry(out, d);
      InsertStepHeads(out, d);
      inserted' := true;
      InsertedBytes(before, after, now, out, next, i, inserted);
    }
    TouchedDeclares(before, after, Read(now), f, Read(next), i);
  }

  ghost predicate Named(before: File, after: File, names: seq<string>, i: nat) {
    forall n :: n in names <==> Has(after, n) && IndexOf(after.entries, n) < i && Touched(before, after, n)
  }

  lemma NamedOneMore(before: File, after: File, names: seq<string>, i: nat)
    requires WellFormed(after) && AreLines(Flatten(after)) && Distinct(after.entries) && i < |after.entries|
    requires Named(before, after, names, i)
    ensures var name := EntryName(after.entries[i]);
            Named(before, after, if Touched(before, after, name) then names + [name] else names, i + 1)
  {
    var name := EntryName(after.entries[i]);
    OneEntryLess(after, i, name);
    assert Has(after, name) && IndexOf(after.entries, name) == i by {
      DistinctAround(after.entries, i);
    }
    forall n
      ensures n in (if Touched(before, after, name) then names + [name] else names)
              <==> Has(after, n) && IndexOf(after.entries, n) < i + 1 && Touched(before, after, n)
    {
    }
  }

  /** The entries the pull request changes or adds, written into the file as it reads now. */
  method ApplyChanges(before: File, after: File, now: string)
      returns (out: string, names: seq<string>, ghost inserted: bool)
    requires WellFormed(after) && AreLines(Flatten(after)) && Distinct(after.entries) && Distinct(Read(now).entries)
    ensures Applied(before, after, Read(now), Read(out), |after.entries|)
    ensures AppliedBytes(before, after, now, out, |after.entries|, inserted)
    ensures Named(before, after, names, |after.entries|)
    ensures HeadsKept(Read(now), Read(out))
    ensures Shaped(before, after, now, out, |after.entries|, inserted)
  {
    out, names, inserted := now, [], false;
    StartsShaped(before, after, now);
    for i := 0 to |after.entries|
      invariant Applied(before, after, Read(now), Read(out), i)
      invariant AppliedBytes(before, after, now, out, i, inserted)
      invariant Named(before, after, names, i)
      invariant HeadsKept(Read(now), Read(out))
      invariant Shaped(before, after, now, out, i, inserted)
    {
      NamedOneMore(before, after, names, i);
      EntryMet(before, after, i);
      var d := DeclarationOf(after.entries[i]);
      if DeclaresAs(before, d) {
        UntouchedStep(before, after, now, out, i, inserted);
        UntouchedShapes(before, after, now, out, i, inserted);
      } else {
        ghost var f := Read(out);
        out, inserted := ApplyOne(before, after, now, out, i, inserted);
        HeadsKeptTwice(Read(now), f, Read(out));
        names := names + [d.name];
      }
    }
  }

  /** ReplaceEntry on an entry that is there. */
  method ReplaceChecked(bytes: string, d: Declaration) returns (next: string)
    requires Distinct(Read(bytes).entries) && Has(Read(bytes), d.name) && Renderable(d)
    ensures ReplaceEntry(bytes, d.name, d) == Success(next) && Distinct(Read(next).entries)
    ensures forall n :: Declared(Read(next), n) == if n == d.name then Some(d.body) else Declared(Read(bytes), n)
    ensures forall n :: Standing(Read(next), n) == if n == d.name then Some(d.body) else Standing(Read(bytes), n)
    ensures Standing(Read(bytes), d.name) == Some(d.body) ==> next == bytes
    ensures HeadsKept(Read(bytes), Read(next))
  {
    ReplaceStep(bytes, d);
    ReplaceStepHeads(bytes, d);
    if Standing(Read(bytes), d.name) == Some(d.body) {
      ReplaceVerbatim(bytes, d);
    }
    next := ReplaceEntry(bytes, d.name, d).value;
  }

  lemma OneEntryLess(after: File, i: nat, name: string)
    requires i < |after.entries| && Distinct(after.entries) && name == EntryName(after.entries[i])
    ensures forall n :: IndexOf(after.entries, n) < i + 1 <==> IndexOf(after.entries, n) < i || n == name
  {
    forall n
      ensures IndexOf(after.entries, n) < i + 1 <==> IndexOf(after.entries, n) < i || n == name
    {
      DistinctAround(after.entries, i);
    }
  }

  /** The first i entries of before are dealt with: those the pull request removes are out of the file. */
  ghost predicate Dropped(before: File, after: File, current: File, out: File, i: nat) {
    && Distinct(out.entries)
    && forall n :: Declared(out, n)
                   == if Has(after, n) then Merged(before, after, current, n)
                      else if Has(before, n) && IndexOf(before.entries, n) < i then None
                      else Declared(current, n)
  }

  ghost predicate DroppedBytes(before: File, after: File, current: File, start: string, out: string, i: nat) {
    if exists n :: Has(before, n) && IndexOf(before.entries, n) < i && !Has(after, n) && Has(current, n)
    then true else out == start
  }

  lemma DropStep(before: File, after: File, current: File, start: string, out: string, next: string, i: nat)
    requires Distinct(before.entries) && i < |before.entries|
    requires Dropped(before, after, current, Read(out), i) && DroppedBytes(before, after, current, start, out, i)
    requires var name := EntryName(before.entries[i]);
             if Has(after, name) || !Has(current, name) then next == out
             else Distinct(Read(next).entries)
                  && forall n :: Declared(Read(next), n) == if n == name then None else Declared(Read(out), n)
    ensures Dropped(before, after, current, Read(next), i + 1) &&
        DroppedBytes(before, after, current, start, next, i + 1)
  {
    var name := EntryName(before.entries[i]);
    OneEntryLess(before, i, name);
    assert Has(before, name) && IndexOf(before.entries, name) == i by {
      DistinctAround(before.entries, i);
    }
    HasIsDeclared(current, name);
    forall n
      ensures Declared(Read(next), n)
              == if Has(after, n) then Merged(before, after, current, n)
                 else if Has(before, n) && IndexOf(before.entries, n) < i + 1 then None
                 else Declared(current, n)
    {
    }
  }

  ghost predicate NamedDropped(before: File, after: File, names: seq<string>, i: nat) {
    forall n :: n in names <==> Touched(before, after, n) && (Has(after, n) || IndexOf(before.entries, n) < i)
  }

  lemma NamedDroppedOneMore(before: File, after: File, names: seq<string>, i: nat)
    requires Distinct(before.entries) && i < |before.entries| && NamedDropped(before, after, names, i)
    ensures var name := EntryName(before.entries[i]);
            NamedDropped(before, after, if Has(after, name) then names else names + [name], i + 1)
  {
    var name := EntryName(before.entries[i]);
    OneEntryLess(before, i, name);
    assert Has(before, name) && IndexOf(before.entries, name) == i by {
      DistinctAround(before.entries, i);
    }
    forall n
      ensures n in (if Has(after, name) then names else names + [name])
              <==> Touched(before, after, n) && (Has(after, n) || IndexOf(before.entries, n) < i + 1)
    {
    }
  }

  /** The entries the pull request removes, out of the file. */
  method ApplyRemovals(before: File, after: File, current: File, start: string, named: seq<string>)
      returns (out: string, names: seq<string>)
    requires Distinct(before.entries) && Dropped(before, after, current, Read(start), 0) &&
        NamedDropped(before, after, named, 0)
    ensures Dropped(before, after, current, Read(out), |before.entries|)
    ensures DroppedBytes(before, after, current, start, out, |before.entries|)
    ensures NamedDropped(before, after, names, |before.entries|)
    ensures Alphabetical(Read(start).entries) ==> Alphabetical(Read(out).entries)
  {
    out, names := start, named;
    for i := 0 to |before.entries|
      invariant Dropped(before, after, current, Read(out), i)
      invariant DroppedBytes(before, after, current, start, out, i)
      invariant NamedDropped(before, after, names, i)
      invariant Alphabetical(Read(start).entries) ==> Alphabetical(Read(out).entries)
    {
      var name := EntryName(before.entries[i]);
      NamedDroppedOneMore(before, after, names, i);
      if Has(after, name) {
        DropStep(before, after, current, start, out, out, i);
        continue;
      }
      var next := out;
      if Has(current, name) {
        StillThere(before, after, current, Read(out), i);
        RemoveStep(out, name);
        RemoveStepOrder(out, name);
        next := RemoveEntry(out, name).value;
      }
      DropStep(before, after, current, start, out, next, i);
      out := next;
      names := names + [name];
    }
  }

  lemma StillThere(before: File, after: File, current: File, out: File, i: nat)
    requires Distinct(before.entries) && i < |before.entries| && Dropped(before, after, current, out, i)
    requires var name := EntryName(before.entries[i]); !Has(after, name) && Has(current, name)
    ensures Has(out, EntryName(before.entries[i]))
  {
    var name := EntryName(before.entries[i]);
    DistinctAround(before.entries, i);
    HasIsDeclared(current, name);
    HasIsDeclared(out, name);
  }

  function OrEmpty(x: Option<string>): string {
    if x.Some? then x.value else ""
  }

  /** The three-way merge of one file, on declarations. */
  ghost predicate IsMerge(before: File, after: File, current: File, out: File) {
    forall n :: Declared(out, n) == Merged(before, after, current, n)
  }

  /** What re-rendering one file gives: the merge, the names of the entries it is about, and no changed byte exactly
      when every one of them stands on the base line for line as the pull request renders it; every entry of the base
      keeps its head comment unless an entry is removed, whose own comment its neighbour gets; a file in alphabetical
      order stays in it; and where the pull request neither adds to the base nor removes from it, the file reads as
      before but for the lines of the touched entries. */
  ghost predicate IsRerendered(before: File, after: File, now: string, out: string, names: seq<string>) {
    && Distinct(Read(out).entries)
    && IsMerge(before, after, Read(now), Read(out))
    && (forall n :: n in names <==> Touched(before, after, n))
    && (out == now <==> AllVerbatim(before, after, Read(now)))
    && (NothingRemoved(before, after, Read(now)) ==> HeadsKept(Read(now), Read(out)))
    && (Alphabetical(Read(now).entries) ==> Alphabetical(Read(out).entries))
    && (NothingInserted(before, after, Read(now)) && NothingRemoved(before, after, Read(now)) ==>
          Rebodied(before, after, Read(now), Read(out), |after.entries|))
  }

  /** The pull request removes no entry the base has. */
  ghost predicate NothingRemoved(before: File, after: File, current: File) {
    forall n :: Has(before, n) && !Has(after, n) ==> !Has(current, n)
  }

  ghost predicate AllVerbatim(before: File, after: File, current: File) {
    forall n :: Touched(before, after, n) ==> Verbatim(before, after, current, n)
  }

  predicate DistinctFile(bytes: string) {
    Distinct(Read(bytes).entries)
  }

  method RerenderFile(was: Option<string>, want: Option<string>, now: Option<string>)
    returns (r: Result<(string, seq<string>), RerenderError>)
    requires DistinctFile(OrEmpty(was)) && DistinctFile(OrEmpty(want)) && DistinctFile(OrEmpty(now))
    ensures want.None? ==> r == Failure(RemovesTheFile)
    ensures want.Some? ==> r.Success? && IsRerendered(Read(OrEmpty(was)), Read(want.value), OrEmpty(now), r.value.0,
        r.value.1)
  {
    if want.None? {
      return Failure(RemovesTheFile);
    }
    var before, after, base := Read(OrEmpty(was)), Read(want.value), OrEmpty(now);
    WriteRead(want.value);
    var mid, named, inserted := ApplyChanges(before, after, base);
    ChangesThenRemovals(before, after, base, mid, named);
    var out, names := ApplyRemovals(before, after, Read(base), mid, named);
    MergeDone(before, after, base, mid, out, names, inserted);
    return Success((out, names));
  }

  lemma ChangesThenRemovals(before: File, after: File, now: string, mid: string, named: seq<string>)
    requires Applied(before, after, Read(now), Read(mid), |after.entries|) &&
        Named(before, after, named, |after.entries|)
    ensures Dropped(before, after, Read(now), Read(mid), 0) && NamedDropped(before, after, named, 0)
  {
  }

  lemma MergeDone(before: File, after: File, now: string, mid: string, out: string, names: seq<string>, inserted: bool)
    requires AppliedBytes(before, after, now, mid, |after.entries|, inserted)
    requires Dropped(before, after, Read(now), Read(out), |before.entries|)
    requires DroppedBytes(before, after, Read(now), mid, out, |before.entries|)
    requires NamedDropped(before, after, names, |before.entries|) && HeadsKept(Read(now), Read(mid))
    requires Alphabetical(Read(now).entries) ==> Alphabetical(Read(out).entries)
    requires NothingInserted(before, after, Read(now)) ==>
               Rebodied(before, after, Read(now), Read(mid), |after.entries|)
    ensures IsRerendered(before, after, now, out, names)
  {
    assert NothingRemoved(before, after, Read(now)) ==> out == mid;
    assert IsMerge(before, after, Read(now), Read(out));
    BytesKept(before, after, now, mid, out, inserted);
    BytesChanged(before, after, now, mid, out, inserted);
  }

  lemma BytesKept(before: File, after: File, now: string, mid: string, out: string, inserted: bool)
    requires AppliedBytes(before, after, now, mid, |after.entries|, inserted)
    requires DroppedBytes(before, after, Read(now), mid, out, |before.entries|)
    ensures AllVerbatim(before, after, Read(now)) ==> out == now
  {
    if AllVerbatim(before, after, Read(now)) {
      assert mid == now;
      forall n | Has(before, n) && !Has(after, n)
        ensures !Has(Read(now), n)
      {
        assert Touched(before, after, n) && Verbatim(before, after, Read(now), n);
      }
    }
  }

  lemma BytesChanged(before: File, after: File, now: string, mid: string, out: string, inserted: bool)
    requires AppliedBytes(before, after, now, mid, |after.entries|, inserted)
    requires IsMerge(before, after, Read(now), Read(out))
    requires DroppedBytes(before, after, Read(now), mid, out, |before.entries|)
    ensures out == now ==> AllVerbatim(before, after, Read(now))
  {
    if out == now {
      forall n | Touched(before, after, n)
        ensures Verbatim(before, after, Read(now), n)
      {
        TouchedIsVerbatim(before, after, now, mid, out, inserted, n);
      }
    }
  }

  lemma TouchedIsVerbatim(before: File, after: File, now: string, mid: string, out: string, inserted: bool, n: string)
    requires AppliedBytes(before, after, now, mid, |after.entries|, inserted)
    requires IsMerge(before, after, Read(now), Read(out))
    requires DroppedBytes(before, after, Read(now), mid, out, |before.entries|)
    requires out == now && Touched(before, after, n)
    ensures Verbatim(before, after, Read(now), n)
  {
    MergeFixed(before, after, Read(now), n);
    if Has(after, n) {
      if inserted {
        var m :| Has(after, m) && Touched(before, after, m) && !Has(Read(now), m);
        MergeFixed(before, after, Read(now), m);
        assert false;
      }
      if exists m :: Has(before, m) && !Has(after, m) && Has(Read(now), m) {
        var m :| Has(before, m) && !Has(after, m) && Has(Read(now), m);
        MergeFixed(before, after, Read(now), m);
        assert false;
      }
      assert mid == out;
    }
  }

  /** Where the merge leaves a touched entry as it was, it reads as the pull request's already. */
  lemma MergeFixed(before: File, after: File, current: File, n: string)
    requires IsMerge(before, after, current, current) && Touched(before, after, n)
    ensures Has(after, n) <==> Has(current, n)
    ensures Has(after, n) ==> Declared(current, n) == Declared(after, n)
  {
    assert Declared(current, n) == Merged(before, after, current, n);
    HasIsDeclared(current, n);
    HasIsDeclared(after, n);
  }

  // ----- laws of the merge

  /** Re-rendering what was re-rendered changes no declaration and, having nothing left to remove, no head comment. */
  lemma RerenderTwice(before: File, after: File, now: string, out: string, again: string, names: seq<string>)
    requires IsRerendered(before, after, now, out, names) && IsRerendered(before, after, out, again, names)
    ensures forall n :: Declared(Read(again), n) == Declared(Read(out), n)
    ensures HeadsKept(Read(out), Read(again))
  {
    forall n | Has(before, n) && !Has(after, n)
      ensures !Has(Read(out), n)
    {
      assert Touched(before, after, n) && Declared(Read(out), n) == Merged(before, after, Read(now), n);
      HasIsDeclared(Read(out), n);
    }
    assert NothingRemoved(before, after, Read(out));
    assert forall n :: Declared(Read(again), n) == Merged(before, after, Read(out), n);
    assert forall n :: Declared(Read(out), n) == Merged(before, after, Read(now), n);
  }

  lemma UntouchedReadsTheSame(before: File, after: File, n: string)
    requires !Touched(before, after, n) && (Has(after, n) ==> after.entries[IndexOf(after.entries, n)].body != [])
    ensures Declared(before, n) == Declared(after, n)
  {
    LookupFinds(before.entries, n, false);
    LookupFinds(after.entries, n, false);
  }

  /** On a base that did not move, re-rendering gives the pull request's own declarations, and where it removes none
      an entry has the pull request's head comment if and only if it had it before. */
  lemma BaseUnmoved(after: File, now: string, out: string, names: seq<string>)
    requires WellFormed(after) && AreLines(Flatten(after)) && IsRerendered(Read(now), after, now, out, names)
    ensures forall n :: Declared(Read(out), n) == Declared(after, n)
    ensures NothingRemoved(Read(now), after, Read(now)) ==>
              forall n :: Has(Read(now), n) ==>
                (HeadIn(Read(out).entries, n) == HeadIn(after.entries, n)
                 <==> HeadIn(Read(now).entries, n) == HeadIn(after.entries, n))
  {
    var before := Read(now);
    forall n
      ensures Declared(Read(out), n) == Declared(after, n)
    {
      HasIsDeclared(after, n);
      HasIsDeclared(before, n);
      assert Declared(Read(out), n) == Merged(before, after, before, n);
      if !Touched(before, after, n) {
        if Has(after, n) {
          AroundIsWell(after, IndexOf(after.entries, n));
        }
        UntouchedReadsTheSame(before, after, n);
      }
    }
    if NothingRemoved(before, after, before) {
      forall n | Has(before, n)
        ensures HeadIn(Read(out).entries, n) == HeadIn(before.entries, n)
      {
        assert HeadIn(before.entries, n).Some?;
      }
    }
  }

  /** Two pull requests that touch different entries re-render to the same declarations in either order. */
  lemma DisjointCommute(before: File, after: File, before': File, after': File, current: File,
                        first: File, second: File, first': File, second': File)
    requires forall n :: !(Touched(before, after, n) && Touched(before', after', n))
    requires IsMerge(before, after, current, first) && IsMerge(before', after', first, second)
    requires IsMerge(before', after', current, first') && IsMerge(before, after, first', second')
    ensures forall n :: Declared(second, n) == Declared(second', n)
  {
  }

  /** A transfer — out of one team's file, into another's — of a repository declared in exactly one of the two now
      leaves it declared in exactly the second, whichever file it stood in. */
  lemma TransferDeclaresOnce(name: string, beforeA: File, afterA: File, nowA: File, outA: File,
                             beforeB: File, afterB: File, nowB: File, outB: File)
    requires IsMerge(beforeA, afterA, nowA, outA) && IsMerge(beforeB, afterB, nowB, outB)
    requires Has(beforeA, name) && !Has(afterA, name) && !Has(beforeB, name) && Has(afterB, name)
    requires afterB.entries[IndexOf(afterB.entries, name)].body != []
    requires Has(nowA, name) != Has(nowB, name)
    ensures !Has(outA, name) && Has(outB, name) && Declared(outB, name) == Declared(afterB, name)
  {
    HasIsDeclared(outA, name);
    HasIsDeclared(outB, name);
    HasIsDeclared(afterB, name);
    HasIsDeclared(beforeB, name);
    assert Touched(beforeA, afterA, name) && Touched(beforeB, afterB, name);
    assert Declared(outA, name) == Merged(beforeA, afterA, nowA, name);
    assert Declared(outB, name) == Merged(beforeB, afterB, nowB, name);
  }

  // ----- the pull request's files together

  /** One changed file of the pull request: its path, and how it reads at the merge base, on the branch and on the base
      now. */
  datatype Changed = Changed(path: string, team: bool, was: Option<string>, want: Option<string>, now: Option<string>)

  predicate AllDistinct(files: seq<Changed>) {
    forall i :: 0 <= i < |files| ==>
      DistinctFile(OrEmpty(files[i].was)) && DistinctFile(OrEmpty(files[i].want)) && DistinctFile(OrEmpty(files[i].now))
  }

  predicate Renders(c: Changed) {
    c.team && c.want.Some?
  }

  /** The file is on the base already, line for line. */
  ghost predicate OnBase(c: Changed)
    requires Renders(c)
  {
    AllVerbatim(Read(OrEmpty(c.was)), Read(c.want.value), Read(OrEmpty(c.now)))
  }

  ghost predicate FileOf(c: Changed, content: string)
    requires Renders(c)
  {
    exists names :: IsRerendered(Read(OrEmpty(c.was)), Read(c.want.value), OrEmpty(c.now), content, names)
  }

  predicate DistinctPaths(files: seq<Changed>) {
    forall i, j :: 0 <= i < j < |files| ==> files[i].path != files[j].path
  }

  /** The first n files rendered: the changed ones collected with their content, and the entries the change is about. */
  ghost predicate Collected(files: seq<Changed>, n: nat, out: map<string, string>, entries: set<string>) {
    CollectedFiles(files, n, out) && CollectedNames(files, n, entries)
  }

  ghost predicate CollectedFiles(files: seq<Changed>, n: nat, out: map<string, string>) {
    && n <= |files|
    && (forall i :: 0 <= i < n ==> Renders(files[i]) && Collects(files[i], out))
    && (forall path :: path in out ==> IsPath(files, n, path))
  }

  ghost predicate CollectedNames(files: seq<Changed>, n: nat, entries: set<string>) {
    forall name :: name in entries <==> TouchedByAny(files, n, name)
  }

  ghost predicate IsPath(files: seq<Changed>, n: nat, path: string) {
    exists i :: 0 <= i < n <= |files| && files[i].path == path
  }

  ghost predicate Collects(c: Changed, out: map<string, string>)
    requires Renders(c)
  {
    && (c.path in out <==> !OnBase(c))
    && (c.path in out ==> FileOf(c, out[c.path]))
  }

  predicate TouchedIn(c: Changed, name: string) {
    Touched(Read(OrEmpty(c.was)), Read(OrEmpty(c.want)), name)
  }

  ghost predicate TouchedByAny(files: seq<Changed>, n: nat, name: string) {
    exists i :: 0 <= i < n <= |files| && TouchedIn(files[i], name)
  }

  lemma TouchedByOneMore(files: seq<Changed>, n: nat, name: string)
    requires n < |files|
    ensures TouchedByAny(files, n + 1, name) <==> TouchedByAny(files, n, name) || TouchedIn(files[n], name)
  {
    if TouchedByAny(files, n, name) {
      var i :| 0 <= i < n <= |files| && TouchedIn(files[i], name);
      assert 0 <= i < n + 1 && TouchedIn(files[i], name);
    }
  }

  /** One rendered file: its content with the names of its entries. */
  ghost predicate Rendering(c: Changed, content: string, names: seq<string>) {
    Renders(c) && IsRerendered(Read(OrEmpty(c.was)), Read(c.want.value), OrEmpty(c.now), content, names)
  }

  lemma RenderingMeans(c: Changed, content: string, names: seq<string>)
    requires Rendering(c, content, names)
    ensures FileOf(c, content) && (content == OrEmpty(c.now) <==> OnBase(c))
    ensures forall name :: name in names <==> TouchedIn(c, name)
  {
  }

  lemma CollectNames(files: seq<Changed>, n: nat, entries: set<string>, names: seq<string>, entries': set<string>)
    requires n < |files| && CollectedNames(files, n, entries)
    requires forall name :: name in names <==> TouchedIn(files[n], name)
    requires entries' == entries + (set name | name in names)
    ensures CollectedNames(files, n + 1, entries')
  {
    forall name
      ensures name in entries' <==> TouchedByAny(files, n + 1, name)
    {
      TouchedByOneMore(files, n, name);
    }
  }

  lemma CollectFile(files: seq<Changed>, n: nat, out: map<string, string>, content: string, out': map<string, string>)
    requires DistinctPaths(files) && n < |files| && Renders(files[n]) && CollectedFiles(files, n, out)
    requires FileOf(files[n], content) && (content == OrEmpty(files[n].now) <==> OnBase(files[n]))
    requires out' == if content != OrEmpty(files[n].now) then out[files[n].path := content] else out
    ensures CollectedFiles(files, n + 1, out')
  {
    var c := files[n];
    assert c.path !in out;
    forall i | 0 <= i < n + 1
      ensures Renders(files[i]) && Collects(files[i], out')
    {
      if i < n {
        assert Collects(files[i], out);
      }
    }
    forall path | path in out'
      ensures IsPath(files, n + 1, path)
    {
      if path in out {
        assert IsPath(files, n, path);
      } else {
        assert files[n].path == path;
      }
    }
  }

  /** RerenderFile on one changed file. */
  method RenderOne(c: Changed) returns (r: Result<(string, seq<string>), RerenderError>)
    requires DistinctFile(OrEmpty(c.was)) && DistinctFile(OrEmpty(c.want)) && DistinctFile(OrEmpty(c.now))
    ensures r.Success? <==> Renders(c)
    ensures r.Success? ==>
              && FileOf(c, r.value.0) && (r.value.0 == OrEmpty(c.now) <==> OnBase(c))
              && (forall name :: name in r.value.1 <==> TouchedIn(c, name))
    ensures r.Failure? ==> r.error == if !c.team then NotATeamFile(c.path) else RemovesTheFile
  {
    if !c.team {
      return Failure(NotATeamFile(c.path));
    }
    r := RerenderFile(c.was, c.want, c.now);
    if r.Success? {
      RenderingMeans(c, r.value.0, r.value.1);
    }
  }

  /** One rendered file into what is committed and named. */
  method CollectOne(files: seq<Changed>, n: nat, content: string, names: seq<string>, before: map<string, string>,
      known: set<string>)
    returns (out: map<string, string>, entries: set<string>)
    requires DistinctPaths(files) && n < |files| && Renders(files[n])
    requires CollectedFiles(files, n, before) && CollectedNames(files, n, known)
    requires FileOf(files[n], content) && (content == OrEmpty(files[n].now) <==> OnBase(files[n]))
    requires forall name :: name in names <==> TouchedIn(files[n], name)
    ensures CollectedFiles(files, n + 1, out) && CollectedNames(files, n + 1, entries)
  {
    entries := known + (set name | name in names);
    out := before;
    if content != OrEmpty(files[n].now) {
      out := out[files[n].path := content];
    }
    CollectNames(files, n, known, names, entries);
    CollectFile(files, n, before, content, out);
  }

  /** The loop over the changed files. */
  method CollectAll(files: seq<Changed>) returns (r: Result<(map<string, string>, set<string>), RerenderError>)
    requires AllDistinct(files) && DistinctPaths(files)
    ensures r.Success? ==> Collected(files, |files|, r.value.0, r.value.1)
    ensures r.Failure? ==> r.error != OnRefAlready && exists i :: 0 <= i < |files| && !Renders(files[i])
  {
    var out: map<string, string>, entries: set<string> := map[], {};
    for n := 0 to |files|
      invariant CollectedFiles(files, n, out) && CollectedNames(files, n, entries)
    {
      var one := RenderOne(files[n]);
      if one.Failure? {
        assert !Renders(files[n]);
        return Failure(one.error);
      }
      out, entries := CollectOne(files, n, one.value.0, one.value.1, out, entries);
    }
    return Success((out, entries));
  }

  /** The team files to commit with their new content, and the entries the change is about. A file that reads as it did
      is left out; with none left the pull request is redundant. */
  method RerenderPullRequest(files: seq<Changed>) returns (r: Result<(map<string, string>, set<string>), RerenderError>)
    requires AllDistinct(files) && DistinctPaths(files)
    ensures r.Success? ==> Collected(files, |files|, r.value.0, r.value.1)
    ensures r == Failure(OnRefAlready) <==> AllOnBase(files)
    ensures r.Failure? && r.error != OnRefAlready ==> exists i :: 0 <= i < |files| && !Renders(files[i])
  {
    r := CollectAll(files);
    if r.Success? {
      NothingCollected(files, r.value.0);
      if |r.value.0| == 0 {
        return Failure(OnRefAlready);
      }
    }
  }

  ghost predicate AllOnBase(files: seq<Changed>) {
    forall i :: 0 <= i < |files| ==> Renders(files[i]) && OnBase(files[i])
  }

  lemma NothingCollected(files: seq<Changed>, out: map<string, string>)
    requires CollectedFiles(files, |files|, out)
    ensures out == map[] <==> AllOnBase(files)
  {
    if out != map[] {
      var path :| path in out;
      var i :| 0 <= i < |files| && files[i].path == path;
      assert Collects(files[i], out);
    } else {
      forall i | 0 <= i < |files|
        ensures Renders(files[i]) && OnBase(files[i])
      {
        assert Collects(files[i], out);
      }
    }
  }

  /** What the pull request makes of a touched entry reads on the base as its lines and, where it is declared, head
      comment included. */
  predicate OnBaseAsDeclared(before: File, after: File, current: File, n: string) {
    var k := IndexOf(after.entries, n);
    if k < |after.entries| then after.entries[k].body != [] && DeclaresAs(current, DeclarationOf(after.entries[k]))
    else !Has(current, n)
  }

  lemma DeclaresAsExactly(f: File, d: Declaration)
    requires WellFormed(f)
    ensures DeclaresAs(f, d) <==> Declared(f, d.name) == Some(d.body) && HeadIn(f.entries, d.name) == Some(d.head)
  {
    LookupFinds(f.entries, d.name, false);
    if Has(f, d.name) {
      EntryIsBody(f, IndexOf(f.entries, d.name));
    }
  }

  lemma EntryIsBody(f: File, k: nat)
    requires WellFormed(f) && k < |f.entries|
    ensures IsBody(f.entries[k].body)
  {
    assert f.entries == f.entries[..k] + f.entries[k..];
    WellSplitAppend(f.entries[..k], f.entries[k..]);
  }

  /** Refused as redundant, the pull request's lines stand on the base already; the change reads there as the pull
      request declares it if and only if the base has its head comment too. */
  lemma RefusedIsRedundantExactly(c: Changed, n: string)
    requires Renders(c) && OnBase(c) && Touched(Read(OrEmpty(c.was)), Read(c.want.value), n)
    ensures var before, after, current := Read(OrEmpty(c.was)), Read(c.want.value), Read(OrEmpty(c.now));
            && Declared(current, n) == (if Has(after, n) then Declared(after, n) else None)
            && (OnBaseAsDeclared(before, after, current, n) <==>
                  Has(after, n) ==> HeadIn(current.entries, n) == HeadIn(after.entries, n))
  {
    var before, after, current := Read(OrEmpty(c.was)), Read(c.want.value), Read(OrEmpty(c.now));
    RefusedIsRedundant(c, n);
    WriteRead(OrEmpty(c.now));
    WriteRead(c.want.value);
    if Has(after, n) {
      var k := IndexOf(after.entries, n);
      EntryIsBody(after, k);
      LookupFinds(after.entries, n, false);
      DeclaresAsExactly(current, DeclarationOf(after.entries[k]));
    } else {
      HasIsDeclared(current, n);
    }
  }

  lemma RefusedIsRedundant(c: Changed, n: string)
    requires Renders(c) && OnBase(c) && Touched(Read(OrEmpty(c.was)), Read(c.want.value), n)
    ensures Declared(Read(OrEmpty(c.now)), n) == if Has(Read(c.want.value), n) then Declared(Read(c.want.value), n)
        else None
  {
    var before, after, current := Read(OrEmpty(c.was)), Read(c.want.value), Read(OrEmpty(c.now));
    assert Verbatim(before, after, current, n);
    HasIsDeclared(current, n);
    HasIsDeclared(after, n);
    LookupFinds(current.entries, n, true);
    LookupFinds(current.entries, n, false);
    LookupFinds(after.entries, n, false);
    if Has(after, n) {
      WriteRead(c.want.value);
      AroundIsWell(after, IndexOf(after.entries, n));
      CanonicalTwice(after.entries[IndexOf(after.entries, n)].body);
    }
  }

  /** Where nothing is removed, a touched entry the base has reads after re-rendering as the pull request declares it
      if and only if the base has its head comment already: re-rendering keeps the base's. */
  lemma MergedIsDeclaredExactly(before: File, after: File, now: string, out: string, names: seq<string>, n: string)
    requires WellFormed(after) && IsRerendered(before, after, now, out, names) &&
        NothingRemoved(before, after, Read(now))
    requires Has(after, n) && Has(Read(now), n) && Touched(before, after, n)
    ensures var d := after.entries[IndexOf(after.entries, n)];
            d.body != []
            && (DeclaresAs(Read(out), DeclarationOf(d)) <==> HeadIn(Read(now).entries, n) == HeadIn(after.entries, n))
  {
    var k := IndexOf(after.entries, n);
    EntryIsBody(after, k);
    WriteRead(out);
    LookupFinds(after.entries, n, false);
    assert Declared(Read(out), n) == Merged(before, after, Read(now), n);
    DeclaresAsExactly(Read(out), DeclarationOf(after.entries[k]));
    assert HeadIn(Read(out).entries, n) == HeadIn(Read(now).entries, n);
  }

  /** So a pull request that changes nothing but an entry's head comment is refused as on the base, which does not
      declare the entry so. */
  lemma HeadCommentIsRefused(first: Entry, d: Declaration, head: seq<string>, path: string)
    requires first.head == [] && IsBody(first.body) && AllTerminated(first.body) && !EndsInComment(first.body)
    requires Renderable(d) && EntryName(first) != d.name && AllComments(head) && AllTerminated(head) && head != d.head
    ensures var before, after := File([], [first, Entry(d.head, d.body)]), File([], [first, Entry(head, d.body)]);
            var c := Changed(path, true, Some(Write(before)), Some(Write(after)), Some(Write(before)));
            && AllDistinct([c]) && AllOnBase([c])
            && Touched(before, after, d.name) && !DeclaresAs(before, DeclarationOf(after.entries[1]))
  {
    var before, after := File([], [first, Entry(d.head, d.body)]), File([], [first, Entry(head, d.body)]);
    TwoEntriesRead(first, d.head, d.body);
    TwoEntriesRead(first, head, d.body);
    HeadChangeIsVerbatim(first, d, head);
    var c := Changed(path, true, Some(Write(before)), Some(Write(after)), Some(Write(before)));
    assert Renders(c) && OnBase(c);
  }

  lemma TwoEntriesRead(first: Entry, head: seq<string>, body: seq<string>)
    requires first.head == [] && IsBody(first.body) && AllTerminated(first.body) && !EndsInComment(first.body)
    requires AllComments(head) && AllTerminated(head) && IsBody(body) && AllTerminated(body)
    requires EntryName(first) != NameOf(body[0])
    ensures var f := File([], [first, Entry(head, body)]); Read(Write(f)) == f && Distinct(f.entries)
  {
    TwoEntriesAreWell(first, head, body);
    ReadWrite(File([], [first, Entry(head, body)]));
  }

  lemma TwoEntriesAreWell(first: Entry, head: seq<string>, body: seq<string>)
    requires first.head == [] && IsBody(first.body) && AllTerminated(first.body) && !EndsInComment(first.body)
    requires AllComments(head) && AllTerminated(head) && IsBody(body) && AllTerminated(body)
    requires EntryName(first) != NameOf(body[0])
    ensures var f := File([], [first, Entry(head, body)]);
            WellFormed(f) && AreLines(Flatten(f)) && Distinct(f.entries)
  {
    var e := Entry(head, body);
    OneEntrySplit(first);
    OneEntrySplit(e);
    WellSplitAppend([first], [e]);
    FlattenAppend([first], [e]);
    assert [first, e] == [first] + [e];
    var lines := Flatten(File([], [first, e]));
    assert lines == first.body + (head + body);
    TerminatedAreLines(lines);
    assert [first, e][1..] == [e] && [e][1..] == [];
  }

  lemma IndexOfTwo(a: Entry, b: Entry, name: string)
    requires EntryName(a) != EntryName(b)
    ensures IndexOf([a, b], name) == if name == EntryName(a) then 0 else if name == EntryName(b) then 1 else 2
  {
    assert [a, b][1..] == [b] && [b][1..] == [];
  }

  lemma SecondReadsAsRendered(first: Entry, head: seq<string>, d: Declaration, raw: bool)
    requires Renderable(d) && EntryName(first) != d.name
    ensures Lookup(Table([first, Entry(head, d.body)], raw), d.name) == Some(d.body)
  {
    var e := Entry(head, d.body);
    IndexOfTwo(first, e, d.name);
    LookupFinds([first, e], d.name, raw);
  }

  lemma HeadChangeIsVerbatim(first: Entry, d: Declaration, head: seq<string>)
    requires first.body != [] && Renderable(d) && EntryName(first) != d.name && head != d.head
    ensures var before, after := File([], [first, Entry(d.head, d.body)]), File([], [first, Entry(head, d.body)]);
            && Touched(before, after, d.name) && !DeclaresAs(before, DeclarationOf(after.entries[1]))
            && AllVerbatim(before, after, before)
  {
    var e, e' := Entry(d.head, d.body), Entry(head, d.body);
    var before, after := File([], [first, e]), File([], [first, e']);
    IndexOfTwo(first, e, d.name);
    IndexOfTwo(first, e', d.name);
    forall n | Touched(before, after, n)
      ensures Verbatim(before, after, before, n)
    {
      IndexOfTwo(first, e, n);
      IndexOfTwo(first, e', n);
      assert n == d.name;
      SecondReadsAsRendered(first, d.head, d, true);
      SecondReadsAsRendered(first, head, d, false);
    }
  }

  /** The refusal is by bytes: an entry that reads on the base as the pull request wants it, with a blank line behind
      it, is rendered again without the line, and the redundant pull request is not refused. */
  lemma BlankLineHidesRedundancy(d: Declaration)
    requires Renderable(d) && d.head == []
    ensures var before, after := File([], []), File([], [Entry([], d.body)]);
            var current := File([], [Entry([], d.body + ["\n"])]);
            && WellFormed(current) && AreLines(Flatten(current))
            && Touched(before, after, d.name)
            && Declared(current, d.name) == Declared(after, d.name)
            && !Verbatim(before, after, current, d.name)
  {
    var body := d.body + ["\n"];
    BlankLineBehind(d.body);
    OneEntrySplit(Entry([], body));
    assert Flatten(File([], [Entry([], body)])) == body;
    TerminatedAreLines(body);
    OneLookup(Entry([], body), d.name);
    OneLookup(Entry([], d.body), d.name);
  }

  lemma BlankLineBehind(body: seq<string>)
    requires IsBody(body) && AllTerminated(body)
    ensures var longer := body + ["\n"];
            IsBody(longer) && AllTerminated(longer) && Canonical(longer) == Canonical(body)
  {
    var longer := body + ["\n"];
    assert !IsStart("\n") && IsBlank("\n") && Terminated("\n");
    assert longer[..|longer| - 1] == body && longer[1..] == body[1..] + ["\n"];
    assert Trimmed(longer) == Trimmed(body);
  }

  lemma OneLookup(e: Entry, name: string)
    requires EntryName(e) == name && e.body != []
    ensures IndexOf([e], name) == 0
    ensures Declared(File([], [e]), name) == Some(Canonical(e.body)) && Standing(File([], [e]), name) == Some(e.body)
  {
    LookupFinds([e], name, false);
    LookupFinds([e], name, true);
  }
}
