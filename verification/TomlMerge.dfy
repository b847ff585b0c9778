// The in-place editor on the list of lines, proved against the edit of the parsed file
// (table_bounds, remove_tables and merge_text in scripts/merge-toml-settings.py).

module TomlMerge {
  import opened Options
  import opened Seqs
  import opened TomlLines
  import opened TomlEdit

  // A header index, or -1 for the root part, and the index where the part ends.
  datatype Range = Range(start: int, end: int)

  ghost function Offset(doc: Doc, i: nat): nat
    requires i <= |doc.tables|
  {
    |doc.root| + |RenderTables(doc.tables[..i])|
  }

  ghost function Bounds(doc: Doc, section: string): (r: Option<Range>)
    ensures r.Some? <==> HasTable(doc, section)
  {
    if section == ROOT then Some(Range(-1, |doc.root|))
    else
      var i := FindTable(doc.tables, section);
      if i == |doc.tables| then None else Some(Range(Offset(doc, i), Offset(doc, i) + 1 + |doc.tables[i].body|))
  }

  // ---- where the tables lie in the rendered lines ----

  lemma {:induction false} RenderTablesConcat(a: seq<Table>, b: seq<Table>)
    ensures RenderTables(a + b) == RenderTables(a) + RenderTables(b)
  {
    if a == [] {
      assert a + b == b;
    } else {
      RenderTablesConcat(a[1..], b);
      ConcatTail(a, b);
      var head, mid, tail := [Header(a[0].name)] + a[0].body, RenderTables(a[1..]), RenderTables(b);
      assert head + (mid + tail) == head + mid + tail;
    }
  }

  // The lines before table i, its header and body, and the lines after it.
  lemma {:induction false} SplitAt(doc: Doc, i: nat)
    requires i < |doc.tables|
    ensures Render(doc) ==
              (doc.root + RenderTables(doc.tables[..i])) + [Header(doc.tables[i].name)] + doc.tables[i].body
              + RenderTables(doc.tables[i + 1..])
  {
    RenderTablesConcat(doc.tables[..i], doc.tables[i..]);
    assert doc.tables == doc.tables[..i] + doc.tables[i..];
    assert doc.tables[i..][1..] == doc.tables[i + 1..];
    Regroup(doc.root, RenderTables(doc.tables[..i]), [Header(doc.tables[i].name)], doc.tables[i].body,
            RenderTables(doc.tables[i + 1..]));
  }

  lemma {:induction false} Regroup(a: seq<Line>, b: seq<Line>, c: seq<Line>, d: seq<Line>, e: seq<Line>)
    ensures a + (b + (c + d + e)) == (a + b) + c + d + e
  {
  }

  lemma {:induction false} HeadersNamed(tables: seq<Table>, j: nat) returns (k: nat)
    requires (forall i | 0 <= i < |tables| :: Plain(tables[i].body))
    requires j < |RenderTables(tables)| && RenderTables(tables)[j].Header?
    ensures k < |tables| && tables[k].name == RenderTables(tables)[j].name
  {
    var n := 1 + |tables[0].body|;
    if j == 0 {
      return 0;
    }
    var head := [Header(tables[0].name)] + tables[0].body;
    assert RenderTables(tables) == head + RenderTables(tables[1..]);
    assert forall m | 0 < m < n :: head[m] == tables[0].body[m - 1];
    k := HeadersNamed(tables[1..], j - n);
    k := k + 1;
  }

  // Replacing a part's body replaces just its lines.
  lemma {:induction false} Splice(doc: Doc, section: string, body: seq<Line>)
    requires HasTable(doc, section)
    ensures var r, lines := Bounds(doc, section).value, Render(doc);
            && -1 <= r.start < r.end <= |lines| && lines[r.start + 1..r.end] == Body(doc, section)
            && Render(WithBody(doc, section, body)) == lines[..r.start + 1] + body + lines[r.end..]
  {
    if section != ROOT {
      var i := FindTable(doc.tables, section);
      var d := WithBody(doc, section, body);
      SplitAt(doc, i);
      SplitAt(d, i);
      assert d.tables[..i] == doc.tables[..i] && d.tables[i + 1..] == doc.tables[i + 1..];
    }
  }

  lemma {:induction false} TableLines(doc: Doc, i: nat)
    requires WellFormed(doc) && i < |doc.tables|
    ensures var lines, o, stop := Render(doc), Offset(doc, i), Offset(doc, i) + 1 + |doc.tables[i].body|;
            && stop <= |lines| && lines[o] == Header(doc.tables[i].name)
            && NextHeader(lines, o + 1) == stop
  {
    SplitAt(doc, i);
    var lines, o, stop := Render(doc), Offset(doc, i), Offset(doc, i) + 1 + |doc.tables[i].body|;
    assert forall k | o < k < stop :: lines[k] == doc.tables[i].body[k - o - 1];
    ParseRenderTables(doc.tables[i + 1..]);
    assert stop < |lines| ==> lines[stop] == RenderTables(doc.tables[i + 1..])[0];
    NextHeaderIs(lines, o + 1, stop);
  }

  // No header of that name comes before the first table of that name.
  lemma {:induction false} NotBefore(doc: Doc, section: string, i: nat, start: nat)
    requires WellFormed(doc) && i <= |doc.tables| && forall k | 0 <= k < i :: doc.tables[k].name != section
    requires start < Offset(doc, i) && start < |Render(doc)|
    ensures Render(doc)[start] != Header(section)
  {
    RenderTablesConcat(doc.tables[..i], doc.tables[i..]);
    assert doc.tables == doc.tables[..i] + doc.tables[i..];
    var lines := Render(doc);
    if start < |doc.root| {
      assert lines[start] == doc.root[start];
    } else {
      var before := RenderTables(doc.tables[..i]);
      assert lines[start] == before[start - |doc.root|];
      if lines[start].Header? {
        var m := HeadersNamed(doc.tables[..i], start - |doc.root|);
      }
    }
  }

  lemma {:induction false} FirstNamed(doc: Doc, section: string, start: nat)
    requires WellFormed(doc) && section != ROOT && start < |Render(doc)| && Render(doc)[start] == Header(section)
    requires forall k | 0 <= k < start :: Render(doc)[k] != Header(section)
    ensures FindTable(doc.tables, section) < |doc.tables| && start == Offset(doc, FindTable(doc.tables, section))
  {
    var i := FindTable(doc.tables, section);
    if i == |doc.tables| {
      assert doc.tables[..i] == doc.tables;
      NotBefore(doc, section, i, start);
    } else {
      TableLines(doc, i);
      if start < Offset(doc, i) { NotBefore(doc, section, i, start); }
    }
  }

  // The first header of that name and the next header delimit the section.
  lemma {:induction false} BoundsAre(doc: Doc, section: string, start: nat, end: nat)
    requires WellFormed(doc) && section != ROOT && start < |Render(doc)| && Render(doc)[start] == Header(section)
    requires forall k | 0 <= k < start :: Render(doc)[k] != Header(section)
    requires end == NextHeader(Render(doc), start + 1)
    ensures Bounds(doc, section) == Some(Range(start, end))
  {
    FirstNamed(doc, section, start);
    TableLines(doc, FindTable(doc.tables, section));
  }

  lemma {:induction false} NoBounds(doc: Doc, section: string)
    requires WellFormed(doc) && section != ROOT
             && forall k | 0 <= k < |Render(doc)| :: Render(doc)[k] != Header(section)
    ensures Bounds(doc, section) == None
  {
    var i := FindTable(doc.tables, section);
    if i < |doc.tables| {
      TableLines(doc, i);
    }
  }

  method TableBounds(lines: seq<Line>, section: string, ghost doc: Doc) returns (r: Option<Range>)
    requires WellFormed(doc) && lines == Render(doc)
    ensures r == Bounds(doc, section)
  {
    if section == ROOT {
      for index := 0 to |lines|
        invariant index <= |doc.root|
      {
        if lines[index].Header? {
          RootEnds(doc, index);
          return Some(Range(-1, index));
        }
      }
      RootEnds(doc, |lines|);
      return Some(Range(-1, |lines|));
    }
    var start := -1;
    for index := 0 to |lines|
      invariant -1 <= start < index
      invariant start == -1 ==> forall k | 0 <= k < index :: lines[k] != Header(section)
      invariant start >= 0 ==>
                  lines[start] == Header(section) && forall k | 0 <= k < start :: lines[k] != Header(section)
      invariant start >= 0 ==> forall k | start < k < index :: !lines[k].Header?
    {
      if start == -1 {
        if lines[index] == Header(section) { start := index; }
      } else if lines[index].Header? {
        NextHeaderIs(lines, start + 1, index);
        BoundsAre(doc, section, start, index);
        return Some(Range(start, index));
      }
    }
    if start == -1 {
      NoBounds(doc, section);
      return None;
    }
    NextHeaderIs(lines, start + 1, |lines|);
    BoundsAre(doc, section, start, |lines|);
    return Some(Range(start, |lines|));
  }

  lemma {:induction false} RootEnds(doc: Doc, index: nat)
    requires WellFormed(doc) && index <= |Render(doc)|
    requires index < |Render(doc)| ==> Render(doc)[index].Header?
    requires index <= |doc.root|
    ensures index == |doc.root|
  {
    ParseRenderTables(doc.tables);
  }

  // ---- setting one key ----

  // A part's lines, by position.
  ghost predicate PartAt(lines: seq<Line>, r: Range, body: seq<Line>) {
    && -1 <= r.start < r.end <= |lines| && |body| == r.end - r.start - 1
    && forall k | 0 <= k < |body| :: lines[r.start + 1 + k] == body[k]
  }

  lemma {:induction false} SliceAt(lines: seq<Line>, r: Range, body: seq<Line>)
    requires -1 <= r.start < r.end <= |lines| && lines[r.start + 1..r.end] == body
    ensures PartAt(lines, r, body)
  {
    assert forall k | 0 <= k < |body| :: lines[r.start + 1 + k] == body[k];
  }

  lemma {:induction false} PartLines(doc: Doc, section: string)
    requires HasTable(doc, section)
    ensures PartAt(Render(doc), Bounds(doc, section).value, Body(doc, section))
  {
    Splice(doc, section, Body(doc, section));
    SliceAt(Render(doc), Bounds(doc, section).value, Body(doc, section));
  }

  lemma {:induction false} AppendToPart(lines: seq<Line>, from: nat, to: nat, x: Line)
    requires from <= to <= |lines|
    ensures lines[..from] + (lines[from..to] + [x]) + lines[to..] == lines[..to] + [x] + lines[to..]
  {
    assert lines[..from] + lines[from..to] == lines[..to];
  }

  lemma {:induction false} UpdatePart(lines: seq<Line>, from: nat, to: nat, body: seq<Line>, i: nat, x: Line)
    requires from <= to <= |lines| && lines[from..to] == body && i < |body|
    ensures from + i < |lines| && lines[..from] + body[i := x] + lines[to..] == lines[from + i := x]
  {
  }

  lemma {:induction false} ReplacedKey(doc: Doc, section: string, key: string, value: string)
    requires HasTable(doc, section) && FindKey(Body(doc, section), key) < |Body(doc, section)|
    ensures var i, r, lines := FindKey(Body(doc, section), key), Bounds(doc, section).value, Render(doc);
            && PartAt(lines, r, Body(doc, section))
            && Render(SetKey(doc, section, key, value)) == lines[r.start + 1 + i := Assign(key, value)]
  {
    PartLines(doc, section);
    ReplacedLine(doc, section, FindKey(Body(doc, section), key), Assign(key, value));
  }

  lemma {:induction false} ReplacedLine(doc: Doc, section: string, i: nat, x: Line)
    requires HasTable(doc, section) && i < |Body(doc, section)|
    ensures var r, lines := Bounds(doc, section).value, Render(doc);
            && 0 <= r.start + 1 + i < |lines|
            && Render(WithBody(doc, section, Body(doc, section)[i := x])) == lines[r.start + 1 + i := x]
  {
    var r, body := Bounds(doc, section).value, Body(doc, section);
    Splice(doc, section, body[i := x]);
    UpdatePart(Render(doc), r.start + 1, r.end, body, i, x);
  }

  lemma {:induction false} InsertedKey(doc: Doc, section: string, key: string, value: string)
    requires HasTable(doc, section) && FindKey(Body(doc, section), key) == |Body(doc, section)|
    ensures var r, lines := Bounds(doc, section).value, Render(doc);
            && PartAt(lines, r, Body(doc, section))
            && Render(SetKey(doc, section, key, value)) == lines[..r.end] + [Assign(key, value)] + lines[r.end..]
  {
    var body := Body(doc, section);
    var r, lines := Bounds(doc, section).value, Render(doc);
    PartLines(doc, section);
    Splice(doc, section, SetIn(body, key, value));
    AppendToPart(lines, r.start + 1, r.end, Assign(key, value));
  }

  lemma {:induction false} SetKeyWellFormed(doc: Doc, section: string, key: string, value: string)
    requires HasTable(doc, section) && WellFormed(doc)
    ensures WellFormed(SetKey(doc, section, key, value))
  {
    assert Plain(Body(doc, section));
  }

  method FindLine(lines: seq<Line>, r: Range, key: string, ghost body: seq<Line>) returns (index: int)
    requires PartAt(lines, r, body)
    ensures index == r.start + 1 + FindKey(body, key)
  {
    index := r.start + 1;
    while index < r.end && !(lines[index].Assign? && lines[index].key == key)
      invariant r.start < index <= r.end
      invariant forall k | 0 <= k < index - r.start - 1 :: !(body[k].Assign? && body[k].key == key)
    {
      assert lines[r.start + 1 + (index - r.start - 1)] == body[index - r.start - 1];
      index := index + 1;
    }
    FindKeyIs(body, key, index - r.start - 1);
  }

  lemma {:induction false} EmptyRender(doc: Doc)
    ensures Render(doc) == [] <==> doc == Doc([], [])
  {
  }

  lemma {:induction false} BreaksIff(doc: Doc, section: string)
    requires HasTable(doc, section)
    ensures Breaks(doc, section) <==> Render(doc) == []
  {
    EmptyRender(doc);
  }

  // Replace the first line of the part that assigns the key, or insert one at its end.
  method PutKey(lines: seq<Line>, section: string, key: string, value: string, ghost doc: Doc)
    returns (r: Option<seq<Line>>)
    requires WellFormed(doc) && lines == Render(doc) && HasTable(doc, section)
    ensures r == if Breaks(doc, section) then None else Some(Render(SetKey(doc, section, key, value)))
  {
    PartLines(doc, section);
    var bounds := TableBounds(lines, section, doc);
    var start, end := bounds.value.start, bounds.value.end;
    var index := FindLine(lines, bounds.value, key, Body(doc, section));
    BreaksIff(doc, section);
    if index < end {
      ReplacedKey(doc, section, key, value);
      var replaced := lines[index := Assign(key, value)];
      assert replaced == Render(SetKey(doc, section, key, value));
      return Some(replaced);
    }
    InsertedKey(doc, section, key, value);
    if end > start && lines == [] {
      return None;
    }
    var next := lines[..end] + [Assign(key, value)] + lines[end..];
    assert next == Render(SetKey(doc, section, key, value));
    return Some(next);
  }

  // ---- adding a table ----

  lemma {:induction false} LastLine(doc: Doc)
    requires WellFormed(doc)
    ensures EndsInText(doc) <==>
              Render(doc) != [] && !(Render(doc)[|Render(doc)| - 1].Other? && Render(doc)[|Render(doc)| - 1].blank)
    ensures WellFormed(AppendBlank(doc))
    ensures Render(AppendBlank(doc)) == Render(doc) + [NEWLINE]
  {
    var n := |doc.tables| - 1;
    if n >= 0 {
      var d := AppendBlank(doc);
      SplitAt(doc, n);
      SplitAt(d, n);
      assert doc.tables[n + 1..] == [] && d.tables[n + 1..] == [] && d.tables[..n] == doc.tables[..n];
    }
  }

  lemma {:induction false} EmptyTable(section: string)
    ensures RenderTables([Table(section, [])]) == [Header(section)]
  {
    assert [Table(section, [])][1..] == [];
  }

  lemma {:induction false} SpacedLines(doc: Doc, spaced: Doc)
    requires WellFormed(doc) && spaced == if EndsInText(doc) then AppendBlank(doc) else doc
    ensures WellFormed(spaced) && Render(spaced) == Render(doc) + if EndsInText(doc) then [NEWLINE] else []
  {
    LastLine(doc);
  }

  lemma {:induction false} AddedTable(doc: Doc, section: string)
    requires WellFormed(doc)
    ensures WellFormed(AddTable(doc, section))
    ensures Render(AddTable(doc, section)) ==
              Render(doc) + (if EndsInText(doc) then [NEWLINE] else []) + [Header(section)]
  {
    var spaced := if EndsInText(doc) then AppendBlank(doc) else doc;
    SpacedLines(doc, spaced);
    RenderTablesConcat(spaced.tables, [Table(section, [])]);
    EmptyTable(section);
  }

  method EnsureTable(lines: seq<Line>, section: string, ghost doc: Doc) returns (next: seq<Line>)
    requires WellFormed(doc) && lines == Render(doc)
    ensures WellFormed(Ensure(doc, section)) && next == Render(Ensure(doc, section))
  {
    next := lines;
    var bounds := TableBounds(lines, section, doc);
    if bounds.None? {
      LastLine(doc);
      AddedTable(doc, section);
      if lines != [] && !(lines[|lines| - 1].Other? && lines[|lines| - 1].blank) {
        next := next + [NEWLINE];
      }
      next := next + [Header(section)];
    }
  }

  // ---- removing tables ----

  // The lines outside removed tables; on says whether the part we are in is kept.
  ghost function Keep(lines: seq<Line>, sections: seq<string>, on: bool): seq<Line> {
    if lines == [] then []
    else
      var still := if lines[0].Header? then !Removed(lines[0].name, sections) else on;
      (if still then [lines[0]] else []) + Keep(lines[1..], sections, still)
  }

  lemma {:induction false} KeepPlain(body: seq<Line>, rest: seq<Line>, sections: seq<string>, on: bool)
    requires Plain(body)
    ensures Keep(body + rest, sections, on) == (if on then body else []) + Keep(rest, sections, on)
  {
    if body == [] {
      assert body + rest == rest;
    } else {
      KeepPlain(body[1..], rest, sections, on);
      ConcatTail(body, rest);
      Rejoin(body, Keep(rest, sections, on));
    }
  }

  lemma {:induction false} KeepTable(t: Table, rest: seq<Line>, sections: seq<string>, on: bool)
    requires Plain(t.body)
    ensures var still := !Removed(t.name, sections);
            Keep([Header(t.name)] + t.body + rest, sections, on) ==
              (if still then [Header(t.name)] + t.body else []) + Keep(rest, sections, still)
  {
    var lines, still := [Header(t.name)] + t.body + rest, !Removed(t.name, sections);
    KeepPlain(t.body, rest, sections, still);
    assert lines[1..] == t.body + rest && lines[0] == Header(t.name);
    assert [Header(t.name)] + (t.body + Keep(rest, sections, still)) ==
             [Header(t.name)] + t.body + Keep(rest, sections, still);
  }

  lemma {:induction false} KeepRender(tables: seq<Table>, sections: seq<string>, on: bool)
    requires forall i | 0 <= i < |tables| :: Plain(tables[i].body)
    ensures Keep(RenderTables(tables), sections, on) == RenderTables(KeepTables(tables, sections))
  {
    if tables != [] {
      var t, still := tables[0], !Removed(tables[0].name, sections);
      KeepRender(tables[1..], sections, still);
      KeepTable(t, RenderTables(tables[1..]), sections, on);
      if still {
        RenderCons(t, KeepTables(tables[1..], sections));
      } else {
        assert KeepTables(tables, sections) == KeepTables(tables[1..], sections);
      }
    }
  }

  lemma {:induction false} RenderCons(t: Table, rest: seq<Table>)
    ensures RenderTables([t] + rest) == [Header(t.name)] + t.body + RenderTables(rest)
  {
    assert ([t] + rest)[1..] == rest;
  }

  lemma {:induction false} KeepIsRemove(doc: Doc, sections: seq<string>)
    requires WellFormed(doc)
    ensures Keep(Render(doc), sections, true) == Render(Remove(doc, sections)) && WellFormed(Remove(doc, sections))
  {
    KeepPlain(doc.root, RenderTables(doc.tables), sections, true);
    KeepRender(doc.tables, sections, true);
    KeptPlain(doc.tables, sections);
  }

  lemma {:induction false} KeptPlain(tables: seq<Table>, sections: seq<string>)
    requires forall i | 0 <= i < |tables| :: Plain(tables[i].body)
    ensures forall i | 0 <= i < |KeepTables(tables, sections)| :: Plain(KeepTables(tables, sections)[i].body)
  {
    if tables != [] { KeptPlain(tables[1..], sections); }
  }

  predicate RemovedHeader(line: Line, sections: seq<string>) { line.Header? && Removed(line.name, sections) }

  // Lines without a removed header are kept, and what follows does not depend on them.
  lemma {:induction false} KeepRun(run: seq<Line>, rest: seq<Line>, sections: seq<string>)
    requires forall k | 0 <= k < |run| :: !RemovedHeader(run[k], sections)
    ensures Keep(run + rest, sections, true) == run + Keep(rest, sections, true)
  {
    if run == [] {
      assert run + rest == rest;
    } else {
      KeepRun(run[1..], rest, sections);
      ConcatTail(run, rest);
      Rejoin(run, Keep(rest, sections, true));
    }
  }

  // A removed header and its body vanish; the next part begins with a header of its own.
  lemma {:induction false} KeepDrop(header: Line, body: seq<Line>, rest: seq<Line>, sections: seq<string>)
    requires RemovedHeader(header, sections) && Plain(body) && (rest == [] || rest[0].Header?)
    ensures Keep([header] + body + rest, sections, true) == Keep(rest, sections, true)
  {
    KeepPlain(body, rest, sections, false);
    assert ([header] + body + rest)[1..] == body + rest;
  }

  // The positions of all headers, in order.
  ghost predicate AllHeaders(lines: seq<Line>, headers: seq<nat>) {
    && NextHeader(lines, 0) == (if headers == [] then |lines| else headers[0])
    && forall k | 0 <= k < |headers| ::
         && headers[k] < |lines|
         && NextHeader(lines, headers[k] + 1) == if k + 1 < |headers| then headers[k + 1] else |lines|
  }

  // Each header so far is the next one after the header before it.
  ghost predicate HeadersSoFar(lines: seq<Line>, headers: seq<nat>) {
    && (headers != [] ==> NextHeader(lines, 0) == headers[0])
    && (forall k | 0 <= k < |headers| :: headers[k] < |lines|)
    && forall k | 0 <= k < |headers| - 1 :: NextHeader(lines, headers[k] + 1) == headers[k + 1]
  }

  ghost function Beyond(headers: seq<nat>): nat {
    if headers == [] then 0 else headers[|headers| - 1] + 1
  }

  lemma {:induction false} OneMoreHeader(lines: seq<Line>, headers: seq<nat>, index: nat)
    requires HeadersSoFar(lines, headers) && index < |lines|
    requires Beyond(headers) <= |lines| && NextHeader(lines, Beyond(headers)) == index
    ensures HeadersSoFar(lines, headers + [index])
  {
  }

  method FindHeaders(lines: seq<Line>) returns (headers: seq<nat>)
    ensures AllHeaders(lines, headers)
  {
    headers := [];
    for index := 0 to |lines|
      invariant Beyond(headers) <= index && HeadersSoFar(lines, headers)
      invariant forall j | Beyond(headers) <= j < index :: !lines[j].Header?
    {
      if lines[index].Header? {
        NextHeaderIs(lines, Beyond(headers), index);
        OneMoreHeader(lines, headers, index);
        headers := headers + [index];
      }
    }
    NextHeaderIs(lines, Beyond(headers), |lines|);
  }

  // A removed table's range: its header up to the next header.
  ghost predicate RemovedRange(lines: seq<Line>, r: Range, sections: seq<string>) {
    0 <= r.start < |lines| && RemovedHeader(lines[r.start], sections) && r.end == NextHeader(lines, r.start + 1)
  }

  ghost predicate NoneBetween(lines: seq<Line>, from: int, to: int, sections: seq<string>) {
    0 <= from <= to <= |lines| && forall j | from <= j < to :: !RemovedHeader(lines[j], sections)
  }

  ghost function EndBefore(ranges: seq<Range>, k: nat): int
    requires k <= |ranges|
  {
    if k == 0 then 0 else ranges[k - 1].end
  }

  // Removed ranges in order, with no removed header between them.
  ghost predicate Apart(lines: seq<Line>, ranges: seq<Range>, sections: seq<string>) {
    forall k {:trigger EndBefore(ranges, k)} | 0 <= k < |ranges| ::
      RemovedRange(lines, ranges[k], sections) && NoneBetween(lines, EndBefore(ranges, k), ranges[k].start, sections)
  }

  // The ranges of all removed tables that begin before limit.
  ghost predicate RangesOf(lines: seq<Line>, ranges: seq<Range>, sections: seq<string>, limit: int) {
    Apart(lines, ranges, sections) && NoneBetween(lines, EndBefore(ranges, |ranges|), limit, sections)
  }

  lemma {:induction false} NextRange(lines: seq<Line>, ranges: seq<Range>, sections: seq<string>, start: nat, end: nat)
    requires start < |lines| && lines[start].Header? && RangesOf(lines, ranges, sections, start)
             && end == NextHeader(lines, start + 1)
    ensures Removed(lines[start].name, sections) ==> RangesOf(lines, ranges + [Range(start, end)], sections, end)
    ensures !Removed(lines[start].name, sections) ==> RangesOf(lines, ranges, sections, end)
  {
    var last := EndBefore(ranges, |ranges|);
    if Removed(lines[start].name, sections) {
      var r, more := Range(start, end), ranges + [Range(start, end)];
      assert RemovedRange(lines, r, sections);
      forall k | 0 <= k < |more|
        ensures RemovedRange(lines, more[k], sections)
                && NoneBetween(lines, EndBefore(more, k), more[k].start, sections)
      {
        if k < |ranges| {
          assert more[k] == ranges[k] && EndBefore(more, k) == EndBefore(ranges, k);
        } else {
          assert more[k] == r && EndBefore(more, k) == last;
        }
      }
    } else {
      NoneFurther(lines, last, start, end, sections);
    }
  }

  lemma {:induction false} NoneFurther(lines: seq<Line>, from: int, start: nat, end: nat, sections: seq<string>)
    requires start < |lines| && !RemovedHeader(lines[start], sections) && NoneBetween(lines, from, start, sections)
    requires end == NextHeader(lines, start + 1)
    ensures NoneBetween(lines, from, end, sections)
  {
    forall j | from <= j < end ensures !RemovedHeader(lines[j], sections) {
      if j > start { assert !lines[j].Header?; }
    }
  }

  method CollectRanges(lines: seq<Line>, sections: seq<string>) returns (ranges: seq<Range>)
    ensures RangesOf(lines, ranges, sections, |lines|)
  {
    var headers := FindHeaders(lines);
    ranges := [];
    for position := 0 to |headers|
      invariant RangesOf(lines, ranges, sections, if position < |headers| then headers[position] else |lines|)
      invariant position < |headers| ==> lines[headers[position]].Header?
    {
      var start := headers[position];
      var end := if position + 1 < |headers| then headers[position + 1] else |lines|;
      NextRange(lines, ranges, sections, start, end);
      if Removed(lines[start].name, sections) {
        ranges := ranges + [Range(start, end)];
      }
    }
  }

  lemma {:induction false} HeaderFirst(lines: seq<Line>, from: nat, to: nat)
    requires from < to <= |lines|
    ensures lines[from..] == [lines[from]] + lines[from + 1..to] + lines[to..]
  {
  }

  lemma {:induction false} DropRange(lines: seq<Line>, r: Range, tail: int, sections: seq<string>)
    requires RemovedRange(lines, r, sections) && NoneBetween(lines, r.end, tail, sections)
    ensures Keep(lines[r.start..], sections, true) == lines[r.end..tail] + Keep(lines[tail..], sections, true)
  {
    var body, run, rest := lines[r.start + 1..r.end], lines[r.end..tail], lines[tail..];
    DropSplit(lines, r.end, tail);
    KeepRun(run, rest, sections);
    HeaderFirst(lines, r.start, r.end);
    KeepDrop(lines[r.start], body, lines[r.end..], sections);
  }

  lemma {:induction false} CutOut(lines: seq<Line>, from: nat, to: nat, tail: nat, kept: seq<Line>)
    requires from <= to <= tail <= |lines|
    ensures var left := lines[..tail] + kept; left[..from] + left[to..] == lines[..from] + (lines[to..tail] + kept)
  {
  }

  lemma {:induction false} RangeAt(lines: seq<Line>, ranges: seq<Range>, sections: seq<string>, k: nat)
    requires Apart(lines, ranges, sections) && k < |ranges|
    ensures RemovedRange(lines, ranges[k], sections)
            && NoneBetween(lines, EndBefore(ranges, k), ranges[k].start, sections)
  {
    assert EndBefore(ranges, k) <= |lines|;
  }

  // Delete the ranges from the last to the first.
  method DeleteRanges(lines: seq<Line>, ranges: seq<Range>, sections: seq<string>) returns (left: seq<Line>)
    requires RangesOf(lines, ranges, sections, |lines|)
    ensures left == Keep(lines, sections, true)
  {
    left := lines;
    ghost var tail := |lines|;
    var k := |ranges|;
    ghost var kept := [];
    assert lines[..|lines|] == lines && lines[|lines|..] == [];
    while k > 0
      invariant 0 <= k <= |ranges| && NoneBetween(lines, EndBefore(ranges, k), tail, sections)
      invariant kept == Keep(lines[tail..], sections, true) && left == lines[..tail] + kept
    {
      k := k - 1;
      var r := ranges[k];
      assert EndBefore(ranges, k + 1) == r.end;
      RangeAt(lines, ranges, sections, k);
      DropRange(lines, r, tail, sections);
      CutOut(lines, r.start, r.end, tail, kept);
      left := left[..r.start] + left[r.end..];
      kept := lines[r.end..tail] + kept;
      tail := r.start;
    }
    KeepRun(lines[..tail], lines[tail..], sections);
    assert lines == lines[..tail] + lines[tail..];
  }

  method RemoveTables(lines: seq<Line>, sections: seq<string>, ghost doc: Doc) returns (left: seq<Line>)
    requires WellFormed(doc) && lines == Render(doc)
    ensures WellFormed(Remove(doc, sections)) && left == Render(Remove(doc, sections))
  {
    KeepIsRemove(doc, sections);
    var ranges := CollectRanges(lines, sections);
    left := DeleteRanges(lines, ranges, sections);
  }

  // ---- the whole edit ----

  lemma {:induction false} KeysInit(doc: Doc, section: string, values: seq<(string, string)>, n: nat)
    requires HasTable(doc, section) && n < |values|
    ensures SetKeys(doc, section, values[..n + 1]) ==
            match SetKeys(doc, section, values[..n])
            case None => None
            case Some(d) => if Breaks(d, section) then None else Some(SetKey(d, section, values[n].0, values[n].1))
  {
    assert values[..n + 1][..n] == values[..n];
  }

  lemma {:induction false} KeysFailOn(doc: Doc, section: string, values: seq<(string, string)>, n: nat)
    requires HasTable(doc, section) && n <= |values| && SetKeys(doc, section, values[..n]).None?
    ensures SetKeys(doc, section, values).None?
    decreases |values| - n
  {
    if n < |values| {
      KeysInit(doc, section, values, n);
      KeysFailOn(doc, section, values, n + 1);
    } else {
      assert values[..n] == values;
    }
  }

  method PutKeys(lines: seq<Line>, section: string, values: seq<(string, string)>, ghost doc: Doc)
    returns (r: Option<seq<Line>>, ghost d: Doc)
    requires WellFormed(doc) && lines == Render(doc) && HasTable(doc, section)
    ensures r.Some? <==> SetKeys(doc, section, values).Some?
    ensures r.Some? ==> WellFormed(d) && SetKeys(doc, section, values) == Some(d) && r.value == Render(d)
  {
    var text := lines;
    d := doc;
    for n := 0 to |values|
      invariant WellFormed(d) && text == Render(d) && SetKeys(doc, section, values[..n]) == Some(d)
    {
      KeysInit(doc, section, values, n);
      var next := PutKey(text, section, values[n].0, values[n].1, d);
      if next.None? {
        KeysFailOn(doc, section, values, n + 1);
        return None, d;
      }
      SetKeyWellFormed(d, section, values[n].0, values[n].1);
      text, d := next.value, SetKey(d, section, values[n].0, values[n].1);
    }
    assert values[..|values|] == values;
    r := Some(text);
  }

  lemma {:induction false} SectionsFailOn(doc: Doc, settings: seq<Managed>, n: nat)
    requires n <= |settings| && MergeSections(doc, settings[..n]).None?
    ensures MergeSections(doc, settings).None?
    decreases |settings| - n
  {
    if n < |settings| {
      assert settings[..n + 1][..n] == settings[..n];
      SectionsFailOn(doc, settings, n + 1);
    } else {
      assert settings[..n] == settings;
    }
  }

  // The lines after the edit, or None where the original stops with an index error.
  method MergeText(lines: seq<Line>, sections: seq<string>, settings: seq<Managed>) returns (r: Option<seq<Line>>)
    ensures r.Some? <==> Merge(Parse(lines), sections, settings).Some?
    ensures r.Some? ==> Parse(r.value) == Merge(Parse(lines), sections, settings).value
  {
    ghost var doc := Parse(lines);
    RenderParse(lines);
    var text := RemoveTables(lines, sections, doc);
    ghost var kept := Remove(doc, sections);
    ghost var d := kept;
    for n := 0 to |settings|
      invariant WellFormed(d) && text == Render(d) && MergeSections(kept, settings[..n]) == Some(d)
    {
      assert settings[..n + 1][..n] == settings[..n];
      var m := settings[n];
      var ensured := EnsureTable(text, m.section, d);
      var next;
      ghost var after;
      next, after := PutKeys(ensured, m.section, m.values, Ensure(d, m.section));
      if next.None? {
        SectionsFailOn(kept, settings, n + 1);
        return None;
      }
      text, d := next.value, after;
    }
    assert settings[..|settings|] == settings;
    ParseRender(d);
    r := Some(text);
  }
}
