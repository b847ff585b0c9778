// A TOML file as the editor sees it: parsed lines, read as a root part and named tables
// (scripts/merge-toml-settings.py).

module TomlLines {
  import opened Options
  import opened Seqs

  // A line is a table header, an assignment of a key, or anything else.
  datatype Line = Header(name: string) | Assign(key: string, value: string) | Other(text: string, blank: bool)

  const NEWLINE: Line := Other("\n", true)

  const ROOT: string := "__root__"

  datatype Table = Table(name: string, body: seq<Line>)

  // The lines before the first header, and the tables in order. Names may repeat.
  datatype Doc = Doc(root: seq<Line>, tables: seq<Table>)

  predicate Plain(body: seq<Line>) {
    forall i | 0 <= i < |body| :: !body[i].Header?
  }

  predicate WellFormed(doc: Doc) {
    Plain(doc.root) && forall i | 0 <= i < |doc.tables| :: Plain(doc.tables[i].body)
  }

  function RenderTables(tables: seq<Table>): seq<Line> {
    if tables == [] then [] else [Header(tables[0].name)] + tables[0].body + RenderTables(tables[1..])
  }

  function Render(doc: Doc): seq<Line> {
    doc.root + RenderTables(doc.tables)
  }

  // The first header at or after i, or the end.
  function NextHeader(lines: seq<Line>, i: nat): (j: nat)
    requires i <= |lines|
    ensures i <= j <= |lines|
    ensures forall k | i <= k < j :: !lines[k].Header?
    ensures j < |lines| ==> lines[j].Header?
    decreases |lines| - i
  {
    if i == |lines| || lines[i].Header? then i else NextHeader(lines, i + 1)
  }

  function ParseTables(lines: seq<Line>): (tables: seq<Table>)
    requires lines == [] || lines[0].Header?
    ensures forall t | t in tables :: Plain(t.body)
  {
    if lines == [] then []
    else
      var n := NextHeader(lines, 1);
      [Table(lines[0].name, lines[1..n])] + ParseTables(lines[n..])
  }

  function Parse(lines: seq<Line>): (doc: Doc)
    ensures WellFormed(doc)
  {
    var n := NextHeader(lines, 0);
    Doc(lines[..n], ParseTables(lines[n..]))
  }

  // ---- reading and writing are inverse ----

  lemma {:induction false} RenderParseTables(lines: seq<Line>)
    requires lines == [] || lines[0].Header?
    ensures RenderTables(ParseTables(lines)) == lines
  {
    if lines != [] {
      var n := NextHeader(lines, 1);
      RenderParseTables(lines[n..]);
      HeadMidTail(lines, n);
    }
  }

  lemma {:induction false} RenderParse(lines: seq<Line>)
    ensures Render(Parse(lines)) == lines
  {
    RenderParseTables(lines[NextHeader(lines, 0)..]);
  }

  lemma {:induction false} NextHeaderIs(lines: seq<Line>, i: nat, j: nat)
    requires i <= j <= |lines| && (forall k | i <= k < j :: !lines[k].Header?) && (j < |lines| ==> lines[j].Header?)
    ensures NextHeader(lines, i) == j
  {
  }

  lemma {:induction false} ParseRenderTables(tables: seq<Table>)
    requires forall i | 0 <= i < |tables| :: Plain(tables[i].body)
    ensures RenderTables(tables) == [] || RenderTables(tables)[0].Header?
    ensures ParseTables(RenderTables(tables)) == tables
  {
    if tables != [] {
      var t, rest := tables[0], RenderTables(tables[1..]);
      ParseRenderTables(tables[1..]);
      var lines := RenderTables(tables);
      var n := 1 + |t.body|;
      NextHeaderIs(lines, 1, n);
      assert lines[1..n] == t.body && lines[n..] == rest;
    }
  }

  lemma {:induction false} ParseRender(doc: Doc)
    requires WellFormed(doc)
    ensures Parse(Render(doc)) == doc
  {
    ParseRenderTables(doc.tables);
    var lines := Render(doc);
    NextHeaderIs(lines, 0, |doc.root|);
    assert lines[..|doc.root|] == doc.root && lines[|doc.root|..] == RenderTables(doc.tables);
  }

  // ---- meaning: the first such key line of the first such table ----

  // The first table of that name, or the number of tables.
  function FindTable(tables: seq<Table>, name: string): (i: nat)
    ensures i <= |tables|
    ensures forall k | 0 <= k < i :: tables[k].name != name
    ensures i < |tables| ==> tables[i].name == name
  {
    if tables == [] || tables[0].name == name then 0 else 1 + FindTable(tables[1..], name)
  }

  // The first line that assigns the key, or the number of lines.
  function FindKey(body: seq<Line>, key: string): (i: nat)
    ensures i <= |body|
    ensures forall k | 0 <= k < i :: !(body[k].Assign? && body[k].key == key)
    ensures i < |body| ==> body[i].Assign? && body[i].key == key
  {
    if body == [] || (body[0].Assign? && body[0].key == key) then 0 else 1 + FindKey(body[1..], key)
  }

  predicate HasTable(doc: Doc, section: string) {
    section == ROOT || FindTable(doc.tables, section) < |doc.tables|
  }

  function Body(doc: Doc, section: string): seq<Line>
    requires HasTable(doc, section)
  {
    if section == ROOT then doc.root else doc.tables[FindTable(doc.tables, section)].body
  }

  function ValueIn(body: seq<Line>, key: string): Option<string> {
    var i := FindKey(body, key);
    if i < |body| then Some(body[i].value) else None
  }

  function Lookup(doc: Doc, section: string, key: string): Option<string> {
    if HasTable(doc, section) then ValueIn(Body(doc, section), key) else None
  }
}
