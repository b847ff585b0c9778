// The edit itself, on the parsed file, and what it means
// (remove_tables and merge_text in scripts/merge-toml-settings.py).

module TomlEdit {
  import opened Options
  import opened TomlLines

  // Managed settings of one section, in order; ROOT stands for the lines before any table.
  datatype Managed = Managed(section: string, values: seq<(string, string)>)

  // A section removes its own table and every descendant table.
  predicate Inside(name: string, section: string) { name == section || section + "." <= name }

  predicate Removed(name: string, sections: seq<string>) {
    exists i :: 0 <= i < |sections| && Inside(name, sections[i])
  }

  // A section whose table every edit takes out.
  predicate Gone(section: string, sections: seq<string>) { section != ROOT && Removed(section, sections) }

  function KeepTables(tables: seq<Table>, sections: seq<string>): seq<Table> {
    if tables == [] then []
    else (if Removed(tables[0].name, sections) then [] else [tables[0]]) + KeepTables(tables[1..], sections)
  }

  function Remove(doc: Doc, sections: seq<string>): Doc {
    Doc(doc.root, KeepTables(doc.tables, sections))
  }

  function SetIn(body: seq<Line>, key: string, value: string): seq<Line> {
    var i := FindKey(body, key);
    if i < |body| then body[i := Assign(key, value)] else body + [Assign(key, value)]
  }

  function WithBody(doc: Doc, section: string, body: seq<Line>): Doc
    requires HasTable(doc, section)
  {
    if section == ROOT then doc.(root := body)
    else var i := FindTable(doc.tables, section); doc.(tables := doc.tables[i := Table(section, body)])
  }

  function SetKey(doc: Doc, section: string, key: string, value: string): Doc
    requires HasTable(doc, section)
  {
    WithBody(doc, section, SetIn(Body(doc, section), key, value))
  }

  function LastBody(doc: Doc): seq<Line> {
    if doc.tables == [] then doc.root else doc.tables[|doc.tables| - 1].body
  }

  // The file is not empty and its last line is not blank.
  predicate EndsInText(doc: Doc) {
    var body := LastBody(doc);
    if body == [] then doc.tables != [] else !(body[|body| - 1].Other? && body[|body| - 1].blank)
  }

  function AppendBlank(doc: Doc): Doc {
    var body := LastBody(doc) + [NEWLINE];
    if doc.tables == [] then doc.(root := body)
    else doc.(tables := doc.tables[|doc.tables| - 1 := Table(doc.tables[|doc.tables| - 1].name, body)])
  }

  function AddTable(doc: Doc, section: string): Doc {
    var spaced := if EndsInText(doc) then AppendBlank(doc) else doc;
    spaced.(tables := spaced.tables + [Table(section, [])])
  }

  function Ensure(doc: Doc, section: string): (d: Doc)
    ensures HasTable(d, section)
  {
    if HasTable(doc, section) then doc else FindAppended(AddTable(doc, section).tables, section); AddTable(doc, section)
  }

  // With no line at all, adding a root key reads the last line of an empty list.
  predicate Breaks(doc: Doc, section: string) { section == ROOT && doc == Doc([], []) }

  function SetKeys(doc: Doc, section: string, values: seq<(string, string)>): (r: Option<Doc>)
    requires HasTable(doc, section)
    ensures r.Some? ==> HasTable(r.value, section)
  {
    if values == [] then Some(doc)
    else
      var n := |values| - 1;
      match SetKeys(doc, section, values[..n])
      case None => None
      case Some(d) =>
        if Breaks(d, section) then None
        else KeyKept(d, section, values[n].0, values[n].1); Some(SetKey(d, section, values[n].0, values[n].1))
  }

  function MergeSections(doc: Doc, settings: seq<Managed>): Option<Doc> {
    if settings == [] then Some(doc)
    else
      var m := settings[|settings| - 1];
      match MergeSections(doc, settings[..|settings| - 1])
      case None => None
      case Some(d) => SetKeys(Ensure(d, m.section), m.section, m.values)
  }

  function Merge(doc: Doc, sections: seq<string>, settings: seq<Managed>): Option<Doc> {
    MergeSections(Remove(doc, sections), settings)
  }

  // ---- single edits ----

  lemma {:induction false} FindTableIs(tables: seq<Table>, name: string, i: nat)
    requires i <= |tables| && (forall k | 0 <= k < i :: tables[k].name != name)
             && (i < |tables| ==> tables[i].name == name)
    ensures FindTable(tables, name) == i
  {
  }

  lemma {:induction false} FindKeyIs(body: seq<Line>, key: string, i: nat)
    requires i <= |body| && (forall k | 0 <= k < i :: !(body[k].Assign? && body[k].key == key))
    requires i < |body| ==> body[i].Assign? && body[i].key == key
    ensures FindKey(body, key) == i
  {
  }

  lemma {:induction false} FindAppended(tables: seq<Table>, name: string)
    requires tables != [] && tables[|tables| - 1].name == name
    ensures FindTable(tables, name) < |tables|
  {
  }

  lemma {:induction false} SetInMeans(body: seq<Line>, key: string, value: string, other: string)
    ensures ValueIn(SetIn(body, key, value), key) == Some(value)
    ensures other != key ==> ValueIn(SetIn(body, key, value), other) == ValueIn(body, other)
  {
    var next := SetIn(body, key, value);
    FindKeyIs(next, key, FindKey(body, key));
    if other != key {
      var j := FindKey(body, other);
      FindKeyIs(next, other, if j == |body| then |next| else j);
    }
  }

  lemma {:induction false} WithBodyMeans(doc: Doc, section: string, body: seq<Line>, t: string)
    requires HasTable(doc, section)
    ensures var d := WithBody(doc, section, body);
            && (HasTable(d, t) <==> HasTable(doc, t))
            && (HasTable(doc, t) ==> Body(d, t) == if t == section then body else Body(doc, t))
  {
    if section != ROOT {
      FindTableIs(WithBody(doc, section, body).tables, t, FindTable(doc.tables, t));
    }
  }

  lemma {:induction false} KeyKept(doc: Doc, section: string, key: string, value: string)
    requires HasTable(doc, section)
    ensures HasTable(SetKey(doc, section, key, value), section)
  {
    WithBodyMeans(doc, section, SetIn(Body(doc, section), key, value), section);
  }

  // Setting a key changes that lookup and no other.
  lemma {:induction false} SetKeyMeans(doc: Doc, section: string, key: string, value: string, t: string, k: string)
    requires HasTable(doc, section)
    ensures var d := SetKey(doc, section, key, value);
            && (HasTable(d, t) <==> HasTable(doc, t))
            && Lookup(d, t, k) == if t == section && k == key then Some(value) else Lookup(doc, t, k)
  {
    WithBodyMeans(doc, section, SetIn(Body(doc, section), key, value), t);
    if t == section { SetInMeans(Body(doc, section), key, value, k); }
  }

  lemma {:induction false} BlankMeansNothing(body: seq<Line>, k: string)
    ensures ValueIn(body + [NEWLINE], k) == ValueIn(body, k)
  {
    var i := FindKey(body, k);
    FindKeyIs(body + [NEWLINE], k, if i == |body| then i + 1 else i);
  }

  lemma {:induction false} AppendBlankMeans(doc: Doc, t: string, k: string)
    ensures HasTable(AppendBlank(doc), t) <==> HasTable(doc, t)
    ensures Lookup(AppendBlank(doc), t, k) == Lookup(doc, t, k)
  {
    BlankMeansNothing(LastBody(doc), k);
    if doc.tables != [] {
      FindTableIs(AppendBlank(doc).tables, t, FindTable(doc.tables, t));
    }
  }

  // A new table changes no lookup.
  lemma {:induction false} EnsureMeans(doc: Doc, section: string, t: string, k: string)
    ensures HasTable(Ensure(doc, section), t) <==> HasTable(doc, t) || t == section
    ensures Lookup(Ensure(doc, section), t, k) == Lookup(doc, t, k)
  {
    if !HasTable(doc, section) {
      var spaced := if EndsInText(doc) then AppendBlank(doc) else doc;
      if EndsInText(doc) {
        AppendBlankMeans(doc, t, k);
        AppendBlankMeans(doc, section, k);
      }
      var i := FindTable(spaced.tables, t);
      FindTableIs(spaced.tables + [Table(section, [])], t, if i == |spaced.tables| && t != section then i + 1 else i);
    }
  }

  // Removing tables changes nothing but the removed tables.
  lemma {:induction false} KeepTablesMeans(tables: seq<Table>, sections: seq<string>, t: string)
    ensures var kept := KeepTables(tables, sections);
            var i, j := FindTable(tables, t), FindTable(kept, t);
            if Removed(t, sections) then j == |kept|
            else (i < |tables| <==> j < |kept|) && (i < |tables| ==> kept[j] == tables[i])
  {
    if tables != [] {
      KeepTablesMeans(tables[1..], sections, t);
      var kept, rest := KeepTables(tables, sections), KeepTables(tables[1..], sections);
      assert FindTable(tables, t) == if tables[0].name == t then 0 else 1 + FindTable(tables[1..], t);
      if Removed(tables[0].name, sections) {
        assert kept == rest;
      } else {
        assert kept == [tables[0]] + rest;
        assert kept[1..] == rest;
        assert FindTable(kept, t) == if tables[0].name == t then 0 else 1 + FindTable(rest, t);
      }
    }
  }

  lemma {:induction false} RemoveMeans(doc: Doc, sections: seq<string>, t: string, k: string)
    ensures var d := Remove(doc, sections);
            if t != ROOT && Removed(t, sections) then !HasTable(d, t)
            else (HasTable(d, t) <==> HasTable(doc, t)) && Lookup(d, t, k) == Lookup(doc, t, k)
  {
    KeepTablesMeans(doc.tables, sections, t);
  }

  // ---- the whole edit ----

  predicate DistinctKeys(values: seq<(string, string)>) {
    forall i, j | 0 <= i < j < |values| :: values[i].0 != values[j].0
  }

  // As in a JSON object: no section twice, and no key twice in a section.
  predicate Distinct(settings: seq<Managed>) {
    && (forall i, j | 0 <= i < j < |settings| :: settings[i].section != settings[j].section)
    && (forall i | 0 <= i < |settings| :: DistinctKeys(settings[i].values))
  }

  predicate ManagesTable(settings: seq<Managed>, section: string) {
    settings != [] && (settings[|settings| - 1].section == section || ManagesTable(settings[..|settings| - 1], section))
  }

  function WantedIn(values: seq<(string, string)>, key: string): Option<string> {
    if values == [] then None
    else
      var n := |values| - 1;
      if values[n].0 == key then Some(values[n].1) else WantedIn(values[..n], key)
  }

  // The value the settings want for a key of a section, if they manage it.
  function Wanted(settings: seq<Managed>, section: string, key: string): Option<string> {
    if settings == [] then None
    else
      var n := |settings| - 1;
      if settings[n].section == section && WantedIn(settings[n].values, key).Some?
      then WantedIn(settings[n].values, key)
      else Wanted(settings[..n], section, key)
  }

  lemma {:induction false} SetKeysMeans(doc: Doc, section: string, values: seq<(string, string)>, t: string, k: string)
    requires HasTable(doc, section) && SetKeys(doc, section, values).Some?
    ensures var d, want := SetKeys(doc, section, values).value, WantedIn(values, k);
            && (HasTable(d, t) <==> HasTable(doc, t))
            && Lookup(d, t, k) == if t == section && want.Some? then want else Lookup(doc, t, k)
  {
    if values != [] {
      var n := |values| - 1;
      SetKeysMeans(doc, section, values[..n], t, k);
      SetKeyMeans(SetKeys(doc, section, values[..n]).value, section, values[n].0, values[n].1, t, k);
    }
  }

  // After the edit a managed key has its wanted value and everything else its old meaning;
  // a table is there if it was, or is managed.
  lemma {:induction false} MergeSectionsMeans(doc: Doc, settings: seq<Managed>, t: string, k: string)
    requires MergeSections(doc, settings).Some?
    ensures var d, want := MergeSections(doc, settings).value, Wanted(settings, t, k);
            && (HasTable(d, t) <==> HasTable(doc, t) || ManagesTable(settings, t))
            && Lookup(d, t, k) == if want.Some? then want else Lookup(doc, t, k)
  {
    if settings != [] {
      var n := |settings| - 1;
      var m := settings[n];
      MergeSectionsMeans(doc, settings[..n], t, k);
      var d := MergeSections(doc, settings[..n]).value;
      EnsureMeans(d, m.section, t, k);
      SetKeysMeans(Ensure(d, m.section), m.section, m.values, t, k);
    }
  }

  // The whole edit, removals included: a removed table and its descendants are gone unless
  // managed, and then hold only what is managed.
  lemma {:induction false} MergeMeans(doc: Doc, sections: seq<string>, settings: seq<Managed>, t: string, k: string)
    requires Merge(doc, sections, settings).Some?
    ensures var d, want := Merge(doc, sections, settings).value, Wanted(settings, t, k);
            var gone := t != ROOT && Removed(t, sections);
            && (HasTable(d, t) <==> (HasTable(doc, t) && !gone) || ManagesTable(settings, t))
            && Lookup(d, t, k) == if want.Some? then want else if gone then None else Lookup(doc, t, k)
  {
    RemoveMeans(doc, sections, t, k);
    MergeSectionsMeans(Remove(doc, sections), settings, t, k);
  }

  lemma {:induction false} WantedInIs(values: seq<(string, string)>, j: nat)
    requires j < |values| && DistinctKeys(values)
    ensures WantedIn(values, values[j].0) == Some(values[j].1)
  {
    var n := |values| - 1;
    if j < n {
      assert values[j].0 != values[n].0;
      WantedInIs(values[..n], j);
    }
  }

  // With distinct sections and keys, every listed pair is what is wanted.
  lemma {:induction false} WantedIs(settings: seq<Managed>, i: nat, j: nat)
    requires Distinct(settings) && i < |settings| && j < |settings[i].values|
    ensures Wanted(settings, settings[i].section, settings[i].values[j].0) == Some(settings[i].values[j].1)
    ensures ManagesTable(settings, settings[i].section)
  {
    var n := |settings| - 1;
    if i < n {
      assert settings[i].section != settings[n].section;
      WantedIs(settings[..n], i, j);
    } else {
      WantedInIs(settings[n].values, j);
    }
  }

  lemma {:induction false} Manages(settings: seq<Managed>, i: nat)
    requires i < |settings|
    ensures ManagesTable(settings, settings[i].section)
  {
    if i < |settings| - 1 { Manages(settings[..|settings| - 1], i); }
  }

  // ---- when the edit fails ----

  const NOTHING: Doc := Doc([], [])

  lemma {:induction false} SetKeysFails(doc: Doc, section: string, values: seq<(string, string)>)
    requires HasTable(doc, section)
    ensures SetKeys(doc, section, values).None? <==> Breaks(doc, section) && values != []
    ensures SetKeys(doc, section, values).Some? && doc != NOTHING ==> SetKeys(doc, section, values).value != NOTHING
  {
    if values != [] {
      SetKeysFails(doc, section, values[..|values| - 1]);
    }
  }

  lemma {:induction false} MergeOfSomething(doc: Doc, settings: seq<Managed>)
    requires doc != NOTHING
    ensures MergeSections(doc, settings).Some? && MergeSections(doc, settings).value != NOTHING
  {
    if settings != [] {
      var n := |settings| - 1;
      MergeOfSomething(doc, settings[..n]);
      var d := MergeSections(doc, settings[..n]).value;
      SetKeysFails(Ensure(d, settings[n].section), settings[n].section, settings[n].values);
    }
  }

  // The edit fails exactly when no line is left and the first thing to do is to add a root key.
  lemma {:induction false} MergeFails(doc: Doc, settings: seq<Managed>)
    requires Distinct(settings)
    ensures MergeSections(doc, settings).None? <==>
              doc == NOTHING && settings != [] && settings[0].section == ROOT && settings[0].values != []
  {
    if doc != NOTHING {
      MergeOfSomething(doc, settings);
    } else if settings != [] {
      var n := |settings| - 1;
      MergeFails(doc, settings[..n]);
      if n > 0 && MergeSections(doc, settings[..n]).Some? {
        assert settings[0].section != settings[n].section;
        AfterFirst(settings[..n]);
      }
      if MergeSections(doc, settings[..n]).Some? {
        var d := MergeSections(doc, settings[..n]).value;
        SetKeysFails(Ensure(d, settings[n].section), settings[n].section, settings[n].values);
        if n == 0 { assert settings[..0] == []; }
      }
    }
  }

  // After a first section other than the root there is something; after the root alone, perhaps not.
  lemma {:induction false} AfterFirst(settings: seq<Managed>)
    requires settings != [] && Distinct(settings) && MergeSections(NOTHING, settings).Some?
    ensures MergeSections(NOTHING, settings).value != NOTHING || (|settings| == 1 && settings[0].section == ROOT)
  {
    var n := |settings| - 1;
    var m, d := settings[n], MergeSections(NOTHING, settings[..n]).value;
    if n > 0 {
      AfterFirst(settings[..n]);
      assert settings[0].section != m.section;
    } else {
      assert settings[..0] == [];
    }
    SetKeysFails(Ensure(d, m.section), m.section, m.values);
  }

  // ---- a second edit changes nothing ----

  // Every managed pair already has its value.
  predicate Settled(doc: Doc, settings: seq<Managed>) {
    forall i | 0 <= i < |settings| ::
      HasTable(doc, settings[i].section) && KeysSettled(doc, settings[i].section, settings[i].values)
  }

  predicate KeysSettled(doc: Doc, section: string, values: seq<(string, string)>) {
    forall j | 0 <= j < |values| :: Lookup(doc, section, values[j].0) == Some(values[j].1)
  }

  lemma {:induction false} SameBody(doc: Doc, section: string)
    requires HasTable(doc, section)
    ensures WithBody(doc, section, Body(doc, section)) == doc
  {
  }

  lemma {:induction false} SettledKeysKeep(doc: Doc, section: string, values: seq<(string, string)>)
    requires HasTable(doc, section) && KeysSettled(doc, section, values)
    ensures SetKeys(doc, section, values) == Some(doc)
  {
    if values != [] {
      var n := |values| - 1;
      var key, value := values[n].0, values[n].1;
      SettledKeysKeep(doc, section, values[..n]);
      assert Lookup(doc, section, key) == Some(value);
      var body := Body(doc, section);
      var i := FindKey(body, key);
      assert body[i] == Assign(key, value);
      assert SetIn(body, key, value) == body;
      SameBody(doc, section);
      assert !Breaks(doc, section);
    }
  }

  lemma {:induction false} SettledKeeps(doc: Doc, settings: seq<Managed>)
    requires Settled(doc, settings)
    ensures MergeSections(doc, settings) == Some(doc)
  {
    if settings != [] {
      var n := |settings| - 1;
      SettledKeeps(doc, settings[..n]);
      SettledKeysKeep(doc, settings[n].section, settings[n].values);
    }
  }

  predicate NoneRemoved(tables: seq<Table>, sections: seq<string>) {
    forall i | 0 <= i < |tables| :: !Removed(tables[i].name, sections)
  }

  lemma {:induction false} KeepsNoneRemoved(tables: seq<Table>, sections: seq<string>)
    ensures NoneRemoved(KeepTables(tables, sections), sections)
    ensures NoneRemoved(tables, sections) ==> KeepTables(tables, sections) == tables
  {
    if tables != [] {
      KeepsNoneRemoved(tables[1..], sections);
      if NoneRemoved(tables, sections) {
        assert !Removed(tables[0].name, sections);
        assert tables == [tables[0]] + tables[1..];
      }
    }
  }

  lemma {:induction false} SetKeysNoneRemoved(doc: Doc, section: string, values: seq<(string, string)>,
                                              sections: seq<string>)
    requires HasTable(doc, section) && SetKeys(doc, section, values).Some? && NoneRemoved(doc.tables, sections)
    ensures NoneRemoved(SetKeys(doc, section, values).value.tables, sections)
  {
    if values != [] {
      SetKeysNoneRemoved(doc, section, values[..|values| - 1], sections);
    }
  }

  lemma {:induction false} MergeNoneRemoved(doc: Doc, settings: seq<Managed>, sections: seq<string>)
    requires MergeSections(doc, settings).Some? && NoneRemoved(doc.tables, sections)
    requires forall i | 0 <= i < |settings| :: !Gone(settings[i].section, sections)
    ensures NoneRemoved(MergeSections(doc, settings).value.tables, sections)
  {
    if settings != [] {
      var n := |settings| - 1;
      MergeNoneRemoved(doc, settings[..n], sections);
      var d := MergeSections(doc, settings[..n]).value;
      assert NoneRemoved(Ensure(d, settings[n].section).tables, sections);
      SetKeysNoneRemoved(Ensure(d, settings[n].section), settings[n].section, settings[n].values, sections);
    }
  }

  // When no managed table lies inside a removed one, editing the result again changes nothing.
  lemma {:induction false} MergeIdempotent(doc: Doc, sections: seq<string>, settings: seq<Managed>)
    requires Distinct(settings) && Merge(doc, sections, settings).Some?
    requires forall i | 0 <= i < |settings| :: !Gone(settings[i].section, sections)
    ensures Merge(Merge(doc, sections, settings).value, sections, settings) == Merge(doc, sections, settings)
  {
    var kept, d := Remove(doc, sections), Merge(doc, sections, settings).value;
    KeepsNoneRemoved(doc.tables, sections);
    MergeNoneRemoved(kept, settings, sections);
    KeepsNoneRemoved(d.tables, sections);
    assert Remove(d, sections) == d;
    forall i | 0 <= i < |settings|
      ensures HasTable(d, settings[i].section) && KeysSettled(d, settings[i].section, settings[i].values)
    {
      Manages(settings, i);
      MergeSectionsMeans(kept, settings, settings[i].section, "");
      forall j | 0 <= j < |settings[i].values|
        ensures Lookup(d, settings[i].section, settings[i].values[j].0) == Some(settings[i].values[j].1)
      {
        WantedIs(settings, i, j);
        MergeSectionsMeans(kept, settings, settings[i].section, settings[i].values[j].0);
      }
    }
    SettledKeeps(d, settings);
  }
}
