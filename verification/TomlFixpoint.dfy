// Editing again: when the second edit changes nothing, and that the third never does
// (merge_text in scripts/merge-toml-settings.py).

module TomlFixpoint {
  import opened Options
  import opened Seqs
  import opened TomlLines
  import opened TomlEdit

  // ---- one section, at the level of bodies ----

  function SetIns(body: seq<Line>, values: seq<(string, string)>): seq<Line> {
    if values == [] then body
    else var n := |values| - 1; SetIn(SetIns(body, values[..n]), values[n].0, values[n].1)
  }

  lemma {:induction false} WithBodyTwice(doc: Doc, section: string, first: seq<Line>, second: seq<Line>)
    requires HasTable(doc, section)
    ensures HasTable(WithBody(doc, section, first), section)
    ensures WithBody(WithBody(doc, section, first), section, second) == WithBody(doc, section, second)
  {
    WithBodyMeans(doc, section, first, section);
    if section != ROOT {
      var i := FindTable(doc.tables, section);
      FindTableIs(WithBody(doc, section, first).tables, section, i);
    }
  }

  lemma {:induction false} SetKeysIs(doc: Doc, section: string, values: seq<(string, string)>)
    requires HasTable(doc, section) && doc != NOTHING
    ensures SetKeys(doc, section, values) == Some(WithBody(doc, section, SetIns(Body(doc, section), values)))
  {
    if values == [] {
      SameBody(doc, section);
    } else {
      var n := |values| - 1;
      SetKeysIs(doc, section, values[..n]);
      SetKeysFails(doc, section, values[..n]);
      var body := SetIns(Body(doc, section), values[..n]);
      WithBodyMeans(doc, section, body, section);
      WithBodyTwice(doc, section, body, SetIn(body, values[n].0, values[n].1));
    }
  }

  lemma {:induction false} MergeConcat(doc: Doc, a: seq<Managed>, b: seq<Managed>)
    ensures MergeSections(doc, a + b) ==
              match MergeSections(doc, a)
              case None => None
              case Some(d) => MergeSections(d, b)
  {
    if b == [] {
      assert a + b == a;
    } else {
      var n := |b| - 1;
      assert (a + b)[..|a + b| - 1] == a + b[..n];
      MergeConcat(doc, a, b[..n]);
    }
  }

  lemma {:induction false} MergeNext(doc: Doc, settings: seq<Managed>, n: nat, d: Doc, e: Doc)
    requires n < |settings| && MergeSections(doc, settings[..n]) == Some(d)
             && MergeSections(d, [settings[n]]) == Some(e)
    ensures MergeSections(doc, settings[..n + 1]) == Some(e)
  {
    TakeNext(settings, n);
    MergeConcat(doc, settings[..n], [settings[n]]);
  }

  // ---- the tables that are taken out and put back ----

  function Spaced(doc: Doc): Doc {
    if EndsInText(doc) then AppendBlank(doc) else doc
  }

  lemma {:induction false} SpacedTwice(doc: Doc)
    ensures !EndsInText(Spaced(doc)) && Spaced(Spaced(doc)) == Spaced(doc)
    ensures |Spaced(doc).tables| == |doc.tables|
    ensures forall i | 0 <= i < |doc.tables| :: Spaced(doc).tables[i].name == doc.tables[i].name
  {
    assert [NEWLINE][0].blank;
  }

  function Join(doc: Doc, tables: seq<Table>): Doc {
    Doc(doc.root, doc.tables + tables)
  }

  function AddOne(tables: seq<Table>, m: Managed): seq<Table> {
    Spaced(Doc([], tables)).tables + [Table(m.section, SetIns([], m.values))]
  }

  // The removed sections of these settings, appended in turn.
  function Adds(tables: seq<Table>, settings: seq<Managed>, sections: seq<string>): seq<Table> {
    if settings == [] then tables
    else
      var n := |settings| - 1;
      var before := Adds(tables, settings[..n], sections);
      if Gone(settings[n].section, sections) then AddOne(before, settings[n]) else before
  }

  lemma {:induction false} AddsConcat(tables: seq<Table>, a: seq<Managed>, b: seq<Managed>, sections: seq<string>)
    ensures Adds(tables, a + b, sections) == Adds(Adds(tables, a, sections), b, sections)
  {
    if b == [] {
      assert a + b == a;
    } else {
      assert (a + b)[..|a + b| - 1] == a + b[..|b| - 1];
      AddsConcat(tables, a, b[..|b| - 1], sections);
    }
  }

  lemma {:induction false} AddsNonEmpty(tables: seq<Table>, settings: seq<Managed>, sections: seq<string>)
    requires tables != []
    ensures Adds(tables, settings, sections) != []
  {
    if settings != [] {
      AddsNonEmpty(tables, settings[..|settings| - 1], sections);
    }
  }

  // Each is removed and is one of the sections managed.
  lemma {:induction false} AddsNamed(tables: seq<Table>, settings: seq<Managed>, sections: seq<string>, i: nat)
    requires i < |Adds(tables, settings, sections)|
    ensures var name := Adds(tables, settings, sections)[i].name;
            (i < |tables| && name == tables[i].name) || (Gone(name, sections) && ManagesTable(settings, name))
  {
    if settings != [] {
      var n := |settings| - 1;
      var before := Adds(tables, settings[..n], sections);
      SpacedTwice(Doc([], before));
      if i < |before| {
        AddsNamed(tables, settings[..n], sections, i);
      }
    }
  }

  lemma {:induction false} NotManaged(settings: seq<Managed>, n: nat)
    requires Distinct(settings) && n < |settings|
    ensures !ManagesTable(settings[..n], settings[n].section)
  {
    NotManagedBefore(settings, n, n);
  }

  lemma {:induction false} NotManagedBefore(settings: seq<Managed>, k: nat, n: nat)
    requires Distinct(settings) && k <= n < |settings|
    ensures !ManagesTable(settings[..k], settings[n].section)
  {
    if k > 0 {
      NotManagedBefore(settings, k - 1, n);
      assert settings[..k][..k - 1] == settings[..k - 1];
      assert settings[k - 1].section != settings[n].section;
    }
  }

  // Adding a table behind tables leaves what is before them alone.
  lemma {:induction false} AddBehind(doc: Doc, tables: seq<Table>, m: Managed)
    requires m.section != ROOT && !HasTable(Join(doc, tables), m.section)
    ensures MergeSections(Join(doc, tables), [m]) ==
              Some(if tables == [] then Join(Spaced(doc), AddOne([], m)) else Join(doc, AddOne(tables, m)))
  {
    var d := Join(doc, tables);
    assert [m][..0] == [];
    var last := Table(m.section, []);
    if tables == [] {
      assert d == doc && Spaced(Doc([], [])) == Doc([], []);
      assert AddTable(d, m.section) == Join(Spaced(doc), [last]);
      SpacedTwice(doc);
      FindTableIs(Spaced(doc).tables, m.section, |doc.tables|);
      assert Join(Spaced(doc), []) == Spaced(doc);
      LastSet(Spaced(doc), [], m);
      assert [] + [last] == [last];
      assert AddOne([], m) == [Table(m.section, SetIns([], m.values))];
    } else {
      SpacedBehind(doc, tables);
      var spaced := Spaced(Doc([], tables)).tables;
      assert AddTable(d, m.section) == Join(doc, spaced + [last]);
      SpacedTwice(d);
      FindTableIs(Spaced(d).tables, m.section, |d.tables|);
      LastSet(doc, spaced, m);
    }
  }

  lemma {:induction false} SpacedBehind(doc: Doc, tables: seq<Table>)
    requires tables != []
    ensures Spaced(Join(doc, tables)) == Join(doc, Spaced(Doc([], tables)).tables)
  {
  }

  lemma {:induction false} LastSet(doc: Doc, tables: seq<Table>, m: Managed)
    requires m.section != ROOT && !HasTable(Join(doc, tables), m.section)
    ensures var d := Join(doc, tables + [Table(m.section, [])]);
            && HasTable(d, m.section)
            && SetKeys(d, m.section, m.values) == Some(Join(doc, tables + [Table(m.section, SetIns([], m.values))]))
  {
    var before, last := doc.tables + tables, Table(m.section, []);
    var d := Join(doc, tables + [last]);
    assert d.tables == before + [last];
    FindTableIs(d.tables, m.section, |before|);
    SetKeysIs(d, m.section, m.values);
    var filled := Table(m.section, SetIns([], m.values));
    assert d.tables[|before| := filled] == doc.tables + (tables + [filled]);
  }

  // ---- an edit of a file that has everything but the removed tables ----

  // A managed section that is not removed is there, with its values.
  predicate SettledAt(doc: Doc, m: Managed, sections: seq<string>) {
    !Gone(m.section, sections) ==> HasTable(doc, m.section) && KeysSettled(doc, m.section, m.values)
  }

  predicate SettledBut(doc: Doc, settings: seq<Managed>, sections: seq<string>) {
    forall i | 0 <= i < |settings| :: SettledAt(doc, settings[i], sections)
  }

  // The same file with the removed sections put back at its end.
  function Finish(doc: Doc, settings: seq<Managed>, sections: seq<string>): Doc {
    var added := Adds([], settings, sections);
    if added == [] then doc else Join(Spaced(doc), added)
  }

  lemma {:induction false} SpacedMeans(doc: Doc, t: string, k: string)
    ensures HasTable(Spaced(doc), t) <==> HasTable(doc, t)
    ensures Lookup(Spaced(doc), t, k) == Lookup(doc, t, k)
  {
    if EndsInText(doc) {
      AppendBlankMeans(doc, t, k);
    }
  }

  lemma {:induction false} JoinMeans(doc: Doc, tables: seq<Table>, t: string, k: string)
    requires HasTable(doc, t)
    ensures HasTable(Join(doc, tables), t) && Lookup(Join(doc, tables), t, k) == Lookup(doc, t, k)
  {
    if t != ROOT {
      FindTableIs(Join(doc, tables).tables, t, FindTable(doc.tables, t));
    }
  }

  lemma {:induction false} FinishKeeps(doc: Doc, settings: seq<Managed>, sections: seq<string>, t: string, k: string)
    requires HasTable(doc, t)
    ensures var d := Finish(doc, settings, sections); HasTable(d, t) && Lookup(d, t, k) == Lookup(doc, t, k)
  {
    SpacedMeans(doc, t, k);
    JoinMeans(Spaced(doc), Adds([], settings, sections), t, k);
  }

  lemma {:induction false} GoneIsMissing(doc: Doc, settings: seq<Managed>, sections: seq<string>, n: nat)
    requires Distinct(settings) && n < |settings| && Gone(settings[n].section, sections)
    requires NoneRemoved(doc.tables, sections)
    ensures !HasTable(Finish(doc, settings[..n], sections), settings[n].section)
  {
    var d, added := Finish(doc, settings[..n], sections), Adds([], settings[..n], sections);
    var section := settings[n].section;
    SpacedTwice(doc);
    NotManaged(settings, n);
    var i := FindTable(d.tables, section);
    if |doc.tables| <= i < |d.tables| {
      AddsNamed([], settings[..n], sections, i - |doc.tables|);
    }
  }

  lemma {:induction false} SettledStep(doc: Doc, settings: seq<Managed>, sections: seq<string>, n: nat)
    requires Distinct(settings) && NoneRemoved(doc.tables, sections) && SettledBut(doc, settings, sections)
    requires n < |settings|
    ensures MergeSections(Finish(doc, settings[..n], sections), [settings[n]]) ==
              Some(Finish(doc, settings[..n + 1], sections))
  {
    var m, before := settings[n], settings[..n];
    assert settings[..n + 1][..n] == before;
    if Gone(m.section, sections) {
      GoneIsMissing(doc, settings, sections, n);
      assert Join(doc, []) == doc;
      var added := Adds([], before, sections);
      AddBehind(if added == [] then doc else Spaced(doc), added, m);
    } else {
      assert SettledAt(doc, m, sections);
      SettledStays(Finish(doc, before, sections), doc, before, sections, m);
    }
  }

  lemma {:induction false} SettledNext(doc: Doc, settings: seq<Managed>, sections: seq<string>, n: nat)
    requires Distinct(settings) && NoneRemoved(doc.tables, sections) && SettledBut(doc, settings, sections)
    requires n < |settings| && MergeSections(doc, settings[..n]) == Some(Finish(doc, settings[..n], sections))
    ensures MergeSections(doc, settings[..n + 1]) == Some(Finish(doc, settings[..n + 1], sections))
  {
    SettledStep(doc, settings, sections, n);
    MergeNext(doc, settings, n, Finish(doc, settings[..n], sections), Finish(doc, settings[..n + 1], sections));
  }

  lemma {:induction false} SettledRun(doc: Doc, settings: seq<Managed>, sections: seq<string>, n: nat)
    requires Distinct(settings) && NoneRemoved(doc.tables, sections) && SettledBut(doc, settings, sections)
    requires n <= |settings|
    ensures MergeSections(doc, settings[..n]) == Some(Finish(doc, settings[..n], sections))
  {
    if n > 0 {
      SettledRun(doc, settings, sections, n - 1);
      SettledNext(doc, settings, sections, n - 1);
    }
  }

  lemma {:induction false} SettledStays(d: Doc, doc: Doc, before: seq<Managed>, sections: seq<string>, m: Managed)
    requires d == Finish(doc, before, sections)
    requires HasTable(doc, m.section) && KeysSettled(doc, m.section, m.values)
    ensures MergeSections(d, [m]) == Some(d)
  {
    FinishKeeps(doc, before, sections, m.section, "");
    forall j | 0 <= j < |m.values|
      ensures Lookup(d, m.section, m.values[j].0) == Some(m.values[j].1)
    {
      FinishKeeps(doc, before, sections, m.section, m.values[j].0);
    }
    SettledKeysKeep(d, m.section, m.values);
    assert [m][..0] == [];
  }

  // ---- the second edit, and the third ----

  lemma {:induction false} SettledOne(doc: Doc, sections: seq<string>, settings: seq<Managed>, i: nat)
    requires Distinct(settings) && Merge(doc, sections, settings).Some?
    requires i < |settings| && !Gone(settings[i].section, sections)
    ensures var kept := Remove(Merge(doc, sections, settings).value, sections);
            HasTable(kept, settings[i].section) && KeysSettled(kept, settings[i].section, settings[i].values)
  {
    var m, d := settings[i], Merge(doc, sections, settings).value;
    Manages(settings, i);
    MergeSectionsMeans(Remove(doc, sections), settings, m.section, "");
    RemoveMeans(d, sections, m.section, "");
    forall j | 0 <= j < |m.values|
      ensures Lookup(Remove(d, sections), m.section, m.values[j].0) == Some(m.values[j].1)
    {
      WantedIs(settings, i, j);
      MergeSectionsMeans(Remove(doc, sections), settings, m.section, m.values[j].0);
      RemoveMeans(d, sections, m.section, m.values[j].0);
    }
  }

  lemma {:induction false} EditedIsSettled(doc: Doc, sections: seq<string>, settings: seq<Managed>)
    requires Distinct(settings) && Merge(doc, sections, settings).Some?
    ensures var kept := Remove(Merge(doc, sections, settings).value, sections);
            NoneRemoved(kept.tables, sections) && SettledBut(kept, settings, sections)
  {
    var d := Merge(doc, sections, settings).value;
    KeepsNoneRemoved(d.tables, sections);
    forall i | 0 <= i < |settings|
      ensures SettledAt(Remove(d, sections), settings[i], sections)
    {
      if !Gone(settings[i].section, sections) {
        SettledOne(doc, sections, settings, i);
      }
    }
  }

  // A second edit takes the removed tables out and puts them back at the end; it never fails.
  lemma {:induction false} SecondEdit(doc: Doc, sections: seq<string>, settings: seq<Managed>)
    requires Distinct(settings) && Merge(doc, sections, settings).Some?
    ensures var once := Merge(doc, sections, settings).value;
            Merge(once, sections, settings) == Some(Finish(Remove(once, sections), settings, sections))
  {
    EditedIsSettled(doc, sections, settings);
    SettledRun(Remove(Merge(doc, sections, settings).value, sections), settings, sections, |settings|);
    assert settings[..|settings|] == settings;
  }

  lemma {:induction false} KeepConcat(a: seq<Table>, b: seq<Table>, sections: seq<string>)
    ensures KeepTables(a + b, sections) == KeepTables(a, sections) + KeepTables(b, sections)
  {
    if a == [] {
      assert a + b == b;
    } else {
      assert (a + b)[1..] == a[1..] + b;
      KeepConcat(a[1..], b, sections);
    }
  }

  lemma {:induction false} KeepNone(tables: seq<Table>, sections: seq<string>)
    requires forall i | 0 <= i < |tables| :: Removed(tables[i].name, sections)
    ensures KeepTables(tables, sections) == []
  {
    if tables != [] {
      KeepNone(tables[1..], sections);
    }
  }

  lemma {:induction false} TakenOut(doc: Doc, settings: seq<Managed>, sections: seq<string>)
    requires NoneRemoved(doc.tables, sections)
    ensures Remove(Finish(doc, settings, sections), sections) ==
              if Adds([], settings, sections) == [] then doc else Spaced(doc)
  {
    var added := Adds([], settings, sections);
    KeepsNoneRemoved(doc.tables, sections);
    SpacedTwice(doc);
    KeepsNoneRemoved(Spaced(doc).tables, sections);
    forall i | 0 <= i < |added|
      ensures Removed(added[i].name, sections)
    {
      AddsNamed([], settings, sections, i);
    }
    KeepNone(added, sections);
    KeepConcat(Spaced(doc).tables, added, sections);
  }

  // Whatever the settings, a third edit changes nothing.
  lemma {:induction false} ThirdEditChangesNothing(doc: Doc, sections: seq<string>, settings: seq<Managed>)
    requires Distinct(settings) && Merge(doc, sections, settings).Some?
    ensures var once := Merge(doc, sections, settings).value;
            Merge(once, sections, settings).Some?
            && Merge(Merge(once, sections, settings).value, sections, settings) == Merge(once, sections, settings)
  {
    var once := Merge(doc, sections, settings).value;
    var kept := Remove(once, sections);
    SecondEdit(doc, sections, settings);
    SecondEdit(once, sections, settings);
    EditedIsSettled(doc, sections, settings);
    TakenOut(kept, settings, sections);
    SpacedTwice(kept);
  }

  // ---- exactly when the second edit changes nothing ----

  // The first managed section that is removed, or the number of sections.
  function FirstGone(settings: seq<Managed>, sections: seq<string>): (i: nat)
    ensures i <= |settings|
    ensures forall k | 0 <= k < i :: !Gone(settings[k].section, sections)
    ensures i < |settings| ==> Gone(settings[i].section, sections)
  {
    if settings == [] || Gone(settings[0].section, sections) then 0 else 1 + FirstGone(settings[1..], sections)
  }

  // The section's part is the last of the file.
  predicate IsLast(doc: Doc, section: string) {
    if section == ROOT then doc.tables == [] else FindTable(doc.tables, section) + 1 == |doc.tables|
  }

  predicate AllThere(doc: Doc, m: Managed) {
    forall j | 0 <= j < |m.values| :: Lookup(doc, m.section, m.values[j].0).Some?
  }

  // The later sections that are not removed were in the file.
  predicate AllKnown(kept: Doc, later: seq<Managed>, sections: seq<string>) {
    forall j | 0 <= j < |later| && !Gone(later[j].section, sections) :: HasTable(kept, later[j].section)
  }

  // None of them adds a key to the part that stands last.
  predicate AllQuiet(doc: Doc, later: seq<Managed>, sections: seq<string>) {
    forall j | 0 <= j < |later| && !Gone(later[j].section, sections) ::
      IsLast(doc, later[j].section) ==> AllThere(doc, later[j])
  }

  // No managed section is removed; or else every section after the first such one was in the
  // file or is removed too, and adds no key to the part that stood last before that first one.
  predicate Stays(doc: Doc, sections: seq<string>, settings: seq<Managed>) {
    var i, kept := FirstGone(settings, sections), Remove(doc, sections);
    i == |settings| ||
    (match MergeSections(kept, settings[..i])
     case None => false
     case Some(before) => AllKnown(kept, settings[i + 1..], sections) && AllQuiet(before, settings[i + 1..], sections))
  }

  // The later sections, set where they are.
  function Puts(doc: Doc, settings: seq<Managed>, sections: seq<string>): Doc {
    if settings == [] then doc
    else
      var n := |settings| - 1;
      var m, d := settings[n], Puts(doc, settings[..n], sections);
      if Gone(m.section, sections) || !HasTable(d, m.section) then d
      else WithBody(d, m.section, SetIns(Body(d, m.section), m.values))
  }

  lemma {:induction false} SameNames(a: seq<Table>, b: seq<Table>, t: string)
    requires |a| == |b| && forall i | 0 <= i < |a| :: a[i].name == b[i].name
    ensures FindTable(a, t) == FindTable(b, t)
  {
    FindTableIs(b, t, FindTable(a, t));
  }

  lemma {:induction false} PutsKeeps(doc: Doc, settings: seq<Managed>, sections: seq<string>, t: string)
    ensures var d := Puts(doc, settings, sections);
            && |d.tables| == |doc.tables| && (forall i | 0 <= i < |d.tables| :: d.tables[i].name == doc.tables[i].name)
            && (HasTable(d, t) <==> HasTable(doc, t)) && (IsLast(d, t) <==> IsLast(doc, t))
            && (HasTable(doc, t) && !ManagesTable(settings, t) ==> Body(d, t) == Body(doc, t))
  {
    if settings != [] {
      var n := |settings| - 1;
      var m, d := settings[n], Puts(doc, settings[..n], sections);
      PutsKeeps(doc, settings[..n], sections, t);
      if !Gone(m.section, sections) && HasTable(d, m.section) {
        WithBodyMeans(d, m.section, SetIns(Body(d, m.section), m.values), t);
      }
    }
    SameNames(Puts(doc, settings, sections).tables, doc.tables, t);
  }

  lemma {:induction false} JoinWithBody(doc: Doc, tables: seq<Table>, section: string, body: seq<Line>)
    requires HasTable(doc, section)
    ensures HasTable(Join(doc, tables), section) && Body(Join(doc, tables), section) == Body(doc, section)
    ensures WithBody(Join(doc, tables), section, body) == Join(WithBody(doc, section, body), tables)
  {
    if section != ROOT {
      FindTableIs(Join(doc, tables).tables, section, FindTable(doc.tables, section));
    }
  }

  lemma {:induction false} PutBefore(doc: Doc, tables: seq<Table>, m: Managed)
    requires HasTable(doc, m.section) && tables != []
    ensures MergeSections(Join(doc, tables), [m]) ==
              Some(Join(WithBody(doc, m.section, SetIns(Body(doc, m.section), m.values)), tables))
  {
    JoinWithBody(doc, tables, m.section, SetIns(Body(doc, m.section), m.values));
    SetKeysIs(Join(doc, tables), m.section, m.values);
    assert [m][..0] == [];
  }

  // A removed section is missing, and any other is there.
  predicate Ready(doc: Doc, tables: seq<Table>, m: Managed, sections: seq<string>) {
    if Gone(m.section, sections) then !HasTable(Join(doc, tables), m.section) else HasTable(doc, m.section)
  }

  lemma {:induction false} LaterStep(doc: Doc, tables: seq<Table>, m: Managed, sections: seq<string>)
    requires tables != [] && Ready(doc, tables, m, sections)
    ensures MergeSections(Join(doc, tables), [m]) == Some(
              if Gone(m.section, sections) then Join(doc, AddOne(tables, m))
              else Join(WithBody(doc, m.section, SetIns(Body(doc, m.section), m.values)), tables))
  {
    if Gone(m.section, sections) {
      AddBehind(doc, tables, m);
    } else {
      PutBefore(doc, tables, m);
    }
  }

  predicate AllReady(doc: Doc, tables: seq<Table>, later: seq<Managed>, sections: seq<string>) {
    forall j | 0 <= j < |later| :: Ready(doc, tables, later[j], sections)
  }

  function Arranged(doc: Doc, tables: seq<Table>, later: seq<Managed>, sections: seq<string>): Doc {
    Join(Puts(doc, later, sections), Adds(tables, later, sections))
  }

  lemma {:induction false} StillReady(doc: Doc, tables: seq<Table>, later: seq<Managed>, sections: seq<string>, n: nat)
    requires Distinct(later) && n < |later| && Ready(doc, tables, later[n], sections)
    requires MergeSections(Join(doc, tables), later[..n]) == Some(Arranged(doc, tables, later[..n], sections))
    ensures Ready(Puts(doc, later[..n], sections), Adds(tables, later[..n], sections), later[n], sections)
  {
    NotManaged(later, n);
    MergeSectionsMeans(Join(doc, tables), later[..n], later[n].section, "");
    PutsKeeps(doc, later[..n], sections, later[n].section);
  }

  lemma {:induction false} NextArranged(doc: Doc, tables: seq<Table>, later: seq<Managed>, sections: seq<string>,
                                        n: nat)
    requires tables != [] && Distinct(later) && n < |later| && AllReady(doc, tables, later, sections)
    requires MergeSections(Join(doc, tables), later[..n]) == Some(Arranged(doc, tables, later[..n], sections))
    ensures MergeSections(Arranged(doc, tables, later[..n], sections), [later[n]]) ==
              Some(Arranged(doc, tables, later[..n + 1], sections))
  {
    AddsNonEmpty(tables, later[..n], sections);
    StillReady(doc, tables, later, sections, n);
    LaterStep(Puts(doc, later[..n], sections), Adds(tables, later[..n], sections), later[n], sections);
    assert later[..n + 1][..n] == later[..n] && later[..n + 1][n] == later[n];
  }

  lemma {:induction false} LaterNext(doc: Doc, tables: seq<Table>, later: seq<Managed>, sections: seq<string>, n: nat)
    requires tables != [] && Distinct(later) && n < |later| && AllReady(doc, tables, later, sections)
    requires MergeSections(Join(doc, tables), later[..n]) == Some(Arranged(doc, tables, later[..n], sections))
    ensures MergeSections(Join(doc, tables), later[..n + 1]) == Some(Arranged(doc, tables, later[..n + 1], sections))
  {
    NextArranged(doc, tables, later, sections, n);
    MergeNext(Join(doc, tables), later, n, Arranged(doc, tables, later[..n], sections),
              Arranged(doc, tables, later[..n + 1], sections));
  }

  // While all later sections are ready, they are set before the tables put back, and the removed
  // ones are added behind them.
  lemma {:induction false} LaterRun(doc: Doc, tables: seq<Table>, later: seq<Managed>, sections: seq<string>, n: nat)
    requires tables != [] && Distinct(later) && n <= |later| && AllReady(doc, tables, later, sections)
    ensures MergeSections(Join(doc, tables), later[..n]) == Some(Arranged(doc, tables, later[..n], sections))
  {
    if n > 0 {
      LaterRun(doc, tables, later, sections, n - 1);
      LaterNext(doc, tables, later, sections, n - 1);
    }
  }

  // ---- whether the file then ends in text ----

  predicate AllIn(body: seq<Line>, values: seq<(string, string)>) {
    forall j | 0 <= j < |values| :: FindKey(body, values[j].0) < |body|
  }

  predicate LastIsText(body: seq<Line>) {
    body != [] && !(body[|body| - 1].Other? && body[|body| - 1].blank)
  }

  lemma {:induction false} FoundIff(body: seq<Line>, key: string)
    ensures FindKey(body, key) < |body| <==> ValueIn(body, key).Some?
  {
  }

  lemma {:induction false} OthersFound(body: seq<Line>, values: seq<(string, string)>, n: nat, k: nat)
    requires DistinctKeys(values) && n <= k < |values|
    ensures var after := SetIns(body, values[..n]);
            FindKey(after, values[k].0) < |after| <==> FindKey(body, values[k].0) < |body|
  {
    if n > 0 {
      var before, key, value := SetIns(body, values[..n - 1]), values[n - 1].0, values[n - 1].1;
      OthersFound(body, values, n - 1, k);
      assert values[..n][..n - 1] == values[..n - 1];
      assert values[n - 1].0 != values[k].0;
      SetInMeans(before, key, value, values[k].0);
      FoundIff(before, values[k].0);
      FoundIff(SetIn(before, key, value), values[k].0);
    }
  }

  lemma {:induction false} AllInNext(body: seq<Line>, values: seq<(string, string)>, n: nat)
    requires n < |values|
    ensures AllIn(body, values[..n + 1]) <==> AllIn(body, values[..n]) && FindKey(body, values[n].0) < |body|
  {
    var next := values[..n + 1];
    assert next[n] == values[n];
    assert forall j | 0 <= j < n :: next[j] == values[..n][j];
  }

  lemma {:induction false} SetInEnds(body: seq<Line>, key: string, value: string)
    ensures LastIsText(SetIn(body, key, value)) <==> LastIsText(body) || FindKey(body, key) == |body|
    ensures |SetIn(body, key, value)| >= |body|
  {
  }

  lemma {:induction false} SetInsNext(body: seq<Line>, values: seq<(string, string)>, n: nat)
    requires DistinctKeys(values) && n < |values|
    ensures LastIsText(SetIns(body, values[..n + 1])) <==>
              LastIsText(SetIns(body, values[..n])) || FindKey(body, values[n].0) == |body|
    ensures |SetIns(body, values[..n + 1])| >= |SetIns(body, values[..n])|
  {
    assert values[..n + 1][..n] == values[..n] && values[..n + 1][n] == values[n];
    OthersFound(body, values, n, n);
    SetInEnds(SetIns(body, values[..n]), values[n].0, values[n].1);
  }

  lemma {:induction false} SetInsGrows(body: seq<Line>, values: seq<(string, string)>, n: nat)
    requires DistinctKeys(values) && n <= |values|
    ensures |SetIns(body, values[..n])| >= |body|
  {
    if n > 0 {
      SetInsGrows(body, values, n - 1);
      SetInsNext(body, values, n - 1);
    }
  }

  // Keys that are there are set in place; else the last line is a new assignment.
  lemma {:induction false} SetInsEnd(body: seq<Line>, values: seq<(string, string)>, n: nat)
    requires DistinctKeys(values) && n <= |values|
    ensures LastIsText(SetIns(body, values[..n])) <==> LastIsText(body) || !AllIn(body, values[..n])
  {
    if n > 0 {
      SetInsEnd(body, values, n - 1);
      AllInNext(body, values, n - 1);
      SetInsNext(body, values, n - 1);
    }
  }

  lemma {:induction false} LastBodySet(doc: Doc, section: string, body: seq<Line>)
    requires HasTable(doc, section)
    ensures LastBody(WithBody(doc, section, body)) == if IsLast(doc, section) then body else LastBody(doc)
    ensures IsLast(doc, section) ==> LastBody(doc) == Body(doc, section)
    ensures |WithBody(doc, section, body).tables| == |doc.tables|
  {
  }

  lemma {:induction false} ThereIsIn(doc: Doc, m: Managed)
    requires HasTable(doc, m.section)
    ensures AllThere(doc, m) <==> AllIn(Body(doc, m.section), m.values)
  {
    forall j | 0 <= j < |m.values|
      ensures Lookup(doc, m.section, m.values[j].0).Some? <==>
                FindKey(Body(doc, m.section), m.values[j].0) < |Body(doc, m.section)|
    {
    }
  }

  lemma {:induction false} PutEnds(doc: Doc, m: Managed)
    requires HasTable(doc, m.section) && DistinctKeys(m.values)
    ensures EndsInText(WithBody(doc, m.section, SetIns(Body(doc, m.section), m.values))) <==>
              EndsInText(doc) || (IsLast(doc, m.section) && !AllThere(doc, m))
  {
    var body := Body(doc, m.section);
    assert m.values[..|m.values|] == m.values;
    SetInsEnd(body, m.values, |m.values|);
    ThereIsIn(doc, m);
    LastBodySet(doc, m.section, SetIns(body, m.values));
    assert AllIn([], m.values) <==> m.values == [];
  }

  lemma {:induction false} QuietNext(doc: Doc, later: seq<Managed>, sections: seq<string>, n: nat)
    requires n < |later|
    ensures AllQuiet(doc, later[..n + 1], sections) <==>
              AllQuiet(doc, later[..n], sections)
              && (!Gone(later[n].section, sections) && IsLast(doc, later[n].section) ==> AllThere(doc, later[n]))
  {
    var next := later[..n + 1];
    assert next[n] == later[n];
    assert forall j | 0 <= j < n :: next[j] == later[..n][j];
  }

  lemma {:induction false} PutsNext(doc: Doc, later: seq<Managed>, sections: seq<string>, n: nat)
    requires Distinct(later) && n < |later|
    requires !Gone(later[n].section, sections) && HasTable(doc, later[n].section)
    ensures EndsInText(Puts(doc, later[..n + 1], sections)) <==>
              EndsInText(Puts(doc, later[..n], sections)) || (IsLast(doc, later[n].section) && !AllThere(doc, later[n]))
  {
    var m, d := later[n], Puts(doc, later[..n], sections);
    assert later[..n + 1][..n] == later[..n] && later[..n + 1][n] == m;
    PutsKeeps(doc, later[..n], sections, m.section);
    NotManaged(later, n);
    PutEnds(d, m);
    ThereIsIn(d, m);
    ThereIsIn(doc, m);
  }

  lemma {:induction false} PutsSkips(doc: Doc, later: seq<Managed>, sections: seq<string>, n: nat)
    requires n < |later| && Gone(later[n].section, sections)
    ensures Puts(doc, later[..n + 1], sections) == Puts(doc, later[..n], sections)
  {
    assert later[..n + 1][..n] == later[..n] && later[..n + 1][n] == later[n];
  }

  lemma {:induction false} EndNext(doc: Doc, later: seq<Managed>, sections: seq<string>, n: nat)
    requires Distinct(later) && n < |later|
    requires Gone(later[n].section, sections) || HasTable(doc, later[n].section)
    ensures EndsInText(Puts(doc, later[..n + 1], sections)) <==>
              EndsInText(Puts(doc, later[..n], sections))
              || (!Gone(later[n].section, sections) && IsLast(doc, later[n].section) && !AllThere(doc, later[n]))
  {
    if Gone(later[n].section, sections) {
      PutsSkips(doc, later, sections, n);
    } else {
      PutsNext(doc, later, sections, n);
    }
  }

  lemma {:induction false} EndStep(doc: Doc, later: seq<Managed>, sections: seq<string>, n: nat)
    requires Distinct(later) && n < |later|
    requires Gone(later[n].section, sections) || HasTable(doc, later[n].section)
    requires EndsInText(Puts(doc, later[..n], sections)) <==> !AllQuiet(doc, later[..n], sections)
    ensures EndsInText(Puts(doc, later[..n + 1], sections)) <==> !AllQuiet(doc, later[..n + 1], sections)
  {
    QuietNext(doc, later, sections, n);
    EndNext(doc, later, sections, n);
  }

  lemma {:induction false} PutsEnd(doc: Doc, later: seq<Managed>, sections: seq<string>, n: nat)
    requires Distinct(later) && n <= |later| && !EndsInText(doc)
    requires forall j | 0 <= j < |later| :: Gone(later[j].section, sections) || HasTable(doc, later[j].section)
    ensures EndsInText(Puts(doc, later[..n], sections)) <==> !AllQuiet(doc, later[..n], sections)
  {
    if n > 0 {
      PutsEnd(doc, later, sections, n - 1);
      EndStep(doc, later, sections, n - 1);
    } else {
      assert later[..n] == [];
    }
  }

  // ---- the condition ----

  lemma {:induction false} Prefix(doc: Doc, settings: seq<Managed>, i: nat) returns (d: Doc)
    requires MergeSections(doc, settings).Some? && i <= |settings|
    ensures MergeSections(doc, settings[..i]) == Some(d)
    ensures MergeSections(d, settings[i..]) == MergeSections(doc, settings)
  {
    assert settings == settings[..i] + settings[i..];
    MergeConcat(doc, settings[..i], settings[i..]);
    d := MergeSections(doc, settings[..i]).value;
  }

  // What the first edit makes before the first removed section it puts back.
  lemma {:induction false} BeforeFirst(doc: Doc, sections: seq<string>, settings: seq<Managed>, i: nat)
    returns (before: Doc)
    requires Merge(doc, sections, settings).Some? && i == FirstGone(settings, sections) < |settings|
    ensures MergeSections(Remove(doc, sections), settings[..i]) == Some(before)
    ensures NoneRemoved(before.tables, sections) && !HasTable(before, settings[i].section)
  {
    before := Prefix(Remove(doc, sections), settings, i);
    KeepsNoneRemoved(doc.tables, sections);
    MergeNoneRemoved(Remove(doc, sections), settings[..i], sections);
    NotAmong(before, settings[i].section, sections);
  }

  lemma {:induction false} NotAmong(doc: Doc, section: string, sections: seq<string>)
    requires NoneRemoved(doc.tables, sections) && Gone(section, sections)
    ensures !HasTable(doc, section)
  {
    var i := FindTable(doc.tables, section);
  }

  lemma {:induction false} BackAfter(doc: Doc, settings: seq<Managed>, i: nat, before: Doc)
    requires i < |settings| && MergeSections(doc, settings).Some? && MergeSections(doc, settings[..i]) == Some(before)
    requires settings[i].section != ROOT && !HasTable(before, settings[i].section)
    ensures var back := Join(Spaced(before), AddOne([], settings[i]));
            && MergeSections(doc, settings[..i + 1]) == Some(back)
            && MergeSections(back, settings[i + 1..]) == MergeSections(doc, settings)
  {
    assert Join(before, []) == before;
    AddBehind(before, [], settings[i]);
    MergeNext(doc, settings, i, before, Join(Spaced(before), AddOne([], settings[i])));
    var d := Prefix(doc, settings, i + 1);
  }

  lemma {:induction false} NoneGone(tables: seq<Table>, settings: seq<Managed>, sections: seq<string>)
    requires forall i | 0 <= i < |settings| :: !Gone(settings[i].section, sections)
    ensures Adds(tables, settings, sections) == tables
  {
    if settings != [] {
      NoneGone(tables, settings[..|settings| - 1], sections);
    }
  }

  lemma {:induction false} AddsFrom(settings: seq<Managed>, sections: seq<string>, i: nat)
    requires i == FirstGone(settings, sections) < |settings|
    ensures Adds([], settings, sections) == Adds(AddOne([], settings[i]), settings[i + 1..], sections)
  {
    assert settings == settings[..i + 1] + settings[i + 1..];
    AddsConcat([], settings[..i + 1], settings[i + 1..], sections);
    assert settings[..i + 1][..i] == settings[..i] && settings[..i + 1][i] == settings[i];
    NoneGone([], settings[..i], sections);
  }

  lemma {:induction false} AllRemoved(tables: seq<Table>, settings: seq<Managed>, sections: seq<string>)
    requires forall i | 0 <= i < |tables| :: Removed(tables[i].name, sections)
    ensures KeepTables(Adds(tables, settings, sections), sections) == []
  {
    var added := Adds(tables, settings, sections);
    forall i | 0 <= i < |added|
      ensures Removed(added[i].name, sections)
    {
      AddsNamed(tables, settings, sections, i);
    }
    KeepNone(added, sections);
  }

  lemma {:induction false} JoinCancels(a: Doc, b: Doc, tables: seq<Table>)
    requires |a.tables| == |b.tables|
    ensures Join(a, tables) == Join(b, tables) <==> a == b
  {
    assert Join(a, tables).tables[..|a.tables|] == a.tables;
    assert Join(b, tables).tables[..|b.tables|] == b.tables;
  }

  lemma {:induction false} SameSpaced(doc: Doc, tables: seq<Table>)
    ensures Join(Spaced(doc), tables) == Join(doc, tables) <==> !EndsInText(doc)
  {
    SpacedTwice(doc);
    JoinCancels(Spaced(doc), doc, tables);
  }

  lemma {:induction false} LaterAll(doc: Doc, tables: seq<Table>, later: seq<Managed>, sections: seq<string>)
    requires tables != [] && Distinct(later) && AllReady(doc, tables, later, sections)
    ensures MergeSections(Join(doc, tables), later) == Some(Arranged(doc, tables, later, sections))
  {
    LaterRun(doc, tables, later, sections, |later|);
    assert later[..|later|] == later;
  }

  // What the edit makes of a document, when it re-adds a removed section at position i first and
  // finds every later section there.
  lemma {:induction false} OnceArranged(doc: Doc, sections: seq<string>, settings: seq<Managed>, i: nat, before: Doc)
    requires Distinct(settings) && Merge(doc, sections, settings).Some?
    requires i == FirstGone(settings, sections) < |settings|
    requires MergeSections(Remove(doc, sections), settings[..i]) == Some(before)
    requires AllReady(Spaced(before), AddOne([], settings[i]), settings[i + 1..], sections)
    requires settings[i].section != ROOT && !HasTable(before, settings[i].section)
    ensures Merge(doc, sections, settings)
            == Some(Arranged(Spaced(before), AddOne([], settings[i]), settings[i + 1..], sections))
  {
    var later, back, spaced := settings[i + 1..], AddOne([], settings[i]), Spaced(before);
    BackAfter(Remove(doc, sections), settings, i, before);
    LaterAll(spaced, back, later, sections);
  }

  lemma {:induction false} PutsQuiet(doc: Doc, tables: seq<Table>, later: seq<Managed>, sections: seq<string>)
    requires Distinct(later) && tables != [] && !EndsInText(doc) && AllReady(doc, tables, later, sections)
    ensures EndsInText(Puts(doc, later, sections)) <==> !AllQuiet(doc, later, sections)
  {
    PutsEnd(doc, later, sections, |later|);
    assert later[..|later|] == later;
  }

  lemma {:induction false} TwiceArranged(doc: Doc, sections: seq<string>, settings: seq<Managed>, i: nat, spaced: Doc)
    requires Distinct(settings) && i == FirstGone(settings, sections) < |settings|
    requires NoneRemoved(spaced.tables, sections)
    requires Merge(doc, sections, settings)
             == Some(Arranged(spaced, AddOne([], settings[i]), settings[i + 1..], sections))
    ensures var once, later := Merge(doc, sections, settings).value, settings[i + 1..];
            Merge(once, sections, settings)
            == Some(Join(Spaced(Puts(spaced, later, sections)), Adds(AddOne([], settings[i]), later, sections)))
  {
    ArrangedOut(spaced, AddOne([], settings[i]), settings[i + 1..], sections);
    SecondEdit(doc, sections, settings);
    AddsFrom(settings, sections, i);
    AddsNonEmpty(AddOne([], settings[i]), settings[i + 1..], sections);
  }

  // While all later sections were in the file: the second edit changes nothing exactly when none
  // of them added a key to the part that stood last.
  lemma {:induction false} QuietIff(doc: Doc, sections: seq<string>, settings: seq<Managed>, i: nat, before: Doc)
    requires Distinct(settings) && Merge(doc, sections, settings).Some?
    requires i == FirstGone(settings, sections) < |settings|
    requires MergeSections(Remove(doc, sections), settings[..i]) == Some(before)
    requires AllReady(Spaced(before), AddOne([], settings[i]), settings[i + 1..], sections)
    ensures var once := Merge(doc, sections, settings).value;
            Merge(once, sections, settings) == Some(once) <==> AllQuiet(Spaced(before), settings[i + 1..], sections)
  {
    var later, back, spaced := settings[i + 1..], AddOne([], settings[i]), Spaced(before);
    var b := BeforeFirst(doc, sections, settings, i);
    OnceArranged(doc, sections, settings, i, before);
    TwiceArranged(doc, sections, settings, i, spaced);
    SameSpaced(Puts(spaced, later, sections), Adds(back, later, sections));
    SpacedTwice(before);
    PutsQuiet(spaced, back, later, sections);
  }

  lemma {:induction false} ArrangedOut(doc: Doc, tables: seq<Table>, later: seq<Managed>, sections: seq<string>)
    requires NoneRemoved(doc.tables, sections) && forall i | 0 <= i < |tables| :: Removed(tables[i].name, sections)
    ensures Remove(Arranged(doc, tables, later, sections), sections) == Puts(doc, later, sections)
  {
    var d := Puts(doc, later, sections);
    PutsKeeps(doc, later, sections, "");
    forall i | 0 <= i < |d.tables|
      ensures !Removed(d.tables[i].name, sections)
    {
      assert d.tables[i].name == doc.tables[i].name;
    }
    KeepsNoneRemoved(d.tables, sections);
    KeepConcat(d.tables, Adds(tables, later, sections), sections);
    AllRemoved(tables, later, sections);
  }

  lemma {:induction false} SpacedQuiet(doc: Doc, later: seq<Managed>, sections: seq<string>)
    ensures AllQuiet(Spaced(doc), later, sections) <==> AllQuiet(doc, later, sections)
  {
    SpacedTwice(doc);
    forall j | 0 <= j < |later|
      ensures IsLast(Spaced(doc), later[j].section) <==> IsLast(doc, later[j].section)
      ensures AllThere(Spaced(doc), later[j]) <==> AllThere(doc, later[j])
    {
      SameNames(Spaced(doc).tables, doc.tables, later[j].section);
      forall k | 0 <= k < |later[j].values|
        ensures Lookup(Spaced(doc), later[j].section, later[j].values[k].0) ==
                  Lookup(doc, later[j].section, later[j].values[k].0)
      {
        SpacedMeans(doc, later[j].section, later[j].values[k].0);
      }
    }
  }

  // What the edit has not come to yet is there if it was before.
  lemma {:induction false} LaterThere(doc: Doc, settings: seq<Managed>, i: nat, j: nat, d: Doc)
    requires Distinct(settings) && i <= j < |settings| && MergeSections(doc, settings[..i]) == Some(d)
    ensures HasTable(d, settings[j].section) <==> HasTable(doc, settings[j].section)
  {
    MergeSectionsMeans(doc, settings[..i], settings[j].section, "");
    NotManagedBefore(settings, i, j);
  }

  // The first i sections left before, and the next one was appended to it.
  ghost predicate Reached(doc: Doc, settings: seq<Managed>, i: nat, before: Doc)
    requires i < |settings|
  {
    && MergeSections(doc, settings[..i]) == Some(before)
    && MergeSections(doc, settings[..i + 1]) == Some(Join(Spaced(before), AddOne([], settings[i])))
  }

  lemma {:induction false} ReadyOne(doc: Doc, sections: seq<string>, settings: seq<Managed>, i: nat, before: Doc,
                                    j: nat)
    requires Distinct(settings) && i < j < |settings| && NoneRemoved(doc.tables, sections)
    requires Reached(doc, settings, i, before)
    requires Gone(settings[j].section, sections) || HasTable(doc, settings[j].section)
    ensures Ready(Spaced(before), AddOne([], settings[i]), settings[j], sections)
  {
    if Gone(settings[j].section, sections) {
      NotAmong(doc, settings[j].section, sections);
      LaterThere(doc, settings, i + 1, j, Join(Spaced(before), AddOne([], settings[i])));
    } else {
      LaterThere(doc, settings, i, j, before);
      SpacedMeans(before, settings[j].section, "");
    }
  }

  lemma {:induction false} ReadyLater(doc: Doc, sections: seq<string>, settings: seq<Managed>, i: nat, before: Doc,
                                      later: seq<Managed>, j: nat)
    requires Distinct(settings) && i < |settings| && NoneRemoved(doc.tables, sections)
    requires Reached(doc, settings, i, before)
    requires later == settings[i + 1..] && AllKnown(doc, later, sections) && j < |later|
    ensures Ready(Spaced(before), AddOne([], settings[i]), later[j], sections)
  {
    DropAt(settings, i + 1, j);
    ReadyOne(doc, sections, settings, i, before, i + 1 + j);
  }

  lemma {:induction false} KnownIsReady(doc: Doc, sections: seq<string>, settings: seq<Managed>, i: nat, before: Doc)
    requires Distinct(settings) && i < |settings| && NoneRemoved(doc.tables, sections)
    requires Reached(doc, settings, i, before)
    requires AllKnown(doc, settings[i + 1..], sections)
    ensures AllReady(Spaced(before), AddOne([], settings[i]), settings[i + 1..], sections)
  {
    var later, spaced, back := settings[i + 1..], Spaced(before), AddOne([], settings[i]);
    forall j | 0 <= j < |later|
      ensures Ready(spaced, back, later[j], sections)
    {
      ReadyLater(doc, sections, settings, i, before, later, j);
    }
  }

  lemma {:induction false} NamesStay(doc: Doc, settings: seq<Managed>)
    requires MergeSections(doc, settings).Some?
    ensures var d := MergeSections(doc, settings).value;
            |doc.tables| <= |d.tables| && forall k | 0 <= k < |doc.tables| :: d.tables[k].name == doc.tables[k].name
  {
    if settings != [] {
      var n := |settings| - 1;
      var m, d := settings[n], MergeSections(doc, settings[..n]).value;
      NamesStay(doc, settings[..n]);
      KeysKeepNames(Ensure(d, m.section), m.section, m.values);
      SpacedTwice(d);
    }
  }

  lemma {:induction false} KeysKeepNames(doc: Doc, section: string, values: seq<(string, string)>)
    requires HasTable(doc, section) && SetKeys(doc, section, values).Some?
    ensures var d := SetKeys(doc, section, values).value;
            |d.tables| == |doc.tables| && forall k | 0 <= k < |doc.tables| :: d.tables[k].name == doc.tables[k].name
  {
    if values != [] {
      KeysKeepNames(doc, section, values[..|values| - 1]);
    }
  }

  lemma {:induction false} StandsBehind(doc: Doc, sections: seq<string>, settings: seq<Managed>, i: nat, j: nat)
    returns (p: nat)
    requires Distinct(settings) && Merge(doc, sections, settings).Some?
    requires i == FirstGone(settings, sections) < j < |settings|
    requires !HasTable(Remove(doc, sections), settings[j].section)
    ensures var once := Merge(doc, sections, settings).value;
            && p < |once.tables| && Removed(once.tables[p].name, sections)
            && p < FindTable(once.tables, settings[j].section)
  {
    var kept := Remove(doc, sections);
    var before := BeforeFirst(doc, sections, settings, i);
    BackAfter(kept, settings, i, before);
    var back := Join(Spaced(before), AddOne([], settings[i]));
    SpacedTwice(before);
    p := |before.tables|;
    assert back.tables[p].name == settings[i].section && |back.tables| == p + 1;
    LaterThere(kept, settings, i + 1, j, back);
    NamesStay(back, settings[i + 1..]);
  }

  // A section added behind the removed one stands before it after the next edit.
  lemma {:induction false} AddedBehindMoves(doc: Doc, sections: seq<string>, settings: seq<Managed>, i: nat, j: nat)
    requires Distinct(settings) && Merge(doc, sections, settings).Some?
    requires i == FirstGone(settings, sections) < j < |settings|
    requires !Gone(settings[j].section, sections) && !HasTable(Remove(doc, sections), settings[j].section)
    ensures var once := Merge(doc, sections, settings).value; Merge(once, sections, settings) != Some(once)
  {
    var once := Merge(doc, sections, settings).value;
    var p := StandsBehind(doc, sections, settings, i, j);
    EditedIsSettled(doc, sections, settings);
    SecondEdit(doc, sections, settings);
    assert SettledAt(Remove(once, sections), settings[j], sections);
    InFront(Remove(once, sections), settings, sections, settings[j].section, p);
  }

  lemma {:induction false} InFront(doc: Doc, settings: seq<Managed>, sections: seq<string>, t: string, p: nat)
    requires NoneRemoved(doc.tables, sections) && t != ROOT && HasTable(doc, t)
    ensures var d := Finish(doc, settings, sections);
            FindTable(d.tables, t) < |doc.tables| && (p < |doc.tables| ==> !Removed(d.tables[p].name, sections))
  {
    var d := Finish(doc, settings, sections);
    SpacedTwice(doc);
    FindTableIs(d.tables, t, FindTable(doc.tables, t));
  }

  lemma {:induction false} Unknown(kept: Doc, later: seq<Managed>, sections: seq<string>) returns (k: nat)
    requires !AllKnown(kept, later, sections)
    ensures k < |later| && !Gone(later[k].section, sections) && !HasTable(kept, later[k].section)
  {
    k :| 0 <= k < |later| && !Gone(later[k].section, sections) && !HasTable(kept, later[k].section);
  }

  lemma {:induction false} SomeMove(doc: Doc, sections: seq<string>, settings: seq<Managed>, i: nat)
    requires Distinct(settings) && Merge(doc, sections, settings).Some?
    requires i == FirstGone(settings, sections) < |settings|
    requires !AllKnown(Remove(doc, sections), settings[i + 1..], sections)
    ensures var once := Merge(doc, sections, settings).value; Merge(once, sections, settings) != Some(once)
  {
    var k := Unknown(Remove(doc, sections), settings[i + 1..], sections);
    assert settings[i + 1..][k] == settings[i + 1 + k];
    AddedBehindMoves(doc, sections, settings, i, i + 1 + k);
  }

  lemma {:induction false} NoneMove(doc: Doc, sections: seq<string>, settings: seq<Managed>, i: nat, before: Doc)
    requires Distinct(settings) && Merge(doc, sections, settings).Some?
    requires i == FirstGone(settings, sections) < |settings|
    requires MergeSections(Remove(doc, sections), settings[..i]) == Some(before)
    requires AllKnown(Remove(doc, sections), settings[i + 1..], sections)
    ensures var once := Merge(doc, sections, settings).value;
            Merge(once, sections, settings) == Some(once) <==> AllQuiet(before, settings[i + 1..], sections)
  {
    var b := BeforeFirst(doc, sections, settings, i);
    KeepsNoneRemoved(doc.tables, sections);
    BackAfter(Remove(doc, sections), settings, i, before);
    KnownIsReady(Remove(doc, sections), sections, settings, i, before);
    QuietIff(doc, sections, settings, i, before);
    SpacedQuiet(before, settings[i + 1..], sections);
  }

  // The second edit changes nothing exactly when the first leaves what is removed at the end,
  // and the line before it blank.
  lemma {:induction false} SecondEditIff(doc: Doc, sections: seq<string>, settings: seq<Managed>)
    requires Distinct(settings) && Merge(doc, sections, settings).Some?
    ensures var once := Merge(doc, sections, settings).value;
            Merge(once, sections, settings) == Some(once) <==> Stays(doc, sections, settings)
  {
    var i := FirstGone(settings, sections);
    if i == |settings| {
      MergeIdempotent(doc, sections, settings);
    } else {
      var before := BeforeFirst(doc, sections, settings, i);
      if AllKnown(Remove(doc, sections), settings[i + 1..], sections) {
        NoneMove(doc, sections, settings, i, before);
      } else {
        SomeMove(doc, sections, settings, i);
      }
    }
  }

  // ---- the two ways it can fail ----

  const S: Managed := Managed("s", [])

  // "s" is removed and managed, and another section after it: what decides is the other one.
  lemma {:induction false} SAndAnother(doc: Doc, m: Managed)
    requires m.section != "s" && !Gone(m.section, ["s"]) && DistinctKeys(m.values)
    requires NoneRemoved(doc.tables, ["s"])
    ensures Distinct([S, m]) && Merge(doc, ["s"], [S, m]).Some?
    ensures Stays(doc, ["s"], [S, m]) <==> HasTable(doc, m.section) && (IsLast(doc, m.section) ==> AllThere(doc, m))
  {
    var settings := [S, m];
    assert Inside("s", ["s"][0]);
    KeepsNoneRemoved(doc.tables, ["s"]);
    assert Remove(doc, ["s"]) == doc;
    assert settings[0].section == "s";
    MergeFails(doc, settings);
    assert settings[1..] == [m] && settings[..0] == [];
    assert [m][0] == m;
  }

  // A section that was not in the file is appended behind the removed one, and stands before it
  // after the second edit.
  lemma {:induction false} RemovedAndManagedMoves()
    ensures var settings := [S, Managed("t", [])];
            var once := Merge(NOTHING, ["s"], settings);
            once.Some? && Merge(once.value, ["s"], settings) != once
  {
    assert !Inside("t", ["s"][0]);
    SAndAnother(NOTHING, Managed("t", []));
    SecondEditIff(NOTHING, ["s"], [S, Managed("t", [])]);
  }

  // A key that is added to the part that stood last comes behind the blank line, and the second
  // edit adds another.
  lemma {:induction false} RemovedAndManagedSpaces()
    ensures var doc := Doc([], [Table("t", [Assign("a", "1")])]);
            var settings := [S, Managed("t", [("b", "2")])];
            var once := Merge(doc, ["s"], settings);
            once.Some? && Merge(once.value, ["s"], settings) != once
  {
    var doc, m := Doc([], [Table("t", [Assign("a", "1")])]), Managed("t", [("b", "2")]);
    assert !Inside("t", ["s"][0]);
    SAndAnother(doc, m);
    LacksB(doc, m);
    SecondEditIff(doc, ["s"], [S, m]);
  }

  lemma {:induction false} LacksB(doc: Doc, m: Managed)
    requires doc == Doc([], [Table("t", [Assign("a", "1")])]) && m == Managed("t", [("b", "2")])
    ensures IsLast(doc, "t") && !AllThere(doc, m)
  {
    assert FindKey(doc.tables[0].body[1..], "b") == 0;
    assert Lookup(doc, m.section, m.values[0].0).None?;
  }
}
