// What happens to the text, line by line (merge_text in scripts/merge-toml-settings.py).

module TomlSurvival {
  import opened Options
  import opened Seqs
  import opened TomlLines
  import opened TomlEdit
  import opened TomlFixpoint
  import opened TomlMerge

  // ---- one part ----

  // A line changes only if it is the first assignment of a key listed for its section, and then
  // only to the wanted value.
  function LineAfter(body: seq<Line>, settings: seq<Managed>, section: string, i: nat): Line
    requires i < |body|
  {
    var line := body[i];
    if line.Assign? && FindKey(body, line.key) == i && Wanted(settings, section, line.key).Some?
    then Assign(line.key, Wanted(settings, section, line.key).value)
    else line
  }

  // A new line is blank, or the one assignment of a listed key that had none.
  predicate NewLineAt(body: seq<Line>, after: seq<Line>, settings: seq<Managed>, section: string, i: nat)
    requires i < |after|
  {
    var line := after[i];
    || line == NEWLINE
    || (line.Assign? && FindKey(body, line.key) == |body| && FindKey(after, line.key) == i
        && Wanted(settings, section, line.key) == Some(line.value))
  }

  // All lines stay where they are in their part, and new lines come behind them.
  ghost predicate Grown(body: seq<Line>, after: seq<Line>, settings: seq<Managed>, section: string) {
    && |body| <= |after|
    && (forall i: nat | i < |body| :: after[i] == LineAfter(body, settings, section, i))
    && (forall i: nat | |body| <= i < |after| :: NewLineAt(body, after, settings, section, i))
  }

  // The settings want the same of a section, but perhaps for one key.
  ghost predicate SameWanted(a: seq<Managed>, b: seq<Managed>, section: string, but: Option<(string, string)>) {
    forall k: string ::
      Wanted(b, section, k) == if but.Some? && k == but.value.0 then Some(but.value.1) else Wanted(a, section, k)
  }

  lemma {:induction false} GrownSelf(body: seq<Line>, section: string)
    ensures Grown(body, body, [], section)
  {
  }

  lemma {:induction false} GrownSame(body: seq<Line>, after: seq<Line>, a: seq<Managed>, b: seq<Managed>,
                                     section: string)
    requires Grown(body, after, a, section) && SameWanted(a, b, section, None)
    ensures Grown(body, after, b, section)
  {
    forall i: nat | |body| <= i < |after|
      ensures NewLineAt(body, after, b, section, i)
    {
      assert NewLineAt(body, after, a, section, i);
    }
  }

  lemma {:induction false} GrownBlank(body: seq<Line>, after: seq<Line>, settings: seq<Managed>, section: string)
    requires Grown(body, after, settings, section)
    ensures Grown(body, after + [NEWLINE], settings, section)
  {
    var next := after + [NEWLINE];
    forall i: nat | |body| <= i < |next|
      ensures NewLineAt(body, next, settings, section, i)
    {
      if i < |after| {
        assert NewLineAt(body, after, settings, section, i);
        if after[i].Assign? {
          FindKeyIs(next, after[i].key, i);
        }
      }
    }
  }

  // Where a key is found afterwards: where it was, or among the new lines.
  lemma {:induction false} FoundAfter(body: seq<Line>, after: seq<Line>, settings: seq<Managed>, section: string,
                                      key: string)
    requires Grown(body, after, settings, section)
    ensures var i, j := FindKey(body, key), FindKey(after, key); if i < |body| then j == i else j >= |body|
  {
    forall k: nat | k < |body|
      ensures (after[k].Assign? && after[k].key == key) <==> (body[k].Assign? && body[k].key == key)
    {
      assert after[k] == LineAfter(body, settings, section, k);
    }
    var i := FindKey(body, key);
    if i < |body| {
      FindKeyIs(after, key, i);
    }
  }

  lemma {:induction false} GrownSet(body: seq<Line>, after: seq<Line>, a: seq<Managed>, b: seq<Managed>,
                                    section: string, key: string, value: string)
    requires Grown(body, after, a, section) && SameWanted(a, b, section, Some((key, value)))
    ensures Grown(body, SetIn(after, key, value), b, section)
  {
    var next, j := SetIn(after, key, value), FindKey(after, key);
    FoundAfter(body, after, a, section, key);
    forall i: nat | i < |body|
      ensures next[i] == LineAfter(body, b, section, i)
    {
      assert after[i] == LineAfter(body, a, section, i);
    }
    forall i: nat | |body| <= i < |next|
      ensures NewLineAt(body, next, b, section, i)
    {
      if i == j {
        FindKeyIs(next, key, j);
      } else {
        assert NewLineAt(body, after, a, section, i);
        if after[i].Assign? {
          FindKeyIs(next, after[i].key, i);
        }
      }
    }
  }

  // ---- the whole file ----

  // The part that edits of a section of that name go to.
  predicate IsFirst(doc: Doc, i: nat)
    requires i < |doc.tables|
  {
    doc.tables[i].name != ROOT && FindTable(doc.tables, doc.tables[i].name) == i
  }

  // A table stays where it is; only the first of its name is edited.
  ghost predicate TableEdited(before: Doc, after: Doc, settings: seq<Managed>, i: nat)
    requires i < |before.tables| && i < |after.tables|
  {
    var t, u := before.tables[i], after.tables[i];
    u.name == t.name && Grown(t.body, u.body, if IsFirst(before, i) then settings else [], t.name)
  }

  // A new table is a managed section that was missing, and holds only what is wanted.
  ghost predicate TableAdded(before: Doc, after: Doc, settings: seq<Managed>, i: nat)
    requires i < |after.tables|
  {
    var u := after.tables[i];
    && u.name != ROOT && ManagesTable(settings, u.name) && !HasTable(before, u.name)
    && FindTable(after.tables, u.name) == i && Grown([], u.body, settings, u.name)
  }

  // Part by part and line by line, what an edit does.
  ghost predicate Edited(before: Doc, after: Doc, settings: seq<Managed>) {
    && Grown(before.root, after.root, settings, ROOT)
    && |before.tables| <= |after.tables|
    && (forall i: nat | i < |before.tables| :: TableEdited(before, after, settings, i))
    && (forall i: nat | |before.tables| <= i < |after.tables| :: TableAdded(before, after, settings, i))
  }

  lemma {:induction false} EditedSelf(doc: Doc)
    ensures Edited(doc, doc, [])
  {
    GrownSelf(doc.root, ROOT);
    forall i: nat | i < |doc.tables|
      ensures TableEdited(doc, doc, [], i)
    {
      GrownSelf(doc.tables[i].body, doc.tables[i].name);
    }
  }

  // One more section to come: nothing wanted of it yet.
  lemma {:induction false} SameUntil(settings: seq<Managed>, section: string, t: string)
    ensures SameWanted(settings, settings + [Managed(section, [])], t, None)
    ensures ManagesTable(settings + [Managed(section, [])], t) <==> ManagesTable(settings, t) || t == section
  {
    assert (settings + [Managed(section, [])])[..|settings|] == settings;
  }

  lemma {:induction false} EditedNext(before: Doc, after: Doc, settings: seq<Managed>, section: string)
    requires Edited(before, after, settings)
    ensures Edited(before, after, settings + [Managed(section, [])])
  {
    var next := settings + [Managed(section, [])];
    SameUntil(settings, section, ROOT);
    GrownSame(before.root, after.root, settings, next, ROOT);
    forall i: nat | i < |before.tables|
      ensures TableEdited(before, after, next, i)
    {
      assert TableEdited(before, after, settings, i);
      var t := before.tables[i];
      SameUntil(settings, section, t.name);
      if IsFirst(before, i) {
        GrownSame(t.body, after.tables[i].body, settings, next, t.name);
      }
    }
    forall i: nat | |before.tables| <= i < |after.tables|
      ensures TableAdded(before, after, next, i)
    {
      assert TableAdded(before, after, settings, i);
      SameUntil(settings, section, after.tables[i].name);
      GrownSame([], after.tables[i].body, settings, next, after.tables[i].name);
    }
  }

  lemma {:induction false} EditedBlank(before: Doc, after: Doc, settings: seq<Managed>)
    requires Edited(before, after, settings)
    ensures Edited(before, AppendBlank(after), settings)
  {
    var next := AppendBlank(after);
    GrownBlank(before.root, after.root, settings, ROOT);
    forall i: nat | i < |before.tables|
      ensures TableEdited(before, next, settings, i)
    {
      assert TableEdited(before, after, settings, i);
      var t := before.tables[i];
      GrownBlank(t.body, after.tables[i].body, if IsFirst(before, i) then settings else [], t.name);
    }
    forall i: nat | |before.tables| <= i < |after.tables|
      ensures TableAdded(before, next, settings, i)
    {
      assert TableAdded(before, after, settings, i);
      GrownBlank([], after.tables[i].body, settings, after.tables[i].name);
      SameNames(after.tables, next.tables, after.tables[i].name);
    }
  }

  lemma {:induction false} EditedAppend(before: Doc, after: Doc, settings: seq<Managed>, section: string)
    requires Edited(before, after, settings) && ManagesTable(settings, section) && !HasTable(after, section)
    ensures Edited(before, Doc(after.root, after.tables + [Table(section, [])]), settings)
  {
    var next := Doc(after.root, after.tables + [Table(section, [])]);
    forall i: nat | i < |before.tables|
      ensures TableEdited(before, next, settings, i)
    {
      assert TableEdited(before, after, settings, i);
    }
    forall i: nat | |before.tables| <= i < |next.tables|
      ensures TableAdded(before, next, settings, i)
    {
      if i < |after.tables| {
        assert TableAdded(before, after, settings, i);
        FindTableIs(next.tables, after.tables[i].name, i);
      } else {
        StaysThere(before, after, settings, section);
        FindTableIs(next.tables, section, i);
        GrownSelf([], section);
      }
    }
  }

  lemma {:induction false} StaysThere(before: Doc, after: Doc, settings: seq<Managed>, section: string)
    requires Edited(before, after, settings)
    ensures HasTable(before, section) ==> HasTable(after, section)
  {
    var i := FindTable(before.tables, section);
    if i < |before.tables| {
      assert TableEdited(before, after, settings, i);
    }
  }

  lemma {:induction false} EditedEnsure(before: Doc, after: Doc, settings: seq<Managed>, section: string)
    requires Edited(before, after, settings) && ManagesTable(settings, section)
    ensures Edited(before, Ensure(after, section), settings)
  {
    if !HasTable(after, section) {
      if EndsInText(after) {
        EditedBlank(before, after, settings);
        AppendBlankMeans(after, section, "");
        EditedAppend(before, AppendBlank(after), settings, section);
      } else {
        EditedAppend(before, after, settings, section);
      }
    }
  }

  // The settings b want what a wants and one more key, in one section.
  ghost predicate WantedAt(a: seq<Managed>, b: seq<Managed>, section: string, key: string, value: string, t: string) {
    SameWanted(a, b, t, if t == section then Some((key, value)) else None)
    && (ManagesTable(a, t) ==> ManagesTable(b, t))
  }

  ghost predicate OneMoreWanted(a: seq<Managed>, b: seq<Managed>, section: string, key: string, value: string) {
    forall t: string :: WantedAt(a, b, section, key, value, t)
  }

  // One key set: only its section's part changes.
  lemma {:induction false} PartSet(before: Doc, after: Doc, a: seq<Managed>, b: seq<Managed>, section: string,
                                   key: string, value: string, i: nat)
    requires Edited(before, after, a) && HasTable(after, section)
    requires OneMoreWanted(a, b, section, key, value)
    requires i < |after.tables|
    ensures var next := SetKey(after, section, key, value);
            && |next.tables| == |after.tables|
            && if i < |before.tables| then TableEdited(before, next, b, i) else TableAdded(before, next, b, i)
  {
    var next, u := SetKey(after, section, key, value), after.tables[i];
    WithBodyMeans(after, section, SetIn(Body(after, section), key, value), u.name);
    if section != ROOT && i == FindTable(after.tables, section) {
      if i < |before.tables| {
        assert TableEdited(before, after, a, i);
        FirstBefore(before, after, a, i);
        assert WantedAt(a, b, section, key, value, section);
        GrownSet(before.tables[i].body, u.body, a, b, section, key, value);
      } else {
        assert TableAdded(before, after, a, i);
        assert WantedAt(a, b, section, key, value, section);
        GrownSet([], u.body, a, b, section, key, value);
      }
    } else if i < |before.tables| {
      assert TableEdited(before, after, a, i);
      if IsFirst(before, i) {
        FirstAfter(before, after, a, i);
        assert WantedAt(a, b, section, key, value, u.name);
        GrownSame(before.tables[i].body, u.body, a, b, u.name);
      }
    } else {
      assert TableAdded(before, after, a, i);
      assert WantedAt(a, b, section, key, value, u.name);
      GrownSame([], u.body, a, b, u.name);
    }
  }

  lemma {:induction false} FirstBefore(before: Doc, after: Doc, settings: seq<Managed>, i: nat)
    requires Edited(before, after, settings) && i < |before.tables|
    requires FindTable(after.tables, after.tables[i].name) == i
    ensures FindTable(before.tables, before.tables[i].name) == i
  {
    assert TableEdited(before, after, settings, i);
    forall k: nat | k < i
      ensures before.tables[k].name != before.tables[i].name
    {
      assert TableEdited(before, after, settings, k);
    }
    FindTableIs(before.tables, before.tables[i].name, i);
  }

  lemma {:induction false} FirstAfter(before: Doc, after: Doc, settings: seq<Managed>, i: nat)
    requires Edited(before, after, settings) && i < |before.tables|
    requires FindTable(before.tables, before.tables[i].name) == i
    ensures FindTable(after.tables, after.tables[i].name) == i
  {
    assert TableEdited(before, after, settings, i);
    forall k: nat | k < i
      ensures after.tables[k].name != after.tables[i].name
    {
      assert TableEdited(before, after, settings, k);
    }
    FindTableIs(after.tables, after.tables[i].name, i);
  }

  lemma {:induction false} EditedSetKey(before: Doc, after: Doc, a: seq<Managed>, b: seq<Managed>, section: string,
                                        key: string, value: string)
    requires Edited(before, after, a) && HasTable(after, section)
    requires OneMoreWanted(a, b, section, key, value)
    ensures Edited(before, SetKey(after, section, key, value), b)
  {
    var next := SetKey(after, section, key, value);
    if section == ROOT {
      assert WantedAt(a, b, section, key, value, ROOT);
      GrownSet(before.root, after.root, a, b, ROOT, key, value);
    } else {
      assert WantedAt(a, b, section, key, value, ROOT);
      GrownSame(before.root, after.root, a, b, ROOT);
    }
    forall i: nat | i < |after.tables|
      ensures if i < |before.tables| then TableEdited(before, next, b, i) else TableAdded(before, next, b, i)
    {
      PartSet(before, after, a, b, section, key, value, i);
    }
  }

  // ---- the whole run ----

  lemma {:induction false} OneMoreValue(settings: seq<Managed>, section: string, values: seq<(string, string)>, n: nat)
    requires n < |values|
    ensures OneMoreWanted(settings + [Managed(section, values[..n])], settings + [Managed(section, values[..n + 1])],
                          section, values[n].0, values[n].1)
  {
    var a, b := settings + [Managed(section, values[..n])], settings + [Managed(section, values[..n + 1])];
    assert a[..|settings|] == settings && b[..|settings|] == settings;
    assert values[..n + 1][..n] == values[..n] && values[..n + 1][n] == values[n];
  }

  lemma {:induction false} EditedSetNext(before: Doc, after: Doc, settings: seq<Managed>, section: string,
                                         values: seq<(string, string)>, n: nat)
    requires HasTable(after, section) && n < |values| && SetKeys(after, section, values[..n + 1]).Some?
    requires SetKeys(after, section, values[..n]).Some?
             && Edited(before, SetKeys(after, section, values[..n]).value, settings + [Managed(section, values[..n])])
    ensures Edited(before, SetKeys(after, section, values[..n + 1]).value,
                   settings + [Managed(section, values[..n + 1])])
  {
    var a, b := settings + [Managed(section, values[..n])], settings + [Managed(section, values[..n + 1])];
    assert values[..n + 1][..n] == values[..n] && values[..n + 1][n] == values[n];
    OneMoreValue(settings, section, values, n);
    EditedSetKey(before, SetKeys(after, section, values[..n]).value, a, b, section, values[n].0, values[n].1);
  }

  lemma {:induction false} EditedSetKeys(before: Doc, after: Doc, settings: seq<Managed>, section: string,
                                         values: seq<(string, string)>, n: nat)
    requires HasTable(after, section) && n <= |values| && Edited(before, after, settings + [Managed(section, [])])
    requires SetKeys(after, section, values[..n]).Some?
    ensures Edited(before, SetKeys(after, section, values[..n]).value, settings + [Managed(section, values[..n])])
  {
    if n > 0 {
      assert values[..n][..n - 1] == values[..n - 1];
      EditedSetKeys(before, after, settings, section, values, n - 1);
      EditedSetNext(before, after, settings, section, values, n - 1);
    }
  }

  lemma {:induction false} EditedSection(doc: Doc, d: Doc, settings: seq<Managed>, m: Managed)
    requires Edited(doc, d, settings) && SetKeys(Ensure(d, m.section), m.section, m.values).Some?
    ensures Edited(doc, SetKeys(Ensure(d, m.section), m.section, m.values).value, settings + [m])
  {
    EditedNext(doc, d, settings, m.section);
    SameUntil(settings, m.section, m.section);
    EditedEnsure(doc, d, settings + [Managed(m.section, [])], m.section);
    assert m.values[..|m.values|] == m.values;
    EditedSetKeys(doc, Ensure(d, m.section), settings, m.section, m.values, |m.values|);
  }

  lemma {:induction false} EditedSections(doc: Doc, settings: seq<Managed>)
    requires MergeSections(doc, settings).Some?
    ensures Edited(doc, MergeSections(doc, settings).value, settings)
  {
    if settings == [] {
      EditedSelf(doc);
    } else {
      var n := |settings| - 1;
      EditedSections(doc, settings[..n]);
      EditedSection(doc, MergeSections(doc, settings[..n]).value, settings[..n], settings[n]);
      InitLast(settings);
    }
  }

  // Between the lines that are left when the removed tables are taken out and the lines of the
  // result: every part stands where it did with its lines in place, a line changes only where it
  // is the first assignment of a listed key in the first table of its section, and only to the
  // wanted value, and what is new is listed too, or blank.
  lemma {:induction false} LinesSurvive(lines: seq<Line>, sections: seq<string>, settings: seq<Managed>, out: seq<Line>)
    requires Merge(Parse(lines), sections, settings) == Some(Parse(out))
    ensures Edited(Parse(Keep(lines, sections, true)), Parse(out), settings)
  {
    RenderParse(lines);
    KeepIsRemove(Parse(lines), sections);
    ParseRender(Remove(Parse(lines), sections));
    EditedSections(Remove(Parse(lines), sections), settings);
  }

  // ---- editing the text again ----

  lemma {:induction false} SameText(a: seq<Line>, b: seq<Line>)
    ensures Parse(a) == Parse(b) <==> a == b
  {
    RenderParse(a);
    RenderParse(b);
  }

  // Editing the edited text returns it exactly when the settings let it stay.
  lemma {:induction false} EditAgainIff(lines: seq<Line>, sections: seq<string>, settings: seq<Managed>,
                                        once: seq<Line>, twice: seq<Line>)
    requires Distinct(settings)
    requires Merge(Parse(lines), sections, settings) == Some(Parse(once))
    requires Merge(Parse(once), sections, settings) == Some(Parse(twice))
    ensures twice == once <==> Stays(Parse(lines), sections, settings)
  {
    SecondEditIff(Parse(lines), sections, settings);
    SameText(once, twice);
  }

  // And editing it a third time always does.
  lemma {:induction false} ThirdTimeSame(lines: seq<Line>, sections: seq<string>, settings: seq<Managed>,
                                         once: seq<Line>, twice: seq<Line>, thrice: seq<Line>)
    requires Distinct(settings)
    requires Merge(Parse(lines), sections, settings) == Some(Parse(once))
    requires Merge(Parse(once), sections, settings) == Some(Parse(twice))
    requires Merge(Parse(twice), sections, settings) == Some(Parse(thrice))
    ensures thrice == twice
  {
    ThirdEditChangesNothing(Parse(lines), sections, settings);
    SameText(twice, thrice);
  }
}
