// The life of a message row under every interleaving of the live feed, history sync, backup
// import, reprocessing and the media workers (nix/pkgs/whatsapp-archive/db.go, live.go, importjson.go).

module WhatsappLifecycle {
  import opened Options
  import opened WhatsappArchive

  // jobs: messages for which a media decision or download may still report.
  datatype System = System(t: Tables, jobs: set<string>)

  const START: System := System(EMPTY, {})

  // One statement on the tables, as its caller issues it.
  datatype Event =
    | Deliver(m: Msg, downloadable: bool)              // storeMessage, live or history
    | Import(m: Msg)                                   // runImportJSON
    | AttachFile(msgId: string, file: string, mime: string)
    | Edited(msgId: string, text: string, at: int)
    | Revoked(msgId: string, at: int)
    | Reprocess(msgId: string, m: Msg, downloadable: bool)
    | MediaReport(msgId: string, file: string, state: string)

  predicate PendingIff(m: Msg, downloadable: bool) { m.state == if downloadable then "pending" else "" }

  // What the callers guarantee of the arguments.
  predicate Legal(s: System, e: Event) {
    match e
    case Deliver(m, downloadable) =>
      && m.file == "" && PendingIff(m, downloadable) && (IsPlaceholder(m.kind) ==> !downloadable)
      && (m.raw != "" ==> IsPlaceholder(m.kind))
    case Import(m) => !IsPlaceholder(m.kind) && m.raw == "" && (m.state == "ok" ==> m.file != "")
    case AttachFile(_, file, _) => file != ""
    case Edited(_, _, _) => true
    case Revoked(_, _) => true
    case Reprocess(msgId, m, downloadable) =>
      Find(s.t.rows, msgId) < |s.t.rows| && !IsPlaceholder(m.kind) && PendingIff(m, downloadable)
    case MediaReport(msgId, file, state) => msgId in s.jobs && (state == "ok" ==> file != "")
  }

  function Step(s: System, e: Event): System {
    match e
    case Deliver(m, downloadable) =>
      System(Insert(s.t, m), if Writes(s.t, m) && downloadable then s.jobs + {m.msgId} else s.jobs)
    case Import(m) => s.(t := Insert(s.t, m))
    case AttachFile(msgId, file, mime) => s.(t := Attach(s.t, msgId, file, mime))
    case Edited(msgId, text, at) => s.(t := EditText(s.t, msgId, text, at))
    case Revoked(msgId, at) => s.(t := Delete(s.t, msgId, at))
    case Reprocess(msgId, m, downloadable) =>
      System(Upgrade(s.t, msgId, m), if downloadable then s.jobs + {msgId} else s.jobs)
    case MediaReport(msgId, file, state) => s.(t := SetMedia(s.t, msgId, file, state))
  }

  // ---- the index agrees with the table ----

  ghost function IndexOf(rows: seq<Row>): multiset<(nat, Option<string>)> {
    if rows == [] then multiset{}
    else var n := |rows| - 1; IndexOf(rows[..n]) + multiset{(n, rows[n].text)}
  }

  lemma {:induction false} IndexEntry(rows: seq<Row>, i: nat, text: Option<string>)
    ensures IndexOf(rows)[(i, text)] == if i < |rows| && rows[i].text == text then 1 else 0
  {
    if rows != [] { IndexEntry(rows[..|rows| - 1], i, text); }
  }

  lemma {:induction false} IndexUpdateAt(rows: seq<Row>, i: nat, r: Row, k: nat, text: Option<string>)
    requires i < |rows|
    ensures IndexOf(rows[i := r])[(k, text)] ==
              (IndexOf(rows) - multiset{(i, rows[i].text)} + multiset{(i, r.text)})[(k, text)]
  {
    IndexEntry(rows, k, text);
    IndexEntry(rows[i := r], k, text);
  }

  lemma {:induction false} IndexUpdate(rows: seq<Row>, i: nat, r: Row)
    requires i < |rows|
    ensures IndexOf(rows[i := r]) == IndexOf(rows) - multiset{(i, rows[i].text)} + multiset{(i, r.text)}
  {
    var a, b := IndexOf(rows[i := r]), IndexOf(rows) - multiset{(i, rows[i].text)} + multiset{(i, r.text)};
    forall x: (nat, Option<string>)
      ensures a[x] == b[x]
    {
      IndexUpdateAt(rows, i, r, x.0, x.1);
    }
  }

  // ---- the invariant ----

  // Raw bytes only on placeholders, no media on placeholders, and 'ok' only with a file.
  predicate RowOk(r: Row) {
    && (r.raw.Some? ==> IsPlaceholder(r.kind))
    && (IsPlaceholder(r.kind) ==> r.file.None? && r.status.None?)
    && (r.status == Some("ok") ==> r.file.Some?)
  }

  ghost predicate Handled(t: Tables, msgId: string) {
    var i := Find(t.rows, msgId);
    i < |t.rows| && !IsPlaceholder(t.rows[i].kind)
  }

  ghost predicate Inv(s: System) {
    && (forall i, j | 0 <= i < j < |s.t.rows| :: s.t.rows[i].msgId != s.t.rows[j].msgId)
    && (forall i | 0 <= i < |s.t.rows| :: RowOk(s.t.rows[i]))
    && s.t.index == IndexOf(s.t.rows)
    && (forall id | id in s.jobs :: Handled(s.t, id))
  }

  lemma {:induction false} FindIs(rows: seq<Row>, msgId: string, i: nat)
    requires i < |rows| && rows[i].msgId == msgId && forall k | 0 <= k < i :: rows[k].msgId != msgId
    ensures Find(rows, msgId) == i
  {
  }

  // Replacing a row by one of the same message keeps every search result.
  lemma {:induction false} FindUpdate(rows: seq<Row>, i: nat, r: Row, msgId: string)
    requires i < |rows| && r.msgId == rows[i].msgId
    ensures Find(rows[i := r], msgId) == Find(rows, msgId)
  {
    var next, k := rows[i := r], Find(rows, msgId);
    if k < |rows| { FindIs(next, msgId, k); } else { assert forall j | 0 <= j < |rows| :: next[j].msgId != msgId; }
  }

  lemma {:induction false} FindAppend(rows: seq<Row>, r: Row, msgId: string)
    ensures Find(rows, msgId) < |rows| ==> Find(rows + [r], msgId) == Find(rows, msgId)
    ensures Find(rows, msgId) == |rows| && r.msgId == msgId ==> Find(rows + [r], msgId) == |rows|
  {
    var next, k := rows + [r], Find(rows, msgId);
    if k < |rows| { FindIs(next, msgId, k); } else if r.msgId == msgId { FindIs(next, msgId, |rows|); }
  }

  // A step that changes one row, keeping its message and never unhandling it, keeps the invariant.
  lemma {:induction false} RowChangeKeepsInv(s: System, i: nat, r: Row, t: Tables, jobs: set<string>)
    requires Inv(s) && i < |s.t.rows| && t.rows == s.t.rows[i := r] && RowOk(r)
    requires r.msgId == s.t.rows[i].msgId && (!IsPlaceholder(s.t.rows[i].kind) ==> !IsPlaceholder(r.kind))
    requires t.index == IndexOf(t.rows)
    requires jobs <= s.jobs + {r.msgId} && (r.msgId in jobs ==> !IsPlaceholder(r.kind))
    ensures Inv(System(t, jobs))
  {
    forall id | id in jobs ensures Handled(t, id) {
      FindUpdate(s.t.rows, i, r, id);
      if id == r.msgId { FindIs(s.t.rows, id, i); }
    }
  }

  // A change that leaves the text alone.
  lemma {:induction false} QuietChangeKeepsInv(s: System, i: nat, r: Row)
    requires Inv(s) && i < |s.t.rows| && RowOk(r) && r.text == s.t.rows[i].text
    requires r.msgId == s.t.rows[i].msgId && r.kind == s.t.rows[i].kind
    ensures Inv(s.(t := s.t.(rows := s.t.rows[i := r])))
  {
    var t := s.t.(rows := s.t.rows[i := r]);
    IndexUpdate(s.t.rows, i, r);
    IndexEntry(s.t.rows, i, r.text);
    assert IndexOf(t.rows) == IndexOf(s.t.rows);
    if r.msgId in s.jobs {
      assert Handled(s.t, r.msgId);
      FindIs(s.t.rows, r.msgId, i);
    }
    RowChangeKeepsInv(s, i, r, t, s.jobs);
  }

  // A change of the text, with the index kept up by the trigger.
  lemma {:induction false} RetextKeepsInv(s: System, i: nat, r: Row, edits: seq<Edit>, jobs: set<string>)
    requires Inv(s) && i < |s.t.rows| && RowOk(r)
    requires r.msgId == s.t.rows[i].msgId && (!IsPlaceholder(s.t.rows[i].kind) ==> !IsPlaceholder(r.kind))
    requires jobs <= s.jobs + {r.msgId} && (r.msgId in jobs ==> !IsPlaceholder(r.kind))
    ensures Inv(System(Retext(s.t.(edits := edits), i, r), jobs))
  {
    IndexUpdate(s.t.rows, i, r);
    RowChangeKeepsInv(s, i, r, Retext(s.t.(edits := edits), i, r), jobs);
  }

  lemma {:induction false} NewRowHandled(s: System, m: Msg, id: string)
    requires Find(s.t.rows, m.msgId) == |s.t.rows|
    requires Handled(s.t, id) || (id == m.msgId && !IsPlaceholder(m.kind))
    ensures Handled(Insert(s.t, m), id)
  {
    FindAppend(s.t.rows, NewRow(m), id);
  }

  lemma {:induction false} NewRowKeepsInv(s: System, m: Msg, jobs: set<string>)
    requires Inv(s) && RowOk(NewRow(m)) && Find(s.t.rows, m.msgId) == |s.t.rows|
    requires jobs <= s.jobs + {m.msgId} && (m.msgId in jobs && m.msgId !in s.jobs ==> !IsPlaceholder(m.kind))
    ensures Inv(System(Insert(s.t, m), jobs))
  {
    var t := Insert(s.t, m);
    forall id | id in jobs ensures Handled(t, id) {
      NewRowHandled(s, m, id);
    }
  }

  lemma {:induction false} DeliverKeepsInv(s: System, m: Msg, jobs: set<string>)
    requires Inv(s) && RowOk(NewRow(m)) && (IsPlaceholder(m.kind) ==> jobs == s.jobs)
    requires jobs == s.jobs || (Writes(s.t, m) && jobs == s.jobs + {m.msgId})
    ensures Inv(System(Insert(s.t, m), jobs))
  {
    var i := Find(s.t.rows, m.msgId);
    if i == |s.t.rows| {
      NewRowKeepsInv(s, m, jobs);
    } else if Writes(s.t, m) {
      RetextKeepsInv(s, i, Replaced(s.t.rows[i], m), s.t.edits, jobs);
    }
  }

  lemma {:induction false} ReprocessKeepsInv(s: System, msgId: string, m: Msg, downloadable: bool)
    requires Inv(s) && Legal(s, Reprocess(msgId, m, downloadable))
    ensures Inv(Step(s, Reprocess(msgId, m, downloadable)))
  {
    var i, jobs := Find(s.t.rows, msgId), Step(s, Reprocess(msgId, m, downloadable)).jobs;
    if IsPlaceholder(s.t.rows[i].kind) {
      RetextKeepsInv(s, i, Upgraded(s.t.rows[i], m), s.t.edits, jobs);
    } else {
      assert Handled(s.t, msgId);
    }
  }

  lemma {:induction false} MediaKeepsInv(s: System, e: Event)
    requires Inv(s) && Legal(s, e) && (e.AttachFile? || e.Revoked? || e.MediaReport?)
    ensures Inv(Step(s, e))
  {
    var i, t := Find(s.t.rows, e.msgId), Step(s, e).t;
    if e.MediaReport? { assert Handled(s.t, e.msgId); }
    if i < |s.t.rows| && t != s.t {
      assert t == s.t.(rows := s.t.rows[i := t.rows[i]]);
      QuietChangeKeepsInv(s, i, t.rows[i]);
    }
  }

  lemma {:induction false} EditKeepsInv(s: System, msgId: string, text: string, at: int)
    requires Inv(s)
    ensures Inv(Step(s, Edited(msgId, text, at)))
  {
    var i := Find(s.t.rows, msgId);
    if i < |s.t.rows| {
      var r := s.t.rows[i].(text := Some(text), editedAt := Some(at));
      if msgId in s.jobs { assert Handled(s.t, msgId); }
      RetextKeepsInv(s, i, r, s.t.edits + [Edit(msgId, at, s.t.rows[i].text)], s.jobs);
    }
  }

  lemma {:induction false} StepKeepsInv(s: System, e: Event)
    requires Inv(s) && Legal(s, e)
    ensures Inv(Step(s, e))
  {
    match e
    case Deliver(m, downloadable) => DeliverKeepsInv(s, m, Step(s, e).jobs);
    case Import(m) => DeliverKeepsInv(s, m, s.jobs);
    case Reprocess(msgId, m, downloadable) => ReprocessKeepsInv(s, msgId, m, downloadable);
    case Edited(msgId, text, at) => EditKeepsInv(s, msgId, text, at);
    case _ => MediaKeepsInv(s, e);
  }

  // ---- what is never undone ----

  predicate Recorded(edits: seq<Edit>, msgId: string, text: Option<string>) {
    exists k :: 0 <= k < |edits| && edits[k].msgId == msgId && edits[k].oldText == text
  }

  // The same message; a handled kind stays, and so do a file and the first revoke time; a
  // handled text is still there or is kept in the edit log.
  predicate RowLater(a: Row, b: Row, edits: seq<Edit>) {
    && b.msgId == a.msgId && b.chat == a.chat && b.ts == a.ts && b.source == a.source
    && (a.deletedAt.Some? ==> b.deletedAt == a.deletedAt)
    && (a.file.Some? ==> b.file.Some?)
    && (!IsPlaceholder(a.kind) ==> b.kind == a.kind && (b.text == a.text || Recorded(edits, a.msgId, a.text)))
  }

  ghost predicate Later(s: Tables, t: Tables) {
    && |s.rows| <= |t.rows| && s.edits <= t.edits
    && forall i | 0 <= i < |s.rows| :: RowLater(s.rows[i], t.rows[i], t.edits)
  }

  lemma {:induction false} ChangeIsLater(s: Tables, t: Tables, i: nat)
    requires i < |s.rows| && |t.rows| == |s.rows| && t.rows == s.rows[i := t.rows[i]] && s.edits <= t.edits
    requires RowLater(s.rows[i], t.rows[i], t.edits)
    ensures Later(s, t)
  {
    forall k | 0 <= k < |s.rows| ensures RowLater(s.rows[k], t.rows[k], t.edits) {
    }
  }

  lemma {:induction false} SameIsLater(s: Tables, t: Tables)
    requires s.rows <= t.rows && s.edits == t.edits
    ensures Later(s, t)
  {
    forall k | 0 <= k < |s.rows| ensures RowLater(s.rows[k], t.rows[k], t.edits) {
    }
  }

  lemma {:induction false} EditIsLater(s: System, msgId: string, text: string, at: int)
    requires Inv(s)
    ensures Later(s.t, EditText(s.t, msgId, text, at))
  {
    var i, t := Find(s.t.rows, msgId), EditText(s.t, msgId, text, at);
    if i < |s.t.rows| {
      assert t.edits[|s.t.edits|] == Edit(msgId, at, s.t.rows[i].text);
      assert Recorded(t.edits, msgId, s.t.rows[i].text);
      ChangeIsLater(s.t, t, i);
    } else {
      SameIsLater(s.t, t);
    }
  }

  lemma {:induction false} InsertIsLater(s: System, m: Msg)
    requires Inv(s)
    ensures Later(s.t, Insert(s.t, m))
  {
    var i, t := Find(s.t.rows, m.msgId), Insert(s.t, m);
    if i < |s.t.rows| && Writes(s.t, m) {
      assert RowOk(s.t.rows[i]);
      ChangeIsLater(s.t, t, i);
    } else {
      SameIsLater(s.t, t);
    }
  }

  // What a file, a status or a revocation does to the one row it names.
  lemma {:induction false} RowChangeIsLater(s: System, e: Event)
    requires Inv(s) && Legal(s, e) && (e.AttachFile? || e.MediaReport? || e.Revoked?)
    ensures Later(s.t, Step(s, e).t)
  {
    var i, t := Find(s.t.rows, e.msgId), Step(s, e).t;
    if i < |s.t.rows| {
      ChangeIsLater(s.t, t, i);
    } else {
      SameIsLater(s.t, t);
    }
  }

  lemma {:induction false} UpgradeIsLater(s: System, msgId: string, m: Msg)
    requires Inv(s) && Find(s.t.rows, msgId) < |s.t.rows| && !IsPlaceholder(m.kind)
    ensures Later(s.t, Upgrade(s.t, msgId, m))
  {
    ChangeIsLater(s.t, Upgrade(s.t, msgId, m), Find(s.t.rows, msgId));
  }

  lemma {:induction false} StepIsLater(s: System, e: Event)
    requires Inv(s) && Legal(s, e)
    ensures Later(s.t, Step(s, e).t)
  {
    match e
    case Deliver(m, _) => InsertIsLater(s, m);
    case Import(m) => InsertIsLater(s, m);
    case Edited(msgId, text, at) => EditIsLater(s, msgId, text, at);
    case Reprocess(msgId, m, _) => UpgradeIsLater(s, msgId, m);
    case _ => RowChangeIsLater(s, e);
  }

  lemma {:induction false} LaterTransitive(s: Tables, t: Tables, u: Tables)
    requires Later(s, t) && Later(t, u)
    ensures Later(s, u)
  {
    forall i | 0 <= i < |s.rows| ensures RowLater(s.rows[i], u.rows[i], u.edits) {
      assert RowLater(s.rows[i], t.rows[i], t.edits) && RowLater(t.rows[i], u.rows[i], u.edits);
      if Recorded(t.edits, s.rows[i].msgId, s.rows[i].text) {
        var k :| 0 <= k < |t.edits| && t.edits[k].msgId == s.rows[i].msgId && t.edits[k].oldText == s.rows[i].text;
        assert u.edits[k] == t.edits[k];
      }
    }
  }

  // ---- runs ----

  predicate LegalRun(s: System, events: seq<Event>)
    decreases |events|
  {
    events == [] || (Legal(s, events[0]) && LegalRun(Step(s, events[0]), events[1..]))
  }

  function Run(s: System, events: seq<Event>): System
    decreases |events|
  {
    if events == [] then s else Run(Step(s, events[0]), events[1..])
  }

  // Over every interleaving, from every reachable state on.
  lemma {:induction false} RunKeeps(s: System, events: seq<Event>)
    requires Inv(s) && LegalRun(s, events)
    ensures Inv(Run(s, events)) && Later(s.t, Run(s, events).t)
    decreases |events|
  {
    if events != [] {
      var t := Step(s, events[0]);
      StepKeepsInv(s, events[0]);
      StepIsLater(s, events[0]);
      RunKeeps(t, events[1..]);
      LaterTransitive(s.t, t.t, Run(t, events[1..]).t);
    } else {
      forall i | 0 <= i < |s.t.rows| ensures RowLater(s.t.rows[i], s.t.rows[i], s.t.edits) {
      }
    }
  }

  // From the empty archive: one row per message, legal rows, and a full-text index that finds
  // a text at a row exactly when it is that row's current text, once.
  lemma {:induction false} ArchiveConsistent(events: seq<Event>, i: nat, text: Option<string>)
    requires LegalRun(START, events)
    ensures var t := Run(START, events).t;
            && (forall a, b | 0 <= a < b < |t.rows| :: t.rows[a].msgId != t.rows[b].msgId)
            && (forall a | 0 <= a < |t.rows| :: RowOk(t.rows[a]))
            && t.index[(i, text)] == if i < |t.rows| && t.rows[i].text == text then 1 else 0
  {
    assert Inv(START);
    RunKeeps(START, events);
    IndexEntry(Run(START, events).t.rows, i, text);
  }

  // Between any two points of any run nothing of Later is undone.
  lemma {:induction false} NothingUndone(before: seq<Event>, after: seq<Event>)
    requires LegalRun(START, before) && LegalRun(Run(START, before), after)
    ensures Later(Run(START, before).t, Run(Run(START, before), after).t)
  {
    assert Inv(START);
    RunKeeps(START, before);
    RunKeeps(Run(START, before), after);
  }

  // ---- the one thing that is: the status 'ok' ----

  lemma {:induction false} OkThroughChange(s: System, e: Event, i: nat)
    requires i < |s.t.rows| && RowOk(s.t.rows[i]) && s.t.rows[i].status == Some("ok")
    requires e.AttachFile? || e.Edited? || e.Revoked?
    ensures i < |Step(s, e).t.rows| && Step(s, e).t.rows[i].status == Some("ok")
  {
  }

  lemma {:induction false} OkStays(s: System, e: Event, i: nat)
    requires Legal(s, e) && i < |s.t.rows| && RowOk(s.t.rows[i]) && s.t.rows[i].status == Some("ok") && !e.MediaReport?
    ensures i < |Step(s, e).t.rows| && Step(s, e).t.rows[i].status == Some("ok")
  {
    match e
    case Deliver(m, _) => HandledThroughInsert(s.t, m, i);
    case Import(m) => HandledThroughInsert(s.t, m, i);
    case Reprocess(msgId, m, _) =>
    case _ => OkThroughChange(s, e, i);
  }

  lemma {:induction false} HandledThroughInsert(t: Tables, m: Msg, i: nat)
    requires i < |t.rows| && !IsPlaceholder(t.rows[i].kind)
    ensures i < |Insert(t, m).rows| && Insert(t, m).rows[i] == t.rows[i]
  {
  }

  lemma {:induction false} OkAfterReport(s: System, e: Event, i: nat)
    requires Inv(s) && Legal(s, e) && i < |s.t.rows| && s.t.rows[i].status == Some("ok") && e.MediaReport?
    ensures i < |Step(s, e).t.rows|
    ensures Step(s, e).t.rows[i].status != Some("ok") <==> e.msgId == s.t.rows[i].msgId && e.state != "ok"
  {
    FindIs(s.t.rows, s.t.rows[i].msgId, i);
    assert RowOk(s.t.rows[i]);
  }

  // A row's 'ok' is lost exactly when a media worker reports something else on it.
  lemma {:induction false} OkLostIff(s: System, e: Event, i: nat)
    requires Inv(s) && Legal(s, e) && i < |s.t.rows| && s.t.rows[i].status == Some("ok")
    ensures i < |Step(s, e).t.rows|
    ensures Step(s, e).t.rows[i].status != Some("ok") <==>
              e.MediaReport? && e.msgId == s.t.rows[i].msgId && e.state != "ok"
  {
    if e.MediaReport? {
      OkAfterReport(s, e, i);
    } else {
      OkStays(s, e, i);
    }
  }

  // It does happen: the live copy waits for its download, the backup attaches its own file,
  // and the late failure of the download then marks the row failed, file and all.
  lemma {:induction false} LateFailureOverwritesOk(live: Msg)
    requires !IsPlaceholder(live.kind) && live.file == "" && live.raw == "" && live.state == "pending"
    ensures var a, b := Deliver(live, true), AttachFile(live.msgId, "backup.jpg", "");
            var c := MediaReport(live.msgId, "", "failed");
            && LegalRun(START, [a, b, c])
            && var before, after := Run(START, [a, b]).t, Run(START, [a, b, c]).t;
               && |before.rows| == |after.rows| == 1
               && before.rows[0].status == Some("ok") && before.rows[0].file == Some("backup.jpg")
               && after.rows[0].status == Some("failed") && after.rows[0].file == Some("backup.jpg")
  {
    var a, b, c := Deliver(live, true), AttachFile(live.msgId, "backup.jpg", ""), MediaReport(live.msgId, "", "failed");
    assert [a, b, c][1..] == [b, c] && [b, c][1..] == [c] && [c][1..] == [] && [a, b][1..] == [b] && [b][1..] == [];
    var s1 := Step(START, a);
    assert s1.t.rows == [NewRow(live)];
    FindIs(s1.t.rows, live.msgId, 0);
    var s2 := Step(s1, b);
    FindIs(s2.t.rows, live.msgId, 0);
    assert Run(s2, []) == s2 && LegalRun(s2, [c]);
    assert LegalRun(s1, [b, c]);
    var s3 := Step(s2, c);
    assert Run(s1, [b]) == s2;
    assert Run(s3, []) == s3 && Run(s2, [c]) == s3;
    assert Run(s1, [b, c]) == s3;
  }
}
