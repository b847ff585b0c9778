// The message table, its edit log and its full-text index
// (schema, triggers and message updates in nix/pkgs/whatsapp-archive/db.go).

module WhatsappArchive {
  import opened Options

  // A row of messages; a row's id is its position. None is NULL.
  datatype Row = Row(msgId: string, chat: string, sender: Option<string>, senderName: Option<string>,
                     fromMe: bool, ts: int, kind: string, text: Option<string>, quoted: Option<string>,
                     mime: Option<string>, file: Option<string>, status: Option<string>, source: string,
                     raw: Option<string>, editedAt: Option<int>, deletedAt: Option<int>)

  datatype Msg = Msg(msgId: string, chat: string, sender: string, senderName: string, fromMe: bool, ts: int,
                     kind: string, text: string, quoted: string, mime: string, file: string, state: string,
                     source: string, raw: string)

  // A row of message_edits.
  datatype Edit = Edit(msgId: string, editedAt: int, oldText: Option<string>)

  // The index holds one entry for each row id and text it was given.
  datatype Tables = Tables(rows: seq<Row>, edits: seq<Edit>, index: multiset<(nat, Option<string>)>)

  const EMPTY: Tables := Tables([], [], multiset{})

  function Nullable(s: string): Option<string> { if s == "" then None else Some(s) }

  function Coalesce(a: Option<string>, b: Option<string>): Option<string> { if a.Some? then a else b }

  // kind LIKE 'unsupported:%'
  predicate IsPlaceholder(kind: string) { "unsupported:" <= kind }

  function NewRow(m: Msg): Row {
    Row(m.msgId, m.chat, Nullable(m.sender), Nullable(m.senderName), m.fromMe, m.ts, m.kind, Nullable(m.text),
        Nullable(m.quoted), Nullable(m.mime), Nullable(m.file), Nullable(m.state), m.source, Nullable(m.raw),
        None, None)
  }

  // What a handled copy replaces in a placeholder row.
  function Replaced(r: Row, m: Msg): Row {
    r.(kind := m.kind, text := Nullable(m.text), quoted := Nullable(m.quoted), mime := Nullable(m.mime),
       file := Nullable(m.file), status := Nullable(m.state), raw := None)
  }

  function Upgraded(r: Row, m: Msg): Row {
    r.(kind := m.kind, text := Nullable(m.text), quoted := Nullable(m.quoted), mime := Nullable(m.mime),
       status := Nullable(m.state), raw := None)
  }

  // The row of a message, or the number of rows.
  function Find(rows: seq<Row>, msgId: string): (i: nat)
    ensures i <= |rows|
    ensures i < |rows| ==> rows[i].msgId == msgId
    ensures forall k | 0 <= k < i :: rows[k].msgId != msgId
  {
    if rows == [] || rows[0].msgId == msgId then 0 else 1 + Find(rows[1..], msgId)
  }

  // UPDATE of a row's text and other columns: the trigger takes the old text out of the index
  // and puts the new one in.
  function Retext(t: Tables, i: nat, r: Row): Tables
    requires i < |t.rows|
  {
    t.(rows := t.rows[i := r], index := t.index - multiset{(i, t.rows[i].text)} + multiset{(i, r.text)})
  }

  predicate Writes(t: Tables, m: Msg) {
    var i := Find(t.rows, m.msgId);
    i == |t.rows| || (IsPlaceholder(t.rows[i].kind) && !IsPlaceholder(m.kind))
  }

  function Insert(t: Tables, m: Msg): Tables {
    var i := Find(t.rows, m.msgId);
    if i == |t.rows| then t.(rows := t.rows + [NewRow(m)], index := t.index + multiset{(i, Nullable(m.text))})
    else if Writes(t, m) then Retext(t, i, Replaced(t.rows[i], m))
    else t
  }

  function SetMedia(t: Tables, msgId: string, file: string, state: string): Tables {
    var i := Find(t.rows, msgId);
    if i == |t.rows| then t
    else t.(rows := t.rows[i := t.rows[i].(file := Coalesce(Nullable(file), t.rows[i].file), status := Some(state))])
  }

  predicate LacksMedia(r: Row) { r.status.Some? && r.status != Some("ok") }

  function Attach(t: Tables, msgId: string, file: string, mime: string): Tables {
    var i := Find(t.rows, msgId);
    if i == |t.rows| || !LacksMedia(t.rows[i]) then t
    else t.(rows := t.rows[i := t.rows[i].(file := Some(file), status := Some("ok"),
                                           mime := Coalesce(t.rows[i].mime, Nullable(mime)))])
  }

  function EditText(t: Tables, msgId: string, newText: string, at: int): Tables {
    var i := Find(t.rows, msgId);
    if i == |t.rows| then t
    else Retext(t.(edits := t.edits + [Edit(msgId, at, t.rows[i].text)]), i,
                t.rows[i].(text := Some(newText), editedAt := Some(at)))
  }

  function Delete(t: Tables, msgId: string, at: int): Tables {
    var i := Find(t.rows, msgId);
    if i == |t.rows| || t.rows[i].deletedAt.Some? then t
    else t.(rows := t.rows[i := t.rows[i].(deletedAt := Some(at))])
  }

  function Upgrade(t: Tables, msgId: string, m: Msg): Tables {
    var i := Find(t.rows, msgId);
    if i == |t.rows| || !IsPlaceholder(t.rows[i].kind) then t
    else Retext(t, i, Upgraded(t.rows[i], m))
  }

  // The archive's tables, updated in place.
  class Archive {
    var rows: seq<Row>
    var edits: seq<Edit>
    var index: multiset<(nat, Option<string>)>

    constructor ()
      ensures View() == EMPTY
    {
      rows, edits, index := [], [], multiset{};
    }

    ghost function View(): Tables
      reads this
    {
      Tables(rows, edits, index)
    }

    method Reindex(i: nat, before: Option<string>, after: Option<string>)
      modifies this`index
      ensures index == old(index) - multiset{(i, before)} + multiset{(i, after)}
    {
      index := index - multiset{(i, before)};
      index := index + multiset{(i, after)};
    }

    // Reports whether a row was written.
    method InsertMessage(m: Msg) returns (written: bool)
      modifies this
      ensures View() == Insert(old(View()), m) && written == Writes(old(View()), m)
    {
      var i := Find(rows, m.msgId);
      written := false;
      if i == |rows| {
        rows := rows + [NewRow(m)];
        index := index + multiset{(i, Nullable(m.text))};
        written := true;
      } else if IsPlaceholder(rows[i].kind) && !IsPlaceholder(m.kind) {
        var before := rows[i].text;
        rows := rows[i := Replaced(rows[i], m)];
        Reindex(i, before, rows[i].text);
        written := true;
      }
    }

    method SetMediaState(msgId: string, file: string, state: string)
      modifies this`rows
      ensures View() == SetMedia(old(View()), msgId, file, state)
    {
      var i := Find(rows, msgId);
      if i < |rows| {
        rows := rows[i := rows[i].(file := Coalesce(Nullable(file), rows[i].file), status := Some(state))];
      }
    }

    // Reports the number of rows changed.
    method AttachMedia(msgId: string, file: string, mime: string) returns (n: nat)
      modifies this`rows
      ensures View() == Attach(old(View()), msgId, file, mime)
      ensures var i := Find(old(rows), msgId);
              n == if i < |old(rows)| && LacksMedia(old(rows)[i]) then 1 else 0
    {
      var i := Find(rows, msgId);
      n := 0;
      if i < |rows| && LacksMedia(rows[i]) {
        rows := rows[i := rows[i].(file := Some(file), status := Some("ok"),
                                   mime := Coalesce(rows[i].mime, Nullable(mime)))];
        n := 1;
      }
    }

    method RecordEdit(msgId: string, newText: string, at: int)
      modifies this
      ensures View() == EditText(old(View()), msgId, newText, at)
    {
      var i := Find(rows, msgId);
      if i < |rows| {
        var before := rows[i].text;
        edits := edits + [Edit(msgId, at, before)];
        rows := rows[i := rows[i].(text := Some(newText), editedAt := Some(at))];
        Reindex(i, before, Some(newText));
      }
    }

    method MarkDeleted(msgId: string, at: int)
      modifies this`rows
      ensures View() == Delete(old(View()), msgId, at)
    {
      var i := Find(rows, msgId);
      if i < |rows| && rows[i].deletedAt.None? {
        rows := rows[i := rows[i].(deletedAt := Some(at))];
      }
    }

    method UpgradeUnsupported(msgId: string, m: Msg)
      modifies this
      ensures View() == Upgrade(old(View()), msgId, m)
    {
      var i := Find(rows, msgId);
      if i < |rows| && IsPlaceholder(rows[i].kind) {
        var before := rows[i].text;
        rows := rows[i := Upgraded(rows[i], m)];
        Reindex(i, before, rows[i].text);
      }
    }
  }
}
