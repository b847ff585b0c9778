// The callers of the message archive: the live and history feeds, the media worker, the
// reprocessing of placeholders, and the backup import (nix/pkgs/whatsapp-archive/live.go and
// importjson.go).  Every one of them only ever issues the legal events of the row life cycle.
module WhatsappFeeds {
  import opened Options
  import A = WhatsappArchive
  import P = WhatsappPolls
  import opened WhatsappLifecycle

  // A vote a history sync attaches to its poll.
  datatype HistoryVote = HistoryVote(voter: string, at: int, hashes: seq<string>)

  // What a message turns out to be; describe, decryption and the protocol buffers are inputs.
  datatype Content =
    | Revoke(target: string)
    | EditOf(target: string, kind: string, text: string)
    | OtherProtocol
    | PollVote(poll: string, hashes: Option<seq<string>>)
    | Body(kind: string, text: string, quoted: string, mime: string, downloadable: bool,
           placeholder: string, raw: string, options: Option<seq<string>>, votes: seq<HistoryVote>)

  datatype Envelope = Envelope(id: string, chat: string, sender: string, pushName: string, fromMe: bool, ts: int,
                               skipped: bool, content: Content)

  // What describing gives: a handled kind is never a placeholder's; without a kind nothing is
  // downloadable; what the placeholder name is, if any.
  ghost predicate Described(c: Content) {
    c.Body? ==> && !A.IsPlaceholder(c.kind)
                && (c.kind == "" ==> !c.downloadable)
                && (c.placeholder != "" ==> A.IsPlaceholder(c.placeholder))
  }

  // An outcome of a media download: the file stored, or why there is none.
  datatype Download = Stored(file: string) | Expired | Unavailable

  // ---- runs of events ----

  ghost predicate Reached(s: System, events: seq<Event>, t: System) {
    LegalRun(s, events) && Run(s, events) == t
  }

  lemma {:induction false} ReachedOne(s: System, e: Event)
    requires Legal(s, e)
    ensures Reached(s, [e], Step(s, e))
  {
    var t := Step(s, e);
    assert [e][1..] == [];
    assert LegalRun(t, []) && Run(t, []) == t;
  }

  lemma {:induction false} ReachedJoin(s: System, a: seq<Event>, t: System, b: seq<Event>, u: System)
    requires Reached(s, a, t) && Reached(t, b, u)
    ensures Reached(s, a + b, u)
    decreases |a|
  {
    if a == [] {
      assert a + b == b;
    } else {
      assert (a + b)[1..] == a[1..] + b;
      ReachedJoin(Step(s, a[0]), a[1..], t, b, u);
    }
  }

  lemma {:induction false} ReachedKeepsInv(s: System, events: seq<Event>, t: System)
    requires Inv(s) && Reached(s, events, t)
    ensures Inv(t) && Later(s.t, t.t)
  {
    RunKeeps(s, events);
  }

  // ---- the poll tables along the way ----

  ghost function PollSteps(w: P.World, t: P.Tables, events: seq<P.Event>): P.Tables {
    if events == [] then t else P.Step(w, PollSteps(w, t, events[..|events| - 1]), events[|events| - 1])
  }

  function VoteEvents(poll: string, votes: seq<HistoryVote>): (events: seq<P.Event>)
    ensures |events| == |votes|
  {
    seq(|votes|, i requires 0 <= i < |votes| => P.Voted(poll, votes[i].voter, votes[i].at, votes[i].hashes, "history"))
  }

  // What a stored message does to the poll tables: its options first, its votes after them.
  function PollEvents(e: Envelope): (events: seq<P.Event>) {
    if e.skipped then []
    else match e.content
      case PollVote(poll, hashes) =>
        if hashes.Some? then [P.Voted(poll, e.sender, e.ts, hashes.value, "live")] else []
      case Body(kind, _, _, _, _, placeholder, _, options, votes) =>
        if kind == "" && placeholder == "" then []
        else (if options.Some? then [P.Stored(e.id)] else []) + VoteEvents(e.id, votes)
      case _ => []
  }

  // A message with a poll says what the poll's options are.
  ghost predicate Consistent(w: P.World, e: Envelope) {
    e.content.Body? && e.content.options.Some? ==> w.names(e.id) == e.content.options.value
  }

  // A message that carries its poll's options never records one of its votes before them.
  lemma {:induction false} OptionsBeforeVotes(e: Envelope, n: nat)
    requires e.content.Body? && e.content.options.Some? && n <= |PollEvents(e)|
    ensures P.WellOrdered(PollEvents(e)[..n])
    ensures n > 0 ==> P.StoredIn(PollEvents(e)[..n], e.id)
  {
    if n > 0 {
      OptionsBeforeVotes(e, n - 1);
      var events := PollEvents(e);
      assert events[..n][..n - 1] == events[..n - 1];
      assert events[0] == P.Stored(e.id);
    }
  }

  lemma {:induction false} PollStepsAppend(w: P.World, t: P.Tables, events: seq<P.Event>, e: P.Event)
    ensures PollSteps(w, t, events + [e]) == P.Step(w, PollSteps(w, t, events), e)
  {
    assert (events + [e])[..|events|] == events;
  }

  lemma {:induction false} OneMoreVote(w: P.World, t: P.Tables, before: seq<P.Event>, poll: string,
                                       votes: seq<HistoryVote>, i: nat)
    requires i < |votes|
    ensures PollSteps(w, t, before + VoteEvents(poll, votes)[..i + 1]) ==
              P.Step(w, PollSteps(w, t, before + VoteEvents(poll, votes)[..i]),
                     P.Voted(poll, votes[i].voter, votes[i].at, votes[i].hashes, "history"))
  {
    var events, e := VoteEvents(poll, votes), P.Voted(poll, votes[i].voter, votes[i].at, votes[i].hashes, "history");
    assert before + events[..i + 1] == before + events[..i] + [e];
    PollStepsAppend(w, t, before + events[..i], e);
  }

  // ---- what each caller issues, and the downloads it queues ----

  // Old history media is skipped, else the download is queued if there is room.
  function QueueEvents(msgId: string, tooOld: bool, room: bool): (events: seq<Event>) {
    if tooOld then [MediaReport(msgId, "", "skipped")]
    else if room then [] else [MediaReport(msgId, "", "queue-full")]
  }

  function QueueJobs(msgId: string, tooOld: bool, room: bool): (jobs: seq<string>) {
    if !tooOld && room then [msgId] else []
  }

  function OutcomeOf(msgId: string, download: Download): Event {
    match download
    case Stored(file) => MediaReport(msgId, file, "ok")
    case Expired => MediaReport(msgId, "", "expired")
    case Unavailable => MediaReport(msgId, "", "failed")
  }

  // A message that is stored is described, or at least names its placeholder.
  predicate HasBody(c: Content) {
    c.Body? && (c.kind != "" || c.placeholder != "")
  }

  function DeliveredMsg(e: Envelope, source: string): (m: A.Msg)
    requires e.content.Body?
  {
    var c := e.content;
    A.Msg(e.id, e.chat, e.sender, if e.fromMe then "" else e.pushName, e.fromMe, e.ts,
          if c.kind != "" then c.kind else c.placeholder, c.text, c.quoted, c.mime, "",
          if c.downloadable then "pending" else "", source, if c.kind != "" then "" else c.raw)
  }

  // Its media is due when a row was written.
  predicate MediaDue(e: Envelope, source: string, t: A.Tables) {
    HasBody(e.content) && e.content.downloadable && A.Writes(t, DeliveredMsg(e, source))
  }

  function BodyEvents(e: Envelope, source: string, tooOld: bool, room: bool, t: A.Tables): (events: seq<Event>)
    requires e.content.Body?
  {
    if !HasBody(e.content) then []
    else
      [Deliver(DeliveredMsg(e, source), e.content.downloadable)]
      + if MediaDue(e, source, t) then QueueEvents(e.id, tooOld, room) else []
  }

  function MessageEvents(e: Envelope, source: string, tooOld: bool, room: bool, t: A.Tables): (events: seq<Event>) {
    if e.skipped then []
    else match e.content
      case Revoke(target) => [Revoked(target, e.ts)]
      case EditOf(target, kind, text) => if kind != "" then [Edited(target, text, e.ts)] else []
      case Body(_, _, _, _, _, _, _, _, _) => BodyEvents(e, source, tooOld, room, t)
      case _ => []
  }

  function MessageJobs(e: Envelope, source: string, tooOld: bool, room: bool, t: A.Tables): (jobs: seq<string>) {
    if !e.skipped && MediaDue(e, source, t) then QueueJobs(e.id, tooOld, room) else []
  }

  // ---- reprocessing ----

  predicate KeepsBytes(r: A.Row) {
    A.IsPlaceholder(r.kind) && r.raw.Some?
  }

  // The placeholders among the first n rows that kept their bytes, as id and bytes.
  function KeptRaw(rows: seq<A.Row>, n: nat): (list: seq<(string, string)>)
    requires n <= |rows|
  {
    if n == 0 then []
    else KeptRaw(rows, n - 1) + if KeepsBytes(rows[n - 1]) then [(rows[n - 1].msgId, rows[n - 1].raw.value)] else []
  }

  lemma {:induction false} KeptRawHas(rows: seq<A.Row>, n: nat, i: nat)
    requires i < n <= |rows| && KeepsBytes(rows[i])
    ensures (rows[i].msgId, rows[i].raw.value) in KeptRaw(rows, n)
  {
    if i < n - 1 {
      KeptRawHas(rows, n - 1, i);
    }
  }

  predicate Describable(describe: string -> Option<Content>, raw: string) {
    describe(raw).Some? && describe(raw).value.Body? && describe(raw).value.kind != ""
  }

  predicate Upgradable(r: A.Row, describe: string -> Option<Content>) {
    KeepsBytes(r) && Describable(describe, r.raw.value)
  }

  function CountDescribable(list: seq<(string, string)>, n: nat, describe: string -> Option<Content>): (k: nat)
    requires n <= |list|
  {
    if n == 0 then 0
    else CountDescribable(list, n - 1, describe) + if Describable(describe, list[n - 1].1) then 1 else 0
  }

  function UpgradeMsg(c: Content): (m: A.Msg)
    requires c.Body?
  {
    A.Msg("", "", "", "", false, 0, c.kind, c.text, c.quoted, c.mime, "",
          if c.downloadable then "pending" else "", "", "")
  }

  function UpgradeOf(msgId: string, c: Content, tooOld: bool, room: bool): (events: seq<Event>)
    requires c.Body?
  {
    [Reprocess(msgId, UpgradeMsg(c), c.downloadable)] + if c.downloadable then QueueEvents(msgId, tooOld, room) else []
  }

  function UpgradeJobs(msgId: string, c: Content, tooOld: bool, room: bool): (jobs: seq<string>)
    requires c.Body?
  {
    if c.downloadable then QueueJobs(msgId, tooOld, room) else []
  }

  function EntryEvents(entry: (string, string), describe: string -> Option<Content>,
                       tooOld: string -> bool, room: string -> bool): (events: seq<Event>)
  {
    if !Describable(describe, entry.1) then []
    else UpgradeOf(entry.0, describe(entry.1).value, tooOld(entry.0), room(entry.0))
  }

  function EntryJobs(entry: (string, string), describe: string -> Option<Content>,
                     tooOld: string -> bool, room: string -> bool): (jobs: seq<string>)
  {
    if !Describable(describe, entry.1) then []
    else UpgradeJobs(entry.0, describe(entry.1).value, tooOld(entry.0), room(entry.0))
  }

  // One upgrade for each of the first n kept placeholders that can be described, in order.
  function UpgradeEvents(list: seq<(string, string)>, n: nat, describe: string -> Option<Content>,
                         tooOld: string -> bool, room: string -> bool): (events: seq<Event>)
    requires n <= |list|
  {
    if n == 0 then []
    else UpgradeEvents(list, n - 1, describe, tooOld, room) + EntryEvents(list[n - 1], describe, tooOld, room)
  }

  function UpgradedJobs(list: seq<(string, string)>, n: nat, describe: string -> Option<Content>,
                        tooOld: string -> bool, room: string -> bool): (jobs: seq<string>)
    requires n <= |list|
  {
    if n == 0 then []
    else UpgradedJobs(list, n - 1, describe, tooOld, room) + EntryJobs(list[n - 1], describe, tooOld, room)
  }

  // What is issued, queued and counted for the first n of the list.
  ghost predicate Upgrades(list: seq<(string, string)>, n: nat, describe: string -> Option<Content>,
                           tooOld: string -> bool, room: string -> bool,
                           events: seq<Event>, before: seq<string>, media: seq<string>, upgraded: nat)
    requires n <= |list|
  {
    && events == UpgradeEvents(list, n, describe, tooOld, room)
    && media == before + UpgradedJobs(list, n, describe, tooOld, room)
    && upgraded == CountDescribable(list, n, describe)
  }

  lemma {:induction false} UpgradesNext(list: seq<(string, string)>, n: nat, describe: string -> Option<Content>,
                                        tooOld: string -> bool, room: string -> bool,
                                        events: seq<Event>, before: seq<string>, media: seq<string>, upgraded: nat)
    requires n < |list| && Upgrades(list, n, describe, tooOld, room, events, before, media, upgraded)
    ensures Upgrades(list, n + 1, describe, tooOld, room, events + EntryEvents(list[n], describe, tooOld, room),
                     before, media + EntryJobs(list[n], describe, tooOld, room),
                     upgraded + if Describable(describe, list[n].1) then 1 else 0)
  {
    var done, more := UpgradedJobs(list, n, describe, tooOld, room), EntryJobs(list[n], describe, tooOld, room);
    assert before + done + more == before + (done + more);
  }

  // Reprocessing these rows: an upgrade for each kept placeholder that can be described, and
  // its media queued; as many are counted.
  ghost predicate Reprocessed(rows: seq<A.Row>, describe: string -> Option<Content>,
                              tooOld: string -> bool, room: string -> bool,
                              events: seq<Event>, before: seq<string>, media: seq<string>, upgraded: nat)
  {
    var list := KeptRaw(rows, |rows|);
    Upgrades(list, |list|, describe, tooOld, room, events, before, media, upgraded)
  }

  ghost predicate DescribesSoundly(describe: string -> Option<Content>) {
    forall raw :: describe(raw).Some? ==> describe(raw).value.Body? && Described(describe(raw).value)
  }

  // ---- the backup export ----

  // One message of the export, with its texts already unescaped; `stored` is where its media file
  // goes, `copied` whether copying it there worked, `mediaKind` the kind its type gives.
  datatype Exported = Exported(keyId: string, sender: string, fromMe: bool, ts: int, text: string, caption: string,
                               reply: string, media: bool, meta: bool, mime: string, mediaKind: string,
                               stored: string, copied: bool)

  ghost predicate Exportable(x: Exported) {
    !A.IsPlaceholder(x.mediaKind) && x.stored != ""
  }

  datatype Counters = Counters(added: nat, seen: nat, copied: nat, attached: nat)

  class Archiver {
    const arc: A.Archive
    const polls: P.PollArchive
    var media: seq<string>          // messages whose download is queued
    ghost var jobs: set<string>     // messages a media decision was ever due for

    ghost function Sys(): System
      reads this, arc
    {
      System(arc.View(), jobs)
    }

    ghost predicate Valid()
      reads this, arc
    {
      Inv(Sys()) && forall id :: id in media ==> id in jobs
    }

    constructor ()
      ensures Valid() && fresh(arc) && fresh(polls) && Sys() == START && polls.View() == P.EMPTY
    {
      arc := new A.Archive();
      polls := new P.PollArchive();
      media, jobs := [], {};
    }

    method QueueMedia(msgId: string, tooOld: bool, room: bool) returns (ghost events: seq<Event>)
      requires Valid() && msgId in jobs
      modifies this`media, arc`rows
      ensures Valid() && Reached(old(Sys()), events, Sys())
      ensures events == QueueEvents(msgId, tooOld, room)
      ensures media == old(media) + QueueJobs(msgId, tooOld, room)
    {
      ghost var s := Sys();
      events := [];
      if tooOld {
        arc.SetMediaState(msgId, "", "skipped");
        events := [MediaReport(msgId, "", "skipped")];
      } else if room {
        media := media + [msgId];
      } else {
        arc.SetMediaState(msgId, "", "queue-full");
        events := [MediaReport(msgId, "", "queue-full")];
      }
      if events != [] {
        ReachedOne(s, events[0]);
      }
      ReachedKeepsInv(s, events, Sys());
    }

    // The worker takes the next job and reports how its download went.
    method MediaWorker(download: Download) returns (ghost events: seq<Event>)
      requires Valid() && media != [] && (download.Stored? ==> download.file != "")
      modifies this`media, arc`rows
      ensures Valid() && Reached(old(Sys()), events, Sys())
      ensures events == [OutcomeOf(old(media)[0], download)] && media == old(media)[1..]
    {
      ghost var s := Sys();
      var msgId := media[0];
      media := media[1..];
      var state, file := "ok", "";
      if download.Stored? {
        file := download.file;
      } else {
        state := if download.Expired? then "expired" else "failed";
      }
      arc.SetMediaState(msgId, file, state);
      events := [MediaReport(msgId, file, state)];
      ReachedOne(s, events[0]);
      ReachedKeepsInv(s, events, Sys());
    }

    // Somebody revoked a message.
    method StoreRevoke(target: string, at: int) returns (ghost events: seq<Event>)
      requires Valid()
      modifies arc
      ensures Valid() && Reached(old(Sys()), events, Sys()) && events == [Revoked(target, at)]
    {
      ghost var s := Sys();
      arc.MarkDeleted(target, at);
      events := [Revoked(target, at)];
      ReachedOne(s, events[0]);
      ReachedKeepsInv(s, events, Sys());
    }

    // Somebody edited a message; an edit without new content changes nothing.
    method StoreEdit(target: string, kind: string, text: string, at: int) returns (ghost events: seq<Event>)
      requires Valid()
      modifies arc
      ensures Valid() && Reached(old(Sys()), events, Sys())
      ensures events == if kind != "" then [Edited(target, text, at)] else []
    {
      ghost var s := Sys();
      events := [];
      if kind != "" {
        arc.RecordEdit(target, text, at);
        events := [Edited(target, text, at)];
        ReachedOne(s, events[0]);
      }
      ReachedKeepsInv(s, events, Sys());
    }

    // A live or history message.
    method StoreMessage(e: Envelope, source: string, tooOld: bool, room: bool, hash: string -> string, ghost w: P.World)
      returns (ghost events: seq<Event>)
      requires Valid() && Described(e.content) && Consistent(w, e) && w.hash == hash
      modifies this, arc, polls
      ensures Valid() && Reached(old(Sys()), events, Sys())
      ensures events == MessageEvents(e, source, tooOld, room, old(arc.View()))
      ensures media == old(media) + MessageJobs(e, source, tooOld, room, old(arc.View()))
      ensures polls.View() == PollSteps(w, old(polls.View()), PollEvents(e))
    {
      events := [];
      if e.skipped {
        return;
      }
      match e.content {
        case Revoke(target) =>
          events := StoreRevoke(target, e.ts);
        case EditOf(target, kind, text) =>
          events := StoreEdit(target, kind, text, e.ts);
        case OtherProtocol =>
        case PollVote(poll, hashes) =>
          StoreLiveVote(poll, e.sender, e.ts, hashes, w);
        case Body(kind, text, quoted, mime, downloadable, placeholder, raw, options, votes) =>
          events := StoreBody(e, source, tooOld, room, hash, w);
      }
    }

    method StoreLiveVote(poll: string, voter: string, at: int, hashes: Option<seq<string>>, ghost w: P.World)
      modifies polls
      ensures polls.View() == PollSteps(w, old(polls.View()),
                                        if hashes.Some? then [P.Voted(poll, voter, at, hashes.value, "live")] else [])
    {
      if hashes.Some? {
        PollStepsAppend(w, polls.View(), [], P.Voted(poll, voter, at, hashes.value, "live"));
        polls.RecordPollVote(poll, voter, at, hashes.value, "live");
      }
    }

    // One insert, after which a download may be due.
    method InsertDelivered(m: A.Msg, downloadable: bool) returns (added: bool, ghost events: seq<Event>)
      requires Valid() && Legal(Sys(), Deliver(m, downloadable))
      modifies this`jobs, arc
      ensures Valid() && Reached(old(Sys()), events, Sys())
      ensures events == [Deliver(m, downloadable)] && added == A.Writes(old(arc.View()), m)
      ensures added && downloadable ==> m.msgId in jobs
    {
      ghost var s := Sys();
      added := arc.InsertMessage(m);
      if added && downloadable {
        jobs := jobs + {m.msgId};
      }
      events := [Deliver(m, downloadable)];
      ReachedOne(s, events[0]);
      ReachedKeepsInv(s, events, Sys());
    }

    // The row to store: nothing for a message that neither is described nor names a placeholder.
    method Compose(e: Envelope, source: string) returns (m: Option<A.Msg>)
      requires Described(e.content) && e.content.Body?
      ensures m == if HasBody(e.content) then Some(DeliveredMsg(e, source)) else None
      ensures m.Some? ==> Legal(Sys(), Deliver(m.value, e.content.downloadable))
    {
      var c := e.content;
      var kind, raw := c.kind, "";
      if kind == "" {
        kind := c.placeholder;
        if kind == "" {
          return None;
        }
        raw := c.raw;
      }
      m := Some(A.Msg(e.id, e.chat, e.sender, if e.fromMe then "" else e.pushName, e.fromMe, e.ts, kind,
                      c.text, c.quoted,
                      c.mime, "", if c.downloadable then "pending" else "", source, raw));
    }

    // The row, then its poll.
    method DeliverWithPoll(e: Envelope, m: A.Msg, hash: string -> string, ghost w: P.World)
      returns (added: bool, ghost events: seq<Event>)
      requires Consistent(w, e) && w.hash == hash && HasBody(e.content) && !e.skipped
      requires Valid() && Legal(Sys(), Deliver(m, e.content.downloadable))
      modifies this`jobs, arc, polls
      ensures Valid() && Reached(old(Sys()), events, Sys())
      ensures events == [Deliver(m, e.content.downloadable)] && added == A.Writes(old(arc.View()), m)
      ensures added && e.content.downloadable ==> m.msgId in jobs
      ensures polls.View() == PollSteps(w, old(polls.View()), PollEvents(e))
    {
      added, events := InsertDelivered(m, e.content.downloadable);
      StorePoll(e, hash, w);
    }

    // The message itself, then its poll, then its media.
    method StoreBody(e: Envelope, source: string, tooOld: bool, room: bool, hash: string -> string, ghost w: P.World)
      returns (ghost events: seq<Event>)
      requires Valid() && Described(e.content) && Consistent(w, e) && w.hash == hash && e.content.Body? && !e.skipped
      modifies this, arc, polls
      ensures Valid() && Reached(old(Sys()), events, Sys())
      ensures events == BodyEvents(e, source, tooOld, room, old(arc.View()))
      ensures media == old(media) + MessageJobs(e, source, tooOld, room, old(arc.View()))
      ensures polls.View() == PollSteps(w, old(polls.View()), PollEvents(e))
    {
      events := [];
      var m := Compose(e, source);
      if m.None? {
        return;
      }
      var added;
      added, events := DeliverWithPoll(e, m.value, hash, w);
      if added && e.content.downloadable {
        ghost var s, t := old(Sys()), Sys();
        ghost var more := QueueMedia(e.id, tooOld, room);
        ReachedJoin(s, events, t, more, Sys());
        events := events + more;
      }
    }

    method StorePoll(e: Envelope, hash: string -> string, ghost w: P.World)
      requires Consistent(w, e) && w.hash == hash && e.content.Body? && !e.skipped
      requires e.content.kind != "" || e.content.placeholder != ""
      modifies polls
      ensures polls.View() == PollSteps(w, old(polls.View()), PollEvents(e))
    {
      var c := e.content;
      ghost var t := polls.View();
      ghost var first: seq<P.Event> := [];
      if c.options.Some? {
        PollStepsAppend(w, t, [], P.Stored(e.id));
        polls.PutPollOptions(e.id, c.options.value, hash);
        first := [P.Stored(e.id)];
      }
      StoreHistoryVotes(e.id, c.votes, w, t, first);
    }

    method StoreHistoryVotes(poll: string, votes: seq<HistoryVote>, ghost w: P.World, ghost t: P.Tables,
                             ghost before: seq<P.Event>)
      requires polls.View() == PollSteps(w, t, before)
      modifies polls
      ensures polls.View() == PollSteps(w, t, before + VoteEvents(poll, votes))
    {
      assert before + VoteEvents(poll, votes)[..0] == before;
      for i := 0 to |votes|
        invariant polls.View() == PollSteps(w, t, before + VoteEvents(poll, votes)[..i])
      {
        OneMoreVote(w, t, before, poll, votes, i);
        polls.RecordPollVote(poll, votes[i].voter, votes[i].at, votes[i].hashes, "history");
      }
      assert VoteEvents(poll, votes)[..|votes|] == VoteEvents(poll, votes);
    }

    method UnsupportedRaw() returns (list: seq<(string, string)>)
      ensures list == KeptRaw(arc.rows, |arc.rows|) && AllPresent(list, arc.View())
    {
      list := [];
      for i := 0 to |arc.rows|
        invariant list == KeptRaw(arc.rows, i) && AllPresent(list, arc.View())
      {
        var r := arc.rows[i];
        if A.IsPlaceholder(r.kind) && r.raw.Some? {
          PresentAt(arc.View(), i);
          list := list + [(r.msgId, r.raw.value)];
        }
      }
    }

    method UpgradeRow(msgId: string, c: Content, tooOld: bool, room: bool) returns (ghost events: seq<Event>)
      requires Valid() && Present(arc.View(), msgId) && c.Body? && c.kind != "" && Described(c)
      modifies this, arc
      ensures Valid() && Reached(old(Sys()), events, Sys()) && Later(old(arc.View()), arc.View())
      ensures events == UpgradeOf(msgId, c, tooOld, room) && media == old(media) + UpgradeJobs(msgId, c, tooOld, room)
      ensures Handled(arc.View(), msgId)
    {
      ghost var s := Sys();
      var m := UpgradeMsg(c);
      arc.UpgradeUnsupported(msgId, m);
      if c.downloadable {
        jobs := jobs + {msgId};
      }
      events := [Reprocess(msgId, m, c.downloadable)];
      ReachedOne(s, events[0]);
      ReachedKeepsInv(s, events, Sys());
      UpgradeHandles(s.t, msgId, m);
      if c.downloadable {
        ghost var t := Sys();
        ghost var more := QueueMedia(msgId, tooOld, room);
        ReachedKeepsInv(t, more, Sys());
        StaysHandled(t.t, arc.View(), msgId);
        ReachedJoin(s, events, t, more, Sys());
        events := events + more;
        ReachedKeepsInv(s, events, Sys());
      }
    }

    method UpgradeEntry(entry: (string, string), describe: string -> Option<Content>,
                        tooOld: string -> bool, room: string -> bool)
      returns (upgraded: bool, ghost events: seq<Event>)
      requires Valid() && Present(arc.View(), entry.0) && DescribesSoundly(describe)
      modifies this, arc
      ensures Valid() && Reached(old(Sys()), events, Sys()) && Later(old(arc.View()), arc.View())
      ensures events == EntryEvents(entry, describe, tooOld, room)
      ensures media == old(media) + EntryJobs(entry, describe, tooOld, room)
      ensures upgraded == Describable(describe, entry.1) && (upgraded ==> Handled(arc.View(), entry.0))
    {
      ghost var s := Sys();
      var described := describe(entry.1);
      if described.None? || described.value.kind == "" {
        events := [];
        ReachedKeepsInv(s, events, Sys());
        return false, events;
      }
      events := UpgradeRow(entry.0, described.value, tooOld(entry.0), room(entry.0));
      upgraded := true;
    }

    method UpgradeList(list: seq<(string, string)>, describe: string -> Option<Content>,
                       tooOld: string -> bool, room: string -> bool)
      returns (upgraded: nat, ghost events: seq<Event>)
      requires Valid() && AllPresent(list, arc.View()) && DescribesSoundly(describe)
      modifies this, arc
      ensures Valid() && Reached(old(Sys()), events, Sys())
      ensures Upgrades(list, |list|, describe, tooOld, room, events, old(media), media, upgraded)
      ensures HandledTo(list, |list|, describe, arc.View())
    {
      ghost var s, queue := Sys(), media;
      upgraded, events := 0, [];
      for k := 0 to |list|
        invariant Valid() && Reached(s, events, Sys())
        invariant Upgrades(list, k, describe, tooOld, room, events, queue, media, upgraded)
        invariant AllPresent(list, arc.View()) && HandledTo(list, k, describe, arc.View())
      {
        ghost var t, before := Sys(), media;
        var ok, more := UpgradeEntry(list[k], describe, tooOld, room);
        ReachedJoin(s, events, t, more, Sys());
        UpgradesNext(list, k, describe, tooOld, room, events, queue, before, upgraded);
        events := events + more;
        HandledNext(list, k, describe, t.t, arc.View());
        upgraded := upgraded + if ok then 1 else 0;
      }
    }

    // Every kept placeholder that can be described by now is upgraded in place.
    method ReprocessUnsupported(describe: string -> Option<Content>, tooOld: string -> bool, room: string -> bool)
      returns (upgraded: nat, ghost events: seq<Event>)
      requires Valid() && DescribesSoundly(describe)
      modifies this, arc
      ensures Valid() && Reached(old(Sys()), events, Sys())
      ensures Reprocessed(old(arc.rows), describe, tooOld, room, events, old(media), media, upgraded)
      ensures AllHandled(old(arc.rows), describe, arc.View())
    {
      ghost var rows := arc.rows;
      var list := UnsupportedRaw();
      upgraded, events := UpgradeList(list, describe, tooOld, room);
      AllOfThem(rows, describe, arc.View());
    }

    // A message of the export, which a row already there may lack only the media of.
    method ImportMessage(x: Exported, jid: string, isGroup: bool, counters: Counters)
      returns (counters': Counters, ghost events: seq<Event>)
      requires Valid() && Exportable(x)
      modifies arc
      ensures Valid() && Reached(old(Sys()), events, Sys())
      ensures events == ImportEvents(x, jid, isGroup, old(arc.View()))
      ensures counters'.added + counters'.seen == counters.added + counters.seen + if Kept(x) then 1 else 0
    {
      counters', events := counters, [];
      if x.keyId == "" || (x.text == "" && !x.media) || (x.meta && x.text == "") {
        return;
      }
      var m, copied := MessageOf(x, jid, isGroup);
      ExportedLegal(Sys(), x, jid, isGroup);
      counters', events := ImportRow(m, copied, counters);
    }

    // All messages of one chat of the export.
    method ImportChat(exported: seq<Exported>, jid: string, isGroup: bool)
      returns (counters: Counters, ghost events: seq<Event>)
      requires Valid() && forall x :: x in exported ==> Exportable(x)
      modifies arc
      ensures Valid() && Reached(old(Sys()), events, Sys())
      ensures counters.added + counters.seen == CountKept(exported, |exported|)
    {
      ghost var s := Sys();
      counters, events := Counters(0, 0, 0, 0), [];
      for i := 0 to |exported|
        invariant Valid() && Reached(s, events, Sys())
        invariant counters.added + counters.seen == CountKept(exported, i)
      {
        ghost var t, more := Sys(), [];
        counters, more := ImportMessage(exported[i], jid, isGroup, counters);
        ReachedJoin(s, events, t, more, Sys());
        events := events + more;
      }
    }

    method ImportRow(m: A.Msg, copied: nat, counters: Counters) returns (counters': Counters, ghost events: seq<Event>)
      requires Valid() && Legal(Sys(), Import(m))
      modifies arc
      ensures Valid() && Reached(old(Sys()), events, Sys())
      ensures events == RowEvents(m, old(arc.View()))
      ensures counters'.added + counters'.seen == counters.added + counters.seen + 1
      ensures counters'.added == counters.added + if A.Writes(old(arc.View()), m) then 1 else 0
    {
      ghost var s := Sys();
      var ok := arc.InsertMessage(m);
      events := [Import(m)];
      ReachedOne(s, events[0]);
      ReachedKeepsInv(s, events, Sys());
      if ok {
        counters' := counters.(added := counters.added + 1, copied := counters.copied + copied);
      } else {
        ghost var t, more := Sys(), [];
        var n;
        n, more := FillIn(m);
        ReachedJoin(s, events, t, more, Sys());
        events := events + more;
        counters' := counters.(seen := counters.seen + 1, copied := counters.copied + copied,
                               attached := counters.attached + n);
      }
    }

    // The phone's copy of the media of a message already archived.
    method FillIn(m: A.Msg) returns (n: nat, ghost events: seq<Event>)
      requires Valid()
      modifies arc`rows
      ensures Valid() && Reached(old(Sys()), events, Sys())
      ensures events == if m.file == "" then [] else [AttachFile(m.msgId, m.file, m.mime)]
    {
      ghost var s := Sys();
      n, events := 0, [];
      if m.file != "" {
        n := arc.AttachMedia(m.msgId, m.file, m.mime);
        events := [AttachFile(m.msgId, m.file, m.mime)];
        ReachedOne(s, events[0]);
        ReachedKeepsInv(s, events, Sys());
      }
    }
  }

  method MessageOf(x: Exported, jid: string, isGroup: bool) returns (m: A.Msg, copied: nat)
    requires Kept(x) && Exportable(x)
    ensures m == ExportedMsg(x, jid, isGroup)
    ensures copied == if m.file != "" then 1 else 0
  {
    var kind, text, mime, file, state := "text", x.text, "", "", "";
    if x.meta {
      kind := "system";
    }
    copied := 0;
    if x.media && x.mime == "media" {
      kind, text, state := "media", x.caption, "missing";
    } else if x.media && !x.meta {
      kind, mime, text, state := x.mediaKind, x.mime, x.caption, "missing";
      if x.copied {
        file, state, copied := x.stored, "ok", 1;
      }
    }
    m := A.Msg(x.keyId, jid, if !isGroup && !x.fromMe then jid else "", x.sender, x.fromMe, x.ts, kind, text, x.reply,
               mime, file, state, "backup", "");
  }

  ghost predicate Present(t: A.Tables, msgId: string) {
    A.Find(t.rows, msgId) < |t.rows|
  }

  lemma {:induction false} PresentAt(t: A.Tables, i: nat)
    requires i < |t.rows|
    ensures Present(t, t.rows[i].msgId)
  {
    assert A.Find(t.rows, t.rows[i].msgId) <= i;
  }

  lemma {:induction false} StaysPresent(s: A.Tables, t: A.Tables, msgId: string)
    requires Later(s, t) && Present(s, msgId)
    ensures Present(t, msgId)
  {
    var i := A.Find(s.rows, msgId);
    assert RowLater(s.rows[i], t.rows[i], t.edits);
    PresentAt(t, i);
  }

  lemma {:induction false} StaysHandled(s: A.Tables, t: A.Tables, msgId: string)
    requires Later(s, t)
    ensures Handled(s, msgId) ==> Handled(t, msgId)
  {
    var i := A.Find(s.rows, msgId);
    if i < |s.rows| {
      forall k | 0 <= k <= i
        ensures t.rows[k].msgId == s.rows[k].msgId
      {
        assert RowLater(s.rows[k], t.rows[k], t.edits);
      }
      assert RowLater(s.rows[i], t.rows[i], t.edits);
      FindIs(t.rows, msgId, i);
    }
  }

  ghost predicate AllPresent(list: seq<(string, string)>, t: A.Tables) {
    forall j :: 0 <= j < |list| ==> Present(t, list[j].0)
  }

  // The first n of the list that can be described are handled.
  ghost predicate HandledTo(list: seq<(string, string)>, n: nat, describe: string -> Option<Content>, t: A.Tables)
    requires n <= |list|
  {
    forall j :: 0 <= j < n && Describable(describe, list[j].1) ==> Handled(t, list[j].0)
  }

  // And so is every kept placeholder of these rows.
  ghost predicate AllHandled(rows: seq<A.Row>, describe: string -> Option<Content>, t: A.Tables) {
    forall r :: r in rows && Upgradable(r, describe) ==> Handled(t, r.msgId)
  }

  lemma {:induction false} HandledNext(list: seq<(string, string)>, k: nat, describe: string -> Option<Content>,
                                       t: A.Tables, u: A.Tables)
    requires k < |list| && AllPresent(list, t) && HandledTo(list, k, describe, t)
    requires Later(t, u) && (Describable(describe, list[k].1) ==> Handled(u, list[k].0))
    ensures AllPresent(list, u) && HandledTo(list, k + 1, describe, u)
  {
    forall j | 0 <= j < |list|
      ensures Present(u, list[j].0)
      ensures Handled(t, list[j].0) ==> Handled(u, list[j].0)
    {
      StaysPresent(t, u, list[j].0);
      StaysHandled(t, u, list[j].0);
    }
  }

  lemma {:induction false} AllOfThem(rows: seq<A.Row>, describe: string -> Option<Content>, t: A.Tables)
    requires var list := KeptRaw(rows, |rows|); HandledTo(list, |list|, describe, t)
    ensures AllHandled(rows, describe, t)
  {
    var list := KeptRaw(rows, |rows|);
    forall r | r in rows && Upgradable(r, describe)
      ensures Handled(t, r.msgId)
    {
      var i: nat :| i < |rows| && rows[i] == r;
      KeptRawHas(rows, |rows|, i);
      var j: nat :| j < |list| && list[j] == (r.msgId, r.raw.value);
    }
  }

  lemma {:induction false} UpgradeHandles(t: A.Tables, msgId: string, m: A.Msg)
    requires Present(t, msgId) && !A.IsPlaceholder(m.kind)
    ensures Handled(A.Upgrade(t, msgId, m), msgId)
  {
    var i := A.Find(t.rows, msgId);
    FindUpdate(t.rows, i, A.Upgraded(t.rows[i], m), msgId);
  }

  predicate Kept(x: Exported) {
    x.keyId != "" && (x.text != "" || (x.media && !x.meta))
  }

  function CountKept(exported: seq<Exported>, n: nat): (k: nat)
    requires n <= |exported|
  {
    if n == 0 then 0 else CountKept(exported, n - 1) + if Kept(exported[n - 1]) then 1 else 0
  }

  // The row the import asks for.
  function ExportedMsg(x: Exported, jid: string, isGroup: bool): (m: A.Msg) {
    var sender := if !isGroup && !x.fromMe then jid else "";
    if x.media && x.mime == "media" then
      A.Msg(x.keyId, jid, sender, x.sender, x.fromMe, x.ts, "media", x.caption, x.reply,
            "", "", "missing", "backup", "")
    else if x.media && !x.meta then
      A.Msg(x.keyId, jid, sender, x.sender, x.fromMe, x.ts, x.mediaKind, x.caption, x.reply, x.mime,
            if x.copied then x.stored else "", if x.copied then "ok" else "missing", "backup", "")
    else
      A.Msg(x.keyId, jid, sender, x.sender, x.fromMe, x.ts, if x.meta then "system" else "text", x.text, x.reply,
            "", "", "", "backup", "")
  }

  // Insert, and only if nothing was written and a file is there, attach.
  function ImportEvents(x: Exported, jid: string, isGroup: bool, t: A.Tables): (events: seq<Event>) {
    if !Kept(x) then [] else RowEvents(ExportedMsg(x, jid, isGroup), t)
  }

  function RowEvents(m: A.Msg, t: A.Tables): (events: seq<Event>) {
    if A.Writes(t, m) || m.file == "" then [Import(m)] else [Import(m), AttachFile(m.msgId, m.file, m.mime)]
  }

  lemma {:induction false} ExportedLegal(s: System, x: Exported, jid: string, isGroup: bool)
    requires Exportable(x)
    ensures Legal(s, Import(ExportedMsg(x, jid, isGroup)))
  {
    assert "media"[0] != "unsupported:"[0] && "system"[0] != "unsupported:"[0] && "text"[0] != "unsupported:"[0];
  }

  // What the import asks for, as a row: its text is the message's own or its media's caption; it
  // counts as having media exactly when there is some to find, has a file exactly when the status
  // is ok, and may be given one later exactly when the copy did not work.
  lemma {:induction false} ExportedMeans(s: System, x: Exported, jid: string, isGroup: bool)
    requires Exportable(x)
    ensures var r := A.NewRow(ExportedMsg(x, jid, isGroup));
            && Legal(s, Import(ExportedMsg(x, jid, isGroup))) && RowOk(r) && !A.IsPlaceholder(r.kind)
            && r.msgId == x.keyId && r.chat == jid && r.source == "backup"
            && (r.status.Some? <==> x.media && (x.mime == "media" || !x.meta))
            && (r.status == Some("ok") <==> r.file.Some?) && (r.file.Some? ==> x.copied && r.file.value == x.stored)
            && (A.LacksMedia(r) <==> r.status.Some? && r.file.None?)
            && r.text == A.Nullable(if r.status.Some? then x.caption else x.text)
            && (if r.status.None? then r.kind == (if x.meta then "system" else "text")
                else r.kind in ["media", x.mediaKind])
            && (r.sender.Some? ==> !isGroup && !x.fromMe && r.sender.value == jid)
  {
    ExportedLegal(s, x, jid, isGroup);
    assert "ok"[0] != "missing"[0];
  }
}
