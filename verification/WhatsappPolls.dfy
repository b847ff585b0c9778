// Polls in the message archive: options, an append-only vote log, and the views over it
// (schema, PutPollOptions and RecordPollVote in nix/pkgs/whatsapp-archive/db.go).

module WhatsappPolls {
  import opened Options
  import opened Seqs

  // A row of poll_options; hash is the hex digest of the name.
  datatype PollOption = PollOption(poll: string, idx: nat, name: string, hash: string)

  // A row of poll_votes; options are the selected names.
  datatype Vote = Vote(poll: string, voter: string, ts: int, options: seq<string>, source: string)

  datatype Tables = Tables(options: seq<PollOption>, votes: seq<Vote>)

  const EMPTY: Tables := Tables([], [])

  // ---- poll_options ----

  predicate HasOption(options: seq<PollOption>, poll: string, idx: nat) {
    options != [] &&
    ((options[|options| - 1].poll == poll && options[|options| - 1].idx == idx)
     || HasOption(options[..|options| - 1], poll, idx))
  }

  // INSERT ... ON CONFLICT DO NOTHING on the key (poll, idx).
  function AddOption(options: seq<PollOption>, o: PollOption): seq<PollOption> {
    if HasOption(options, o.poll, o.idx) then options else options + [o]
  }

  function PutOptions(options: seq<PollOption>, poll: string, names: seq<string>,
                      hash: string -> string): seq<PollOption>
  {
    if names == [] then options
    else
      var n := |names| - 1;
      AddOption(PutOptions(options, poll, names[..n], hash), PollOption(poll, n, names[n], hash(names[n])))
  }

  // The options of one poll, in the order they were stored.
  function OptionsOf(options: seq<PollOption>, poll: string): seq<PollOption> {
    if options == [] then []
    else
      var n := |options| - 1;
      OptionsOf(options[..n], poll) + if options[n].poll == poll then [options[n]] else []
  }

  // SELECT name ... WHERE poll_msg_id AND hash: the first such row.
  function NameFor(options: seq<PollOption>, hx: string): Option<string> {
    if options == [] then None
    else if options[0].hash == hx then Some(options[0].name) else NameFor(options[1..], hx)
  }

  function Translated(options: seq<PollOption>, hx: string): string {
    match NameFor(options, hx)
    case Some(name) => name
    case None => "sha256:" + hx
  }

  // The selected names; unknown hashes are kept as hex.
  function Translate(options: seq<PollOption>, hashes: seq<string>): seq<string> {
    seq(|hashes|, i requires 0 <= i < |hashes| => Translated(options, hashes[i]))
  }

  // ---- poll_votes ----

  // The selection logged for a poll, voter and second, if any.
  function Logged(votes: seq<Vote>, poll: string, voter: string, ts: int): Option<seq<string>> {
    if votes == [] then None
    else
      var n := |votes| - 1;
      var earlier := Logged(votes[..n], poll, voter, ts);
      if earlier.Some? then earlier
      else if votes[n].poll == poll && votes[n].voter == voter && votes[n].ts == ts
      then Some(votes[n].options)
      else None
  }

  // INSERT ... ON CONFLICT DO NOTHING on the key (poll, voter, ts).
  function AddVote(votes: seq<Vote>, v: Vote): seq<Vote> {
    if Logged(votes, v.poll, v.voter, v.ts).Some? then votes else votes + [v]
  }

  // The two tables as the archive updates them.
  class PollArchive {
    var options: seq<PollOption>
    var votes: seq<Vote>

    constructor ()
      ensures View() == EMPTY
    {
      options, votes := [], [];
    }

    ghost function View(): Tables
      reads this
    {
      Tables(options, votes)
    }

    method PutPollOptions(poll: string, names: seq<string>, hash: string -> string)
      modifies this`options
      ensures options == PutOptions(old(options), poll, names, hash)
    {
      for i := 0 to |names|
        invariant options == PutOptions(old(options), poll, names[..i], hash)
      {
        assert names[..i + 1][..i] == names[..i];
        if !HasOption(options, poll, i) {
          options := options + [PollOption(poll, i, names[i], hash(names[i]))];
        }
      }
      assert names[..|names|] == names;
    }

    method RecordPollVote(poll: string, voter: string, at: int, hashes: seq<string>, source: string)
      modifies this`votes
      ensures votes == AddVote(old(votes), Vote(poll, voter, at, Translate(OptionsOf(options, poll), hashes), source))
    {
      var selected := [];
      for i := 0 to |hashes|
        invariant |selected| == i
        invariant forall k | 0 <= k < i :: selected[k] == Translated(OptionsOf(options, poll), hashes[k])
      {
        var name := NameFor(OptionsOf(options, poll), hashes[i]);
        selected := selected + [if name.Some? then name.value else "sha256:" + hashes[i]];
      }
      assert selected == Translate(OptionsOf(options, poll), hashes);
      if Logged(votes, poll, voter, at).None? {
        votes := votes + [Vote(poll, voter, at, selected, source)];
      }
    }
  }

  // ---- runs: polls and votes arrive from the live and history feeds in any order ----

  datatype Event =
    | Stored(poll: string)
    | Voted(poll: string, voter: string, ts: int, hashes: seq<string>, source: string)

  // What each poll message says its options are, and the digest.
  datatype World = World(names: string -> seq<string>, hash: string -> string)

  function Step(w: World, t: Tables, e: Event): Tables {
    match e
    case Stored(poll) => t.(options := PutOptions(t.options, poll, w.names(poll), w.hash))
    case Voted(poll, voter, ts, hashes, source) =>
      t.(votes := AddVote(t.votes, Vote(poll, voter, ts, Translate(OptionsOf(t.options, poll), hashes), source)))
  }

  function Run(w: World, events: seq<Event>): Tables {
    if events == [] then EMPTY else Step(w, Run(w, events[..|events| - 1]), events[|events| - 1])
  }

  predicate StoredIn(events: seq<Event>, poll: string) {
    events != [] && (events[|events| - 1] == Stored(poll) || StoredIn(events[..|events| - 1], poll))
  }

  // Each poll's options are stored before its votes.
  predicate WellOrdered(events: seq<Event>) {
    events == [] ||
    (WellOrdered(events[..|events| - 1])
     && (events[|events| - 1].Voted? ==> StoredIn(events[..|events| - 1], events[|events| - 1].poll)))
  }

  // ---- what the options table holds ----

  function Full(w: World, poll: string, k: nat): seq<PollOption>
    requires k <= |w.names(poll)|
  {
    seq(k, i requires 0 <= i < k => PollOption(poll, i, w.names(poll)[i], w.hash(w.names(poll)[i])))
  }

  lemma {:induction false} HasOptionOf(options: seq<PollOption>, poll: string, idx: nat)
    ensures HasOption(options, poll, idx) <==> HasOption(OptionsOf(options, poll), poll, idx)
  {
    if options != [] {
      var n := |options| - 1;
      HasOptionOf(options[..n], poll, idx);
      var init, all := OptionsOf(options[..n], poll), OptionsOf(options, poll);
      if options[n].poll == poll { assert all[..|all| - 1] == init; } else { assert all == init; }
    }
  }

  lemma {:induction false} FullHas(w: World, poll: string, k: nat, idx: nat)
    requires k <= |w.names(poll)|
    ensures HasOption(Full(w, poll, k), poll, idx) <==> idx < k
  {
    if k > 0 {
      FullHas(w, poll, k - 1, idx);
      assert Full(w, poll, k)[..k - 1] == Full(w, poll, k - 1);
    }
  }

  lemma {:induction false} OneMoreOption(w: World, options: seq<PollOption>, poll: string, n: nat)
    requires n < |w.names(poll)|
    ensures var name := w.names(poll)[n];
            var next := AddOption(options, PollOption(poll, n, name, w.hash(name)));
            && (OptionsOf(options, poll) == Full(w, poll, n) ==> OptionsOf(next, poll) == Full(w, poll, n + 1))
            && (OptionsOf(options, poll) == Full(w, poll, |w.names(poll)|) ==> next == options)
  {
    HasOptionOf(options, poll, n);
    FullHas(w, poll, n, n);
    FullHas(w, poll, |w.names(poll)|, n);
    if OptionsOf(options, poll) == Full(w, poll, n) {
      var o := PollOption(poll, n, w.names(poll)[n], w.hash(w.names(poll)[n]));
      assert (options + [o])[..|options|] == options;
      assert OptionsOf(options + [o], poll) == Full(w, poll, n + 1);
    }
  }

  lemma {:induction false} PutOptionsOf(w: World, options: seq<PollOption>, poll: string, k: nat)
    requires k <= |w.names(poll)|
    ensures var next := PutOptions(options, poll, w.names(poll)[..k], w.hash);
            && (OptionsOf(options, poll) == [] ==> OptionsOf(next, poll) == Full(w, poll, k))
            && (OptionsOf(options, poll) == Full(w, poll, |w.names(poll)|) ==> next == options)
            && forall p | p != poll :: OptionsOf(next, p) == OptionsOf(options, p)
  {
    var names := w.names(poll)[..k];
    if k > 0 {
      assert names[..k - 1] == w.names(poll)[..k - 1];
      PutOptionsOf(w, options, poll, k - 1);
      OneMoreOption(w, PutOptions(options, poll, names[..k - 1], w.hash), poll, k - 1);
    }
  }

  // After any run a stored poll's options are exactly its message's options.
  lemma {:induction false} OptionsAfter(w: World, events: seq<Event>, poll: string)
    ensures OptionsOf(Run(w, events).options, poll) ==
              if StoredIn(events, poll) then Full(w, poll, |w.names(poll)|) else []
  {
    if events != [] {
      var init, e := events[..|events| - 1], events[|events| - 1];
      OptionsAfter(w, init, poll);
      if e.Stored? {
        PutOptionsOf(w, Run(w, init).options, e.poll, |w.names(e.poll)|);
        assert w.names(e.poll)[..|w.names(e.poll)|] == w.names(e.poll);
      }
    }
  }

  // ---- what the vote log holds ----

  // The names a vote stands for.
  function Meaning(w: World, e: Event): seq<string>
    requires e.Voted?
  {
    Translate(Full(w, e.poll, |w.names(e.poll)|), e.hashes)
  }

  predicate IsVote(e: Event, poll: string, voter: string, ts: int) {
    e.Voted? && e.poll == poll && e.voter == voter && e.ts == ts
  }

  // The first vote of that poll, voter and second, as the names it stands for.
  function FirstVote(w: World, events: seq<Event>, poll: string, voter: string, ts: int): Option<seq<string>> {
    if events == [] then None
    else
      var n := |events| - 1;
      var earlier := FirstVote(w, events[..n], poll, voter, ts);
      if earlier.Some? then earlier
      else if IsVote(events[n], poll, voter, ts) then Some(Meaning(w, events[n])) else None
  }

  // What a vote that arrives after these events is logged as.
  function Understood(w: World, before: seq<Event>, e: Event): seq<string>
    requires e.Voted?
  {
    if StoredIn(before, e.poll) then Meaning(w, e) else Translate([], e.hashes)
  }

  lemma {:induction false} AddLogged(votes: seq<Vote>, v: Vote, poll: string, voter: string, ts: int)
    ensures var earlier := Logged(votes, poll, voter, ts);
            Logged(AddVote(votes, v), poll, voter, ts) ==
              if earlier.Some? then earlier
              else if v.poll == poll && v.voter == voter && v.ts == ts then Some(v.options) else None
  {
    assert (votes + [v])[..|votes|] == votes;
  }

  lemma {:induction false} NextLogged(w: World, events: seq<Event>, poll: string, voter: string, ts: int)
    requires events != []
    ensures var n := |events| - 1;
            var earlier := Logged(Run(w, events[..n]).votes, poll, voter, ts);
            Logged(Run(w, events).votes, poll, voter, ts) ==
              if earlier.Some? then earlier
              else if IsVote(events[n], poll, voter, ts) then Some(Understood(w, events[..n], events[n])) else None
  {
    var init, e := events[..|events| - 1], events[|events| - 1];
    if e.Voted? {
      var votes := Run(w, init).votes;
      OptionsAfter(w, init, e.poll);
      var v := Vote(e.poll, e.voter, e.ts, Understood(w, init, e), e.source);
      assert Run(w, events).votes == AddVote(votes, v);
      AddLogged(votes, v, poll, voter, ts);
    }
  }

  lemma {:induction false} VotesAfter(w: World, events: seq<Event>, poll: string, voter: string, ts: int)
    requires WellOrdered(events)
    ensures Logged(Run(w, events).votes, poll, voter, ts) == FirstVote(w, events, poll, voter, ts)
  {
    if events != [] {
      VotesAfter(w, events[..|events| - 1], poll, voter, ts);
      NextLogged(w, events, poll, voter, ts);
    }
  }

  // The same selections logged, whatever the order, repeats and sources.
  ghost predicate SameLog(a: seq<Vote>, b: seq<Vote>) {
    forall poll, voter, ts :: Logged(a, poll, voter, ts) == Logged(b, poll, voter, ts)
  }

  // Each poll, voter and second carries one selection.
  ghost predicate SingleValued(w: World, events: seq<Event>) {
    forall i, j | 0 <= i < |events| && 0 <= j < |events| && events[i].Voted? && events[j].Voted?
                  && events[i].poll == events[j].poll && events[i].voter == events[j].voter
                  && events[i].ts == events[j].ts ::
      Meaning(w, events[i]) == Meaning(w, events[j])
  }

  // Every vote of a is among those of b, as to poll, voter, second and meaning.
  ghost predicate VotesAmong(w: World, a: seq<Event>, b: seq<Event>) {
    forall e | e in a && e.Voted? :: AmongVotes(w, e, b)
  }

  ghost predicate AmongVotes(w: World, e: Event, b: seq<Event>)
    requires e.Voted?
  {
    exists f :: f in b && IsVote(f, e.poll, e.voter, e.ts) && Meaning(w, f) == Meaning(w, e)
  }

  lemma {:induction false} FirstVoteFrom(w: World, events: seq<Event>, poll: string, voter: string, ts: int)
    returns (e: Event)
    requires FirstVote(w, events, poll, voter, ts).Some?
    ensures e in events && IsVote(e, poll, voter, ts) && FirstVote(w, events, poll, voter, ts) == Some(Meaning(w, e))
  {
    var n := |events| - 1;
    if FirstVote(w, events[..n], poll, voter, ts).Some? {
      e := FirstVoteFrom(w, events[..n], poll, voter, ts);
    } else {
      e := events[n];
    }
  }

  lemma {:induction false} VoteCounts(w: World, events: seq<Event>, e: Event)
    requires e in events && e.Voted?
    ensures FirstVote(w, events, e.poll, e.voter, e.ts).Some?
  {
    var n := |events| - 1;
    if e in events[..n] {
      VoteCounts(w, events[..n], e);
    } else {
      assert events[n] == e;
    }
  }

  lemma {:induction false} Counterpart(w: World, e: Event, b: seq<Event>) returns (f: Event)
    requires e.Voted? && AmongVotes(w, e, b)
    ensures f in b && IsVote(f, e.poll, e.voter, e.ts) && Meaning(w, f) == Meaning(w, e)
  {
    f :| f in b && IsVote(f, e.poll, e.voter, e.ts) && Meaning(w, f) == Meaning(w, e);
  }

  lemma {:induction false} OneMeaning(w: World, a: seq<Event>, e: Event, f: Event)
    requires SingleValued(w, a) && e in a && f in a && e.Voted? && IsVote(f, e.poll, e.voter, e.ts)
    ensures Meaning(w, e) == Meaning(w, f)
  {
    var i :| 0 <= i < |a| && a[i] == e;
    var j :| 0 <= j < |a| && a[j] == f;
  }

  // A vote that a logs, b logs with the same meaning.
  lemma {:induction false} FirstVoteAmong(w: World, a: seq<Event>, b: seq<Event>, poll: string, voter: string, ts: int)
    requires SingleValued(w, a) && VotesAmong(w, a, b) && VotesAmong(w, b, a)
    requires FirstVote(w, a, poll, voter, ts).Some?
    ensures FirstVote(w, b, poll, voter, ts) == FirstVote(w, a, poll, voter, ts)
  {
    var e := FirstVoteFrom(w, a, poll, voter, ts);
    assert AmongVotes(w, e, b);
    var f := Counterpart(w, e, b);
    VoteCounts(w, b, f);
    var g := FirstVoteFrom(w, b, poll, voter, ts);
    assert AmongVotes(w, g, a);
    var h := Counterpart(w, g, a);
    OneMeaning(w, a, e, h);
  }

  // The same votes in any order, with any repeats, leave the same log.
  lemma {:induction false} LogsConverge(w: World, a: seq<Event>, b: seq<Event>)
    requires WellOrdered(a) && WellOrdered(b) && SingleValued(w, a)
    requires VotesAmong(w, a, b) && VotesAmong(w, b, a)
    ensures SameLog(Run(w, a).votes, Run(w, b).votes)
  {
    forall poll, voter, ts
      ensures Logged(Run(w, a).votes, poll, voter, ts) == Logged(Run(w, b).votes, poll, voter, ts)
    {
      VotesAfter(w, a, poll, voter, ts);
      VotesAfter(w, b, poll, voter, ts);
      if FirstVote(w, a, poll, voter, ts).Some? {
        FirstVoteAmong(w, a, b, poll, voter, ts);
      } else if FirstVote(w, b, poll, voter, ts).Some? {
        var g := FirstVoteFrom(w, b, poll, voter, ts);
        assert AmongVotes(w, g, a);
        var h := Counterpart(w, g, a);
        VoteCounts(w, a, h);
      }
    }
  }

  // ---- votes that arrive before their poll ----

  // Where the first vote of a poll, voter and second arrives.
  function FirstVoteAt(events: seq<Event>, poll: string, voter: string, ts: int): (at: Option<nat>)
    ensures at.Some? ==> at.value < |events| && IsVote(events[at.value], poll, voter, ts)
    ensures at.Some? ==> forall k | 0 <= k < at.value :: !IsVote(events[k], poll, voter, ts)
    ensures at.None? ==> forall k | 0 <= k < |events| :: !IsVote(events[k], poll, voter, ts)
  {
    if events == [] then None
    else
      var n := |events| - 1;
      var earlier := FirstVoteAt(events[..n], poll, voter, ts);
      if earlier.Some? then earlier else if IsVote(events[n], poll, voter, ts) then Some(n) else None
  }

  // In every run, the first arrival alone decides what is logged: its meaning if the poll had
  // been stored by then, and its bare hashes if not.
  lemma {:induction false} LoggedIs(w: World, events: seq<Event>, poll: string, voter: string, ts: int)
    ensures Logged(Run(w, events).votes, poll, voter, ts) ==
              match FirstVoteAt(events, poll, voter, ts)
              case None => None
              case Some(i) => Some(Understood(w, events[..i], events[i]))
  {
    if events != [] {
      var n := |events| - 1;
      NextLogged(w, events, poll, voter, ts);
      LoggedIs(w, events[..n], poll, voter, ts);
      var earlier := FirstVoteAt(events[..n], poll, voter, ts);
      if earlier.Some? {
        TakeTake(events, n, earlier.value);
      }
    }
  }

  // The vote selects an option: one of its hashes has a name (other than the one it is kept under).
  ghost predicate SelectsOption(w: World, e: Event)
    requires e.Voted?
  {
    exists j :: 0 <= j < |e.hashes| && HasName(w, e.poll, e.hashes[j])
  }

  ghost predicate HasName(w: World, poll: string, hx: string) {
    var name := NameFor(Full(w, poll, |w.names(poll)|), hx);
    name.Some? && name.value != "sha256:" + hx
  }

  lemma {:induction false} BareIsMeaning(w: World, e: Event)
    requires e.Voted?
    ensures Translate([], e.hashes) == Meaning(w, e) <==> !SelectsOption(w, e)
  {
    var bare, meant := Translate([], e.hashes), Meaning(w, e);
    forall j | 0 <= j < |e.hashes|
      ensures bare[j] == meant[j] <==> !HasName(w, e.poll, e.hashes[j])
    {
      assert bare[j] == "sha256:" + e.hashes[j];
    }
    if !SelectsOption(w, e) {
      assert bare == meant;
    }
  }

  // So a selection is logged as what it means exactly when the poll was stored before its first
  // arrival, or it selects no option.
  lemma {:induction false} LoggedAsMeantIff(w: World, events: seq<Event>, poll: string, voter: string, ts: int, i: nat)
    requires FirstVoteAt(events, poll, voter, ts) == Some(i)
    ensures Logged(Run(w, events).votes, poll, voter, ts) == Some(Meaning(w, events[i])) <==>
              StoredIn(events[..i], poll) || !SelectsOption(w, events[i])
  {
    LoggedIs(w, events, poll, voter, ts);
    BareIsMeaning(w, events[i]);
  }
}
