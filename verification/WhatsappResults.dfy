// The poll views: current votes and results, and when they do not depend on the order in
// which feeds deliver (poll_current_votes, poll_results in nix/pkgs/whatsapp-archive/db.go).

module WhatsappResults {
  import opened Options
  import opened WhatsappPolls

  // ---- the views ----

  // poll_current_votes keeps a row when no row of its poll and voter is later.
  ghost predicate IsCurrent(votes: seq<Vote>, v: Vote) {
    forall w | w in votes && w.poll == v.poll && w.voter == v.voter :: w.ts <= v.ts
  }

  ghost predicate Supports(votes: seq<Vote>, v: Vote, poll: string, name: string) {
    v.poll == poll && IsCurrent(votes, v) && name in v.options
  }

  // count(cv.voter_jid) of the join: the rows of the log that are current and select the name.
  ghost function CountRows(votes: seq<Vote>, rows: seq<Vote>, poll: string, name: string): nat {
    if rows == [] then 0
    else
      var n := |rows| - 1;
      CountRows(votes, rows[..n], poll, name) + if Supports(votes, rows[n], poll, name) then 1 else 0
  }

  datatype Result = Result(idx: nat, name: string, votes: nat)

  // poll_results of one poll: every option in stored order with its count.
  ghost function Results(t: Tables, poll: string): seq<Result> {
    var options := OptionsOf(t.options, poll);
    seq(|options|, i requires 0 <= i < |options| =>
      Result(options[i].idx, options[i].name, CountRows(t.votes, t.votes, poll, options[i].name)))
  }

  // ---- each count is a number of voters ----

  predicate UniqueKeys(votes: seq<Vote>) {
    forall i, j | 0 <= i < j < |votes| ::
      !(votes[i].poll == votes[j].poll && votes[i].voter == votes[j].voter && votes[i].ts == votes[j].ts)
  }

  lemma {:induction false} LoggedIfIn(votes: seq<Vote>, i: nat)
    requires i < |votes|
    ensures Logged(votes, votes[i].poll, votes[i].voter, votes[i].ts).Some?
    ensures UniqueKeys(votes) ==> Logged(votes, votes[i].poll, votes[i].voter, votes[i].ts) == Some(votes[i].options)
  {
    var n := |votes| - 1;
    var v := votes[i];
    if i < n {
      LoggedIfIn(votes[..n], i);
    } else if Logged(votes[..n], v.poll, v.voter, v.ts).Some? {
      var j := LoggedAt(votes[..n], v.poll, v.voter, v.ts);
      assert votes[j] == votes[..n][j];
    }
  }

  lemma {:induction false} LoggedAt(votes: seq<Vote>, poll: string, voter: string, ts: int) returns (i: nat)
    requires Logged(votes, poll, voter, ts).Some?
    ensures i < |votes| && votes[i].poll == poll && votes[i].voter == voter && votes[i].ts == ts
    ensures Logged(votes, poll, voter, ts) == Some(votes[i].options)
  {
    var n := |votes| - 1;
    if Logged(votes[..n], poll, voter, ts).Some? {
      i := LoggedAt(votes[..n], poll, voter, ts);
    } else {
      i := n;
    }
  }

  // The log never holds two rows for one poll, voter and second.
  lemma {:induction false} RunUnique(w: World, events: seq<Event>)
    ensures UniqueKeys(Run(w, events).votes)
  {
    if events != [] {
      var init, e := events[..|events| - 1], events[|events| - 1];
      RunUnique(w, init);
      var votes := Run(w, init).votes;
      if e.Voted? {
        forall i | 0 <= i < |votes| && votes[i].poll == e.poll && votes[i].voter == e.voter && votes[i].ts == e.ts
          ensures Logged(votes, e.poll, e.voter, e.ts).Some?
        {
          LoggedIfIn(votes, i);
        }
      }
    }
  }

  ghost function Supporters(votes: seq<Vote>, rows: seq<Vote>, poll: string, name: string): set<string> {
    set r | r in rows && Supports(votes, r, poll, name) :: r.voter
  }

  lemma {:induction false} EarlierDiffers(votes: seq<Vote>, j: nat, k: nat, poll: string, name: string)
    requires UniqueKeys(votes) && j < k < |votes|
    requires Supports(votes, votes[j], poll, name) && Supports(votes, votes[k], poll, name)
    ensures votes[j].voter != votes[k].voter
  {
    assert votes[j] in votes && votes[k] in votes;
  }

  lemma {:induction false} SupporterIsNew(votes: seq<Vote>, k: nat, poll: string, name: string)
    requires UniqueKeys(votes) && k < |votes| && Supports(votes, votes[k], poll, name)
    ensures votes[k].voter !in Supporters(votes, votes[..k], poll, name)
  {
    forall q | q in votes[..k] && Supports(votes, q, poll, name)
      ensures q.voter != votes[k].voter
    {
      var j :| 0 <= j < k && votes[j] == q;
      EarlierDiffers(votes, j, k, poll, name);
    }
  }

  lemma {:induction false} NextRow(votes: seq<Vote>, k: nat, poll: string, name: string)
    requires k < |votes|
    ensures var more := if Supports(votes, votes[k], poll, name) then {votes[k].voter} else {};
            Supporters(votes, votes[..k + 1], poll, name) == Supporters(votes, votes[..k], poll, name) + more
  {
    assert votes[..k + 1] == votes[..k] + [votes[k]];
  }

  lemma {:induction false} CountIsVoters(votes: seq<Vote>, k: nat, poll: string, name: string)
    requires UniqueKeys(votes) && k <= |votes|
    ensures CountRows(votes, votes[..k], poll, name) == |Supporters(votes, votes[..k], poll, name)|
  {
    if k > 0 {
      assert votes[..k][..k - 1] == votes[..k - 1];
      CountIsVoters(votes, k - 1, poll, name);
      NextRow(votes, k - 1, poll, name);
      if Supports(votes, votes[k - 1], poll, name) {
        SupporterIsNew(votes, k - 1, poll, name);
      }
    }
  }

  // ---- the counts depend on the logged selections only ----

  // The voter's latest selection contains the name.
  ghost predicate LatestHas(votes: seq<Vote>, poll: string, voter: string, name: string) {
    exists ts :: LatestAt(votes, poll, voter, name, ts)
  }

  ghost predicate LatestAt(votes: seq<Vote>, poll: string, voter: string, name: string, ts: int) {
    && Logged(votes, poll, voter, ts).Some? && name in Logged(votes, poll, voter, ts).value
    && forall later | later > ts :: Logged(votes, poll, voter, later).None?
  }

  lemma {:induction false} SupporterHas(votes: seq<Vote>, poll: string, voter: string, name: string)
    requires UniqueKeys(votes)
    ensures voter in Supporters(votes, votes, poll, name) <==> LatestHas(votes, poll, voter, name)
  {
    if voter in Supporters(votes, votes, poll, name) {
      var r :| r in votes && Supports(votes, r, poll, name) && r.voter == voter;
      var i :| 0 <= i < |votes| && votes[i] == r;
      LoggedIfIn(votes, i);
      forall later | later > r.ts ensures Logged(votes, poll, voter, later).None? {
        if Logged(votes, poll, voter, later).Some? {
          var j := LoggedAt(votes, poll, voter, later);
        }
      }
      assert LatestAt(votes, poll, voter, name, r.ts);
    }
    if LatestHas(votes, poll, voter, name) {
      var ts :| LatestAt(votes, poll, voter, name, ts);
      var i := LoggedAt(votes, poll, voter, ts);
      forall w | w in votes && w.poll == poll && w.voter == voter ensures w.ts <= ts {
        var j :| 0 <= j < |votes| && votes[j] == w;
        LoggedIfIn(votes, j);
      }
      assert votes[i] in votes && Supports(votes, votes[i], poll, name);
    }
  }

  lemma {:induction false} SameLogSameLatest(a: seq<Vote>, b: seq<Vote>, poll: string, voter: string, name: string)
    requires SameLog(a, b)
    ensures LatestHas(a, poll, voter, name) ==> LatestHas(b, poll, voter, name)
  {
    if LatestHas(a, poll, voter, name) {
      var ts :| LatestAt(a, poll, voter, name, ts);
      assert LatestAt(b, poll, voter, name, ts);
    }
  }

  lemma {:induction false} SameLogBack(a: seq<Vote>, b: seq<Vote>)
    requires SameLog(a, b)
    ensures SameLog(b, a)
  {
  }

  lemma {:induction false} SameCount(a: seq<Vote>, b: seq<Vote>, poll: string, name: string)
    requires SameLog(a, b) && UniqueKeys(a) && UniqueKeys(b)
    ensures CountRows(a, a, poll, name) == CountRows(b, b, poll, name)
  {
    SameLogBack(a, b);
    var x, y := Supporters(a, a, poll, name), Supporters(b, b, poll, name);
    forall voter ensures voter in x <==> voter in y {
      SupporterHas(a, poll, voter, name);
      SupporterHas(b, poll, voter, name);
      SameLogSameLatest(a, b, poll, voter, name);
      SameLogSameLatest(b, a, poll, voter, name);
    }
    assert x == y;
    CountIsVoters(a, |a|, poll, name);
    CountIsVoters(b, |b|, poll, name);
    assert a[..|a|] == a && b[..|b|] == b;
  }

  // ---- the promises ----

  // Each option's count is the number of voters whose latest selection contains it.
  lemma {:induction false} ResultsCountVoters(w: World, events: seq<Event>, poll: string, i: nat)
    requires i < |Results(Run(w, events), poll)|
    ensures var t, r := Run(w, events), Results(Run(w, events), poll)[i];
            && r.votes == |Supporters(t.votes, t.votes, poll, r.name)|
            && forall voter :: voter in Supporters(t.votes, t.votes, poll, r.name) <==>
                 LatestHas(t.votes, poll, voter, r.name)
  {
    var votes := Run(w, events).votes;
    RunUnique(w, events);
    CountIsVoters(votes, |votes|, poll, Results(Run(w, events), poll)[i].name);
    assert votes[..|votes|] == votes;
    forall voter ensures voter in Supporters(votes, votes, poll, Results(Run(w, events), poll)[i].name)
                         <==> LatestHas(votes, poll, voter, Results(Run(w, events), poll)[i].name) {
      SupporterHas(votes, poll, voter, Results(Run(w, events), poll)[i].name);
    }
  }

  // Any order and any replay of the same votes gives the same results for every stored poll.
  lemma {:induction false} ResultsConverge(w: World, a: seq<Event>, b: seq<Event>, poll: string)
    requires WellOrdered(a) && WellOrdered(b) && SingleValued(w, a)
    requires VotesAmong(w, a, b) && VotesAmong(w, b, a)
    requires StoredIn(a, poll) && StoredIn(b, poll)
    ensures Results(Run(w, a), poll) == Results(Run(w, b), poll)
  {
    LogsConverge(w, a, b);
    RunUnique(w, a);
    RunUnique(w, b);
    OptionsAfter(w, a, poll);
    OptionsAfter(w, b, poll);
    forall i | 0 <= i < |Results(Run(w, a), poll)| ensures Results(Run(w, a), poll)[i] == Results(Run(w, b), poll)[i] {
      SameCount(Run(w, a).votes, Run(w, b).votes, poll, OptionsOf(Run(w, a).options, poll)[i].name);
    }
  }

  // ---- exactly when the log does not depend on the order ----

  // Polls first, then their votes in the given order.
  ghost predicate PollsCover(polls: seq<Event>, votes: seq<Event>) {
    && WellOrdered(polls) && (forall e | e in polls :: e.Stored?)
    && forall e | e in votes :: e.Voted? && StoredIn(polls, e.poll)
  }

  lemma {:induction false} StoredStays(polls: seq<Event>, votes: seq<Event>, poll: string)
    requires StoredIn(polls, poll)
    ensures StoredIn(polls + votes, poll)
  {
    if votes == [] {
      assert polls + votes == polls;
    } else {
      assert (polls + votes)[..|polls + votes| - 1] == polls + votes[..|votes| - 1];
      StoredStays(polls, votes[..|votes| - 1], poll);
    }
  }

  lemma {:induction false} CoverIsOrdered(polls: seq<Event>, votes: seq<Event>)
    requires PollsCover(polls, votes)
    ensures WellOrdered(polls + votes)
  {
    if votes == [] {
      assert polls + votes == polls;
    } else {
      var n := |votes| - 1;
      assert (polls + votes)[..|polls + votes| - 1] == polls + votes[..n];
      assert votes[n] in votes;
      CoverIsOrdered(polls, votes[..n]);
      StoredStays(polls, votes[..n], votes[n].poll);
    }
  }

  // The log after the polls and then e first: e's own meaning is what is logged for its key.
  lemma {:induction false} FirstWins(w: World, polls: seq<Event>, e: Event, rest: seq<Event>)
    requires e.Voted? && forall p | p in polls :: p.Stored?
    ensures FirstVote(w, polls + [e] + rest, e.poll, e.voter, e.ts) == Some(Meaning(w, e))
  {
    var all := polls + [e] + rest;
    if rest == [] {
      assert all[..|all| - 1] == polls;
      if FirstVote(w, polls, e.poll, e.voter, e.ts).Some? {
        var f := FirstVoteFrom(w, polls, e.poll, e.voter, e.ts);
      }
    } else {
      assert all[..|all| - 1] == polls + [e] + rest[..|rest| - 1];
      FirstWins(w, polls, e, rest[..|rest| - 1]);
    }
  }

  ghost predicate OrderFree(w: World, polls: seq<Event>, votes: seq<Event>) {
    forall other: seq<Event> | multiset(other) == multiset(votes) ::
      SameLog(Run(w, polls + other).votes, Run(w, polls + votes).votes)
  }

  function ToFront(votes: seq<Event>, i: nat): seq<Event>
    requires i < |votes|
  {
    [votes[i]] + (votes[..i] + votes[i + 1..])
  }

  lemma {:induction false} ToFrontPermutes(votes: seq<Event>, i: nat)
    requires i < |votes|
    ensures multiset(ToFront(votes, i)) == multiset(votes)
  {
    assert votes == votes[..i] + ([votes[i]] + votes[i + 1..]);
  }

  lemma {:induction false} OrderFreeMeans(w: World, polls: seq<Event>, votes: seq<Event>, i: nat)
    requires PollsCover(polls, votes) && OrderFree(w, polls, votes) && i < |votes|
    ensures var e := votes[i]; Logged(Run(w, polls + votes).votes, e.poll, e.voter, e.ts) == Some(Meaning(w, e))
  {
    var e, front := votes[i], ToFront(votes, i);
    ToFrontPermutes(votes, i);
    forall f | f in front ensures f in votes {
      assert f in multiset(front);
    }
    CoverIsOrdered(polls, front);
    VotesAfter(w, polls + front, e.poll, e.voter, e.ts);
    FirstWins(w, polls, e, votes[..i] + votes[i + 1..]);
    assert polls + front == polls + [e] + (votes[..i] + votes[i + 1..]);
    assert SameLog(Run(w, polls + front).votes, Run(w, polls + votes).votes);
  }

  lemma {:induction false} PermutedAmong(w: World, polls: seq<Event>, votes: seq<Event>, other: seq<Event>)
    requires PollsCover(polls, votes) && multiset(other) == multiset(votes)
    ensures PollsCover(polls, other) && VotesAmong(w, polls + other, polls + votes)
            && VotesAmong(w, polls + votes, polls + other)
  {
    forall f | f in other ensures f in votes { assert f in multiset(other); }
    forall f | f in votes ensures f in other { assert f in multiset(votes); }
    forall e | e in polls + other && e.Voted? ensures AmongVotes(w, e, polls + votes) {
      assert e in polls + votes && IsVote(e, e.poll, e.voter, e.ts);
    }
    forall e | e in polls + votes && e.Voted? ensures AmongVotes(w, e, polls + other) {
      assert e in polls + other && IsVote(e, e.poll, e.voter, e.ts);
    }
  }

  // Every order of the votes leaves the same log exactly when no poll, voter and second
  // carries two different selections.
  lemma {:induction false} OrderFreeIff(w: World, polls: seq<Event>, votes: seq<Event>)
    requires PollsCover(polls, votes)
    ensures OrderFree(w, polls, votes) <==> SingleValued(w, votes)
  {
    if OrderFree(w, polls, votes) {
      forall i, j | 0 <= i < |votes| && 0 <= j < |votes| && votes[i].Voted? && votes[j].Voted?
                    && votes[i].poll == votes[j].poll && votes[i].voter == votes[j].voter && votes[i].ts == votes[j].ts
        ensures Meaning(w, votes[i]) == Meaning(w, votes[j])
      {
        OrderFreeMeans(w, polls, votes, i);
        OrderFreeMeans(w, polls, votes, j);
      }
    }
    if SingleValued(w, votes) {
      WithPolls(w, polls, votes);
      forall other: seq<Event> | multiset(other) == multiset(votes)
        ensures SameLog(Run(w, polls + other).votes, Run(w, polls + votes).votes)
      {
        PermutedAmong(w, polls, votes, other);
        CoverIsOrdered(polls, other);
        CoverIsOrdered(polls, votes);
        LogsConverge(w, polls + votes, polls + other);
        SameLogBack(Run(w, polls + votes).votes, Run(w, polls + other).votes);
      }
    }
  }

  lemma {:induction false} WithPolls(w: World, polls: seq<Event>, votes: seq<Event>)
    requires PollsCover(polls, votes) && SingleValued(w, votes)
    ensures SingleValued(w, polls + votes)
  {
    var all := polls + votes;
    forall i, j | 0 <= i < |all| && 0 <= j < |all| && all[i].Voted? && all[j].Voted?
                  && all[i].poll == all[j].poll && all[i].voter == all[j].voter && all[i].ts == all[j].ts
      ensures Meaning(w, all[i]) == Meaning(w, all[j])
    {
      assert all[i] !in polls && all[j] !in polls;
      assert all[i] == votes[i - |polls|] && all[j] == votes[j - |polls|];
    }
  }

  // ---- a vote that arrives before its poll ----

  // A live vote, its poll, and the same vote again from history.
  function EarlyVote(poll: string, voter: string, ts: int, hx: string): seq<Event> {
    [Voted(poll, voter, ts, [hx], "live"), Stored(poll), Voted(poll, voter, ts, [hx], "history")]
  }

  lemma {:induction false} EarlyLog(w: World, poll: string, voter: string, ts: int, hx: string)
    ensures Run(w, EarlyVote(poll, voter, ts, hx)).votes == [Vote(poll, voter, ts, ["sha256:" + hx], "live")]
  {
    var events, v := EarlyVote(poll, voter, ts, hx), Vote(poll, voter, ts, ["sha256:" + hx], "live");
    assert events[..2][..1] == events[..1] && events[..1] == [events[0]] && events[..1][..0] == [];
    assert Translate([], [hx]) == ["sha256:" + hx];
    assert Run(w, events[..1]).votes == [v];
    assert Run(w, events[..2]).votes == [v];
    LoggedIfIn([v], 0);
  }

  lemma {:induction false} EarlyOptions(w: World, poll: string, voter: string, ts: int, hx: string)
    ensures OptionsOf(Run(w, EarlyVote(poll, voter, ts, hx)).options, poll) == Full(w, poll, |w.names(poll)|)
  {
    var events := EarlyVote(poll, voter, ts, hx);
    OptionsAfter(w, events, poll);
    assert events[..2][1] == Stored(poll);
    assert StoredIn(events[..2], poll);
  }

  lemma {:induction false} NotCounted(t: Tables, v: Vote, o: PollOption)
    requires t.votes == [v] && OptionsOf(t.options, o.poll) == [o] && o.name !in v.options
    ensures Results(t, o.poll) == [Result(o.idx, o.name, 0)]
  {
    assert [v][..0] == [];
    assert CountRows([v], [v], o.poll, o.name) == 0;
    assert Results(t, o.poll)[0] == Result(o.idx, o.name, 0);
  }

  lemma {:induction false} MeansTheOption(w: World, e: Event, name: string)
    requires e.Voted? && w.names(e.poll) == [name] && e.hashes == [w.hash(name)]
    ensures Full(w, e.poll, 1) == [PollOption(e.poll, 0, name, w.hash(name))]
    ensures Meaning(w, e) == [name]
  {
    var options := [PollOption(e.poll, 0, name, w.hash(name))];
    assert Full(w, e.poll, 1) == options && w.names(e.poll)[0] == name;
    assert options[0].hash == e.hashes[0];
    assert Translated(options, e.hashes[0]) == name;
    assert Meaning(w, e) == [Translated(options, e.hashes[0])];
  }

  // A live vote for the one option of a poll, delivered before the poll, keeps its hash for good:
  // the poll is stored, history brings the same vote again, and yet the option's count is zero.
  lemma {:induction false} EarlyVoteIsNotCounted(w: World, poll: string, voter: string, ts: int, name: string)
    requires w.names(poll) == [name] && name != "sha256:" + w.hash(name)
    ensures var events := EarlyVote(poll, voter, ts, w.hash(name));
            && Meaning(w, events[0]) == [name]
            && Run(w, events).votes == [Vote(poll, voter, ts, ["sha256:" + w.hash(name)], "live")]
            && Results(Run(w, events), poll) == [Result(0, name, 0)]
  {
    var events := EarlyVote(poll, voter, ts, w.hash(name));
    var v := Vote(poll, voter, ts, ["sha256:" + w.hash(name)], "live");
    EarlyLog(w, poll, voter, ts, w.hash(name));
    EarlyOptions(w, poll, voter, ts, w.hash(name));
    MeansTheOption(w, events[0], name);
    NotCounted(Run(w, events), v, PollOption(poll, 0, name, w.hash(name)));
  }
}
