// Two limits of the archive's promises, each with a run that reaches it
// (scripts/winery-history.py): the first run's leftovers, and a rewritten gap file.

module WineryLimits {
  import opened Options
  import opened WineryQuality
  import opened WineryProtocol
  import opened WineryInvariant

  // ---- coverage from the earliest stored chunk, not only from the origin ----

  // Every chunk older than the origin is followed by another chunk starting within a day.
  ghost predicate LeftoversChain(s: State) {
    forall n | n in s.root.chunks && n.start < Origin(s) :: Followed(s, n)
  }

  ghost predicate Followed(s: State, n: Interval) {
    exists m :: m in s.root.chunks && n.start < m.start <= n.start + DAY
  }

  lemma {:induction false} ChainHolds(s: State, n: Interval, t: Time)
    requires Inv(s) && s.root.capture.Some? && LeftoversChain(s)
    requires n in s.root.chunks && n.start <= t < s.root.capture.value.through
    ensures Holds(s.root.chunks.Keys, s.root.gaps.Keys, t)
    decreases t - n.start
  {
    if t < s.origin.value {
      if t < n.start + DAY {
        assert n.start <= t < n.end && n in s.root.chunks.Keys;
      } else {
        assert Followed(s, n);
        var m :| m in s.root.chunks && n.start < m.start <= n.start + DAY;
        ChainHolds(s, m, t);
      }
    }
  }

  lemma {:induction false} HeldIsFollowed(s: State, n: Interval)
    requires Inv(s) && s.root.capture.Some? && n in s.root.chunks && n.start < s.origin.value
    requires RootCovers(s, n.start, s.root.capture.value.through)
    ensures Followed(s, n)
  {
    var t := n.start + DAY;
    if t >= s.origin.value {
      var m :| m in s.root.chunks && m.start == s.origin.value;
      assert n.start < m.start <= n.start + DAY;
    } else {
      assert Holds(s.root.chunks.Keys, s.root.gaps.Keys, t);
      var m :| (m in s.root.chunks.Keys || m in s.root.gaps.Keys) && m.start <= t < m.end;
      assert m in s.root.chunks && m.end == m.start + DAY;
    }
  }

  // The archive covers everything from its earliest chunk exactly when the leftovers chain up.
  lemma {:induction false} EarliestChunkCovered(s: State)
    requires Inv(s) && s.root.capture.Some?
    ensures (forall n | n in s.root.chunks :: RootCovers(s, n.start, s.root.capture.value.through)) <==>
              LeftoversChain(s)
  {
    if LeftoversChain(s) {
      forall n | n in s.root.chunks ensures RootCovers(s, n.start, s.root.capture.value.through) {
        forall t | n.start <= t < s.root.capture.value.through ensures Holds(s.root.chunks.Keys, s.root.gaps.Keys, t) {
          ChainHolds(s, n, t);
        }
      }
    }
    if forall n | n in s.root.chunks :: RootCovers(s, n.start, s.root.capture.value.through) {
      forall n | n in s.root.chunks && n.start < Origin(s) ensures Followed(s, n) {
        HeldIsFollowed(s, n);
      }
    }
  }

  // A first run that stores its first chunk and stops before the checkpoint, then three quiet
  // days, leave a hole of two days that no gap file records.
  lemma {:induction false} UnrecordedHole() returns (run: seq<Action>)
    ensures Legal(INITIAL, run)
    ensures var s := Exec(INITIAL, run);
            && Interval(0, DAY) in s.root.chunks && s.root.capture.Some? && s.root.capture.value.through == 4 * DAY
            && s.root.gaps == map[] && !Holds(s.root.chunks.Keys, s.root.gaps.Keys, DAY)
  {
    var h := OnePointEach();
    run := LeftoverChunk(h);
    run := Extend(run, BeginCollect(WINDOW + LAG + 3 * DAY));
    run := Extend(run, RecordGap);
    run := Extend(run, StoreChunk(h));
    run := Extend(run, SaveStatus);
    var s := Exec(INITIAL, run);
    assert s.root.chunks.Keys == {Interval(0, DAY), Interval(3 * DAY, 4 * DAY)};
  }

  lemma {:induction false} LeftoverChunk(h: History) returns (run: seq<Action>)
    requires ValidHistory(h)
    ensures Legal(INITIAL, run)
    ensures Exec(INITIAL, run) == INITIAL.(root := Store(map[Interval(0, DAY) := FirstChunk(h)], map[], None))
  {
    run := [];
    run := Extend(run, BeginCollect(WINDOW + LAG));
    run := Extend(run, RecordGap);
    run := Extend(run, StoreChunk(h));
    run := Extend(run, CrashCollect);
  }

  lemma {:induction false} Extend(run: seq<Action>, a: Action) returns (longer: seq<Action>)
    requires Legal(INITIAL, run) && Enabled(Exec(INITIAL, run), a)
    ensures Legal(INITIAL, longer) && Exec(INITIAL, longer) == Apply(Exec(INITIAL, run), a)
  {
    LegalAppend(INITIAL, run, a);
    longer := run + [a];
  }

  // ---- a rewritten gap file stops the backup for good ----

  // The destination holds another version of gap file n, the checkpoint is past its start, and
  // no backup has already got past comparing it.
  ghost predicate Wedged(s: State, n: Interval) {
    && n in s.root.gaps && n in s.dest.gaps && s.root.gaps[n] != s.dest.gaps[n]
    && s.root.capture.Some? && n.start < s.root.capture.value.through
    && (s.backup.BeforeChunks? || s.backup.CopyingChunks? ==> n in s.backup.needG)
    && (s.backup.CopyingGaps? ==> n in s.backup.todo)
  }

  lemma {:induction false} WedgedStep(s: State, n: Interval, a: Action)
    requires Inv(s) && Wedged(s, n) && Enabled(s, a)
    ensures Wedged(Apply(s, a), n) && Apply(s, a).dest.capture == s.dest.capture
  {
  }

  // From then on no run, however long, advances the backup's checkpoint again.
  lemma {:induction false} WedgedForever(s: State, n: Interval, actions: seq<Action>)
    requires Inv(s) && Wedged(s, n) && Legal(s, actions)
    ensures Exec(s, actions).dest.capture == s.dest.capture
    decreases |actions|
  {
    if actions != [] {
      WedgedStep(s, n, actions[0]);
      StepKeepsInv(s, actions[0]);
      WedgedForever(Apply(s, actions[0]), n, actions[1..]);
    }
  }

  // ---- and only that does ----

  // Every gap file the destination holds is the archive's own version.
  ghost predicate GapsAgree(s: State) {
    forall n | n in s.dest.gaps :: n in s.root.gaps && s.dest.gaps[n] == s.root.gaps[n]
  }

  // The step writes a gap file whose copy at the destination has another detection time.
  ghost predicate Rewrites(s: State, a: Action)
    requires Enabled(s, a)
  {
    var c := s.collector;
    && a.RecordGap? && c.start < c.end - WINDOW
    && var name := Interval(c.start, c.end - WINDOW);
       name in s.dest.gaps && s.dest.gaps[name].detectedAt != c.now
  }

  lemma {:induction false} AgreeStep(s: State, a: Action)
    requires Inv(s) && GapsAgree(s) && Enabled(s, a)
    ensures GapsAgree(Apply(s, a)) <==> !Rewrites(s, a)
  {
    if a.RecordGap? {
      AgreeRecord(s);
    } else {
      var t := Apply(s, a);
      assert t.root.gaps == s.root.gaps;
      assert a.CopyGap? || t.dest.gaps == s.dest.gaps;
    }
  }

  lemma {:induction false} AgreeRecord(s: State)
    requires Inv(s) && GapsAgree(s) && Enabled(s, RecordGap)
    ensures GapsAgree(Apply(s, RecordGap)) <==> !Rewrites(s, RecordGap)
  {
    var c, t := s.collector, Apply(s, RecordGap);
    var name := Interval(c.start, c.end - WINDOW);
    if c.start < c.end - WINDOW {
      assert t.root.gaps == s.root.gaps[name := Gap(name.start, name.end, c.now)];
      if name in s.dest.gaps {
        var copy := s.dest.gaps[name];
        assert copy.start == name.start && copy.end == name.end;
        assert copy == t.root.gaps[name] <==> copy.detectedAt == c.now;
      }
    }
  }

  // No step of the run does that.
  ghost predicate NeverRewrites(s: State, actions: seq<Action>)
    requires Legal(s, actions)
    decreases |actions|
  {
    actions == [] || (!Rewrites(s, actions[0]) && NeverRewrites(Apply(s, actions[0]), actions[1..]))
  }

  // The gaps agree now and after every step of the run.
  ghost predicate AlwaysAgree(s: State, actions: seq<Action>)
    requires Legal(s, actions)
    decreases |actions|
  {
    GapsAgree(s) && (actions == [] || AlwaysAgree(Apply(s, actions[0]), actions[1..]))
  }

  // From a state whose gaps agree they agree throughout a run exactly when no step of it rewrites
  // a gap file that was already copied.
  lemma {:induction false} AgreeIff(s: State, actions: seq<Action>)
    requires Inv(s) && GapsAgree(s) && Legal(s, actions)
    ensures AlwaysAgree(s, actions) <==> NeverRewrites(s, actions)
    decreases |actions|
  {
    if actions != [] {
      AgreeStep(s, actions[0]);
      StepKeepsInv(s, actions[0]);
      if GapsAgree(Apply(s, actions[0])) {
        AgreeIff(Apply(s, actions[0]), actions[1..]);
      }
    }
  }

  lemma {:induction false} AgreesAtEnd(s: State, actions: seq<Action>)
    requires Legal(s, actions) && AlwaysAgree(s, actions)
    ensures GapsAgree(Exec(s, actions))
    decreases |actions|
  {
    if actions != [] {
      AgreesAtEnd(Apply(s, actions[0]), actions[1..]);
    }
  }

  // So from the empty archive on, a run without such a rewrite leaves every copy true, chunks and
  // gaps alike, and no gap file that could stop a backup.
  lemma {:induction false} NeverWedged(actions: seq<Action>)
    requires Legal(INITIAL, actions) && NeverRewrites(INITIAL, actions)
    ensures var s := Exec(INITIAL, actions);
            && (forall n | n in s.dest.chunks :: n in s.root.chunks && s.dest.chunks[n] == s.root.chunks[n])
            && (forall n | n in s.dest.gaps :: n in s.root.gaps && s.dest.gaps[n] == s.root.gaps[n])
            && forall n :: !Wedged(s, n)
  {
    RunKeepsInv(INITIAL, actions);
    AgreeIff(INITIAL, actions);
    AgreesAtEnd(INITIAL, actions);
  }

  // A rewrite is only possible while the checkpoint is still where the copied gap begins: the run
  // that recorded it stopped before its next checkpoint, and this one is in the same hour.
  lemma {:induction false} RewriteNeedsStoppedRun(s: State)
    requires Inv(s) && Enabled(s, RecordGap) && Rewrites(s, RecordGap)
    ensures s.root.capture.Some?
    ensures exists n :: n in s.dest.gaps && n.start == s.root.capture.value.through && n.end == s.collector.end - WINDOW
                        && s.dest.gaps[n].detectedAt != s.collector.now
  {
    var n := Interval(s.collector.start, s.collector.end - WINDOW);
    assert n in s.dest.gaps;
  }

  // It happens when a backup falls between two collections of the same hour, the first of
  // which recorded a gap and stopped before a checkpoint: the second rewrites the gap file
  // under the same name with a new detection time.
  lemma {:induction false} WedgeReachable() returns (run: seq<Action>)
    ensures Legal(INITIAL, run)
    ensures Wedged(Exec(INITIAL, run), Interval(DAY, 30 * DAY))
  {
    var h := OnePointEach();
    run := FirstDayThenGap(h);
    run := BackUpGap(run, h);
    run := Extend(run, BeginCollect(40 * DAY + LAG + 60));
    assert HourFloor(40 * DAY + 60) == 40 * DAY;
    run := Extend(run, RecordGap);
    run := Extend(run, StoreChunk(h));
    run := Extend(run, SaveStatus);
  }

  ghost function GapAt(now: Time): Gap { Gap(DAY, 30 * DAY, now) }

  ghost function FirstChunk(h: History): Chunk { Chunk(0, DAY, -LAG, WINDOW + LAG, h) }

  ghost function FirstStatus(h: History): Status {
    Status(DAY, WINDOW + LAG, Interval(0, DAY), Sha256(FirstChunk(h)))
  }

  ghost function AfterGap(h: History): Store {
    Store(map[Interval(0, DAY) := FirstChunk(h)], map[Interval(DAY, 30 * DAY) := GapAt(40 * DAY + LAG)],
          Some(FirstStatus(h)))
  }

  lemma {:induction false} FirstDayThenGap(h: History) returns (run: seq<Action>)
    requires ValidHistory(h)
    ensures Legal(INITIAL, run)
    ensures Exec(INITIAL, run) == State(AfterGap(h), EMPTY, Resting, Idle, None, Some(0))
  {
    run := FirstDay(h);
    run := Extend(run, BeginCollect(40 * DAY + LAG));
    run := Extend(run, RecordGap);
    run := Extend(run, CrashCollect);
  }

  lemma {:induction false} FirstChunkStored(h: History) returns (run: seq<Action>)
    requires ValidHistory(h)
    ensures Legal(INITIAL, run)
    ensures Exec(INITIAL, run) ==
            State(Store(map[Interval(0, DAY) := FirstChunk(h)], map[], None), EMPTY,
                  Saving(WINDOW + LAG, WINDOW, 0, 0, 0, DAY), Idle, None, None)
  {
    run := Extend([], BeginCollect(WINDOW + LAG));
    run := Extend(run, RecordGap);
    run := Extend(run, StoreChunk(h));
  }

  lemma {:induction false} FirstDay(h: History) returns (run: seq<Action>)
    requires ValidHistory(h)
    ensures Legal(INITIAL, run)
    ensures Exec(INITIAL, run) ==
            State(Store(map[Interval(0, DAY) := FirstChunk(h)], map[], Some(FirstStatus(h))),
                  EMPTY, Resting, Idle, None, Some(0))
  {
    run := FirstChunkStored(h);
    run := Extend(run, SaveStatus);
    run := Extend(run, CrashCollect);
  }

  lemma {:induction false} BackUpGap(before: seq<Action>, h: History) returns (run: seq<Action>)
    requires Legal(INITIAL, before) && Exec(INITIAL, before) == State(AfterGap(h), EMPTY, Resting, Idle, None, Some(0))
    ensures Legal(INITIAL, run)
    ensures Exec(INITIAL, run) == State(AfterGap(h), AfterGap(h), Resting, Idle, Some(DAY), Some(0))
  {
    var chunk, gap := Interval(0, DAY), Interval(DAY, 30 * DAY);
    run := Extend(before, BeginBackup);
    run := Extend(run, ListChunks({chunk}));
    run := Extend(run, CopyChunk(chunk));
    assert {chunk} - {chunk} == {};
    run := Extend(run, ListGaps({gap}));
    run := Extend(run, CopyGap(gap));
    assert {gap} - {gap} == {};
    run := Extend(run, SaveBackup);
    run := Extend(run, MarkBackup);
  }
}
