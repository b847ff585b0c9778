// Every step of the archive keeps the invariant; what follows for every run
// (scripts/winery-history.py).

module WineryInvariant {
  import opened Options
  import opened WineryQuality
  import opened WineryProtocol

  // ---- steps of collect ----

  lemma {:induction false} PlanKeepsInv(s: State, now: Time)
    requires Inv(s) && Enabled(s, BeginCollect(now))
    ensures Inv(Apply(s, BeginCollect(now)))
  {
  }

  lemma {:induction false} RecordGapKeepsInv(s: State)
    requires Inv(s) && Enabled(s, RecordGap)
    ensures Inv(Apply(s, RecordGap))
  {
    var c, t := s.collector, Apply(s, RecordGap);
    var name := Interval(c.start, c.end - WINDOW);
    if s.root.capture.Some? {
      CoveredMore(s.root.chunks.Keys, s.root.gaps.Keys, t.root.chunks.Keys, t.root.gaps.Keys, s.origin.value, c.start);
      if c.start < c.end - WINDOW {
        CoveredNext(t.root.chunks.Keys, t.root.gaps.Keys, name, s.origin.value);
      }
    }
  }

  lemma {:induction false} StoreChunkKeepsInv(s: State, history: History)
    requires Inv(s) && Enabled(s, StoreChunk(history))
    ensures Inv(Apply(s, StoreChunk(history)))
  {
    var c, t := s.collector, Apply(s, StoreChunk(history));
    if s.root.capture.Some? {
      CoveredMore(s.root.chunks.Keys, s.root.gaps.Keys, t.root.chunks.Keys, t.root.gaps.Keys, s.origin.value,
                  s.root.capture.value.through);
      CoveredMore(s.root.chunks.Keys, s.root.gaps.Keys, t.root.chunks.Keys, t.root.gaps.Keys, s.origin.value, c.start);
    }
  }

  lemma {:induction false} SaveStatusKeepsInv(s: State)
    requires Inv(s) && Enabled(s, SaveStatus)
    ensures Inv(Apply(s, SaveStatus))
  {
    var c, t := s.collector, Apply(s, SaveStatus);
    var name := Interval(c.start, c.stop);
    assert RootCovers(t, t.origin.value, c.start);
    CoveredNext(t.root.chunks.Keys, t.root.gaps.Keys, name, t.origin.value);
  }

  lemma {:induction false} CollectKeepsInv(s: State, a: Action)
    requires Inv(s) && Enabled(s, a)
    requires a.BeginCollect? || a.RecordGap? || a.StoreChunk? || a.ReuseChunk? || a.SaveStatus? || a.EndCollect?
             || a.CrashCollect?
    ensures Inv(Apply(s, a))
  {
    match a
    case BeginCollect(now) => PlanKeepsInv(s, now);
    case RecordGap => RecordGapKeepsInv(s);
    case StoreChunk(history) => StoreChunkKeepsInv(s, history);
    case SaveStatus => SaveStatusKeepsInv(s);
    case ReuseChunk =>
    case EndCollect =>
    case CrashCollect =>
  }

  // ---- steps of backup ----

  lemma {:induction false} CopyChunkKeepsInv(s: State, name: Interval)
    requires Inv(s) && Enabled(s, CopyChunk(name))
    ensures Inv(Apply(s, CopyChunk(name)))
  {
    var t := Apply(s, CopyChunk(name));
    if s.dest.capture.Some? {
      CoveredMore(s.dest.chunks.Keys, s.dest.gaps.Keys, t.dest.chunks.Keys, t.dest.gaps.Keys, Origin(s),
                  s.dest.capture.value.through);
    }
  }

  lemma {:induction false} CopyGapKeepsInv(s: State, name: Interval)
    requires Inv(s) && Enabled(s, CopyGap(name))
    ensures Inv(Apply(s, CopyGap(name)))
  {
    var t := Apply(s, CopyGap(name));
    if s.dest.capture.Some? {
      CoveredMore(s.dest.chunks.Keys, s.dest.gaps.Keys, t.dest.chunks.Keys, t.dest.gaps.Keys, Origin(s),
                  s.dest.capture.value.through);
    }
  }

  lemma {:induction false} SaveBackupKeepsInv(s: State)
    requires Inv(s) && Enabled(s, SaveBackup)
    ensures Inv(Apply(s, SaveBackup))
  {
    var b := s.backup;
    CoveredMore(b.needC, b.needG, s.dest.chunks.Keys, s.dest.gaps.Keys, Origin(s), b.status.through);
  }

  // A step that touches only the backup program's own state.
  lemma {:induction false} OnlyBackup(s: State, t: State)
    requires Inv(s) && t == s.(backup := t.backup) && BackupInv(t)
    ensures Inv(t)
  {
  }

  lemma {:induction false} ListKeepsInv(s: State, a: Action)
    requires Inv(s) && Enabled(s, a) && (a.BeginBackup? || a.ListChunks? || a.ListGaps?)
    ensures Inv(Apply(s, a))
  {
    var t := Apply(s, a);
    assert BackupInv(t);
    OnlyBackup(s, t);
  }

  lemma {:induction false} MarkKeepsInv(s: State, a: Action)
    requires Inv(s) && Enabled(s, a) && (a.MarkBackup? || a.CrashBackup?)
    ensures Inv(Apply(s, a))
  {
    var t := Apply(s, a);
    assert DestInv(t) && BackupInv(t);
  }

  lemma {:induction false} BackupKeepsInv(s: State, a: Action)
    requires Inv(s) && Enabled(s, a)
    requires a.BeginBackup? || a.ListChunks? || a.CopyChunk? || a.ListGaps? || a.CopyGap? || a.SaveBackup?
             || a.MarkBackup? || a.CrashBackup?
    ensures Inv(Apply(s, a))
  {
    if a.CopyChunk? {
      CopyChunkKeepsInv(s, a.name);
    } else if a.CopyGap? {
      CopyGapKeepsInv(s, a.name);
    } else if a.SaveBackup? {
      SaveBackupKeepsInv(s);
    } else if a.MarkBackup? || a.CrashBackup? {
      MarkKeepsInv(s, a);
    } else {
      ListKeepsInv(s, a);
    }
  }

  lemma {:induction false} StepKeepsInv(s: State, a: Action)
    requires Inv(s) && Enabled(s, a)
    ensures Inv(Apply(s, a))
  {
    if a.BeginCollect? || a.RecordGap? || a.StoreChunk? || a.ReuseChunk? || a.SaveStatus? || a.EndCollect?
       || a.CrashCollect? {
      CollectKeepsInv(s, a);
    } else {
      BackupKeepsInv(s, a);
    }
  }

  // ---- what one state leads to ----

  // Nothing durable is lost between s and t: a stored chunk keeps its content, a recorded gap
  // its interval, and at the destination no chunk and no gap is ever overwritten; neither
  // checkpoint goes back, and the origin is settled once.
  ghost predicate Later(s: State, t: State) {
    && (forall n | n in s.root.chunks :: n in t.root.chunks && t.root.chunks[n] == s.root.chunks[n])
    && s.root.gaps.Keys <= t.root.gaps.Keys
    && (forall n | n in s.dest.chunks :: n in t.dest.chunks && t.dest.chunks[n] == s.dest.chunks[n])
    && (forall n | n in s.dest.gaps :: n in t.dest.gaps && t.dest.gaps[n] == s.dest.gaps[n])
    && (s.root.capture.Some? ==> t.root.capture.Some? && s.root.capture.value.through <= t.root.capture.value.through)
    && (s.dest.capture.Some? ==> t.dest.capture.Some? && s.dest.capture.value.through <= t.dest.capture.value.through)
    && (s.origin.Some? ==> t.origin == s.origin)
  }

  lemma {:induction false} WriteIsLater(s: State, a: Action)
    requires Inv(s) && Enabled(s, a) && (a.RecordGap? || a.StoreChunk? || a.SaveStatus?)
    ensures Later(s, Apply(s, a))
  {
  }

  lemma {:induction false} CopyIsLater(s: State, a: Action)
    requires Inv(s) && Enabled(s, a) && (a.CopyChunk? || a.CopyGap? || a.SaveBackup?)
    ensures Later(s, Apply(s, a))
  {
  }

  lemma {:induction false} StepIsLater(s: State, a: Action)
    requires Inv(s) && Enabled(s, a)
    ensures Later(s, Apply(s, a))
  {
    if a.RecordGap? || a.StoreChunk? || a.SaveStatus? {
      WriteIsLater(s, a);
    } else if a.CopyChunk? || a.CopyGap? || a.SaveBackup? {
      CopyIsLater(s, a);
    } else {
      var t := Apply(s, a);
      assert t.root == s.root && t.dest == s.dest && t.origin == s.origin;
    }
  }

  lemma {:induction false} LaterTransitive(s: State, t: State, u: State)
    requires Later(s, t) && Later(t, u)
    ensures Later(s, u)
  {
  }

  // Over every run, with crashes and with backup steps interleaved anywhere.
  lemma {:induction false} RunKeepsInv(s: State, actions: seq<Action>)
    requires Inv(s) && Legal(s, actions)
    ensures Inv(Exec(s, actions)) && Later(s, Exec(s, actions))
    decreases |actions|
  {
    if actions != [] {
      var t := Apply(s, actions[0]);
      StepKeepsInv(s, actions[0]);
      StepIsLater(s, actions[0]);
      RunKeepsInv(t, actions[1..]);
      LaterTransitive(s, t, Exec(t, actions[1..]));
    }
  }

  // Between any two points of any run.
  lemma {:induction false} NothingIsLost(before: seq<Action>, after: seq<Action>)
    requires Legal(INITIAL, before) && Legal(Exec(INITIAL, before), after)
    ensures Later(Exec(INITIAL, before), Exec(Exec(INITIAL, before), after))
  {
    RunKeepsInv(INITIAL, before);
    RunKeepsInv(Exec(INITIAL, before), after);
  }

  // ---- the promises, for every run from an empty archive ----

  // Every instant from the first committed start to the checkpoint lies in a stored, validated
  // chunk or in a recorded gap; the checkpoint's digest is that of its chunk.
  lemma {:induction false} ArchiveCovers(actions: seq<Action>, t: Time)
    requires Legal(INITIAL, actions)
    ensures var s := Exec(INITIAL, actions);
            s.root.capture.Some? ==>
              && s.origin.Some?
              && s.root.capture.value.chunk in s.root.chunks
              && s.root.capture.value.digest == Sha256(s.root.chunks[s.root.capture.value.chunk])
              && (s.origin.value <= t < s.root.capture.value.through ==>
                    || (exists n ::
                          n in s.root.chunks && n.start <= t < n.end && ValidHistory(s.root.chunks[n].history))
                    || (exists n :: n in s.root.gaps && n.start <= t < n.end))
  {
    RunKeepsInv(INITIAL, actions);
    var s := Exec(INITIAL, actions);
    if s.root.capture.Some? && s.origin.value <= t < s.root.capture.value.through {
      assert Holds(s.root.chunks.Keys, s.root.gaps.Keys, t);
      var n :| (n in s.root.chunks.Keys || n in s.root.gaps.Keys) && n.start <= t < n.end;
      if n in s.root.chunks { assert ValidHistory(s.root.chunks[n].history); }
    }
  }

  // Whenever the destination holds a checkpoint T, its own chunks (true copies) and gaps cover
  // everything from the first committed start to T, and T is no later than the archive's.
  lemma {:induction false} BackupCovers(actions: seq<Action>, t: Time)
    requires Legal(INITIAL, actions)
    ensures var s := Exec(INITIAL, actions);
            s.dest.capture.Some? ==>
              && s.origin.Some? && s.root.capture.Some? && s.dest.capture.value.through <= s.root.capture.value.through
              && (forall n | n in s.dest.chunks :: n in s.root.chunks && s.dest.chunks[n] == s.root.chunks[n])
              && (s.origin.value <= t < s.dest.capture.value.through ==>
                    exists n :: (n in s.dest.chunks || n in s.dest.gaps) && n.start <= t < n.end)
  {
    RunKeepsInv(INITIAL, actions);
    var s := Exec(INITIAL, actions);
    if s.dest.capture.Some? && s.origin.value <= t < s.dest.capture.value.through {
      assert Holds(s.dest.chunks.Keys, s.dest.gaps.Keys, t);
      var n :| (n in s.dest.chunks.Keys || n in s.dest.gaps.Keys) && n.start <= t < n.end;
    }
  }

  // One run of collect writes at most ten checkpoints.
  lemma {:induction false} TenChunksARun(actions: seq<Action>)
    requires Legal(INITIAL, actions)
    ensures var c := Exec(INITIAL, actions).collector;
            && (c.Fetching? ==> c.saved <= 10)
            && (c.Saving? ==> c.saved <= 9)
  {
    RunKeepsInv(INITIAL, actions);
  }
}
