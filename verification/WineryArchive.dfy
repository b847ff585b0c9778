// The two programs themselves, `collect` and `backup`, run on directories (scripts/winery-history.py).
// Each hands out, as a ghost, the steps of the transition system it took.

module WineryArchive {
  import opened Options
  import opened WineryQuality
  import opened WineryProtocol
  import opened WineryInvariant

  datatype Outcome = Done | Failed | Crashed

  // A data directory: chunks/, gaps/ and capture.json.
  class Directory {
    var chunks: map<Interval, Chunk>
    var gaps: map<Interval, Gap>
    var capture: Option<Status>

    constructor ()
      ensures View() == EMPTY
    {
      chunks, gaps, capture := map[], map[], None;
    }

    ghost function View(): Store
      reads this
    {
      Store(chunks, gaps, capture)
    }
  }

  // The run so far, as steps from env, has reached s.
  ghost predicate Steps(env: State, actions: seq<Action>, s: State) {
    Legal(env, actions) && Exec(env, actions) == s
  }

  lemma {:induction false} OneMoreStep(env: State, actions: seq<Action>, s: State, a: Action)
    requires Steps(env, actions, s) && Enabled(s, a)
    ensures Steps(env, actions + [a], Apply(s, a))
  {
    LegalAppend(env, actions, a);
  }

  // What the getter returns for the successive requests: a response, or an error.
  ghost predicate AllSound(responses: seq<Option<History>>) {
    forall r | r in responses :: r.Some? && ValidHistory(r.value)
  }

  // writes is the number of durable writes completed before a crash. With a token, ten sound
  // responses and no crash within 21 writes the run always finishes, and it then has
  // everything up to the last whole hour.
  method Collect(root: Directory, now: Time, tokenPresent: bool, responses: seq<Option<History>>, writes: nat,
                 ghost env: State)
    returns (outcome: Outcome, ghost actions: seq<Action>)
    requires Inv(env) && env.collector.Resting? && env.root == root.View()
    modifies root
    ensures Legal(env, actions) && Exec(env, actions).root == root.View() && Exec(env, actions).collector.Resting?
    ensures Exec(env, actions).dest == env.dest && Exec(env, actions).backup == env.backup
    ensures outcome.Done? ==> root.capture.Some? && root.capture.value.through >= HourFloor(now - LAG)
    ensures tokenPresent && writes >= 21 && |responses| >= 10 && AllSound(responses) ==> outcome.Done?
  {
    var end := HourFloor(now - LAG);
    var start := if root.capture.Some? then root.capture.value.through else end - WINDOW;
    var left := writes;
    ghost var s := env;
    actions := [];
    OneMoreStep(env, actions, s, BeginCollect(now));
    actions, s := actions + [BeginCollect(now)], Apply(s, BeginCollect(now));
    var earliest := end - WINDOW;
    if start < earliest {
      if left == 0 {
        OneMoreStep(env, actions, s, CrashCollect);
        return Crashed, actions + [CrashCollect];
      }
      root.gaps := root.gaps[Interval(start, earliest) := Gap(start, earliest, now)];
      left := left - 1;
      start := earliest;
    }
    OneMoreStep(env, actions, s, RecordGap);
    actions, s := actions + [RecordGap], Apply(s, RecordGap);
    if !tokenPresent {
      OneMoreStep(env, actions, s, CrashCollect);
      return Failed, actions + [CrashCollect];
    }
    outcome, actions := CollectChunks(root, now, start, end, responses, left, env, actions, s);
  }

  // A collect in progress on root, about to look at the chunk that begins at start.
  ghost predicate InProgress(root: Directory, now: Time, start: Time, end: Time, env: State, actions: seq<Action>,
                             s: State)
    reads root
  {
    && Steps(env, actions, s) && s.root == root.View() && s.dest == env.dest && s.backup == env.backup
    && s.collector.Fetching? && s.collector.now == now && s.collector.end == end && s.collector.start == start
    && (start >= end ==> root.capture.Some? && root.capture.value.through == start)
  }

  // A durable chunk of that name, with its boundaries and a validated history.
  ghost predicate StoredSound(chunks: map<Interval, Chunk>, name: Interval) {
    && name in chunks && chunks[name].start == name.start && chunks[name].end == name.end
    && ValidHistory(chunks[name].history)
  }

  lemma {:induction false} StoredIsSound(env: State, actions: seq<Action>, s: State, name: Interval)
    requires Inv(env) && Steps(env, actions, s) && name in s.root.chunks
    ensures StoredSound(s.root.chunks, name)
  {
    RunKeepsInv(env, actions);
  }

  // A durable, validated chunk of that name: reused if it is stored, otherwise fetched and written.
  method StoreOrReuse(root: Directory, now: Time, start: Time, end: Time, response: Option<History>, left: nat,
                      ghost env: State, ghost before: seq<Action>, ghost at: State)
    returns (outcome: Outcome, fetched: bool, ghost actions: seq<Action>, ghost s: State)
    requires Inv(env) && InProgress(root, now, start, end, env, before, at) && start < end
    modifies root`chunks
    ensures Steps(env, actions, s) && s.root == root.View() && s.dest == env.dest && s.backup == env.backup
    ensures outcome.Done? ==>
              s.collector == Saving(now, end, start, at.collector.first, at.collector.saved, Min(start + DAY, end))
    ensures !outcome.Done? ==> s.collector.Fetching?
    ensures outcome.Done? ==> StoredSound(root.chunks, Interval(start, Min(start + DAY, end)))
    ensures left >= 1 && response.Some? && ValidHistory(response.value) ==> outcome.Done?
    ensures fetched ==> left >= 1 && response.Some?
  {
    var stop := Min(start + DAY, end);
    var name := Interval(start, stop);
    actions, s, fetched := before, at, false;
    assert stop == StopOf(at.collector);
    if name in root.chunks {
      StoredIsSound(env, actions, s, name);
      var doc := root.chunks[name];
      var r := InspectHistory(doc.history);
      if doc.start != start || doc.end != stop || r.Rejected? {
        outcome := Failed;
        return;
      }
      OneMoreStep(env, actions, s, ReuseChunk);
      actions, s := actions + [ReuseChunk], Apply(s, ReuseChunk);
    } else {
      if response.None? {
        outcome := Failed;
        return;
      }
      var history := response.value;
      var r := InspectHistory(history);
      if r.Rejected? {
        outcome := Failed;
        return;
      }
      if left == 0 {
        outcome := Crashed;
        return;
      }
      fetched := true;
      OneMoreStep(env, actions, s, StoreChunk(history));
      actions, s := actions + [StoreChunk(history)], Apply(s, StoreChunk(history));
      root.chunks := root.chunks[name := Chunk(start, stop, start - LAG, now, history)];
      assert s.root == root.View();
    }
    outcome := Done;
  }

  // Progress is committed only now that the chunk is durable.
  method Commit(root: Directory, now: Time, start: Time, end: Time, ghost env: State, ghost before: seq<Action>,
                ghost at: State)
    returns (stop: Time, ghost actions: seq<Action>, ghost s: State)
    requires Steps(env, before, at) && at.root == root.View() && at.dest == env.dest && at.backup == env.backup
    requires at.collector.Saving? && at.collector.now == now && at.collector.start == start && at.collector.end == end
    requires at.collector.stop == Min(start + DAY, end) && Interval(start, at.collector.stop) in root.chunks
    modifies root`capture
    ensures stop == Min(start + DAY, end) && InProgress(root, now, stop, end, env, actions, s)
    ensures s.collector.saved == at.collector.saved + 1
  {
    stop := Min(start + DAY, end);
    var name := Interval(start, stop);
    OneMoreStep(env, before, at, SaveStatus);
    actions, s := before + [SaveStatus], Apply(at, SaveStatus);
    root.capture := Some(Status(stop, now, name, Sha256(root.chunks[name])));
  }

  // Fewer than ten checkpoints have been written while the run is short of its end.
  lemma {:induction false} FewerThanTen(env: State, actions: seq<Action>, s: State)
    requires Inv(env) && Steps(env, actions, s) && s.collector.Fetching? && s.collector.start < s.collector.end
    ensures s.collector.saved <= 9
  {
    RunKeepsInv(env, actions);
  }

  method CollectChunks(root: Directory, now: Time, from: Time, end: Time, responses: seq<Option<History>>, writes: nat,
                       ghost env: State, ghost before: seq<Action>, ghost at: State)
    returns (outcome: Outcome, ghost actions: seq<Action>)
    requires Inv(env) && InProgress(root, now, from, end, env, before, at) && at.collector.saved == 0
    modifies root
    ensures Legal(env, actions) && Exec(env, actions).root == root.View() && Exec(env, actions).collector.Resting?
    ensures Exec(env, actions).dest == env.dest && Exec(env, actions).backup == env.backup
    ensures outcome.Done? ==> root.capture.Some? && root.capture.value.through >= end
    ensures writes >= 20 && |responses| >= 10 && AllSound(responses) ==> outcome.Done?
  {
    actions := before;
    ghost var s := at;
    var start, left, next := from, writes, 0;
    while start < end
      invariant InProgress(root, now, start, end, env, actions, s)
      invariant next <= s.collector.saved && next <= |responses|
      invariant 0 <= left
      invariant left >= writes - 2 * s.collector.saved
      decreases end - start
    {
      FewerThanTen(env, actions, s);
      var fetched;
      outcome, fetched, actions, s := StoreOrReuse(root, now, start, end,
        if next < |responses| then responses[next] else None, left, env, actions, s);
      if fetched { next, left := next + 1, left - 1; }
      if outcome.Done? && left == 0 {
        outcome := Crashed;
      }
      if !outcome.Done? {
        OneMoreStep(env, actions, s, CrashCollect);
        actions := actions + [CrashCollect];
        return;
      }
      left := left - 1;
      start, actions, s := Commit(root, now, start, end, env, actions, s);
    }
    OneMoreStep(env, actions, s, EndCollect);
    outcome, actions := Done, actions + [EndCollect];
  }

  // ---- backup ----

  // The two directories agree on every file they both have.
  ghost predicate Agree<V(!new)>(a: map<Interval, V>, b: map<Interval, V>) {
    forall n | n in a && n in b :: a[n] == b[n]
  }

  method CopyChunks(root: Directory, dest: Directory, ghost env: State, ghost before: seq<Action>, ghost at: State)
    returns (ok: bool, ghost actions: seq<Action>, ghost s: State)
    requires root != dest && Steps(env, before, at) && at.root == root.View() && at.dest == dest.View()
    requires at.backup.CopyingChunks? && at.backup.todo == root.chunks.Keys
    modifies dest`chunks
    ensures Steps(env, actions, s) && s.dest == dest.View() && s == at.(dest := s.dest, backup := s.backup)
    ensures ok <==> Agree(root.chunks, old(dest.chunks))
    ensures ok ==> s.backup == CopyingChunks(at.backup.status, at.backup.needC, at.backup.needG, {})
    ensures ok ==> dest.chunks == old(dest.chunks) + root.chunks
  {
    actions, s := before, at;
    var todo := root.chunks.Keys;
    while todo != {}
      invariant Steps(env, actions, s) && s.dest == dest.View() && s == at.(dest := s.dest, backup := s.backup)
      invariant s.backup == CopyingChunks(at.backup.status, at.backup.needC, at.backup.needG, todo)
                && todo <= root.chunks.Keys
      invariant forall n | n in root.chunks && n !in todo :: n in dest.chunks && dest.chunks[n] == root.chunks[n]
      invariant forall n | n in root.chunks && n !in todo && n in old(dest.chunks) ::
                  old(dest.chunks)[n] == root.chunks[n]
      invariant forall n | n in todo || n !in root.chunks :: n in dest.chunks <==> n in old(dest.chunks)
      invariant forall n | n in old(dest.chunks) && (n in todo || n !in root.chunks) ::
                  dest.chunks[n] == old(dest.chunks)[n]
      decreases todo
    {
      var name :| name in todo;
      var content := root.chunks[name];
      if name in dest.chunks && dest.chunks[name] != content {
        assert !Agree(root.chunks, old(dest.chunks));
        ok := false;
        return;
      }
      OneMoreStep(env, actions, s, CopyChunk(name));
      actions, s := actions + [CopyChunk(name)], Apply(s, CopyChunk(name));
      if name in dest.chunks {
        assert dest.chunks[name := content] == dest.chunks;
      } else {
        dest.chunks := dest.chunks[name := content];
      }
      todo := todo - {name};
    }
    ok := true;
  }

  method CopyGaps(root: Directory, dest: Directory, ghost env: State, ghost before: seq<Action>, ghost at: State)
    returns (ok: bool, ghost actions: seq<Action>, ghost s: State)
    requires root != dest && Steps(env, before, at) && at.root == root.View() && at.dest == dest.View()
    requires at.backup.CopyingGaps? && at.backup.todo == root.gaps.Keys
    modifies dest`gaps
    ensures Steps(env, actions, s) && s.dest == dest.View() && s == at.(dest := s.dest, backup := s.backup)
    ensures ok <==> Agree(root.gaps, old(dest.gaps))
    ensures ok ==> s.backup == CopyingGaps(at.backup.status, at.backup.needC, at.backup.needG, {})
    ensures ok ==> dest.gaps == old(dest.gaps) + root.gaps
  {
    actions, s := before, at;
    var todo := root.gaps.Keys;
    while todo != {}
      invariant Steps(env, actions, s) && s.dest == dest.View() && s == at.(dest := s.dest, backup := s.backup)
      invariant s.backup == CopyingGaps(at.backup.status, at.backup.needC, at.backup.needG, todo)
                && todo <= root.gaps.Keys
      invariant forall n | n in root.gaps && n !in todo :: n in dest.gaps && dest.gaps[n] == root.gaps[n]
      invariant forall n | n in root.gaps && n !in todo && n in old(dest.gaps) :: old(dest.gaps)[n] == root.gaps[n]
      invariant forall n | n in todo || n !in root.gaps :: n in dest.gaps <==> n in old(dest.gaps)
      invariant forall n | n in old(dest.gaps) && (n in todo || n !in root.gaps) :: dest.gaps[n] == old(dest.gaps)[n]
      decreases todo
    {
      var name :| name in todo;
      var content := root.gaps[name];
      if name in dest.gaps && dest.gaps[name] != content {
        assert !Agree(root.gaps, old(dest.gaps));
        ok := false;
        return;
      }
      OneMoreStep(env, actions, s, CopyGap(name));
      actions, s := actions + [CopyGap(name)], Apply(s, CopyGap(name));
      if name in dest.gaps {
        assert dest.gaps[name := content] == dest.gaps;
      } else {
        dest.gaps := dest.gaps[name := content];
      }
      todo := todo - {name};
    }
    ok := true;
  }

  lemma {:induction false} BackupBegins(env: State)
    requires env.backup.Idle? && env.root.capture.Some?
    ensures var chunks, gaps := env.root.chunks.Keys, env.root.gaps.Keys;
            var s := env.(backup := CopyingChunks(env.root.capture.value, chunks, gaps, chunks));
            Steps(env, [BeginBackup, ListChunks(chunks)], s)
  {
    var list := ListChunks(env.root.chunks.Keys);
    OneMoreStep(env, [], env, BeginBackup);
    var s := Apply(env, BeginBackup);
    assert [] + [BeginBackup] == [BeginBackup] && [BeginBackup] + [list] == [BeginBackup, list];
    OneMoreStep(env, [BeginBackup], s, list);
  }

  lemma {:induction false} BackupEnds(env: State, actions: seq<Action>, s: State)
    requires Steps(env, actions, s) && s.backup.CopyingGaps? && s.backup.todo == {}
    ensures var status := s.backup.status;
            var t := s.(dest := s.dest.(capture := Some(status)), mark := Some(status.through), backup := Idle);
            Steps(env, actions + [SaveBackup] + [MarkBackup], t)
  {
    OneMoreStep(env, actions, s, SaveBackup);
    OneMoreStep(env, actions + [SaveBackup], Apply(s, SaveBackup), MarkBackup);
  }

  // With no collection meanwhile, a backup completes exactly when there is a checkpoint and
  // the copies already made agree with the archive.
  method Backup(root: Directory, dest: Directory, ghost env: State) returns (ok: bool, ghost actions: seq<Action>)
    requires root != dest && env.root == root.View() && env.dest == dest.View() && env.backup.Idle?
    modifies dest
    ensures Legal(env, actions) && Exec(env, actions).dest == dest.View() && Exec(env, actions).root == root.View()
    ensures ok <==> root.capture.Some? && Agree(root.chunks, old(dest.chunks)) && Agree(root.gaps, old(dest.gaps))
    ensures ok ==> dest.capture == root.capture
    ensures ok ==> dest.chunks == old(dest.chunks) + root.chunks && dest.gaps == old(dest.gaps) + root.gaps
    ensures !ok ==> dest.capture == old(dest.capture)
  {
    actions := [];
    ghost var s := env;
    if root.capture.None? {
      ok := false;
      return;
    }
    var status := root.capture.value;
    BackupBegins(env);
    actions := [BeginBackup, ListChunks(root.chunks.Keys)];
    s := Exec(env, actions);
    ok, actions, s := CopyChunks(root, dest, env, actions, s);
    if !ok { return; }
    ghost var list := ListGaps(root.gaps.Keys);
    OneMoreStep(env, actions, s, list);
    actions, s := actions + [list], Apply(s, list);
    ok, actions, s := CopyGaps(root, dest, env, actions, s);
    if !ok { return; }
    BackupEnds(env, actions, s);
    dest.capture := Some(status);
    actions := actions + [SaveBackup] + [MarkBackup];
  }

  // In every reachable state the chunk copies agree, so only a rewritten gap file can stop a
  // backup, and a completed one leaves an exact mirror.
  lemma {:induction false} BackupMirrors(env: State)
    requires Inv(env)
    ensures Agree(env.root.chunks, env.dest.chunks) && env.dest.chunks + env.root.chunks == env.root.chunks
    ensures Agree(env.root.gaps, env.dest.gaps) ==> env.dest.gaps + env.root.gaps == env.root.gaps
  {
    assert (env.dest.chunks + env.root.chunks).Keys == env.root.chunks.Keys;
    assert (env.dest.gaps + env.root.gaps).Keys == env.root.gaps.Keys;
  }
}
