// The hot-water history archive as a transition system: `collect` and `backup` hold different
// locks and interleave, each durable write is one step, and either may crash between any two
// (scripts/winery-history.py).

module WineryProtocol {
  import opened Options
  import opened WineryQuality

  const HOUR: int := 3600
  const DAY: int := 86400
  const WINDOW: int := 10 * DAY
  const LAG: int := 300

  function HourFloor(t: Time): Time { t - t % HOUR }

  function Min(a: int, b: int): int { if a <= b then a else b }

  // The name of a chunk or gap file: the stamps of the interval it covers.
  datatype Interval = Interval(start: Time, end: Time)

  datatype Chunk = Chunk(start: Time, end: Time, queryStart: Time, collectedAt: Time, history: History)

  datatype Gap = Gap(start: Time, end: Time, detectedAt: Time)

  // A SHA-256 digest stands for the content it was taken from.
  datatype Digest = Sha256(content: Chunk)

  datatype Status = Status(through: Time, checkedAt: Time, chunk: Interval, digest: Digest)

  datatype Store = Store(chunks: map<Interval, Chunk>, gaps: map<Interval, Gap>, capture: Option<Status>)

  // Where a running `collect` is. first is the start it chose, saved the checkpoints it wrote.
  datatype Collector =
    | Resting
    | Planning(now: Time, end: Time, start: Time)
    | Fetching(now: Time, end: Time, start: Time, first: Time, saved: nat)
    | Saving(now: Time, end: Time, start: Time, first: Time, saved: nat, stop: Time)

  // Where a running `backup` is. needC and needG record the files present when it read the status.
  datatype Backup =
    | Idle
    | BeforeChunks(status: Status, needC: set<Interval>, needG: set<Interval>)
    | CopyingChunks(status: Status, needC: set<Interval>, needG: set<Interval>, todo: set<Interval>)
    | CopyingGaps(status: Status, needC: set<Interval>, needG: set<Interval>, todo: set<Interval>)
    | Marking(status: Status)

  // mark is backup.json; origin is the start of the run that first wrote capture.json.
  datatype State = State(root: Store, dest: Store, collector: Collector, backup: Backup,
                         mark: Option<Time>, origin: Option<Time>)

  const EMPTY: Store := Store(map[], map[], None)
  const INITIAL: State := State(EMPTY, EMPTY, Resting, Idle, None, None)

  datatype Action =
    | BeginCollect(now: Time)
    | RecordGap
    | StoreChunk(history: History)
    | ReuseChunk
    | SaveStatus
    | EndCollect
    | CrashCollect
    | BeginBackup
    | ListChunks(names: set<Interval>)
    | CopyChunk(name: Interval)
    | ListGaps(names: set<Interval>)
    | CopyGap(name: Interval)
    | SaveBackup
    | MarkBackup
    | CrashBackup

  function StopOf(c: Collector): Time
    requires c.Fetching?
  {
    Min(c.start + DAY, c.end)
  }

  ghost predicate Enabled(s: State, a: Action) {
    match a
    case BeginCollect(_) => s.collector.Resting?
    case RecordGap => s.collector.Planning?
    case StoreChunk(history) =>
      && s.collector.Fetching? && s.collector.start < s.collector.end
      && Interval(s.collector.start, StopOf(s.collector)) !in s.root.chunks && ValidHistory(history)
    case ReuseChunk =>
      && s.collector.Fetching? && s.collector.start < s.collector.end
      && var name := Interval(s.collector.start, StopOf(s.collector));
         && name in s.root.chunks && s.root.chunks[name].start == name.start
         && s.root.chunks[name].end == name.end && ValidHistory(s.root.chunks[name].history)
    case SaveStatus => s.collector.Saving? && Interval(s.collector.start, s.collector.stop) in s.root.chunks
    case EndCollect => s.collector.Fetching? && s.collector.start >= s.collector.end
    case CrashCollect => true
    case BeginBackup => s.backup.Idle? && s.root.capture.Some?
    case ListChunks(names) => s.backup.BeforeChunks? && s.backup.needC <= names <= s.root.chunks.Keys
    case CopyChunk(name) =>
      && s.backup.CopyingChunks? && name in s.backup.todo && name in s.root.chunks
      && (name in s.dest.chunks ==> s.dest.chunks[name] == s.root.chunks[name])
    case ListGaps(names) =>
      s.backup.CopyingChunks? && s.backup.todo == {} && s.backup.needG <= names <= s.root.gaps.Keys
    case CopyGap(name) =>
      && s.backup.CopyingGaps? && name in s.backup.todo && name in s.root.gaps
      && (name in s.dest.gaps ==> s.dest.gaps[name] == s.root.gaps[name])
    case SaveBackup => s.backup.CopyingGaps? && s.backup.todo == {}
    case MarkBackup => s.backup.Marking?
    case CrashBackup => true
  }

  ghost function Apply(s: State, a: Action): State
    requires Enabled(s, a)
  {
    match a
    case BeginCollect(now) =>
      var end := HourFloor(now - LAG);
      s.(collector := Planning(now, end, if s.root.capture.Some? then s.root.capture.value.through else end - WINDOW))
    case RecordGap =>
      var c := s.collector;
      var earliest := c.end - WINDOW;
      if c.start < earliest then
        s.(root := s.root.(gaps := s.root.gaps[Interval(c.start, earliest) := Gap(c.start, earliest, c.now)]),
           collector := Fetching(c.now, c.end, earliest, c.start, 0))
      else s.(collector := Fetching(c.now, c.end, c.start, c.start, 0))
    case StoreChunk(history) =>
      var c := s.collector;
      var stop := StopOf(c);
      var chunk := Chunk(c.start, stop, c.start - LAG, c.now, history);
      s.(root := s.root.(chunks := s.root.chunks[Interval(c.start, stop) := chunk]),
         collector := Saving(c.now, c.end, c.start, c.first, c.saved, stop))
    case ReuseChunk =>
      var c := s.collector;
      s.(collector := Saving(c.now, c.end, c.start, c.first, c.saved, StopOf(c)))
    case SaveStatus =>
      var c := s.collector;
      var name := Interval(c.start, c.stop);
      s.(root := s.root.(capture := Some(Status(c.stop, c.now, name, Sha256(s.root.chunks[name])))),
         collector := Fetching(c.now, c.end, c.stop, c.first, c.saved + 1),
         origin := if s.origin.Some? then s.origin else Some(c.first))
    case EndCollect => s.(collector := Resting)
    case CrashCollect => s.(collector := Resting)
    case BeginBackup => s.(backup := BeforeChunks(s.root.capture.value, s.root.chunks.Keys, s.root.gaps.Keys))
    case ListChunks(names) => s.(backup := CopyingChunks(s.backup.status, s.backup.needC, s.backup.needG, names))
    case CopyChunk(name) =>
      var b := s.backup;
      s.(dest := s.dest.(chunks := s.dest.chunks[name := s.root.chunks[name]]),
         backup := CopyingChunks(b.status, b.needC, b.needG, b.todo - {name}))
    case ListGaps(names) => s.(backup := CopyingGaps(s.backup.status, s.backup.needC, s.backup.needG, names))
    case CopyGap(name) =>
      var b := s.backup;
      s.(dest := s.dest.(gaps := s.dest.gaps[name := s.root.gaps[name]]),
         backup := CopyingGaps(b.status, b.needC, b.needG, b.todo - {name}))
    case SaveBackup => s.(dest := s.dest.(capture := Some(s.backup.status)), backup := Marking(s.backup.status))
    case MarkBackup => s.(mark := Some(s.backup.status.through), backup := Idle)
    case CrashBackup => s.(backup := Idle)
  }

  // ---- runs ----

  ghost predicate Legal(s: State, actions: seq<Action>)
    decreases |actions|
  {
    actions == [] || (Enabled(s, actions[0]) && Legal(Apply(s, actions[0]), actions[1..]))
  }

  ghost function Exec(s: State, actions: seq<Action>): State
    requires Legal(s, actions)
    decreases |actions|
  {
    if actions == [] then s else Exec(Apply(s, actions[0]), actions[1..])
  }

  lemma {:induction false} LegalAppend(s: State, actions: seq<Action>, a: Action)
    requires Legal(s, actions) && Enabled(Exec(s, actions), a)
    ensures Legal(s, actions + [a]) && Exec(s, actions + [a]) == Apply(Exec(s, actions), a)
    decreases |actions|
  {
    var all := actions + [a];
    if actions == [] {
      assert all[1..] == [];
    } else {
      LegalAppend(Apply(s, actions[0]), actions[1..], a);
      assert all[1..] == actions[1..] + [a];
    }
  }

  // ---- coverage ----

  ghost predicate Holds(chunks: set<Interval>, gaps: set<Interval>, t: Time) {
    exists name :: (name in chunks || name in gaps) && name.start <= t < name.end
  }

  // Every instant of [a, b) lies in a chunk or in a recorded gap.
  ghost predicate Covered(chunks: set<Interval>, gaps: set<Interval>, a: Time, b: Time) {
    forall t | a <= t < b :: Holds(chunks, gaps, t)
  }

  ghost predicate RootCovers(s: State, a: Time, b: Time) {
    Covered(s.root.chunks.Keys, s.root.gaps.Keys, a, b)
  }

  lemma {:induction false} CoveredMore(c: set<Interval>, g: set<Interval>, c': set<Interval>, g': set<Interval>,
                                       a: Time, b: Time)
    requires Covered(c, g, a, b) && c <= c' && g <= g'
    ensures Covered(c', g', a, b)
  {
    forall t | a <= t < b ensures Holds(c', g', t) {
      assert Holds(c, g, t);
      var name :| (name in c || name in g) && name.start <= t < name.end;
      assert name in c' || name in g';
    }
  }

  lemma {:induction false} CoveredNext(c: set<Interval>, g: set<Interval>, name: Interval, a: Time)
    requires Covered(c, g, a, name.start) && (name in c || name in g)
    ensures Covered(c, g, a, name.end)
  {
    forall t | a <= t < name.end ensures Holds(c, g, t) {
      if t >= name.start { assert name.start <= t < name.end; }
    }
  }

  // ---- the invariant ----

  function Origin(s: State): Time { if s.origin.Some? then s.origin.value else 0 }

  // Files agree with their names, and stored chunks hold validated histories.
  ghost predicate FilesInv(s: State) {
    && (forall n | n in s.root.chunks ::
          && n.start < n.end && s.root.chunks[n].start == n.start && s.root.chunks[n].end == n.end
          && ValidHistory(s.root.chunks[n].history))
    && (forall n | n in s.root.gaps ::
          n.start < n.end && s.root.gaps[n].start == n.start && s.root.gaps[n].end == n.end)
  }

  // The checkpoint is backed by its chunk, and everything from the origin to it is covered.
  ghost predicate CaptureInv(s: State) {
    && (s.root.capture.Some? <==> s.origin.Some?)
    && (s.root.capture.Some? ==>
          var st := s.root.capture.value;
          && s.origin.value < st.through && RootCovers(s, s.origin.value, st.through)
          && st.chunk in s.root.chunks && st.chunk.end == st.through && st.digest == Sha256(s.root.chunks[st.chunk]))
  }

  // Chunks older than the origin are whole days left by runs that never wrote a checkpoint;
  // a chunk starts at the origin, and no gap starts before it.
  ghost predicate LeftoverInv(s: State) {
    && (forall n | n in s.root.chunks && (s.origin.Some? ==> n.start < s.origin.value) :: n.end == n.start + DAY)
    && (s.origin.Some? ==> exists n :: n in s.root.chunks && n.start == s.origin.value)
    && (forall n | n in s.root.gaps :: s.origin.Some? && s.origin.value <= n.start)
  }

  ghost predicate CollectorInv(s: State) {
    var c := s.collector;
    && (c.Planning? ==>
          c.start == if s.root.capture.Some? then s.root.capture.value.through else c.end - WINDOW)
    && (c.Fetching? || c.Saving? ==>
          && c.end - WINDOW <= c.start
          && (if s.root.capture.Some? then s.root.capture.value.through <= c.start && RootCovers(s, Origin(s), c.start)
              else c.start == c.first == c.end - WINDOW)
          && c.saved <= 10 && (c.start < c.end ==> c.saved * DAY <= c.start - (c.end - WINDOW)))
    && (c.Saving? ==>
          && c.start < c.end && c.stop == Min(c.start + DAY, c.end) && Interval(c.start, c.stop) in s.root.chunks)
  }

  // The destination holds true copies, and covers everything up to its own checkpoint.
  ghost predicate DestInv(s: State) {
    && s.dest.chunks.Keys <= s.root.chunks.Keys && s.dest.gaps.Keys <= s.root.gaps.Keys
    && (forall n | n in s.dest.chunks :: s.dest.chunks[n] == s.root.chunks[n])
    && (forall n | n in s.dest.gaps :: s.dest.gaps[n].start == n.start && s.dest.gaps[n].end == n.end)
    && (s.dest.capture.Some? ==>
          && s.root.capture.Some? && s.dest.capture.value.through <= s.root.capture.value.through
          && Covered(s.dest.chunks.Keys, s.dest.gaps.Keys, Origin(s), s.dest.capture.value.through))
    && (s.mark.Some? ==> s.dest.capture.Some? && s.mark.value <= s.dest.capture.value.through)
  }

  ghost predicate BackupInv(s: State) {
    var b := s.backup;
    && (!b.Idle? ==>
          && s.root.capture.Some? && b.status.through <= s.root.capture.value.through
          && (s.dest.capture.Some? ==> s.dest.capture.value.through <= b.status.through))
    && (b.BeforeChunks? || b.CopyingChunks? || b.CopyingGaps? ==>
          && Covered(b.needC, b.needG, Origin(s), b.status.through)
          && b.needC <= s.root.chunks.Keys && b.needG <= s.root.gaps.Keys)
    && (b.CopyingChunks? ==> b.todo <= s.root.chunks.Keys && b.needC <= b.todo + s.dest.chunks.Keys)
    && (b.CopyingGaps? ==>
          b.todo <= s.root.gaps.Keys && b.needC <= s.dest.chunks.Keys && b.needG <= b.todo + s.dest.gaps.Keys)
    && (b.Marking? ==> s.dest.capture == Some(b.status))
  }

  ghost predicate Inv(s: State) {
    FilesInv(s) && CaptureInv(s) && LeftoverInv(s) && CollectorInv(s) && DestInv(s) && BackupInv(s)
  }
}
