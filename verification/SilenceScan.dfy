// Finding silent stretches in decoded audio (scan_decoded_audio in scripts/audio-silence-audit.py).
// A window is what one read returns: how many bytes, and whether its level is at or below the
// threshold.
module SilenceScan {
  import opened Options

  datatype Window = Window(bytes: nat, silent: bool)
  datatype SilenceRun = SilenceRun(start: real, end: real, duration: real)

  // The windows lo, ..., hi - 1.
  datatype Span = Span(lo: nat, hi: nat)

  // ---- time ----

  function Samples(w: seq<Window>, n: nat): nat
    requires n <= |w|
  {
    if n == 0 then 0 else Samples(w, n - 1) + w[n - 1].bytes / 2
  }

  function Seconds(w: Window, rate: nat): (t: real)
    requires rate > 0
  {
    (w.bytes / 2) as real / rate as real
  }

  // The clock as the loop keeps it.
  function Time(w: seq<Window>, n: nat, rate: nat): (t: real)
    requires n <= |w| && rate > 0
  {
    if n == 0 then 0.0 else Time(w, n - 1, rate) + Seconds(w[n - 1], rate)
  }

  lemma {:induction false} Share(a: real, b: real, r: real)
    requires r > 0.0
    ensures a / r + b / r == (a + b) / r
  {
  }

  // It stands at the samples read, divided by the sample rate.
  lemma {:induction false} TimeIsSamples(w: seq<Window>, n: nat, rate: nat)
    requires n <= |w| && rate > 0
    ensures Time(w, n, rate) == Samples(w, n) as real / rate as real
  {
    if n > 0 {
      TimeIsSamples(w, n - 1, rate);
      Share(Samples(w, n - 1) as real, (w[n - 1].bytes / 2) as real, rate as real);
    }
  }

  // The clock before each window, and after the last.
  function Clock(w: seq<Window>, rate: nat): (clock: seq<real>)
    requires rate > 0
    ensures |clock| == |w| + 1 && forall i :: 0 <= i <= |w| ==> clock[i] == Time(w, i, rate)
  {
    seq(|w| + 1, i requires 0 <= i <= |w| => Time(w, i, rate))
  }

  // How many windows are read before one has no whole sample.
  function Usable(w: seq<Window>, from: nat): (n: nat)
    requires from <= |w|
    ensures from <= n <= |w|
    ensures forall i :: from <= i < n ==> w[i].bytes >= 2
    ensures n < |w| ==> w[n].bytes < 2
    decreases |w| - from
  {
    if from == |w| || w[from].bytes < 2 then from else Usable(w, from + 1)
  }

  // ---- silent stretches ----

  ghost predicate Silent(w: seq<Window>, s: Span)
    requires s.hi <= |w|
  {
    forall i :: s.lo <= i < s.hi ==> w[i].silent
  }

  // A silent stretch of the first n windows that cannot be extended either way.
  ghost predicate IsStretch(w: seq<Window>, n: nat, s: Span)
    requires n <= |w|
  {
    && s.lo < s.hi <= n && Silent(w, s)
    && (s.lo > 0 ==> !w[s.lo - 1].silent)
    && (s.hi < n ==> !w[s.hi].silent)
  }

  ghost predicate IsLong(w: seq<Window>, s: Span, clock: seq<real>, minimum: real)
    requires s.lo <= |w| && s.hi <= |w| && |clock| == |w| + 1
  {
    clock[s.hi] - clock[s.lo] >= minimum
  }

  function RunOf(w: seq<Window>, s: Span, clock: seq<real>): (run: SilenceRun)
    requires s.lo <= |w| && s.hi <= |w| && |clock| == |w| + 1
  {
    SilenceRun(clock[s.lo], clock[s.hi], clock[s.hi] - clock[s.lo])
  }

  ghost predicate Reports(w: seq<Window>, clock: seq<real>, runs: seq<SilenceRun>, spans: seq<Span>)
    requires |clock| == |w| + 1
  {
    && |runs| == |spans|
    && (forall k :: 0 <= k < |spans| ==> spans[k].lo < spans[k].hi <= |w| && runs[k] == RunOf(w, spans[k], clock))
    && (forall j, k :: 0 <= j < k < |spans| ==> spans[j].hi < spans[k].lo)
  }

  // Among the stretches that end before the first n windows do, exactly the long ones are there.
  ghost predicate Finished(w: seq<Window>, n: nat, clock: seq<real>, minimum: real, spans: seq<Span>)
    requires n <= |w| && |clock| == |w| + 1
  {
    forall s: Span :: s in spans <==> IsStretch(w, n, s) && s.hi < n && IsLong(w, s, clock, minimum)
  }

  // The stretch that reaches up to window i, if the window before it was silent.
  ghost predicate Open(w: seq<Window>, i: nat, start: Option<nat>)
    requires i <= |w|
  {
    match start
    case None => i == 0 || !w[i - 1].silent
    case Some(lo) => lo < i && Silent(w, Span(lo, i)) && (lo > 0 ==> !w[lo - 1].silent)
  }

  lemma {:induction false} OpenStretch(w: seq<Window>, n: nat, i: nat, start: Option<nat>, s: Span)
    requires i <= n <= |w| && Open(w, i, start) && s.hi == i
    requires i < n ==> !w[i].silent
    ensures IsStretch(w, n, s) <==> start == Some(s.lo)
  {
    if IsStretch(w, n, s) {
      assert w[i - 1].silent;
    }
  }

  // A silent window ends no stretch; a loud one ends the open stretch and no other.
  lemma {:induction false} SilentWindow(w: seq<Window>, i: nat, clock: seq<real>, minimum: real, spans: seq<Span>)
    requires i < |w| && |clock| == |w| + 1 && w[i].silent && Finished(w, i, clock, minimum, spans)
    ensures Finished(w, i + 1, clock, minimum, spans)
  {
    forall s: Span
      ensures s in spans <==> IsStretch(w, i + 1, s) && s.hi < i + 1 && IsLong(w, s, clock, minimum)
    {
      assert s in spans <==> IsStretch(w, i, s) && s.hi < i && IsLong(w, s, clock, minimum);
    }
  }

  // What the report becomes when the open stretch ends: one entry more if it is long enough.
  function Closed(w: seq<Window>, i: nat, clock: seq<real>, minimum: real, start: Option<nat>,
                  spans: seq<Span>): (r: seq<Span>)
    requires i <= |w| && |clock| == |w| + 1 && (start.Some? ==> start.value <= i)
  {
    if start.Some? && clock[i] - clock[start.value] >= minimum then spans + [Span(start.value, i)]
    else spans
  }

  lemma {:induction false} LoudWindow(w: seq<Window>, i: nat, clock: seq<real>, minimum: real, start: Option<nat>,
                                      spans: seq<Span>)
    requires i < |w| && |clock| == |w| + 1 && !w[i].silent && Open(w, i, start) && Finished(w, i, clock, minimum, spans)
    ensures Finished(w, i + 1, clock, minimum, Closed(w, i, clock, minimum, start, spans))
  {
    var r := Closed(w, i, clock, minimum, start, spans);
    forall s: Span
      ensures s in r <==> IsStretch(w, i + 1, s) && s.hi < i + 1 && IsLong(w, s, clock, minimum)
    {
      assert s in spans <==> IsStretch(w, i, s) && s.hi < i && IsLong(w, s, clock, minimum);
      if s.hi == i {
        OpenStretch(w, i + 1, i, start, s);
      }
    }
  }

  // The report at the end: every long stretch, the one that reaches the end included.
  ghost predicate Complete(w: seq<Window>, n: nat, clock: seq<real>, minimum: real, spans: seq<Span>)
    requires n <= |w| && |clock| == |w| + 1
  {
    forall s: Span :: s in spans <==> IsStretch(w, n, s) && IsLong(w, s, clock, minimum)
  }

  lemma {:induction false} AtTheEnd(w: seq<Window>, n: nat, clock: seq<real>, minimum: real, start: Option<nat>,
                                    spans: seq<Span>)
    requires n <= |w| && |clock| == |w| + 1 && Open(w, n, start) && Finished(w, n, clock, minimum, spans)
    ensures Complete(w, n, clock, minimum, Closed(w, n, clock, minimum, start, spans))
  {
    var r := Closed(w, n, clock, minimum, start, spans);
    forall s: Span
      ensures s in r <==> IsStretch(w, n, s) && IsLong(w, s, clock, minimum)
    {
      assert s in spans <==> IsStretch(w, n, s) && s.hi < n && IsLong(w, s, clock, minimum);
      if s.hi == n {
        OpenStretch(w, n, n, start, s);
      }
    }
  }

  // ---- the scan ----

  function RunsClosed(runs: seq<SilenceRun>, silenceStart: Option<real>, now: real,
                      minimum: real): (r: seq<SilenceRun>)
  {
    if silenceStart.Some? && now - silenceStart.value >= minimum
    then runs + [SilenceRun(silenceStart.value, now, now - silenceStart.value)] else runs
  }

  // A run that ends now, if one is open.
  method CloseRun(runs: seq<SilenceRun>, silenceStart: Option<real>, now: real, minimum: real)
    returns (r: seq<SilenceRun>)
    ensures r == RunsClosed(runs, silenceStart, now, minimum)
  {
    r := runs;
    if silenceStart.Some? {
      var duration := now - silenceStart.value;
      if duration >= minimum {
        r := r + [SilenceRun(silenceStart.value, now, duration)];
      }
    }
  }

  // The loop's variables stand for what the first i windows are.
  ghost predicate Tracks(w: seq<Window>, i: nat, clock: seq<real>, minimum: real, currentTime: real,
                         silenceStart: Option<real>, runs: seq<SilenceRun>, start: Option<nat>, spans: seq<Span>)
    requires i <= |w| && |clock| == |w| + 1
  {
    && currentTime == clock[i]
    && Open(w, i, start) && Finished(w, i, clock, minimum, spans) && Reports(w, clock, runs, spans)
    && (start.None? <==> silenceStart.None?)
    && (start.Some? ==> silenceStart == Some(clock[start.value]))
    && (forall k :: 0 <= k < |spans| ==> spans[k].hi < if start.Some? then start.value else i)
  }

  lemma {:induction false} TrackSilent(w: seq<Window>, i: nat, clock: seq<real>, minimum: real, now: real,
                                       silenceStart: Option<real>, runs: seq<SilenceRun>, start: Option<nat>,
                                       spans: seq<Span>)
    requires i < |w| && |clock| == |w| + 1 && w[i].silent
    requires Tracks(w, i, clock, minimum, now, silenceStart, runs, start, spans)
    ensures var later := clock[i + 1];
            if start.None? then Tracks(w, i + 1, clock, minimum, later, Some(now), runs, Some(i), spans)
            else Tracks(w, i + 1, clock, minimum, later, silenceStart, runs, start, spans)
  {
    SilentWindow(w, i, clock, minimum, spans);
  }

  lemma {:induction false} ReportsOneMore(w: seq<Window>, clock: seq<real>, runs: seq<SilenceRun>, spans: seq<Span>,
                                          s: Span)
    requires |clock| == |w| + 1 && Reports(w, clock, runs, spans) && s.lo < s.hi <= |w|
    requires forall k :: 0 <= k < |spans| ==> spans[k].hi < s.lo
    ensures Reports(w, clock, runs + [RunOf(w, s, clock)], spans + [s])
  {
  }

  lemma {:induction false} ReportsClosed(w: seq<Window>, i: nat, clock: seq<real>, minimum: real,
                                         runs: seq<SilenceRun>, start: Option<nat>, spans: seq<Span>)
    requires i <= |w| && |clock| == |w| + 1 && Reports(w, clock, runs, spans)
    requires start.Some? ==> start.value < i
    requires forall k :: 0 <= k < |spans| ==> spans[k].hi < if start.Some? then start.value else i
    ensures var silenceStart := if start.Some? then Some(clock[start.value]) else None;
            Reports(w, clock, RunsClosed(runs, silenceStart, clock[i], minimum),
                    Closed(w, i, clock, minimum, start, spans))
  {
    var silenceStart := if start.Some? then Some(clock[start.value]) else None;
    var r, c := RunsClosed(runs, silenceStart, clock[i], minimum), Closed(w, i, clock, minimum, start, spans);
    if start.Some? && clock[i] - clock[start.value] >= minimum {
      var s := Span(start.value, i);
      assert r == runs + [RunOf(w, s, clock)] && c == spans + [s];
      ReportsOneMore(w, clock, runs, spans, s);
    } else {
      assert r == runs && c == spans;
    }
  }

  lemma {:induction false} TrackLoud(w: seq<Window>, i: nat, clock: seq<real>, minimum: real, now: real,
                                     silenceStart: Option<real>, runs: seq<SilenceRun>, start: Option<nat>,
                                     spans: seq<Span>)
    requires i < |w| && |clock| == |w| + 1 && !w[i].silent
    requires Tracks(w, i, clock, minimum, now, silenceStart, runs, start, spans)
    ensures Tracks(w, i + 1, clock, minimum, clock[i + 1], None,
                   RunsClosed(runs, silenceStart, now, minimum), None, Closed(w, i, clock, minimum, start, spans))
  {
    LoudWindow(w, i, clock, minimum, start, spans);
    ReportsClosed(w, i, clock, minimum, runs, start, spans);
  }

  // One window.
  method ScanWindow(w: seq<Window>, i: nat, rate: nat, minimum: real, now: real, silenceStart: Option<real>,
                    runs: seq<SilenceRun>, ghost start: Option<nat>, ghost spans: seq<Span>)
    returns (now': real, silenceStart': Option<real>, runs': seq<SilenceRun>, ghost start': Option<nat>,
             ghost spans': seq<Span>)
    requires i < |w| && rate > 0 && Tracks(w, i, Clock(w, rate), minimum, now, silenceStart, runs, start, spans)
    ensures Tracks(w, i + 1, Clock(w, rate), minimum, now', silenceStart', runs', start', spans')
  {
    ghost var clock := Clock(w, rate);
    silenceStart', runs', start', spans' := silenceStart, runs, start, spans;
    if w[i].silent {
      TrackSilent(w, i, clock, minimum, now, silenceStart, runs, start, spans);
      if silenceStart.None? {
        silenceStart', start' := Some(now), Some(i);
      }
    } else {
      TrackLoud(w, i, clock, minimum, now, silenceStart, runs, start, spans);
      spans', start' := Closed(w, i, clock, minimum, start, spans), None;
      runs' := CloseRun(runs, silenceStart, now, minimum);
      silenceStart' := None;
    }
    now' := now + Seconds(w[i], rate);
  }

  // The run still open at the end.
  method ScanEnd(w: seq<Window>, i: nat, ghost clock: seq<real>, minimum: real, now: real, silenceStart: Option<real>,
                 runs: seq<SilenceRun>, ghost start: Option<nat>, ghost spans: seq<Span>)
    returns (runs': seq<SilenceRun>, ghost spans': seq<Span>)
    requires i <= |w| && |clock| == |w| + 1 && Tracks(w, i, clock, minimum, now, silenceStart, runs, start, spans)
    ensures Complete(w, i, clock, minimum, spans') && Reports(w, clock, runs', spans')
  {
    AtTheEnd(w, i, clock, minimum, start, spans);
    ReportsClosed(w, i, clock, minimum, runs, start, spans);
    spans' := Closed(w, i, clock, minimum, start, spans);
    runs' := CloseRun(runs, silenceStart, now, minimum);
  }

  method ScanDecodedAudio(w: seq<Window>, rate: nat, minimum: real, decoderOk: bool)
    returns (result: Option<(real, seq<SilenceRun>, nat)>, ghost spans: seq<Span>)
    requires rate > 0
    ensures result.Some? <==> decoderOk
    ensures Complete(w, Usable(w, 0), Clock(w, rate), minimum, spans)
    ensures result.Some? ==>
              && result.value.0 == Samples(w, Usable(w, 0)) as real / rate as real
              && Reports(w, Clock(w, rate), result.value.1, spans)
              && result.value.2 == Usable(w, 0)
  {
    var runs: seq<SilenceRun> := [];
    var silenceStart: Option<real> := None;
    var currentTime := 0.0;
    var i: nat := 0;
    spans := [];
    ghost var start: Option<nat> := None;
    while i < |w| && w[i].bytes > 0
      invariant 0 <= i <= |w| && Usable(w, i) == Usable(w, 0)
      invariant Tracks(w, i, Clock(w, rate), minimum, currentTime, silenceStart, runs, start, spans)
    {
      if w[i].bytes / 2 == 0 {
        break;
      }
      currentTime, silenceStart, runs, start, spans :=
        ScanWindow(w, i, rate, minimum, currentTime, silenceStart, runs, start, spans);
      i := i + 1;
    }
    TimeIsSamples(w, i, rate);
    runs, spans := ScanEnd(w, i, Clock(w, rate), minimum, currentTime, silenceStart, runs, start, spans);
    if !decoderOk {
      return None, spans;
    }
    result := Some((currentTime, runs, i));
  }
}
