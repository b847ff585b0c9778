// Streaming a card as a ZIP (ZipBuffer and card_zip in modules/nixos/services/yoto-share/server.py).
//
// The archive is a sequence of pieces: an entry opened, its data, its end, and last the central
// directory without which it is not a ZIP.
module YotoDownload {
  import opened Options
  import C = YotoCards

  datatype Piece = Entry(number: nat) | Data(chunk: string) | EndEntry | Picture(index: nat) | Directory

  // A planned track and what cutting it gives: the duration is None when it is not finite, the
  // chunks are what reading the file returns.
  datatype Cut = Cut(changed: bool, broken: bool, duration: Option<real>, size: nat, chunks: seq<string>)

  // The environment: when the deadline has passed (before a track, or before one of its chunks)
  // and when the client is gone (after so many pieces of output).
  datatype World = World(lateTrack: nat -> bool, lateChunk: (nat, nat) -> bool, leaves: nat -> bool)

  datatype Outcome = Finished | Failed | Left

  // ---- limits ----

  predicate Acceptable(cut: Cut) {
    cut.duration.Some? && 0.0 < cut.duration.value <= 3600.0 && cut.size <= 100_000_000
  }

  function Bytes(cuts: seq<Cut>, n: nat): nat
    requires n <= |cuts|
  {
    if n == 0 then 0 else Bytes(cuts, n - 1) + cuts[n - 1].size
  }

  function Seconds(cuts: seq<Cut>, n: nat): (t: real)
    requires n <= |cuts| && forall i :: 0 <= i < n ==> cuts[i].duration.Some?
  {
    if n == 0 then 0.0 else Seconds(cuts, n - 1) + cuts[n - 1].duration.value
  }

  // The first n tracks as they were cut: each acceptable, together within a card.
  predicate WithinCard(cuts: seq<Cut>, n: nat)
    requires n <= |cuts|
  {
    && (forall i :: 0 <= i < n ==> Acceptable(cuts[i]))
    && Bytes(cuts, n) <= 500_000_000 && Seconds(cuts, n) <= C.CARD_SECONDS
  }

  // Running totals never refuse what the whole card allows.
  lemma {:induction false} WithinCardPrefix(cuts: seq<Cut>, n: nat, k: nat)
    requires k <= n <= |cuts| && WithinCard(cuts, n)
    ensures WithinCard(cuts, k)
  {
    if k < n {
      WithinCardPrefix(cuts, n - 1, k);
    }
  }

  // ---- the complete archive ----

  // The instructions, then the first n tracks in order.
  function Tracks(note: string, cuts: seq<Cut>, n: nat): (pieces: seq<Piece>)
    requires n <= |cuts|
    ensures Directory !in pieces
    decreases n, 0
  {
    if n == 0 then [Entry(0), Data(note), EndEntry]
    else Upto(note, cuts, n - 1, |cuts[n - 1].chunks|) + [EndEntry]
  }

  // All that, and j chunks of track n.
  function Upto(note: string, cuts: seq<Cut>, n: nat, j: nat): (pieces: seq<Piece>)
    requires n < |cuts| && j <= |cuts[n].chunks|
    ensures Directory !in pieces
    decreases n, j + 1
  {
    if j == 0 then Tracks(note, cuts, n) + [Entry(n + 1)]
    else Upto(note, cuts, n, j - 1) + [Data(cuts[n].chunks[j - 1])]
  }

  lemma {:induction false} UptoGrows(note: string, cuts: seq<Cut>, n: nat, j: nat, k: nat)
    requires n < |cuts| && j <= k <= |cuts[n].chunks|
    ensures Upto(note, cuts, n, j) <= Upto(note, cuts, n, k)
    ensures Tracks(note, cuts, n) <= Upto(note, cuts, n, k)
    decreases k
  {
    if j < k {
      UptoGrows(note, cuts, n, j, k - 1);
    } else if k > 0 {
      UptoGrows(note, cuts, n, k - 1, k - 1);
    }
  }

  lemma {:induction false} TracksGrow(note: string, cuts: seq<Cut>, n: nat, m: nat)
    requires n <= m <= |cuts|
    ensures Tracks(note, cuts, n) <= Tracks(note, cuts, m)
  {
    if n < m {
      TracksGrow(note, cuts, n, m - 1);
      UptoGrows(note, cuts, m - 1, 0, |cuts[m - 1].chunks|);
    }
  }

  function Pictures(n: nat): (pieces: seq<Piece>)
    ensures Directory !in pieces
  {
    if n == 0 then [] else Pictures(n - 1) + [Picture(n - 1)]
  }

  lemma {:induction false} PicturesGrow(n: nat, m: nat)
    requires n <= m
    ensures Pictures(n) <= Pictures(m)
  {
    if n < m {
      PicturesGrow(n, m - 1);
    }
  }

  function Archive(note: string, cuts: seq<Cut>, pictures: nat): (pieces: seq<Piece>) {
    Tracks(note, cuts, |cuts|) + Pictures(pictures) + [Directory]
  }

  // What the client may hold at any time before the end: a beginning of the archive without its
  // directory.
  ghost predicate Partial(sent: seq<Piece>, note: string, cuts: seq<Cut>, pictures: nat) {
    sent < Archive(note, cuts, pictures) && Directory !in sent
  }

  lemma {:induction false} PartialTrack(sent: seq<Piece>, pending: seq<Piece>, note: string, cuts: seq<Cut>,
                                        pictures: nat, n: nat, j: nat)
    requires n < |cuts| && j <= |cuts[n].chunks| && sent + pending == Upto(note, cuts, n, j)
    ensures Partial(sent, note, cuts, pictures)
  {
    UptoGrows(note, cuts, n, j, |cuts[n].chunks|);
    TracksGrow(note, cuts, n + 1, |cuts|);
    assert sent <= sent + pending <= Tracks(note, cuts, |cuts|);
    assert forall x :: x in sent ==> x in sent + pending;
  }

  lemma {:induction false} PartialBetween(sent: seq<Piece>, pending: seq<Piece>, note: string, cuts: seq<Cut>,
                                          pictures: nat, n: nat)
    requires n <= |cuts| && sent + pending == Tracks(note, cuts, n)
    ensures Partial(sent, note, cuts, pictures)
  {
    TracksGrow(note, cuts, n, |cuts|);
    assert sent <= sent + pending <= Tracks(note, cuts, |cuts|);
    assert forall x :: x in sent ==> x in sent + pending;
  }

  lemma {:induction false} PartialPictures(sent: seq<Piece>, pending: seq<Piece>, note: string, cuts: seq<Cut>,
                                           pictures: nat, n: nat)
    requires n <= pictures && sent + pending == Tracks(note, cuts, |cuts|) + Pictures(n)
    ensures Partial(sent, note, cuts, pictures)
  {
    PicturesGrow(n, pictures);
    assert sent <= sent + pending <= Tracks(note, cuts, |cuts|) + Pictures(pictures);
    assert forall x :: x in sent ==> x in sent + pending;
  }

  // ---- the sink ----

  class ZipBuffer {
    var pending: seq<Piece>

    constructor ()
      ensures pending == []
    {
      pending := [];
    }

    method Write(data: seq<Piece>)
      modifies this
      ensures pending == old(pending) + data
    {
      pending := pending + data;
    }

    method Drain() returns (data: seq<Piece>)
      modifies this
      ensures data == old(pending) && pending == []
    {
      data := pending;
      pending := [];
    }
  }

  // ---- the download ----

  // No interruption: nothing late, nobody gone, nothing changed or broken.
  ghost predicate Undisturbed(cuts: seq<Cut>, world: World) {
    && (forall k :: !world.leaves(k))
    && (forall n :: 0 <= n < |cuts| ==> !world.lateTrack(n) && !cuts[n].changed && !cuts[n].broken)
    && (forall n, j :: 0 <= n < |cuts| && 0 <= j < |cuts[n].chunks| ==> !world.lateChunk(n, j))
  }

  // One track's entry, chunk by chunk.
  method SendTrack(sink: ZipBuffer, sent: seq<Piece>, note: string, cuts: seq<Cut>, ghost pictures: nat, n: nat,
                   world: World)
    returns (outcome: Outcome, sent': seq<Piece>)
    requires n < |cuts| && sent + sink.pending == Tracks(note, cuts, n)
    modifies sink
    ensures outcome.Finished? ==> sent' + sink.pending == Tracks(note, cuts, n + 1)
    ensures !outcome.Finished? ==> Partial(sent', note, cuts, pictures)
    ensures Undisturbed(cuts, world) ==> outcome.Finished?
  {
    var chunks := cuts[n].chunks;
    sent' := sent;
    assert sent + (sink.pending + [Entry(n + 1)]) == sent + sink.pending + [Entry(n + 1)];
    sink.Write([Entry(n + 1)]);
    for j := 0 to |chunks|
      invariant sent' + sink.pending == Upto(note, cuts, n, j)
    {
      if world.lateChunk(n, j) {
        PartialTrack(sent', sink.pending, note, cuts, pictures, n, j);
        return Failed, sent';
      }
      assert sent' + (sink.pending + [Data(chunks[j])]) == sent' + sink.pending + [Data(chunks[j])];
      sink.Write([Data(chunks[j])]);
      var data := sink.Drain();
      sent' := sent' + data;
      assert sent' + [] == sent';
      if world.leaves(|sent'|) {
        PartialTrack(sent', [], note, cuts, pictures, n, j + 1);
        return Left, sent';
      }
    }
    assert sent' + (sink.pending + [EndEntry]) == sent' + sink.pending + [EndEntry];
    sink.Write([EndEntry]);
    outcome := Finished;
  }

  // All tracks, with the running totals; a track that breaks a limit ends the download.
  method SendTracks(sink: ZipBuffer, sent: seq<Piece>, note: string, cuts: seq<Cut>, ghost pictures: nat, world: World)
    returns (outcome: Outcome, sent': seq<Piece>)
    requires sent + sink.pending == Tracks(note, cuts, 0)
    modifies sink
    ensures outcome.Finished? ==> sent' + sink.pending == Tracks(note, cuts, |cuts|) && WithinCard(cuts, |cuts|)
    ensures !outcome.Finished? ==> Partial(sent', note, cuts, pictures)
    ensures Undisturbed(cuts, world) && WithinCard(cuts, |cuts|) ==> outcome.Finished?
  {
    var totalBytes, totalDuration := 0, 0.0;
    sent' := sent;
    for n := 0 to |cuts|
      invariant sent' + sink.pending == Tracks(note, cuts, n)
      invariant WithinCard(cuts, n) && totalBytes == Bytes(cuts, n) && totalDuration == Seconds(cuts, n)
    {
      PartialBetween(sent', sink.pending, note, cuts, pictures, n);
      if world.lateTrack(n) || cuts[n].changed || cuts[n].broken {
        return Failed, sent';
      }
      var cut := cuts[n];
      if cut.duration.None? {
        return Failed, sent';
      }
      totalBytes := totalBytes + cut.size;
      totalDuration := totalDuration + cut.duration.value;
      if WithinCard(cuts, |cuts|) {
        WithinCardPrefix(cuts, |cuts|, n + 1);
      }
      if cut.duration.value <= 0.0 || cut.duration.value > 3600.0 || cut.size > 100_000_000
         || totalBytes > 500_000_000 || totalDuration > C.CARD_SECONDS {
        return Failed, sent';
      }
      outcome, sent' := SendTrack(sink, sent', note, cuts, pictures, n, world);
      if !outcome.Finished? {
        return;
      }
      PartialBetween(sent', sink.pending, note, cuts, pictures, n + 1);
      var data := sink.Drain();
      sent' := sent' + data;
      assert sent' + [] == sent';
      if world.leaves(|sent'|) {
        PartialBetween(sent', [], note, cuts, pictures, n + 1);
        return Left, sent';
      }
    }
    outcome := Finished;
  }

  method SendPictures(sink: ZipBuffer, sent: seq<Piece>, note: string, cuts: seq<Cut>, pictures: nat, world: World)
    returns (outcome: Outcome, sent': seq<Piece>)
    requires sent + sink.pending == Tracks(note, cuts, |cuts|)
    modifies sink
    ensures outcome.Finished? ==> sent' + sink.pending == Tracks(note, cuts, |cuts|) + Pictures(pictures)
    ensures !outcome.Finished? ==> Partial(sent', note, cuts, pictures)
    ensures Undisturbed(cuts, world) ==> outcome.Finished?
  {
    sent' := sent;
    assert Tracks(note, cuts, |cuts|) + Pictures(0) == Tracks(note, cuts, |cuts|);
    for i := 0 to pictures
      invariant sent' + sink.pending == Tracks(note, cuts, |cuts|) + Pictures(i)
    {
      assert sent' + (sink.pending + [Picture(i)]) == sent' + sink.pending + [Picture(i)];
      assert Tracks(note, cuts, |cuts|) + Pictures(i) + [Picture(i)] == Tracks(note, cuts, |cuts|) + Pictures(i + 1);
      sink.Write([Picture(i)]);
      var data := sink.Drain();
      sent' := sent' + data;
      assert sent' + [] == sent';
      if world.leaves(|sent'|) {
        PartialPictures(sent', [], note, cuts, pictures, i + 1);
        return Left, sent';
      }
    }
    outcome := Finished;
  }

  // Everything before the archive is closed.
  method SendEntries(sink: ZipBuffer, note: string, cuts: seq<Cut>, pictures: nat, world: World)
    returns (outcome: Outcome, sent: seq<Piece>)
    requires sink.pending == []
    modifies sink
    ensures outcome.Finished? ==>
              sent + sink.pending == Tracks(note, cuts, |cuts|) + Pictures(pictures) && WithinCard(cuts, |cuts|)
    ensures !outcome.Finished? ==> Partial(sent, note, cuts, pictures)
    ensures Undisturbed(cuts, world) && WithinCard(cuts, |cuts|) ==> outcome.Finished?
  {
    sink.Write([Entry(0), Data(note), EndEntry]);
    sent := sink.Drain();
    assert sent + [] == sent == Tracks(note, cuts, 0);
    if world.leaves(|sent|) {
      PartialBetween(sent, [], note, cuts, pictures, 0);
      return Left, sent;
    }
    outcome, sent := SendTracks(sink, sent, note, cuts, pictures, world);
    if outcome.Finished? {
      outcome, sent := SendPictures(sink, sent, note, cuts, pictures, world);
    }
  }

  // The client gets the directory only at the end of the complete archive of a card within all
  // limits; after a failure the archive is closed into the sink, and that is never sent.
  method CardZip(note: string, cuts: seq<Cut>, pictures: nat, world: World)
    returns (outcome: Outcome, sent: seq<Piece>)
    ensures sent <= Archive(note, cuts, pictures)
    ensures Directory in sent <==> sent == Archive(note, cuts, pictures)
    ensures Directory in sent ==> WithinCard(cuts, |cuts|)
    ensures outcome.Finished? ==> Directory in sent
    ensures outcome.Failed? ==> Directory !in sent
    ensures Undisturbed(cuts, world) ==> (outcome.Finished? <==> WithinCard(cuts, |cuts|))
  {
    var sink := new ZipBuffer();
    outcome, sent := SendEntries(sink, note, cuts, pictures, world);
    ghost var all := Archive(note, cuts, pictures);
    assert all[|all| - 1] == Directory;
    if !outcome.Finished? {
      sink.Write([Directory]);
      return;
    }
    assert sent + (sink.pending + [Directory]) == sent + sink.pending + [Directory];
    sink.Write([Directory]);
    var data := sink.Drain();
    sent := sent + data;
    if world.leaves(|sent|) {
      outcome := Left;
    }
  }
}
