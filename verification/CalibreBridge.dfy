// Copying acquired ebooks into Calibre, with receipts, and asking Komga to scan afterwards
// (import_books in scripts/shelfarr-calibre.py).
//
// The tables survive a crash; so do the Calibre library and Komga's index.  What goes wrong, and
// where, is an input: any step may raise, and the process may die between any two.
module CalibreBridge {
  import opened Options

  datatype Key = Key(book: int, digest: string, format: string)

  // A listed file as stat sees it.
  datatype File = File(path: string, size: int, modified: int)

  // A book and what listing its files gives: None when that raises.
  datatype Book = Book(id: int, listing: Option<seq<File>>)

  datatype Fate =
    | Fine
    | StatFails
    | SnapshotFails
    | DiesBeforeAdd
    | AddFails(applied: bool)   // the command failed, with or without having added the book
    | DiesAfterAdd
    | CommitFails
    | DiesAfterCommit

  datatype ScanFate =
    | ScanFine
    | ScanFails(applied: bool)
    | DiesAfterScan
    | ClearFails

  datatype Outcome = Done | Raised | Died

  datatype Result = Completed(failures: nat) | ScanRaised | RunDied

  // An add command issued, or a receipt written.
  datatype Event = Sent(key: Key) | Receipted(key: Key)

  ghost function Sends(history: seq<Event>): set<Key> {
    if history == [] then {}
    else
      var e := history[|history| - 1];
      Sends(history[..|history| - 1]) + if e.Sent? then {e.key} else {}
  }

  ghost function Receipts(history: seq<Event>): set<Key> {
    if history == [] then {}
    else
      var e := history[|history| - 1];
      Receipts(history[..|history| - 1]) + if e.Receipted? then {e.key} else {}
  }

  // At each event: what is sent has no receipt yet, and what gets a receipt has been sent.
  ghost predicate Sound(history: seq<Event>) {
    history == [] ||
    (var before, e := history[..|history| - 1], history[|history| - 1];
     && Sound(before)
     && (if e.Sent? then e.key !in Receipts(before) else e.key in Sends(before)))
  }

  lemma {:induction false} Happened(history: seq<Event>, j: nat)
    requires j < |history|
    ensures if history[j].Sent? then history[j].key in Sends(history) else history[j].key in Receipts(history)
  {
    if j < |history| - 1 {
      Happened(history[..|history| - 1], j);
    }
  }

  // So after its receipt no key is sent, at any distance.
  lemma {:induction false} NeverSentAgain(history: seq<Event>, i: nat, j: nat)
    requires Sound(history) && i < j < |history| && history[i].Receipted? && history[j].key == history[i].key
    ensures history[j].Receipted?
  {
    if j == |history| - 1 {
      Happened(history[..j], i);
    } else {
      NeverSentAgain(history[..|history| - 1], i, j);
    }
  }

  lemma {:induction false} WasSent(history: seq<Event>, key: Key) returns (i: nat)
    requires key in Sends(history)
    ensures i < |history| && history[i] == Sent(key)
  {
    i := |history| - 1;
    if history[i] != Sent(key) {
      i := WasSent(history[..i], key);
    }
  }

  // And before its receipt each key is.
  lemma {:induction false} SentBefore(history: seq<Event>, j: nat) returns (i: nat)
    requires Sound(history) && j < |history| && history[j].Receipted?
    ensures i < j && history[i] == Sent(history[j].key)
  {
    if j == |history| - 1 {
      i := WasSent(history[..j], history[j].key);
    } else {
      i := SentBefore(history[..|history| - 1], j);
    }
  }

  // Nothing receipted before is sent since.
  ghost predicate NoneResent(before: seq<Event>, history: seq<Event>) {
    forall j | |before| <= j < |history| && history[j].Sent? :: history[j].key !in Receipts(before)
  }

  lemma {:induction false} WasReceipted(history: seq<Event>, key: Key) returns (i: nat)
    requires key in Receipts(history)
    ensures i < |history| && history[i] == Receipted(key)
  {
    i := |history| - 1;
    if history[i] != Receipted(key) {
      i := WasReceipted(history[..i], key);
    }
  }

  lemma {:induction false} SoundResendsNone(before: seq<Event>, history: seq<Event>)
    requires Sound(history) && before <= history
    ensures NoneResent(before, history)
  {
    forall j | |before| <= j < |history| && history[j].Sent?
      ensures history[j].key !in Receipts(before)
    {
      if history[j].key in Receipts(before) {
        var i := WasReceipted(before, history[j].key);
        NeverSentAgain(history, i, j);
      }
    }
  }

  lemma {:induction false} Next(history: seq<Event>, e: Event)
    ensures Sends(history + [e]) == Sends(history) + if e.Sent? then {e.key} else {}
    ensures Receipts(history + [e]) == Receipts(history) + if e.Receipted? then {e.key} else {}
    ensures Sound(history + [e]) <==>
              Sound(history) && if e.Sent? then e.key !in Receipts(history) else e.key in Sends(history)
  {
    assert (history + [e])[..|history|] == history;
  }

  class Bridge {
    // Content and format are determined by the file: a changed file changes size or time.
    const digestOf: File -> string
    const formatOf: File -> string

    var imports: set<Key>
    var files: map<(int, string), (int, int)>
    var pendingScan: bool

    var calibre: set<Key>       // books Calibre holds
    var komga: set<Key>         // books Calibre held when Komga last scanned
    ghost var history: seq<Event>   // every add command issued and every receipt written

    function KeyOf(book: int, f: File): Key {
      Key(book, digestOf(f), formatOf(f))
    }

    ghost predicate Recorded(book: int, f: File)
      reads this
    {
      KeyOf(book, f) in imports
    }

    ghost predicate Valid()
      reads this
    {
      // a receipt means Calibre has the book
      && imports <= calibre
      // Calibre has nothing that was not sent
      && calibre <= Sends(history)
      // a key is sent before its receipt, and never after it
      && imports == Receipts(history) && Sound(history)
      // a receipt not yet covered by a scan keeps the scan pending
      && (!pendingScan ==> imports <= komga)
      // a file on record has a receipt
      && (forall row :: row in files ==> Recorded(row.0, File(row.1, files[row].0, files[row].1)))
    }

    // What no step undoes.
    twostate predicate Grew()
      reads this
    {
      && old(imports) <= imports && old(calibre) <= calibre
      && old(history) <= history
    }

    constructor (digestOf: File -> string, formatOf: File -> string)
      ensures Valid() && imports == {} && history == [] && !pendingScan
    {
      this.digestOf, this.formatOf := digestOf, formatOf;
      imports, files, pendingScan := {}, map[], false;
      calibre, komga, history := {}, {}, [];
    }

    // The add command; Calibre ignores a book it already has.
    method Add(key: Key, fate: Fate) returns (ok: bool)
      requires Valid() && key !in imports
      modifies `history, `calibre
      ensures Valid() && history == old(history) + [Sent(key)]
      ensures ok <==> !fate.AddFails?
      ensures calibre == if ok || fate.applied then old(calibre) + {key} else old(calibre)
    {
      Next(history, Sent(key));
      history := history + [Sent(key)];
      if fate.AddFails? {
        if fate.applied {
          calibre := calibre + {key};
        }
        return false;
      }
      calibre := calibre + {key};
      return true;
    }

    // The one transaction: receipt, file record and pending scan together.
    method Commit(key: Key, row: (int, string), f: File)
      requires Valid() && key in calibre && key == KeyOf(row.0, f) && row.1 == f.path
      modifies `imports, `files, `pendingScan, `history
      ensures Valid()
      ensures history == if key in old(imports) then old(history) else old(history) + [Receipted(key)]
      ensures imports == old(imports) + {key}
      ensures files == old(files)[row := (f.size, f.modified)]
      ensures pendingScan
    {
      if key !in imports {
        Next(history, Receipted(key));
        history := history + [Receipted(key)];
      }
      imports := imports + {key};
      files := files[row := (f.size, f.modified)];
      pendingScan := true;
      assert f == File(row.1, f.size, f.modified);
    }

    // A file is not sent, or sent and not receipted, or sent and then receipted.
    ghost predicate Outcomes(before: seq<Event>, after: seq<Event>, key: Key) {
      || after == before
      || (key !in Receipts(before) && after == before + [Sent(key)])
      || (key !in Receipts(before) && after == before + [Sent(key)] + [Receipted(key)])
    }

    // A file not yet on record: add it unless its content has a receipt, then write the receipt.
    method AddAndCommit(book: int, f: File, fate: Fate) returns (outcome: Outcome)
      requires Valid() && !fate.StatFails? && !fate.SnapshotFails?
      modifies this
      ensures Valid() && Grew() && komga == old(komga)
      ensures outcome.Done? ==> OnRecord(book, f)
      ensures outcome.Raised? ==>
                imports == old(imports) && files == old(files) && pendingScan == old(pendingScan)
      ensures imports <= old(imports) + {KeyOf(book, f)} && calibre <= old(calibre) + {KeyOf(book, f)}
      ensures fate.Fine? ==> outcome.Done?
      ensures Outcomes(old(history), history, KeyOf(book, f))
      ensures old(pendingScan) ==> pendingScan
    {
      var key := KeyOf(book, f);
      if fate.DiesBeforeAdd? {
        return Died;
      }
      if key !in imports {
        var ok := Add(key, fate);
        if !ok {
          return Raised;
        }
      }
      if fate.DiesAfterAdd? {
        return Died;
      }
      if fate.CommitFails? {
        return Raised;
      }
      Commit(key, (book, f.path), f);
      if fate.DiesAfterCommit? {
        return Died;
      }
      return Done;
    }

    ghost predicate OnRecord(book: int, f: File)
      reads this
    {
      Recorded(book, f) && (book, f.path) in files && files[(book, f.path)] == (f.size, f.modified)
    }

    method ImportFile(book: int, f: File, fate: Fate) returns (outcome: Outcome)
      requires Valid()
      modifies this
      ensures Valid() && Grew() && komga == old(komga)
      ensures outcome.Done? ==> OnRecord(book, f)
      ensures outcome.Raised? ==>
                imports == old(imports) && files == old(files) && pendingScan == old(pendingScan)
      ensures imports <= old(imports) + {KeyOf(book, f)} && calibre <= old(calibre) + {KeyOf(book, f)}
      ensures fate.Fine? ==> outcome.Done?
      ensures Outcomes(old(history), history, KeyOf(book, f))
      ensures old(pendingScan) ==> pendingScan
    {
      if fate.StatFails? {
        return Raised;
      }
      var row := (book, f.path);
      if row in files && files[row] == (f.size, f.modified) {
        assert f == File(row.1, files[row].0, files[row].1);
        return Done;
      }
      if fate.SnapshotFails? {
        return Raised;
      }
      outcome := AddAndCommit(book, f, fate);
    }

    // The book was listed and each listed file has a receipt among these.
    ghost predicate AllImported(book: Book, receipts: set<Key>) {
      && book.listing.Some?
      && forall j :: 0 <= j < |book.listing.value| ==> KeyOf(book.id, book.listing.value[j]) in receipts
    }

    // So it is for the first b books, but for those that failed.
    ghost predicate RestImported(books: seq<Book>, b: nat, failed: set<nat>, receipts: set<Key>)
      requires b <= |books|
    {
      forall i :: 0 <= i < b && i !in failed ==> AllImported(books[i], receipts)
    }

    lemma {:induction false} NextBook(books: seq<Book>, b: nat, failed: set<nat>, raised: bool,
                                      before: set<Key>, after: set<Key>)
      requires b < |books| && RestImported(books, b, failed, before) && before <= after
      requires raised || AllImported(books[b], after)
      ensures RestImported(books, b + 1, if raised then failed + {b} else failed, after)
    {
      forall i | 0 <= i < b && i !in failed
        ensures AllImported(books[i], after)
      {
        assert AllImported(books[i], before);
      }
    }

    // Nothing goes wrong with this book, nor with the first b books.
    ghost predicate Smooth(book: Book, fate: nat -> Fate) {
      book.listing.Some? && forall i: nat :: i < |book.listing.value| ==> fate(i).Fine?
    }

    ghost predicate SmoothTo(books: seq<Book>, b: nat, fate: nat -> nat -> Fate)
      requires b <= |books|
    {
      forall i: nat :: i < b ==> Smooth(books[i], fate(i))
    }

    // The files of a book, in order; the first that raises ends the book, not the run.
    method ImportBook(book: Book, fate: nat -> Fate) returns (outcome: Outcome)
      requires Valid()
      modifies this
      ensures Valid() && Grew() && komga == old(komga)
      ensures old(pendingScan) ==> pendingScan
      ensures outcome.Done? ==> AllImported(book, imports)
      ensures Smooth(book, fate) ==> outcome.Done?
    {
      if book.listing.None? {
        return Raised;
      }
      var listed := book.listing.value;
      for i := 0 to |listed|
        invariant Valid() && Grew() && komga == old(komga)
        invariant old(pendingScan) ==> pendingScan
        invariant forall j :: 0 <= j < i ==> Recorded(book.id, listed[j])
      {
        outcome := ImportFile(book.id, listed[i], fate(i));
        if !outcome.Done? {
          return;
        }
      }
      return Done;
    }

    method Scan(fate: ScanFate) returns (outcome: Outcome)
      requires Valid() && pendingScan
      modifies `komga, `pendingScan
      ensures Valid()
      ensures komga == old(komga) || komga == calibre
      ensures outcome.Done? ==> !pendingScan && imports <= komga
      ensures !outcome.Done? ==> pendingScan
      ensures fate.ScanFine? ==> outcome.Done?
    {
      if fate.ScanFails? {
        if fate.applied {
          komga := calibre;
        }
        return Raised;
      }
      komga := calibre;
      if fate.DiesAfterScan? {
        return Died;
      }
      if fate.ClearFails? {
        return Raised;
      }
      pendingScan := false;
      return Done;
    }

    // The failures so far are counted, and there is none while nothing goes wrong.
    ghost predicate Tally(books: seq<Book>, b: nat, fate: nat -> nat -> Fate, failures: nat, failed: set<nat>)
      requires b <= |books|
    {
      && failures == |failed| && (forall i :: i in failed ==> i < b)
      && (SmoothTo(books, b, fate) ==> failures == 0)
    }

    lemma {:induction false} NextTally(books: seq<Book>, b: nat, fate: nat -> nat -> Fate, failures: nat,
                                       failed: set<nat>, raised: bool)
      requires b < |books| && Tally(books, b, fate, failures, failed)
      requires Smooth(books[b], fate(b)) ==> !raised
      ensures Tally(books, b + 1, fate, if raised then failures + 1 else failures,
                    if raised then failed + {b} else failed)
    {
      assert SmoothTo(books, b + 1, fate) ==> Smooth(books[b], fate(b));
    }

    // The books one after the other; a book that raises counts as failed and the next is tried.
    method ImportEach(books: seq<Book>, fate: nat -> nat -> Fate)
      returns (died: bool, failures: nat, ghost failed: set<nat>)
      requires Valid()
      modifies this
      ensures Valid() && Grew() && failures == |failed|
      ensures old(pendingScan) ==> pendingScan
      ensures !died ==> RestImported(books, |books|, failed, imports)
      ensures SmoothTo(books, |books|, fate) ==> !died && failures == 0
    {
      failures, failed := 0, {};
      for b := 0 to |books|
        invariant Valid() && Grew() && (old(pendingScan) ==> pendingScan)
        invariant RestImported(books, b, failed, imports)
        invariant Tally(books, b, fate, failures, failed)
      {
        ghost var receipts := imports;
        var outcome := ImportBook(books[b], fate(b));
        if outcome.Died? {
          return true, failures, failed;
        }
        NextBook(books, b, failed, outcome.Raised?, receipts, imports);
        NextTally(books, b, fate, failures, failed, outcome.Raised?);
        if outcome.Raised? {
          failures, failed := failures + 1, failed + {b};
        }
      }
      died := false;
    }

    method ImportBooks(books: seq<Book>, fate: nat -> nat -> Fate, scan: ScanFate)
      returns (result: Result, ghost failed: set<nat>)
      requires Valid()
      modifies this
      ensures Valid() && Grew() && NoneResent(old(history), history)
      ensures old(pendingScan) && !result.Completed? ==> pendingScan
      // a completed run has scanned everything receipted, and counts the books that failed
      ensures result.Completed? ==> !pendingScan && imports <= komga && result.failures == |failed|
      ensures result.Completed? ==> RestImported(books, |books|, failed, imports)
      // a run in which nothing fails completes without failures
      ensures SmoothTo(books, |books|, fate) && scan.ScanFine? ==> result == Completed(0)
    {
      var died, failures;
      died, failures, failed := ImportEach(books, fate);
      SoundResendsNone(old(history), history);
      if died {
        return RunDied, failed;
      }
      if pendingScan {
        var outcome := Scan(scan);
        if !outcome.Done? {
          return if outcome.Died? then RunDied else ScanRaised, failed;
        }
      }
      result := Completed(failures);
    }

    ghost predicate EveryBookImported(books: seq<Book>)
      reads this
    {
      RestImported(books, |books|, {}, imports)
    }

    // Any number of runs, each with its own books and its own failures and deaths: nothing
    // receipted is ever sent again, and a last run that goes smoothly leaves every file it lists
    // in Calibre and in Komga.
    method RunAll(runs: seq<Run>)
      requires Valid()
      modifies this
      ensures Valid() && Grew() && NoneResent(old(history), history)
      ensures runs != [] && AllSmooth(runs[|runs| - 1]) ==>
                && !pendingScan && imports <= calibre && imports <= komga
                && EveryBookImported(runs[|runs| - 1].books)
    {
      for r := 0 to |runs|
        invariant Valid() && Grew()
        invariant r > 0 && AllSmooth(runs[r - 1]) ==>
                    !pendingScan && EveryBookImported(runs[r - 1].books)
      {
        var result, failed := ImportBooks(runs[r].books, runs[r].fate, runs[r].scan);
      }
      SoundResendsNone(old(history), history);
    }

    ghost predicate AllSmooth(run: Run) {
      run.scan.ScanFine? && SmoothTo(run.books, |run.books|, run.fate)
    }
  }

  datatype Run = Run(books: seq<Book>, fate: nat -> nat -> Fate, scan: ScanFate)
}
