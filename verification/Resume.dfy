/** Resuming a backfill over several runs (awsnative/backfill/seed.py with manifest.plan and the one-page read of
    awsnative/athena.py). */
module Resume {
  import opened Calendar
  import opened ArchivePlan
  import opened Manifest

  function Keys(items: seq<WorkItem>): set<string> { set item <- items :: item.archiveKey }

  /** The files a plan is about: those not recorded, in their original order. */
  function Remaining(files: seq<ArchiveFile>, done: set<string>): seq<ArchiveFile>
  {
    if files == [] then []
    else if KeyOf(files[0]) in done then Remaining(files[1..], done)
    else [files[0]] + Remaining(files[1..], done)
  }

  function Items(files: seq<ArchiveFile>): seq<WorkItem>
    requires AllDated(files)
  {
    if files == [] then [] else [ItemFor(files[0])] + Items(files[1..])
  }

  lemma {:induction false} RemainingAreDated(files: seq<ArchiveFile>, done: set<string>)
    requires AllDated(files)
    ensures AllDated(Remaining(files, done))
  {
    if files != [] {
      RemainingAreDated(files[1..], done);
    }
  }

  /** A plan is the remaining files, item by item: an order-preserving selection of the window's files. */
  lemma {:induction false} PlanIsRemaining(files: seq<ArchiveFile>, done: set<string>)
    requires AllDated(files)
    ensures AllDated(Remaining(files, done)) && Plan(files, done) == Items(Remaining(files, done))
  {
    RemainingAreDated(files, done);
    if files != [] {
      PlanIsRemaining(files[1..], done);
      if KeyOf(files[0]) !in done {
        assert Remaining(files, done)[1..] == Remaining(files[1..], done);
      }
    }
  }

  /** A file is planned exactly when its key was not read back. */
  lemma {:induction false} PlannedExactlyWhenNotRead(files: seq<ArchiveFile>, read: set<string>, f: ArchiveFile)
    requires AllDated(files) && f in files
    ensures ValidDate(f.dt) && (ItemFor(f) in Plan(files, read) <==> KeyOf(f) !in read)
    ensures forall item <- Plan(files, read) :: item.archiveKey !in read
  {
    var i :| 0 <= i < |files| && files[i] == f;
    if f in files[1..] {
      PlannedExactlyWhenNotRead(files[1..], read, f);
    }
    NothingReadIsPlanned(files, read);
  }

  lemma {:induction false} NothingReadIsPlanned(files: seq<ArchiveFile>, read: set<string>)
    requires AllDated(files)
    ensures forall item <- Plan(files, read) :: item.archiveKey !in read
  {
    if files != [] {
      NothingReadIsPlanned(files[1..], read);
    }
  }

  /** With the DONE keys fully read back a DONE file is never planned again; with any part of them read back
      every file that is not DONE is still planned. */
  lemma ResumeIsSafe(files: seq<ArchiveFile>, done: set<string>, read: set<string>, f: ArchiveFile)
    requires AllDated(files) && f in files && read <= done
    ensures KeyOf(f) !in done ==> ItemFor(f) in Plan(files, read)
    ensures read == done && KeyOf(f) in done ==> ItemFor(f) !in Plan(files, read)
  {
    PlannedExactlyWhenNotRead(files, read, f);
  }

  // What one page of the manifest query reads back. The query asks for every DONE row of the tier, whatever
  // window it came from, in no particular order; the manifest keeps one row for each key.

  /** MaxResults is capped at 1000 rows, and the first row is the header. */
  const PAGE := 999

  /** done_keys over the first page of the query's archive_key column; empty keys are ignored. */
  function DoneKeys(rows: seq<string>): set<string>
  {
    set i | 0 <= i < |rows| && i < PAGE && rows[i] != "" :: rows[i]
  }

  predicate NoRepeats(rows: seq<string>) { forall i, j :: 0 <= i < j < |rows| ==> rows[i] != rows[j] }

  function KeySet(rows: seq<string>): set<string> { set row <- rows }

  /** An order in which the query may return the tier's DONE keys. */
  predicate OrderOf(rows: seq<string>, done: set<string>) { NoRepeats(rows) && KeySet(rows) == done }

  function WindowKeys(files: seq<ArchiveFile>): set<string> { set f <- files :: KeyOf(f) }

  /** The window is finished for good: whatever order the rows come in, nothing is planned. */
  ghost predicate Settled(files: seq<ArchiveFile>, done: set<string>)
    requires AllDated(files)
  {
    forall rows :: OrderOf(rows, done) ==> Plan(files, DoneKeys(rows)) == []
  }

  lemma KeysAreNotEmpty(f: ArchiveFile)
    ensures KeyOf(f) != ""
  {
    assert KeyOf(f)[0] == 'd';
  }

  lemma {:induction false} OrderIsAsLong(rows: seq<string>)
    requires NoRepeats(rows)
    ensures |KeySet(rows)| == |rows|
  {
    if rows != [] {
      var n := |rows| - 1;
      OrderIsAsLong(rows[..n]);
      assert forall row :: row in rows <==> row in rows[..n] || row == rows[n];
      assert KeySet(rows) == KeySet(rows[..n]) + {rows[n]};
    }
  }

  lemma AddLast(rows: seq<string>, done: set<string>, key: string)
    requires OrderOf(rows, done - {key}) && key in done
    ensures OrderOf(rows + [key], done)
  {
    assert forall row <- rows :: row in KeySet(rows);
    forall row ensures row in KeySet(rows + [key]) <==> row in done {
      assert row in rows + [key] <==> row in rows || row == key;
      assert row in rows <==> row in KeySet(rows);
    }
  }

  /** Any set can come back in some order. */
  lemma SomeOrder(done: set<string>) returns (rows: seq<string>)
    ensures OrderOf(rows, done)
    decreases |done|
  {
    rows := [];
    if done != {} {
      var key :| key in done;
      rows := SomeOrder(done - {key});
      AddLast(rows, done, key);
      rows := rows + [key];
    }
  }

  /** In particular with a given key last. */
  lemma KeyLast(done: set<string>, key: string) returns (rows: seq<string>)
    requires key in done
    ensures OrderOf(rows, done) && rows != [] && rows[|rows| - 1] == key
  {
    rows := SomeOrder(done - {key});
    AddLast(rows, done, key);
    rows := rows + [key];
  }

  /** Within a page everything is read back, in whatever order. */
  lemma AllIsRead(rows: seq<string>, done: set<string>, key: string)
    requires OrderOf(rows, done) && |done| <= PAGE && key != ""
    ensures key in DoneKeys(rows) <==> key in done
  {
    OrderIsAsLong(rows);
    if key in done {
      assert key in KeySet(rows);
      var i :| 0 <= i < |rows| && rows[i] == key;
    }
  }

  lemma NotPlannedWhenRead(files: seq<ArchiveFile>, read: set<string>)
    requires AllDated(files)
    ensures Plan(files, read) == [] <==> WindowKeys(files) <= read
  {
    if WindowKeys(files) <= read {
      AllReadPlansNothing(files, read);
    } else {
      var key :| key in WindowKeys(files) && key !in read;
      var f :| f in files && KeyOf(f) == key;
      PlannedExactlyWhenNotRead(files, read, f);
    }
  }

  lemma {:induction false} AllReadPlansNothing(files: seq<ArchiveFile>, read: set<string>)
    requires AllDated(files) && WindowKeys(files) <= read
    ensures Plan(files, read) == []
  {
    if files != [] {
      assert KeyOf(files[0]) in WindowKeys(files);
      assert WindowKeys(files[1..]) <= WindowKeys(files);
      AllReadPlansNothing(files[1..], read);
    }
  }

  /** A window with files is finished for good exactly when all of it is DONE and the DONE rows of the whole
      tier, other windows' included, fit one page. */
  lemma OnePageResumesExactlyWhen(files: seq<ArchiveFile>, done: set<string>)
    requires AllDated(files) && files != []
    ensures Settled(files, done) <==> WindowKeys(files) <= done && |done| <= 999
  {
    if WindowKeys(files) <= done && |done| <= PAGE {
      forall rows | OrderOf(rows, done) ensures Plan(files, DoneKeys(rows)) == [] {
        forall key | key in WindowKeys(files) ensures key in DoneKeys(rows) {
          var f :| f in files && KeyOf(f) == key;
          KeysAreNotEmpty(f);
          AllIsRead(rows, done, key);
        }
        NotPlannedWhenRead(files, DoneKeys(rows));
      }
    } else {
      var rows := Unsettling(files, done);
      assert Plan(files, DoneKeys(rows)) != [];
    }
  }

  /** An order of the rows under which something is planned again. */
  lemma Unsettling(files: seq<ArchiveFile>, done: set<string>) returns (rows: seq<string>)
    requires AllDated(files) && files != [] && !(WindowKeys(files) <= done && |done| <= PAGE)
    ensures OrderOf(rows, done) && Plan(files, DoneKeys(rows)) != []
  {
    var key := KeyOf(files[0]);
    assert key in WindowKeys(files);
    if WindowKeys(files) <= done {
      rows := KeyLast(done, key);
      OrderIsAsLong(rows);
      assert key !in DoneKeys(rows);
    } else {
      key :| key in WindowKeys(files) && key !in done;
      rows := SomeOrder(done);
      assert forall row <- rows :: row in KeySet(rows);
      assert key !in DoneKeys(rows);
    }
    NotPlannedWhenRead(files, DoneKeys(rows));
  }

  // Progress over runs.

  /** Recording more never lengthens a plan, and shortens it when something planned was recorded. */
  lemma {:induction false} MoreDoneLessPlanned(files: seq<ArchiveFile>, done: set<string>, more: set<string>)
    requires AllDated(files)
    ensures |Plan(files, done + more)| <= |Plan(files, done)|
    ensures (exists item :: item in Plan(files, done) && item.archiveKey in more) ==> |Plan(files, done + more)| < |Plan(files, done)|
  {
    if files != [] {
      MoreDoneLessPlanned(files[1..], done, more);
    }
  }

  /** One run of the backfill: the order its query got the tier's DONE keys in, which of the planned files
      ended DONE and which did not, and the keys other windows of the tier added before the next run. The
      merge of outcomes overwrites: a file planned again that then fails is no longer DONE. */
  datatype Run = Run(rows: seq<string>, succeeded: set<string>, failed: set<string>, others: set<string>)

  function DoneAfterRun(done: set<string>, run: Run): set<string> { (done - run.failed) + run.succeeded + run.others }

  function DoneAfter(done: set<string>, runs: seq<Run>): set<string>
    decreases |runs|
  {
    if runs == [] then done else DoneAfter(DoneAfterRun(done, runs[0]), runs[1..])
  }

  /** A run plans from the page it read, and completes at least one planned file if there is any. */
  predicate Progress(files: seq<ArchiveFile>, done: set<string>, run: Run)
    requires AllDated(files)
  {
    var plan := Plan(files, DoneKeys(run.rows));
    && OrderOf(run.rows, done)
    && run.succeeded <= Keys(plan) && run.failed <= Keys(plan)
    && (plan != [] ==> run.succeeded != {})
  }

  predicate Progressing(files: seq<ArchiveFile>, done: set<string>, runs: seq<Run>)
    requires AllDated(files)
    decreases |runs|
  {
    runs == [] || (Progress(files, done, runs[0]) && Progressing(files, DoneAfterRun(done, runs[0]), runs[1..]))
  }

  lemma {:induction false} PlannedKeys(files: seq<ArchiveFile>, read: set<string>)
    requires AllDated(files)
    ensures Keys(Plan(files, read)) == WindowKeys(files) - read
  {
    if files != [] {
      PlannedKeys(files[1..], read);
      WindowKeysCons(files);
      if KeyOf(files[0]) !in read {
        KeysCons(ItemFor(files[0]), Plan(files[1..], read));
      }
    }
  }

  lemma WindowKeysCons(files: seq<ArchiveFile>)
    requires files != []
    ensures WindowKeys(files) == {KeyOf(files[0])} + WindowKeys(files[1..])
  {
    assert files == [files[0]] + files[1..];
  }

  lemma KeysCons(item: WorkItem, items: seq<WorkItem>)
    ensures Keys([item] + items) == {item.archiveKey} + Keys(items)
  {
  }

  lemma {:induction false} WindowIsNoLargerThanFiles(files: seq<ArchiveFile>)
    ensures |WindowKeys(files)| <= |files|
  {
    if files != [] {
      WindowIsNoLargerThanFiles(files[1..]);
      WindowKeysCons(files);
    }
  }

  /** While the tier fits a page, a run undoes nothing and leaves less of the window to do. */
  lemma {:induction false} RunWithinPage(files: seq<ArchiveFile>, done: set<string>, run: Run)
    requires AllDated(files) && Progress(files, done, run) && |done| <= PAGE
    ensures WindowKeys(files) - DoneAfterRun(done, run) <= WindowKeys(files) - done
    ensures !(WindowKeys(files) <= done) ==> |WindowKeys(files) - DoneAfterRun(done, run)| < |WindowKeys(files) - done|
  {
    var window, read, after := WindowKeys(files), DoneKeys(run.rows), DoneAfterRun(done, run);
    forall key | key in window ensures key in read <==> key in done {
      var f :| f in files && KeyOf(f) == key;
      KeysAreNotEmpty(f);
      AllIsRead(run.rows, done, key);
    }
    PlannedKeys(files, read);
    NotPlannedWhenRead(files, read);
    assert window - after <= window - done;
    if !(window <= done) {
      var key :| key in run.succeeded;
      SmallerWithout(window - done, window - after, key);
    }
  }

  lemma SmallerWithout<T>(large: set<T>, small: set<T>, x: T)
    requires small <= large && x in large && x !in small
    ensures |small| < |large|
  {
    Subset(small, large - {x});
  }

  lemma Subset<T>(small: set<T>, large: set<T>)
    requires small <= large
    ensures |small| <= |large|
  {
    assert large == small + (large - small);
  }

  /** The keys other windows of the tier add along the runs. */
  function Others(runs: seq<Run>): set<string>
  {
    if runs == [] then {} else runs[0].others + Others(runs[1..])
  }

  /** Outside the window, runs change nothing but what the other windows add. */
  lemma RunAddsOthers(files: seq<ArchiveFile>, done: set<string>, run: Run)
    requires AllDated(files) && Progress(files, done, run)
    ensures DoneAfterRun(done, run) + WindowKeys(files) == done + WindowKeys(files) + run.others
  {
    PlannedKeys(files, DoneKeys(run.rows));
    assert run.succeeded <= WindowKeys(files) && run.failed <= WindowKeys(files);
  }

  lemma {:induction false} RunsAddOthers(files: seq<ArchiveFile>, done: set<string>, runs: seq<Run>)
    requires AllDated(files) && Progressing(files, done, runs)
    ensures DoneAfter(done, runs) + WindowKeys(files) == done + WindowKeys(files) + Others(runs)
    decreases |runs|
  {
    if runs != [] {
      RunAddsOthers(files, done, runs[0]);
      RunsAddOthers(files, DoneAfterRun(done, runs[0]), runs[1..]);
    }
  }

  /** What one run leaves to do takes one run less. */
  lemma OneRunLess(files: seq<ArchiveFile>, done: set<string>, run: Run, n: nat)
    requires AllDated(files) && Progress(files, done, run) && |done| <= PAGE
    requires n >= 1 && n >= |WindowKeys(files) - done|
    ensures n - 1 >= |WindowKeys(files) - DoneAfterRun(done, run)|
  {
    RunWithinPage(files, done, run);
    if WindowKeys(files) <= done {
      assert WindowKeys(files) - DoneAfterRun(done, run) == {};
    }
  }

  /** Within a page, as many runs as the window has files left finish it. */
  lemma {:induction false} RunsFinish(files: seq<ArchiveFile>, done: set<string>, runs: seq<Run>)
    requires AllDated(files) && Progressing(files, done, runs)
    requires |DoneAfter(done, runs) + WindowKeys(files)| <= PAGE && |runs| >= |WindowKeys(files) - done|
    ensures WindowKeys(files) <= DoneAfter(done, runs)
    decreases |runs|
  {
    if runs == [] {
      var left := WindowKeys(files) - done;
      assert left == {} && forall key <- WindowKeys(files) :: key in done || key in left;
    } else {
      RunsAddOthers(files, done, runs);
      Subset(done, DoneAfter(done, runs) + WindowKeys(files));
      OneRunLess(files, done, runs[0], |runs|);
      RunsFinish(files, DoneAfterRun(done, runs[0]), runs[1..]);
    }
  }

  /** Over any series of at least as many runs as the window has files, each completing a planned file while
      there is one, the backfill ends finished for good exactly when the keys DONE in the tier at the start,
      the window's own, and those other windows add meanwhile fit one page. Otherwise it is never finished:
      some order of the rows plans a file again. */
  lemma {:induction false} BackfillFinishesExactlyWhen(files: seq<ArchiveFile>, done: set<string>, runs: seq<Run>)
    requires AllDated(files) && files != [] && Progressing(files, done, runs) && |runs| >= |files|
    ensures Settled(files, DoneAfter(done, runs)) <==> |done + WindowKeys(files) + Others(runs)| <= 999
  {
    var window, after := WindowKeys(files), DoneAfter(done, runs);
    RunsAddOthers(files, done, runs);
    OnePageResumesExactlyWhen(files, after);
    if |after + window| <= PAGE {
      WindowIsNoLargerThanFiles(files);
      Subset(window - done, window);
      RunsFinish(files, done, runs);
      Subset(after, after + window);
    } else if window <= after {
      assert after + window == after;
    }
  }
}
