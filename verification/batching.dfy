/** The importer's flushing loop, independent of what the records are: records are
    gathered into a batch that is written whenever it is full, and the remainder is written
    at the end. The batches written are the pages of the record sequence. */
module Batching {
  import opened Paging

  /** The end state of a run: the store's contents, the batches written in order, the
      running count, the exit code and whether the completion message was reached. */
  datatype ImportReport<T> = ImportReport(
    store: seq<T>,
    batches: seq<seq<T>>,
    count: nat,
    exitCode: int,
    completed: bool)

  /** What the flushing loop over `docs`, on a store that held `start`, establishes
      directly: the batches written are the first pages of `docs` and every one of them
      succeeded; the store gained exactly those, in order, and the count is their size; the
      run stopped with exit code 1 at a failed write of a full page, or completed with exit
      code 0 having written every page or all but a failed final remainder. */
  ghost predicate RunWritten<T>(start: seq<T>, docs: seq<T>, size: nat, insertOk: nat -> bool,
                                report: ImportReport<T>)
    requires size >= 1
  {
    && report.exitCode == (if report.completed then 0 else 1)
    && report.batches == Pages(docs, size, |report.batches|)
    && (forall j :: 0 <= j < |report.batches| ==> insertOk(j))
    && report.count == |Flatten(report.batches)|
    && report.store == start + Flatten(report.batches)
    && (!report.completed ==>
          && !insertOk(|report.batches|)
          && |PageOf(docs, |report.batches| + 1, size)| == size)
    && (report.completed ==>
          || |report.batches| == CeilDiv(|docs|, size)
          || (&& |report.batches| + 1 == CeilDiv(|docs|, size)
              && !insertOk(|report.batches|)
              && |PageOf(docs, |report.batches| + 1, size)| < size))
  }

  /** Batches of between one and `size` records, all but the last exactly `size`. */
  ghost predicate BatchesShaped<T>(batches: seq<seq<T>>, size: nat) {
    && (forall j :: 0 <= j < |batches| ==> 1 <= |batches[j]| <= size)
    && (forall j :: 0 <= j < |batches| - 1 ==> |batches[j]| == size)
  }

  /** When every write succeeds, every record is stored, in order. */
  ghost predicate AllWrittenWhenAllOk<T>(start: seq<T>, docs: seq<T>, size: nat,
                                         insertOk: nat -> bool, report: ImportReport<T>)
    requires size >= 1
  {
    (forall b :: 0 <= b < CeilDiv(|docs|, size) ==> insertOk(b)) ==>
      && report.completed && report.exitCode == 0
      && report.batches == PageList(docs, size)
      && Flatten(report.batches) == docs
      && report.count == |docs|
      && report.store == start + docs
  }

  /** Everything a run of the flushing loop guarantees. */
  ghost predicate BatchedRun<T>(start: seq<T>, docs: seq<T>, size: nat, insertOk: nat -> bool,
                                report: ImportReport<T>)
    requires size >= 1
  {
    && RunWritten(start, docs, size, insertOk, report)
    && BatchesShaped(report.batches, size)
    && AllWrittenWhenAllOk(start, docs, size, insertOk, report)
  }

  /** The flushing loop over the transformed records: each record is pushed onto the batch,
      and the batch is written whenever it reaches `size` records; the remainder is written
      at the end. `insertOk(b)` is whether the `b`-th write succeeds; a failed write inserts
      nothing. A failed write of a full batch stops the run with exit code 1; a failed write
      of the final remainder is only logged, and the run completes with exit code 0. */
  method WriteInBatches<T>(start: seq<T>, docs: seq<T>, size: nat, insertOk: nat -> bool)
    returns (report: ImportReport<T>)
    requires size >= 1
    ensures BatchedRun(start, docs, size, insertOk, report)
  {
    var store, batches, count, batch, failed := FillBatches(start, docs, size, insertOk);
    WrittenPrefix(start, docs, size, store, batches, count);
    if failed {
      report := ImportReport(store, batches, count, 1, false);
      StoppedRun(start, docs, size, insertOk, report);
    } else {
      report := WriteRemainder<T>(start, docs, size, insertOk, store, batches, count, batch);
      CompletedRun(start, docs, size, insertOk, report);
    }
    RunIsBatched(start, docs, size, insertOk, report);
  }

  /** The facts the loop establishes directly give the whole of `BatchedRun`: the bound on
      the number of batches, their shape, and the all-success case follow from them. */
  lemma RunIsBatched<T>(start: seq<T>, docs: seq<T>, size: nat, insertOk: nat -> bool,
                        report: ImportReport<T>)
    requires size >= 1
    requires RunWritten(start, docs, size, insertOk, report)
    ensures BatchedRun(start, docs, size, insertOk, report)
  {
    RunBound(docs, size, report);
    RunShape(docs, size, report);
    assert BatchesShaped(report.batches, size);
    if forall b :: 0 <= b < CeilDiv(|docs|, size) ==> insertOk(b) {
      RunSucceeds(start, docs, size, insertOk, report);
    }
    assert AllWrittenWhenAllOk(start, docs, size, insertOk, report);
  }

  /** A run stopped by a failed write of a full page satisfies `RunWritten`. */
  lemma StoppedRun<T>(start: seq<T>, docs: seq<T>, size: nat, insertOk: nat -> bool,
                      report: ImportReport<T>)
    requires size >= 1
    requires !report.completed && report.exitCode == 1
    requires report.batches == Pages(docs, size, |report.batches|)
    requires forall j :: 0 <= j < |report.batches| ==> insertOk(j)
    requires report.count == |Flatten(report.batches)|
    requires report.store == start + Flatten(report.batches)
    requires !insertOk(|report.batches|) && |PageOf(docs, |report.batches| + 1, size)| == size
    ensures RunWritten(start, docs, size, insertOk, report)
  {
  }

  /** A completed run, as the final flush leaves it, satisfies `RunWritten`. */
  lemma CompletedRun<T>(start: seq<T>, docs: seq<T>, size: nat, insertOk: nat -> bool,
                        report: ImportReport<T>)
    requires size >= 1
    requires report.completed && report.exitCode == 0
    requires report.batches == Pages(docs, size, |report.batches|)
    requires forall j :: 0 <= j < |report.batches| ==> insertOk(j)
    requires report.count == |Flatten(report.batches)|
    requires report.store == start + Flatten(report.batches)
    requires || |report.batches| == CeilDiv(|docs|, size)
             || (&& |report.batches| + 1 == CeilDiv(|docs|, size)
                 && !insertOk(|report.batches|)
                 && |PageOf(docs, |report.batches| + 1, size)| < size)
    ensures RunWritten(start, docs, size, insertOk, report)
  {
  }

  /** A run never writes more batches than there are pages, and stops short of the last
      page when it fails. */
  lemma RunBound<T>(docs: seq<T>, size: nat, report: ImportReport<T>)
    requires size >= 1
    requires !report.completed ==> |PageOf(docs, |report.batches| + 1, size)| == size
    requires report.completed ==>
               || |report.batches| == CeilDiv(|docs|, size)
               || |report.batches| + 1 == CeilDiv(|docs|, size)
    ensures |report.batches| <= CeilDiv(|docs|, size)
    ensures !report.completed ==> |report.batches| < CeilDiv(|docs|, size)
  {
    var n := |report.batches|;
    if !report.completed && n + 1 > CeilDiv(|docs|, size) {
      PageBeyondEnd(docs, n + 1, size);
    }
  }

  /** The batches of a run have the shape of pages: between one and `size` records each, all
      but the last exactly `size`. */
  lemma RunShape<T>(docs: seq<T>, size: nat, report: ImportReport<T>)
    requires size >= 1
    requires report.batches == Pages(docs, size, |report.batches|)
    requires |report.batches| <= CeilDiv(|docs|, size)
    ensures forall j :: 0 <= j < |report.batches| ==> 1 <= |report.batches[j]| <= size
    ensures forall j :: 0 <= j < |report.batches| - 1 ==> |report.batches[j]| == size
  {
    PagesShape(docs, size, |report.batches|);
  }

  /** When every write succeeds, the run completes with all pages written in order, and the
      store holds every record after what it started with. */
  lemma RunSucceeds<T>(start: seq<T>, docs: seq<T>, size: nat, insertOk: nat -> bool,
                       report: ImportReport<T>)
    requires size >= 1
    requires forall b :: 0 <= b < CeilDiv(|docs|, size) ==> insertOk(b)
    requires report.batches == Pages(docs, size, |report.batches|)
    requires report.count == |Flatten(report.batches)|
    requires report.store == start + Flatten(report.batches)
    requires report.exitCode == (if report.completed then 0 else 1)
    requires !report.completed ==> !insertOk(|report.batches|) && |report.batches| < CeilDiv(|docs|, size)
    requires report.completed ==>
               || |report.batches| == CeilDiv(|docs|, size)
               || (|report.batches| + 1 == CeilDiv(|docs|, size) && !insertOk(|report.batches|))
    ensures report.completed && report.exitCode == 0
    ensures report.batches == PageList(docs, size)
    ensures Flatten(report.batches) == docs
    ensures report.count == |docs|
    ensures report.store == start + docs
  {
    PageListFlatten(docs, size);
  }

  /** The loop itself: records are pushed onto the batch one at a time, and a batch that
      reaches `size` records is written. It stops early, `failed`, at the first failed
      write; otherwise it ends with the unwritten remainder in `batch`. */
  method FillBatches<T>(start: seq<T>, docs: seq<T>, size: nat, insertOk: nat -> bool)
    returns (store: seq<T>, batches: seq<seq<T>>, count: nat, batch: seq<T>, failed: bool)
    requires size >= 1
    ensures batches == Pages(docs, size, |batches|)
    ensures forall j :: 0 <= j < |batches| ==> insertOk(j)
    ensures count == Offset(|batches| + 1, size) && count <= |docs|
    ensures store == start + docs[..count]
    ensures failed ==> !insertOk(|batches|) && |PageOf(docs, |batches| + 1, size)| == size
    ensures !failed ==> count + |batch| == |docs| && |batch| < size && batch == docs[count..]
  {
    store, batch, batches, count, failed := start, [], [], 0, false;
    var i := 0;
    while i < |docs|
      invariant 0 <= i <= |docs|
      invariant batches == Pages(docs, size, |batches|)
      invariant forall j :: 0 <= j < |batches| ==> insertOk(j)
      invariant count == Offset(|batches| + 1, size)
      invariant count + |batch| == i && |batch| < size
      invariant batch == docs[count..i]
      invariant store == start + docs[..count]
    {
      SliceGrows(docs, count, i);
      batch := batch + [docs[i]];
      if |batch| >= size {
        FullBatch(start, docs, size, store, batches, count, batch);
        if insertOk(|batches|) {
          WrittenSoFar(insertOk, |batches|);
          store := store + batch;
          count := count + |batch|;
          batches := batches + [batch];
          batch := [];
        } else {
          failed := true;
          return;
        }
      }
      i := i + 1;
    }
  }

  /** A slice grows by the element at its end. */
  lemma SliceGrows<T>(xs: seq<T>, from: nat, to: nat)
    requires from <= to < |xs|
    ensures xs[from..to] + [xs[to]] == xs[from..to + 1]
  {
  }

  /** One more successful write extends the run of successful writes. */
  lemma WrittenSoFar(insertOk: nat -> bool, n: nat)
    requires forall j :: 0 <= j < n ==> insertOk(j)
    requires insertOk(n)
    ensures forall j :: 0 <= j < n + 1 ==> insertOk(j)
  {
  }

  /** The end of the flushing loop: the records left over after the last full batch are
      written as one final batch when there are any. */
  method WriteRemainder<T>(start: seq<T>, docs: seq<T>, size: nat, insertOk: nat -> bool,
                        store: seq<T>, batches: seq<seq<T>>, count: nat, batch: seq<T>)
    returns (report: ImportReport<T>)
    requires size >= 1
    requires batches == Pages(docs, size, |batches|)
    requires forall j :: 0 <= j < |batches| ==> insertOk(j)
    requires count == Offset(|batches| + 1, size)
    requires count + |batch| == |docs| && |batch| < size
    requires batch == docs[count..]
    requires store == start + docs[..count]
    ensures report.completed && report.exitCode == 0
    ensures report.batches == Pages(docs, size, |report.batches|)
    ensures forall j :: 0 <= j < |report.batches| ==> insertOk(j)
    ensures report.count == |Flatten(report.batches)|
    ensures report.store == start + Flatten(report.batches)
    ensures || |report.batches| == CeilDiv(|docs|, size)
            || (&& |report.batches| + 1 == CeilDiv(|docs|, size)
                && !insertOk(|report.batches|)
                && |PageOf(docs, |report.batches| + 1, size)| < size)
  {
    var n := |batches|;
    WrittenPrefix(start, docs, size, store, batches, count);
    if |batch| > 0 {
      ShortRemainder(start, docs, size, store, batches, count, batch);
      if insertOk(n) {
        WrittenSoFar(insertOk, n);
        report := ImportReport(store + batch, batches + [batch], count + |batch|, 0, true);
      } else {
        report := ImportReport(store, batches, count, 0, true);
      }
    } else {
      if n > 0 {
        CeilDivUnique(|docs|, size, n);
      }
      report := ImportReport(store, batches, count, 0, true);
    }
  }

  /** A batch that reaches `size` records is the next page, and writing it keeps the store
      equal to the written prefix of the records. */
  lemma FullBatch<T>(start: seq<T>, docs: seq<T>, size: nat,
                     store: seq<T>, batches: seq<seq<T>>, count: nat, batch: seq<T>)
    requires size >= 1
    requires batches == Pages(docs, size, |batches|)
    requires count == Offset(|batches| + 1, size)
    requires |batch| == size && count + size <= |docs| && batch == docs[count..count + size]
    requires store == start + docs[..count]
    ensures batch == PageOf(docs, |batches| + 1, size)
    ensures batches + [batch] == Pages(docs, size, |batches| + 1)
    ensures count + |batch| == Offset(|batches| + 2, size)
    ensures store + batch == start + docs[..count + |batch|]
  {
    NextFullPage(docs, batches, size, count, batch);
  }

  /** The store after the first `|batches|` pages are written holds those pages in order. */
  lemma WrittenPrefix<T>(start: seq<T>, docs: seq<T>, size: nat,
                         store: seq<T>, batches: seq<seq<T>>, count: nat)
    requires batches == Pages(docs, size, |batches|)
    requires count == Offset(|batches| + 1, size) && count <= |docs|
    requires store == start + docs[..count]
    ensures count == |Flatten(batches)|
    ensures store == start + Flatten(batches)
  {
    PagesFlatten(docs, size, |batches|);
  }

  /** A non-empty remainder is the last page, and writing it completes the pages. */
  lemma ShortRemainder<T>(start: seq<T>, docs: seq<T>, size: nat,
                          store: seq<T>, batches: seq<seq<T>>, count: nat, batch: seq<T>)
    requires size >= 1
    requires batches == Pages(docs, size, |batches|)
    requires count == Offset(|batches| + 1, size)
    requires 0 < |batch| < size && count + |batch| == |docs| && batch == docs[count..]
    requires store == start + Flatten(batches) && count == |Flatten(batches)|
    ensures batches + [batch] == Pages(docs, size, |batches| + 1)
    ensures CeilDiv(|docs|, size) == |batches| + 1
    ensures |PageOf(docs, |batches| + 1, size)| < size
    ensures store + batch == start + Flatten(batches + [batch])
    ensures count + |batch| == |Flatten(batches + [batch])|
  {
    LastShortPage(docs, batches, size, count, batch);
    FlattenAppend(batches, batch);
  }
}
