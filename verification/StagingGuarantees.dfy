/** What a run of the loader leaves in staging, whatever order the items are taken in
    (awsnative/backfill/loader.py over the items of manifest.py). */
module StagingGuarantees {
  import opened Prelude
  import opened PyText
  import opened ArchivePlan
  import opened ArchiveCover
  import opened ArchiveRows
  import opened Manifest
  import opened Staging
  import opened Loader
  import PlanKeys

  /** The store after loading `items` in order. */
  function StoreAfter(w: World, items: seq<WorkItem>, store: Store): Store
  {
    if items == [] then store
    else var n := |items| - 1; StoredBy(w, items[n], StoreAfter(w, items[..n], store))
  }

  predicate OwnKeys(items: seq<WorkItem>)
  {
    forall i, j :: 0 <= i < j < |items| ==> items[i].stagingKey != items[j].stagingKey
  }

  /** Item `i` was accepted and belongs in `key`. */
  predicate Stages(w: World, items: seq<WorkItem>, i: int, key: string)
  {
    0 <= i < |items| && items[i].stagingKey == key && Judge(w, items[i]).Accepted?
  }

  // The store as a fold over any way of accepting items.

  type Acceptor = WorkItem -> Option<string>

  function TextOf(w: World): Acceptor
  {
    item => if Judge(w, item).Accepted? then Some(Judge(w, item).text) else None
  }

  function Folded(accept: Acceptor, items: seq<WorkItem>, store: Store): Store
  {
    if items == [] then store
    else
      var n := |items| - 1;
      var before := Folded(accept, items[..n], store);
      if accept(items[n]).Some? then before[items[n].stagingKey := accept(items[n]).value] else before
  }

  predicate Puts(accept: Acceptor, items: seq<WorkItem>, i: int, key: string)
  {
    0 <= i < |items| && items[i].stagingKey == key && accept(items[i]).Some?
  }

  lemma {:induction false} FoldedAt(accept: Acceptor, items: seq<WorkItem>, store: Store, key: string)
    requires OwnKeys(items)
    ensures forall i :: Puts(accept, items, i, key) ==>
              key in Folded(accept, items, store) && Some(Folded(accept, items, store)[key]) == accept(items[i])
    ensures (forall i :: !Puts(accept, items, i, key)) ==>
              (key in Folded(accept, items, store) <==> key in store)
              && (key in store ==> Folded(accept, items, store)[key] == store[key])
  {
    if items != [] {
      var n := |items| - 1;
      FoldedAt(accept, items[..n], store, key);
      assert forall i :: 0 <= i < n ==> items[..n][i] == items[i];
      assert forall i :: 0 <= i < n ==> (Puts(accept, items, i, key) <==> Puts(accept, items[..n], i, key));
      assert Puts(accept, items, n, key) <==> items[n].stagingKey == key && accept(items[n]).Some?;
    }
  }

  lemma {:induction false} StoreAfterIsFolded(w: World, items: seq<WorkItem>, store: Store)
    ensures StoreAfter(w, items, store) == Folded(TextOf(w), items, store)
  {
    if items != [] {
      StoreAfterIsFolded(w, items[..|items| - 1], store);
    }
  }

  lemma {:induction false} StoreAfterAt(w: World, items: seq<WorkItem>, store: Store, key: string)
    requires OwnKeys(items)
    ensures forall i :: Stages(w, items, i, key) ==>
              key in StoreAfter(w, items, store) && StoreAfter(w, items, store)[key] == Judge(w, items[i]).text
    ensures (forall i :: !Stages(w, items, i, key)) ==>
              (key in StoreAfter(w, items, store) <==> key in store)
              && (key in store ==> StoreAfter(w, items, store)[key] == store[key])
  {
    StoreAfterIsFolded(w, items, store);
    FoldedAt(TextOf(w), items, store, key);
    assert forall i :: Stages(w, items, i, key) <==> Puts(TextOf(w), items, i, key);
  }

  predicate InStagingAll(items: seq<WorkItem>) { forall item <- items :: InStaging(item.stagingKey) }

  /** Stage or nothing. After clearing and loading items with their own staging keys, a staging object exists
      exactly for the DONE items and holds exactly the text accepted for it; everything else is as before. */
  lemma {:induction false} StageOrNothing(w: World, items: seq<WorkItem>, store: Store, key: string)
    requires OwnKeys(items) && InStagingAll(items)
    ensures var after := StoreAfter(w, items, Cleared(store));
            && (InStaging(key) ==> (key in after <==> exists item <- items :: item.stagingKey == key && IsDone(w, item)))
            && (forall item <- items :: IsDone(w, item) ==>
                  item.stagingKey in after && after[item.stagingKey] == Judge(w, item).text)
            && (!InStaging(key) ==> (key in after <==> key in store) && (key in store ==> after[key] == store[key]))
  {
    var after := StoreAfter(w, items, Cleared(store));
    StoreAfterAt(w, items, Cleared(store), key);
    forall item <- items | IsDone(w, item)
      ensures item.stagingKey in after && after[item.stagingKey] == Judge(w, item).text
    {
      var i :| 0 <= i < |items| && items[i] == item;
      StoreAfterAt(w, items, Cleared(store), item.stagingKey);
      assert Stages(w, items, i, item.stagingKey);
    }
  }

  predicate IsDone(w: World, item: WorkItem) { OutcomeOf(w, item).Some? && OutcomeOf(w, item).value.status.DONE? }

  lemma OnlyDoneIsAccepted(w: World, item: WorkItem)
    ensures IsDone(w, item) <==> Judge(w, item).Accepted?
  {
  }

  lemma {:induction false} OwnKeysAppearOnce(items: seq<WorkItem>, item: WorkItem)
    requires OwnKeys(items)
    ensures multiset(items)[item] <= 1
  {
    if items != [] {
      var n := |items| - 1;
      assert items == items[..n] + [items[n]];
      OwnKeysAppearOnce(items[..n], item);
      if item == items[n] {
        assert forall i :: 0 <= i < n ==> items[..n][i].stagingKey != item.stagingKey;
        assert item !in multiset(items[..n]);
      }
    }
  }

  lemma TwoPlacesCountTwice<T>(s: seq<T>, i: nat, j: nat)
    requires i < j < |s| && s[i] == s[j]
    ensures multiset(s)[s[i]] >= 2
  {
    assert s == s[..j] + s[j..];
    assert s[..j][i] in multiset(s[..j]) && s[j..][0] in multiset(s[j..]);
  }

  /** Taking the same items in another order keeps their keys apart. */
  lemma ReorderedOwnKeys(items: seq<WorkItem>, order: seq<WorkItem>)
    requires OwnKeys(items) && multiset(order) == multiset(items)
    ensures OwnKeys(order)
  {
    forall i, j | 0 <= i < j < |order| ensures order[i].stagingKey != order[j].stagingKey {
      assert order[i] in multiset(items) && order[j] in multiset(items);
      OwnKeysAppearOnce(items, order[i]);
      if order[i] == order[j] {
        TwoPlacesCountTwice(order, i, j);
      }
    }
  }

  /** Distributed Map may take the items in any order: what is staged is the same. */
  lemma OrderDoesNotMatter(w: World, items: seq<WorkItem>, order: seq<WorkItem>, store: Store)
    requires OwnKeys(items) && multiset(order) == multiset(items)
    ensures StoreAfter(w, order, store) == StoreAfter(w, items, store)
  {
    ReorderedOwnKeys(items, order);
    var a, b := StoreAfter(w, order, store), StoreAfter(w, items, store);
    forall key: string ensures (key in a <==> key in b) && (key in a ==> a[key] == b[key]) {
      SameAtKey(w, items, order, store, key);
    }
    assert a.Keys == b.Keys;
  }

  lemma SameAtKey(w: World, items: seq<WorkItem>, order: seq<WorkItem>, store: Store, key: string)
    requires OwnKeys(items) && OwnKeys(order) && multiset(order) == multiset(items)
    ensures var a, b := StoreAfter(w, order, store), StoreAfter(w, items, store);
            (key in a <==> key in b) && (key in a ==> a[key] == b[key])
  {
    StoreAfterAt(w, items, store, key);
    StoreAfterAt(w, order, store, key);
    if i :| Stages(w, items, i, key) {
      assert items[i] in multiset(order);
      var j :| 0 <= j < |order| && order[j] == items[i];
      assert Stages(w, order, j, key);
    } else {
      forall j ensures !Stages(w, order, j, key) {
        if Stages(w, order, j, key) {
          assert order[j] in multiset(items);
          var i :| 0 <= i < |items| && items[i] == order[j];
          assert Stages(w, items, i, key);
        }
      }
    }
  }

  /** The items of a planned window, in plan order. */
  function PlannedItems(win: Window, pairs: seq<Pair>): seq<WorkItem>
    requires ValidWindow(win) && !EndOfTime(win.end) && AllNamed(Sorted(AllFiles(win, pairs)))
  {
    var files := Sorted(AllFiles(win, pairs));
    seq(|files|, i requires 0 <= i < |files| => ItemFor(files[i]))
  }

  /** A planned backfill meets the loader's assumptions: no two of its items share a staging object, and all
      of them are in staging. */
  lemma PlannedItemsHaveOwnKeys(win: Window, pairs: seq<Pair>)
    requires ValidWindow(win) && !EndOfTime(win.end) && DistinctInstruments(pairs)
    ensures AllNamed(Sorted(AllFiles(win, pairs)))
    ensures OwnKeys(PlannedItems(win, pairs)) && InStagingAll(PlannedItems(win, pairs))
  {
    PlanKeys.PlannedFilesAreNamed(win, pairs);
    var files, items := Sorted(AllFiles(win, pairs)), PlannedItems(win, pairs);
    forall i, j | 0 <= i < j < |items| ensures items[i].stagingKey != items[j].stagingKey {
      PlanKeys.PlannedStagingKeysAreDistinct(win, pairs, i, j);
    }
    forall item <- items ensures InStaging(item.stagingKey) {
      var i :| 0 <= i < |items| && items[i] == item;
      StagingKeyIsInStaging(files[i]);
    }
  }

  lemma StagingKeyIsInStaging(f: ArchiveFile)
    ensures InStaging(StagingKey(f.tier, f.instrumentId, f.period))
  {
    var rest := (f.instrumentId + ("-" + f.period)) + ".csv.gz";
    assert StagingPrefix(f.tier) + ("/" + rest) == (StagingPrefix(f.tier) + "/") + rest;
  }

  // What DONE vouches for.

  /** Every line of the file reads as a row of the item's layout, all in one timestamp unit. */
  ghost predicate WellFormed(tier: Tier, lines: seq<string>)
  {
    if tier.Deep? then exists unit, rows :: KlinesIn(lines, unit, rows)
    else exists unit, rows :: TradesIn(lines, unit, rows)
  }

  /** The archive publishes this file soundly: both objects are there, the checksum file names this file and
      the digest of exactly these bytes, and the zip holds one readable member. */
  ghost predicate SoundlyPublished(w: World, item: WorkItem, lines: seq<string>)
  {
    var sum, zip := w.fetch(ChecksumUrl(item)), w.fetch(Url(item));
    && sum.Body? && zip.Body?
    && w.decode(sum.bytes).Some? && NamesDigest(w.decode(sum.bytes).value, ItemFilename(item), w.sha256(zip.bytes))
    && w.unzip(zip.bytes).Members? && |w.unzip(zip.bytes).members| == 1 && w.unzip(zip.bytes).members[0].Content?
    && var text := w.decode(w.unzip(zip.bytes).members[0].bytes);
       text.Some? && lines == SplitLines(text.value)
  }

  ghost predicate Loadable(w: World, item: WorkItem, lines: seq<string>)
  {
    SoundlyPublished(w, item, lines) && WellFormed(item.tier, lines)
  }

  lemma StagedExactlyWhenWellFormed(item: WorkItem, lines: seq<string>)
    ensures Staged(item, lines).Ok? <==> WellFormed(item.tier, lines)
  {
    if item.tier.Deep? {
      if KlinesOf(lines).Ok? {
        KlinesAreReadExactly(lines, KlinesOf(lines).value);
      }
      forall unit, rows | KlinesIn(lines, unit, rows) ensures KlinesOf(lines).Ok? { KlinesAreReadExactly(lines, rows); }
    } else {
      if TradesOf(lines).Ok? {
        TradesAreReadExactly(lines, TradesOf(lines).value);
      }
      forall unit, rows | TradesIn(lines, unit, rows) ensures TradesOf(lines).Ok? { TradesAreReadExactly(lines, rows); }
    }
  }

  ghost predicate RealDigests(w: World) { forall bytes :: IsSha256(w.sha256(bytes)) }

  lemma AcceptedIsLoadable(w: World, item: WorkItem) returns (lines: seq<string>)
    requires RealDigests(w) && Judge(w, item).Accepted?
    ensures Loadable(w, item, lines) && Staged(item, lines) == Ok((Judge(w, item).text, Judge(w, item).rowCount))
    ensures Judge(w, item).sha256 == w.sha256(w.fetch(Url(item)).bytes)
  {
    var sum, zip := w.fetch(ChecksumUrl(item)), w.fetch(Url(item));
    VerifyAcceptsExactly(w.sha256(zip.bytes), w.decode(sum.bytes).value, ItemFilename(item));
    lines := SoleMemberLines(w, zip.bytes).value.value;
    StagedExactlyWhenWellFormed(item, lines);
  }

  lemma LoadableIsAccepted(w: World, item: WorkItem, lines: seq<string>)
    requires RealDigests(w) && Loadable(w, item, lines)
    ensures Judge(w, item).Accepted?
  {
    var sum, zip := w.fetch(ChecksumUrl(item)), w.fetch(Url(item));
    VerifyAcceptsExactly(w.sha256(zip.bytes), w.decode(sum.bytes).value, ItemFilename(item));
    StagedExactlyWhenWellFormed(item, lines);
  }

  /** DONE is trustworthy: an item ends DONE exactly when its file was soundly published and every line of it
      is a row. */
  lemma DoneExactlyWhenLoadable(w: World, item: WorkItem)
    requires RealDigests(w)
    ensures IsDone(w, item) <==> exists lines :: Loadable(w, item, lines)
  {
    OnlyDoneIsAccepted(w, item);
    if Judge(w, item).Accepted? {
      var lines := AcceptedIsLoadable(w, item);
    }
    forall lines | Loadable(w, item, lines) ensures Judge(w, item).Accepted? { LoadableIsAccepted(w, item, lines); }
  }

  lemma LinesOfAFile(w: World, item: WorkItem, lines: seq<string>)
    requires SoundlyPublished(w, item, lines)
    ensures OneLiners(lines)
  {
    SplitLinesHaveNoBreaks(w.decode(w.unzip(w.fetch(Url(item)).bytes).members[0].bytes).value);
    assert forall line <- lines :: Unbroken(line);
  }

  /** Row by row, a staged table holds what its lines say. */
  predicate StagedFrom(item: WorkItem, lines: seq<string>, table: seq<seq<string>>)
  {
    && |table| == |lines|
    && forall i :: 0 <= i < |table| ==>
         if item.tier.Deep? then StagedKline(lines[i], item.instrumentId, table[i])
         else StagedTrade(lines[i], item.instrumentId, item.venueSymbol, table[i])
  }

  /** A staging object never holds part of a file: read back, it has as many rows as its manifest row says,
      one for each nonblank line of the archive file. */
  lemma StagedWhole(w: World, item: WorkItem) returns (lines: seq<string>)
    requires RealDigests(w) && IsDone(w, item) && Clean(item.instrumentId) && Clean(item.venueSymbol)
    ensures Loadable(w, item, lines)
    ensures var rows := TableOf(Judge(w, item).text);
            |rows| == OutcomeOf(w, item).value.rowCount && StagedFrom(item, NonBlank(lines), rows)
  {
    lines := AcceptedIsLoadable(w, item);
    LinesOfAFile(w, item, lines);
    if item.tier.Deep? {
      StagedKlinesReadBack(lines, item.instrumentId);
    } else {
      StagedTradesReadBack(lines, item.instrumentId, item.venueSymbol);
    }
  }
}
