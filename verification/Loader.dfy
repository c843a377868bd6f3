/** The archive loader (awsnative/backfill/loader.py with checksum.py): stage a file whole, or not at all. */
module Loader {
  import opened Prelude
  import opened PyText
  import opened ArchiveRows
  import opened Manifest
  import opened Staging

  type Bytes = seq<bv8>

  /** What fetching a URL gives: `Broken` is any failure other than a 404. */
  datatype Fetched = Body(bytes: Bytes) | NotFound | Broken

  /** A member of a zip file: `Corrupt` is a CRC or header error, `Unreadable` any other failure to read it. */
  datatype Member = Content(bytes: Bytes) | Corrupt | Unreadable

  datatype Zip = Members(members: seq<Member>) | NotAZip

  /** The outside world: the archive's web server, SHA-256, UTF-8 decoding and the zip reader. */
  datatype World = World(fetch: string -> Fetched, sha256: Bytes -> string,
                         decode: Bytes -> Option<string>, unzip: Bytes -> Zip)

  const ARCHIVE_BASE_URL := "https://data.binance.vision"

  function Url(item: WorkItem): string { ARCHIVE_BASE_URL + "/" + item.archiveKey }

  function ChecksumUrl(item: WorkItem): string { Url(item) + ".CHECKSUM" }

  function ItemFilename(item: WorkItem): string
  {
    var parts := SplitOn(item.archiveKey, '/');
    parts[|parts| - 1]
  }

  // checksum.py.

  const SHA256_HEX_LENGTH := 64

  function LowerChar(c: char): char { if 'A' <= c <= 'Z' then (c as int + 32) as char else c }

  function Lower(s: string): string { Map(s, LowerChar) }

  predicate HexDigit(c: char) { '0' <= c <= '9' || 'a' <= c <= 'f' || 'A' <= c <= 'F' }

  predicate IsSha256(s: string) { |s| == SHA256_HEX_LENGTH && forall c <- s :: HexDigit(c) && LowerChar(c) == c }

  /** verify: the .CHECKSUM file must be well formed, name this file, and give the digest of these bytes. */
  function Verify(actual: string, checksumText: string, expectedFilename: string): Result<string, DataError>
  {
    var fields := Words(Strip(checksumText));
    if |fields| != 2 then Err(BadChecksum)
    else if |fields[0]| != SHA256_HEX_LENGTH then Err(BadChecksum)
    else if exists c <- fields[0] :: !HexDigit(c) then Err(BadChecksum)
    else if fields[1] != expectedFilename then Err(BadChecksum)
    else if actual != Lower(fields[0]) then Err(BadChecksum)
    else Ok(actual)
  }

  predicate NamesDigest(checksumText: string, filename: string, digest: string)
  {
    var fields := Words(Strip(checksumText));
    |fields| == 2 && Lower(fields[0]) == digest && fields[1] == filename
  }

  /** For a real digest the shape checks refuse nothing that the comparison would accept. */
  lemma VerifyAcceptsExactly(actual: string, checksumText: string, filename: string)
    requires IsSha256(actual)
    ensures Verify(actual, checksumText, filename) == (if NamesDigest(checksumText, filename, actual) then Ok(actual) else Err(BadChecksum))
  {
    var fields := Words(Strip(checksumText));
    if NamesDigest(checksumText, filename, actual) {
      forall c | c in fields[0] ensures HexDigit(c) {
        var i :| 0 <= i < |fields[0]| && fields[0][i] == c;
        assert Lower(fields[0])[i] == LowerChar(c) && Lower(fields[0])[i] in actual;
      }
    }
  }

  // loader.py.

  datatype Status = DONE | FAILED | SKIPPED_NO_DATA

  datatype Reason = NoReason | NoSuchObject | BadData(error: DataError)

  datatype Outcome = Outcome(archiveKey: string, status: Status, sha256: string, rowCount: nat, error: Reason)

  /** What becomes of one item; `Crash` is an exception that is not about the data. */
  datatype Verdict = Accepted(text: string, rowCount: nat, sha256: string) | Missing | Refused(error: DataError) | Crash

  /** _sole_member_lines; None where it crashes. */
  function SoleMemberLines(w: World, blob: Bytes): Option<Result<seq<string>, DataError>>
  {
    var zip := w.unzip(blob);
    if zip.NotAZip? then Some(Err(BadZip))
    else if |zip.members| != 1 then Some(Err(NotOneMember))
    else if zip.members[0].Corrupt? then Some(Err(BadZip))
    else if zip.members[0].Unreadable? then None
    else
      var text := w.decode(zip.members[0].bytes);
      Some(if text.None? then Err(BadText) else Ok(SplitLines(text.value)))
  }

  /** _stage: the staging text and how many rows it holds. */
  function Staged(item: WorkItem, lines: seq<string>): Result<(string, nat), DataError>
  {
    if item.tier.Deep? then
      var bars := KlinesOf(lines);
      if bars.Err? then Err(bars.error) else Ok((KlinesText(item.instrumentId, bars.value), |bars.value|))
    else
      var trades := TradesOf(lines);
      if trades.Err? then Err(trades.error)
      else Ok((TradesText(item.instrumentId, item.venueSymbol, trades.value), |trades.value|))
  }

  /** Everything after both objects have been fetched. */
  function Examined(w: World, item: WorkItem, checksumText: string, blob: Bytes): Verdict
  {
    var digest := Verify(w.sha256(blob), checksumText, ItemFilename(item));
    if digest.Err? then Refused(digest.error) else
    var lines := SoleMemberLines(w, blob);
    if lines.None? then Crash else if lines.value.Err? then Refused(lines.value.error) else
    var staged := Staged(item, lines.value.value);
    if staged.Err? then Refused(staged.error) else Accepted(staged.value.0, staged.value.1, digest.value)
  }

  function Judge(w: World, item: WorkItem): Verdict
  {
    var sum := w.fetch(ChecksumUrl(item));
    if sum.NotFound? then Missing else if sum.Broken? then Crash else
    var checksumText := w.decode(sum.bytes);
    if checksumText.None? then Refused(BadText) else
    var zip := w.fetch(Url(item));
    if zip.NotFound? then Missing else if zip.Broken? then Crash else
    Examined(w, item, checksumText.value, zip.bytes)
  }

  type Store = map<string, string>

  /** The staging store after one item. */
  function StoredBy(w: World, item: WorkItem, store: Store): Store
  {
    var verdict := Judge(w, item);
    if verdict.Accepted? then store[item.stagingKey := verdict.text] else store
  }

  /** The manifest row of an item; None if the loader crashed. */
  function OutcomeOf(w: World, item: WorkItem): Option<Outcome>
  {
    match Judge(w, item)
    case Accepted(text, rowCount, sha256) => Some(Outcome(item.archiveKey, DONE, sha256, rowCount, NoReason))
    case Missing => Some(Outcome(item.archiveKey, SKIPPED_NO_DATA, "", 0, NoSuchObject))
    case Refused(error) => Some(Outcome(item.archiveKey, FAILED, "", 0, BadData(error)))
    case Crash => None
  }

  predicate InStaging(key: string) { KLINES_STAGING + "/" <= key || TRADES_STAGING + "/" <= key }

  function Cleared(store: Store): Store { map key | key in store && !InStaging(key) :: store[key] }

  class Loader {
    const world: World
    var store: Store

    constructor (world: World, store: Store)
      ensures this.world == world && this.store == store
    {
      this.world := world;
      this.store := store;
    }

    /** Stages one archive file. Nothing is written before the digest and every row have been accepted. */
    method Load(item: WorkItem) returns (outcome: Option<Outcome>)
      modifies this`store
      ensures outcome == OutcomeOf(world, item)
      ensures store == StoredBy(world, item, old(store))
    {
      var failed := (error: DataError) => Some(Outcome(item.archiveKey, FAILED, "", 0, BadData(error)));
      var skipped := Some(Outcome(item.archiveKey, SKIPPED_NO_DATA, "", 0, NoSuchObject));
      var sum := world.fetch(ChecksumUrl(item));
      if sum.NotFound? {
        return skipped;
      } else if sum.Broken? {
        return None;
      }
      var checksumText := world.decode(sum.bytes);
      if checksumText.None? {
        return failed(BadText);
      }
      var zip := world.fetch(Url(item));
      if zip.NotFound? {
        return skipped;
      } else if zip.Broken? {
        return None;
      }
      var digest := Verify(world.sha256(zip.bytes), checksumText.value, ItemFilename(item));
      if digest.Err? {
        return failed(digest.error);
      }
      var lines := SoleMemberLines(world, zip.bytes);
      if lines.None? {
        return None;
      } else if lines.value.Err? {
        return failed(lines.value.error);
      }
      var staged := Stage(item, lines.value.value);
      if staged.Err? {
        return failed(staged.error);
      }
      store := store[item.stagingKey := staged.value.0];
      outcome := Some(Outcome(item.archiveKey, DONE, digest.value, staged.value.1, NoReason));
    }

    /** delete_prefix. */
    method DeletePrefix(prefix: string) returns (removed: nat)
      modifies this`store
      ensures store == map key | key in old(store) && !(prefix <= key) :: old(store)[key]
      ensures removed == |set key | key in old(store) && prefix <= key|
    {
      removed := |set key | key in store && prefix <= key|;
      store := map key | key in store && !(prefix <= key) :: store[key];
    }

    /** Empties both staging prefixes and reports how many objects went. */
    method ClearStaging() returns (removed: nat)
      modifies this`store
      ensures store == Cleared(old(store))
      ensures removed == |set key | key in old(store) && InStaging(key)|
    {
      ghost var before := store;
      var klines := DeletePrefix(KLINES_STAGING + "/");
      var trades := DeletePrefix(TRADES_STAGING + "/");
      removed := klines + trades;
      PrefixesAreDisjoint(before);
    }
  }

  /** _stage. */
  method Stage(item: WorkItem, lines: seq<string>) returns (staged: Result<(string, nat), DataError>)
    ensures staged == Staged(item, lines)
  {
    if item.tier.Deep? {
      var bars := ParseKlines(lines);
      if bars.Err? {
        return Err(bars.error);
      }
      staged := Ok((KlinesText(item.instrumentId, bars.value), |bars.value|));
    } else {
      var trades := ParseAggTrades(lines);
      if trades.Err? {
        return Err(trades.error);
      }
      staged := Ok((TradesText(item.instrumentId, item.venueSymbol, trades.value), |trades.value|));
    }
  }

  lemma PrefixesAreDisjoint(store: Store)
    ensures var bars := set key | key in store && KLINES_STAGING + "/" <= key;
            var rest := map key | key in store && !(KLINES_STAGING + "/" <= key) :: store[key];
            var trades := set key | key in rest && TRADES_STAGING + "/" <= key;
            && |bars| + |trades| == |set key | key in store && InStaging(key)|
            && (map key | key in rest && !(TRADES_STAGING + "/" <= key) :: rest[key]) == Cleared(store)
  {
    var bars := set key | key in store && KLINES_STAGING + "/" <= key;
    var rest := map key | key in store && !(KLINES_STAGING + "/" <= key) :: store[key];
    var trades := set key | key in rest && TRADES_STAGING + "/" <= key;
    assert bars !! trades;
    assert bars + trades == set key | key in store && InStaging(key);
  }
}
