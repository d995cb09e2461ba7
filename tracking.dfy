/** The per-date ledger kept in `data/tracking.json`: for each `YYYY-MM-DD`
    key, whether the video was built and where it is, and whether it was
    uploaded and under which YouTube id. Every operation reads the whole
    file and every mutation writes the whole file back; here the file's
    contents are the field `data` of a `Ledger`, replaced as a whole. */
module Tracking {
  import opened Wrappers
  import opened Strings
  import opened Calendar
  import opened Files

  /** One entry of the tracking file; absent JSON keys are None. */
  datatype Record = Record(
    videoCreated: bool,
    videoPath: Option<string>,
    createdAt: Option<string>,
    youtubeUploaded: bool,
    youtubeVideoId: Option<string>,
    uploadedAt: Option<string>)

  /** The `{}` a mutator starts from when the date has no entry yet. */
  const NewRecord := Record(false, None, None, false, None, None)

  type Store = map<string, Record>

  // ---------------------------------------------------------------------
  // Reading the store.
  // ---------------------------------------------------------------------

  /** The tracking file on disk: missing, or present and either empty
      (zero bytes) or holding text that is the JSON of some entries or not
      valid JSON at all. */
  datatype StoreFile = Absent | Present(empty: bool, contents: Option<Store>)

  /** `_load()`: a missing or zero-length file is the empty ledger; a file
      that does not parse makes `json.load` raise, which no caller catches. */
  function Load(file: StoreFile): (r: Result<Store>)
    ensures file.Absent? || file.empty ==> r == Ok(map[])
    ensures r.Err? <==> file.Present? && !file.empty && file.contents.None?
    ensures r.Ok? && file.Present? && !file.empty ==> r.value == file.contents.value
  {
    if file.Absent? || file.empty then Ok(map[])
    else if file.contents.None? then Err("tracking file is not valid JSON")
    else Ok(file.contents.value)
  }

  /** `_save(data)`: `json.dump` writes at least `{}`, so the file is never
      left empty. */
  function Save(data: Store): StoreFile
  {
    Present(false, Some(data))
  }

  /** Whatever a mutator saves is what the next read loads, the empty
      ledger included; and loading a file and saving the result leaves a
      file that loads to the same entries. */
  lemma LoadSaveRoundTrip(data: Store, file: StoreFile)
    ensures Load(Save(data)) == Ok(data)
    ensures Load(file).Ok? ==> Load(Save(Load(file).value)) == Load(file)
  {
  }

  /** `get_entry(date_str)` */
  function GetEntry(store: Store, d: string): (r: Option<Record>)
    ensures r.None? <==> d !in store
    ensures r.Some? ==> r.value == store[d]
  {
    if d in store then Some(store[d]) else None
  }

  /** `is_video_created(date_str)`: the flag is trusted only when the
      recorded file is still there. */
  function IsVideoCreated(store: Store, fs: FileSystem, d: string): (r: bool)
    ensures r <==> d in store && store[d].videoCreated && Truthy(store[d].videoPath) && fs.Exists(store[d].videoPath.value)
  {
    match GetEntry(store, d)
    case None => false
    case Some(entry) =>
      if entry.videoCreated && Truthy(entry.videoPath) then fs.Exists(entry.videoPath.value) else false
  }

  /** `is_uploaded(date_str)`: a plain flag read, no remote check. */
  function IsUploaded(store: Store, d: string): (r: bool)
    ensures r <==> d in store && store[d].youtubeUploaded
  {
    match GetEntry(store, d)
    case None => false
    case Some(entry) => entry.youtubeUploaded
  }

  /** `get_dates_needing_video(date_list)` */
  function DatesNeedingVideo(store: Store, fs: FileSystem, dates: seq<string>): (r: seq<string>)
    ensures forall x :: x in r <==> x in dates && !IsVideoCreated(store, fs, x)
    ensures forall x :: multiset(r)[x] == if IsVideoCreated(store, fs, x) then 0 else multiset(dates)[x]
    ensures IsSubsequence(r, dates)
  {
    Filter(dates, d => !IsVideoCreated(store, fs, d))
  }

  /** `get_dates_needing_upload(date_list)` */
  function DatesNeedingUpload(store: Store, fs: FileSystem, dates: seq<string>): (r: seq<string>)
    ensures forall x :: x in r <==> x in dates && IsVideoCreated(store, fs, x) && !IsUploaded(store, x)
    ensures forall x :: multiset(r)[x] == if IsVideoCreated(store, fs, x) && !IsUploaded(store, x) then multiset(dates)[x] else 0
    ensures IsSubsequence(r, dates)
  {
    Filter(dates, d => IsVideoCreated(store, fs, d) && !IsUploaded(store, d))
  }

  /** No date needs both a video and an upload. */
  lemma NeedingVideoAndUploadDisjoint(store: Store, fs: FileSystem, dates: seq<string>)
    ensures forall x :: x in DatesNeedingVideo(store, fs, dates) ==> x !in DatesNeedingUpload(store, fs, dates)
  {
  }

  // ---------------------------------------------------------------------
  // The new contents after each mutation.
  // ---------------------------------------------------------------------

  function EntryOrNew(store: Store, d: string): Record
  {
    if d in store then store[d] else NewRecord
  }

  /** The ledger after `mark_video_created(d, ...)` recorded `path`. */
  function WithVideoCreated(store: Store, d: string, path: string, now: string): (r: Store)
    ensures r.Keys == store.Keys + {d}
    ensures r[d].videoCreated && r[d].videoPath == Some(path) && r[d].createdAt == Some(now)
    ensures r[d].youtubeUploaded == (d in store && store[d].youtubeUploaded)
    ensures r[d].youtubeVideoId == EntryOrNew(store, d).youtubeVideoId
    ensures r[d].uploadedAt == EntryOrNew(store, d).uploadedAt
    ensures forall k :: k in store && k != d ==> r[k] == store[k]
  {
    store[d := EntryOrNew(store, d).(videoCreated := true, videoPath := Some(path), createdAt := Some(now))]
  }

  /** The ledger after `mark_uploaded(d, videoId)`. */
  function WithUploaded(store: Store, d: string, videoId: string, now: string): (r: Store)
    ensures r.Keys == store.Keys + {d}
    ensures r[d].youtubeUploaded && r[d].youtubeVideoId == Some(videoId) && r[d].uploadedAt == Some(now)
    ensures r[d].videoCreated == (d in store && store[d].videoCreated)
    ensures r[d].videoPath == EntryOrNew(store, d).videoPath
    ensures r[d].createdAt == EntryOrNew(store, d).createdAt
    ensures forall k :: k in store && k != d ==> r[k] == store[k]
  {
    store[d := EntryOrNew(store, d).(youtubeUploaded := true, youtubeVideoId := Some(videoId), uploadedAt := Some(now))]
  }

  /** The ledger after `unmark_video_created(d)`, which the program calls
      but whose definition is not part of this model: it is taken to clear
      the video flag of an existing entry and to leave everything else. */
  function WithoutVideo(store: Store, d: string): (r: Store)
    ensures r.Keys == store.Keys
    ensures d in store ==> r[d] == store[d].(videoCreated := false)
    ensures forall k :: k in store && k != d ==> r[k] == store[k]
  {
    if d in store then store[d := store[d].(videoCreated := false)] else store
  }

  /** The ledger after `unmark_uploaded(d)`, taken likewise to clear the
      upload flag only. */
  function WithoutUpload(store: Store, d: string): (r: Store)
    ensures r.Keys == store.Keys
    ensures d in store ==> r[d] == store[d].(youtubeUploaded := false)
    ensures forall k :: k in store && k != d ==> r[k] == store[k]
  {
    if d in store then store[d := store[d].(youtubeUploaded := false)] else store
  }

  /** A key `cleanup_old_entries` deletes: it parses as a date strictly
      before the cutoff day. Keys that do not parse are skipped. */
  predicate Expired(key: string, cutoff: int)
  {
    ParseDate(key).Some? && Ordinal(ParseDate(key).value) < cutoff
  }

  /** `(now - timedelta(days=keepDays)).date()` as a day number. */
  function CleanupCutoff(today: Date, keepDays: int): int
    requires ValidDate(today)
  {
    Ordinal(today) - keepDays
  }

  /** The ledger after `cleanup_old_entries`. */
  function Purged(store: Store, cutoff: int): (r: Store)
    ensures forall k :: k in r <==> k in store && !Expired(k, cutoff)
    ensures forall k :: k in r ==> r[k] == store[k]
  {
    map k | k in store && !Expired(k, cutoff) :: store[k]
  }

  // ---------------------------------------------------------------------
  // What the readers see after each mutation.
  // ---------------------------------------------------------------------

  /** After `mark_video_created` the date reads as created exactly when the
      recorded file exists; its upload state and every other date read as
      before. */
  lemma MarkVideoCreatedReads(store: Store, fs: FileSystem, d: string, path: string, now: string)
    ensures var s := WithVideoCreated(store, d, path, now);
      && (IsVideoCreated(s, fs, d) <==> path != "" && fs.Exists(path))
      && IsUploaded(s, d) == IsUploaded(store, d)
      && (forall k :: k != d ==> IsVideoCreated(s, fs, k) == IsVideoCreated(store, fs, k) && IsUploaded(s, k) == IsUploaded(store, k))
  {
  }

  /** After `mark_uploaded` the date reads as uploaded; whether it reads as
      created, and everything about other dates, is as before. */
  lemma MarkUploadedReads(store: Store, fs: FileSystem, d: string, videoId: string, now: string)
    ensures var s := WithUploaded(store, d, videoId, now);
      && IsUploaded(s, d)
      && (forall k :: IsVideoCreated(s, fs, k) == IsVideoCreated(store, fs, k))
      && (forall k :: k != d ==> IsUploaded(s, k) == IsUploaded(store, k))
  {
  }

  /** After `unmark_video_created` the date reads as not created even if its
      file is still on disk. */
  lemma UnmarkVideoReads(store: Store, fs: FileSystem, d: string)
    ensures var s := WithoutVideo(store, d);
      && !IsVideoCreated(s, fs, d)
      && (forall k :: IsUploaded(s, k) == IsUploaded(store, k))
      && (forall k :: k != d ==> IsVideoCreated(s, fs, k) == IsVideoCreated(store, fs, k))
  {
  }

  /** After `unmark_uploaded` the date reads as not uploaded. */
  lemma UnmarkUploadReads(store: Store, fs: FileSystem, d: string)
    ensures var s := WithoutUpload(store, d);
      && !IsUploaded(s, d)
      && (forall k :: IsVideoCreated(s, fs, k) == IsVideoCreated(store, fs, k))
      && (forall k :: k != d ==> IsUploaded(s, k) == IsUploaded(store, k))
  {
  }

  /** Purging changes the ledger exactly when some key is expired, so the
      file is left as it was when nothing is removed. */
  lemma PurgedUnchangedIffNothingExpired(store: Store, cutoff: int)
    ensures Purged(store, cutoff) == store <==> forall k :: k in store ==> !Expired(k, cutoff)
  {
  }

  // ---------------------------------------------------------------------
  // The tracking file itself.
  // ---------------------------------------------------------------------

  class Ledger {
    /** The entries of `data/tracking.json`. */
    var data: Store

    constructor (initial: Store)
      ensures data == initial
    {
      data := initial;
    }

    /** The ledger as the next `_load()` sees it: the file's entries, or
        the error that stops the caller. */
    static method Open(file: StoreFile) returns (r: Result<Ledger>)
      ensures r.Err? <==> Load(file).Err?
      ensures r.Ok? ==> fresh(r.value) && r.value.data == Load(file).value
    {
      var loaded := Load(file);
      if loaded.Err? {
        return Err(loaded.msg);
      }
      var ledger := new Ledger(loaded.value);
      return Ok(ledger);
    }

    /** `mark_video_created(d, videoPath)`: records the resolved path. */
    method MarkVideoCreated(d: string, videoPath: string, fs: FileSystem, now: string)
      modifies this
      ensures data == WithVideoCreated(old(data), d, fs.Resolve(videoPath), now)
    {
      var entries := data;
      if d !in entries {
        entries := entries[d := NewRecord];
      }
      entries := entries[d := entries[d].(videoCreated := true, videoPath := Some(fs.Resolve(videoPath)), createdAt := Some(now))];
      data := entries;
    }

    /** `mark_uploaded(d, videoId)` */
    method MarkUploaded(d: string, videoId: string, now: string)
      modifies this
      ensures data == WithUploaded(old(data), d, videoId, now)
    {
      var entries := data;
      if d !in entries {
        entries := entries[d := NewRecord];
      }
      entries := entries[d := entries[d].(youtubeUploaded := true, youtubeVideoId := Some(videoId), uploadedAt := Some(now))];
      data := entries;
    }

    /** `unmark_video_created(d)`, as its callers use it. */
    method UnmarkVideoCreated(d: string)
      modifies this
      ensures data == WithoutVideo(old(data), d)
    {
      if d in data {
        data := data[d := data[d].(videoCreated := false)];
      }
    }

    /** `unmark_uploaded(d)`, as its callers use it. */
    method UnmarkUploaded(d: string)
      modifies this
      ensures data == WithoutUpload(old(data), d)
    {
      if d in data {
        data := data[d := data[d].(youtubeUploaded := false)];
      }
    }

    /** `cleanup_old_entries(keepDays)`, with `today` the current UTC date:
        deletes the keys that parse as dates before the cutoff, one key at a
        time, and writes the file back only if something was deleted. */
    method CleanupOldEntries(keepDays: int, today: Date)
      requires ValidDate(today)
      modifies this
      ensures data == Purged(old(data), CleanupCutoff(today, keepDays))
    {
      var entries := data;
      var cutoff := Ordinal(today) - keepDays;
      var removed: set<string> := {};
      var keys := entries.Keys;
      while keys != {}
        invariant keys <= old(data).Keys
        invariant forall k :: k in entries <==> k in old(data) && (k in keys || !Expired(k, cutoff))
        invariant forall k :: k in entries ==> entries[k] == old(data)[k]
        invariant forall k :: k in removed <==> k in old(data) && k !in keys && Expired(k, cutoff)
        decreases keys
      {
        var k :| k in keys;
        match ParseDate(k) {
          case None =>
          case Some(entryDate) =>
            if Ordinal(entryDate) < cutoff {
              removed := removed + {k};
              entries := entries - {k};
            }
        }
        keys := keys - {k};
      }
      assert entries == Purged(old(data), cutoff);
      if removed != {} {
        data := entries;
      } else {
        PurgedUnchangedIffNothingExpired(old(data), cutoff);
      }
    }
  }
}
