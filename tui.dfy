/** The interactive manager of `utils/tui.py`: the per-date action menu, the
    single-date actions that touch the ledger or the channel, regenerating
    every recent video, and reconciling the ledger with the channel.
    Answers to prompts and confirmations are inputs; rendering, screen
    clearing and pauses are not modelled. */
module Tui {
  import opened Wrappers
  import opened Strings
  import opened Calendar
  import opened Files
  import opened Tracking
  import opened YouTubeUpload
  import opened Pipeline

  // ---------------------------------------------------------------------
  // Helpers
  // ---------------------------------------------------------------------

  /** `_format_date_display(s)`: `"%B %d, %Y"` when `s` parses as
      `"%Y-%m-%d"`, otherwise `s` itself. */
  function FormatDateDisplay(s: string): string
  {
    match ParseDate(s)
    case Some(dt) => LongDate(dt)
    case None => s
  }

  /** The menu header shows the same date text that the video's title and
      description embed. */
  lemma DisplayMatchesTitle(s: string)
    ensures MakeVideoTitle(s) == TitlePrefix + FormatDateDisplay(s) + TitleSuffix
    ensures MakeVideoDescription(s) == DescriptionLead + FormatDateDisplay(s) + DescriptionTail
  {
  }

  /** A valid date's key is displayed with its month name, its two-digit
      day and its four-digit year. */
  lemma DisplayOfDate(dt: Date)
    requires ValidDate(dt)
    ensures FormatDateDisplay(IsoFormat(dt)) == MonthName(dt.month) + " " + Digits(dt.day, 2) + ", " + Digits(dt.year, 4)
  {
    ParseIsoFormat(dt);
  }

  /** Two canonical keys are displayed alike only when they are the same. */
  lemma DisplayInjective(a: string, b: string)
    requires IsCanonicalKey(a) && IsCanonicalKey(b)
    requires FormatDateDisplay(a) == FormatDateDisplay(b)
    ensures a == b
  {
    LongDateInjective(ParseDate(a).value, ParseDate(b).value);
  }

  /** `_get_recent_dates()` over the dates the API listed: the same window,
      the same sort and the same errors as the daily run's date choice. */
  function GetRecentDates(all: seq<string>, today: Date): (r: Result<seq<string>>)
    requires ValidDate(today)
    ensures r == GetRecentEpicDates(all, today)
  {
    if Ordinal(today) <= LookbackDays then Err("date value out of range")
    else if exists k :: 0 <= k < |all| && ParseDate(all[k]).None? then Err("time data does not match format '%Y-%m-%d'")
    else Ok(SortStrings(Filter(all, d => InWindow(d, today))))
  }

  // ---------------------------------------------------------------------
  // The action menu of manage_single_date
  // ---------------------------------------------------------------------

  /** One menu line: the key typed, the caption shown, the action's name. */
  datatype Action = Action(key: string, caption: string, name: string)

  predicate Offers(actions: seq<Action>, name: string)
  {
    exists i :: 0 <= i < |actions| && actions[i].name == name
  }

  predicate KeysUnique(actions: seq<Action>)
  {
    forall i, j :: 0 <= i < j < |actions| ==> actions[i].key != actions[j].key
  }

  /** The menu for a date with and without a video and an upload: one line
      per action, in menu order. */
  function Menu(hasVideo: bool, hasUpload: bool): seq<Action>
  {
    [if !hasVideo then Action("1", "Create Video", "create") else Action("1", "Regenerate Video", "regenerate")]
    + (if hasVideo && !hasUpload then [Action("2", "Upload to YouTube", "upload")]
       else if hasUpload then [Action("2", "Re-upload to YouTube (delete old + upload new)", "reupload")]
       else [])
    + (if hasUpload then [Action("3", "Remove from YouTube", "remove_yt"), Action("4", "Edit YouTube Title/Description", "edit_meta")] else [])
    + (if hasVideo then [Action("5", "Edit Video Overlay Text", "edit_overlay"), Action("6", "Delete Local Video File", "delete_local")] else [])
    + [Action("0", "Back", "back")]
  }

  /** The menu for each combination of flags, line by line. */
  lemma MenuLines(hasVideo: bool, hasUpload: bool)
    ensures var create, regenerate := Action("1", "Create Video", "create"), Action("1", "Regenerate Video", "regenerate");
      var upload := Action("2", "Upload to YouTube", "upload");
      var reupload := Action("2", "Re-upload to YouTube (delete old + upload new)", "reupload");
      var removeYt, editMeta := Action("3", "Remove from YouTube", "remove_yt"), Action("4", "Edit YouTube Title/Description", "edit_meta");
      var editOverlay, deleteLocal := Action("5", "Edit Video Overlay Text", "edit_overlay"), Action("6", "Delete Local Video File", "delete_local");
      var back := Action("0", "Back", "back");
      Menu(hasVideo, hasUpload) ==
        if !hasVideo && !hasUpload then [create, back]
        else if !hasVideo then [create, reupload, removeYt, editMeta, back]
        else if !hasUpload then [regenerate, upload, editOverlay, deleteLocal, back]
        else [regenerate, reupload, removeYt, editMeta, editOverlay, deleteLocal, back]
  {
  }

  /** The actions about the local video: "create" without one, otherwise
      "regenerate", "edit_overlay" and "delete_local". */
  lemma MenuOffersVideoActions(hasVideo: bool, hasUpload: bool)
    ensures var actions := Menu(hasVideo, hasUpload);
      && (Offers(actions, "create") <==> !hasVideo)
      && (Offers(actions, "regenerate") <==> hasVideo)
      && (Offers(actions, "edit_overlay") <==> hasVideo)
      && (Offers(actions, "delete_local") <==> hasVideo)
  {
    var actions := Menu(hasVideo, hasUpload);
    MenuLines(hasVideo, hasUpload);
    if !hasVideo {
      assert actions[0].name == "create";
    } else if !hasUpload {
      assert actions[0].name == "regenerate" && actions[2].name == "edit_overlay" && actions[3].name == "delete_local";
    } else {
      assert actions[0].name == "regenerate" && actions[4].name == "edit_overlay" && actions[5].name == "delete_local";
    }
  }

  /** The actions about the channel: "upload" for a video not uploaded yet;
      "reupload", "remove_yt" and "edit_meta" once uploaded, with or
      without a local video. */
  lemma MenuOffersChannelActions(hasVideo: bool, hasUpload: bool)
    ensures var actions := Menu(hasVideo, hasUpload);
      && (Offers(actions, "upload") <==> hasVideo && !hasUpload)
      && (Offers(actions, "reupload") <==> hasUpload)
      && (Offers(actions, "remove_yt") <==> hasUpload)
      && (Offers(actions, "edit_meta") <==> hasUpload)
  {
    var actions := Menu(hasVideo, hasUpload);
    MenuLines(hasVideo, hasUpload);
    if hasUpload {
      assert actions[1].name == "reupload" && actions[2].name == "remove_yt" && actions[3].name == "edit_meta";
    } else if hasVideo {
      assert actions[1].name == "upload";
    }
  }

  /** Every key appears once in the menu, and "back" is always its last
      line. */
  lemma MenuKeys(hasVideo: bool, hasUpload: bool)
    ensures KeysUnique(Menu(hasVideo, hasUpload))
    ensures var actions := Menu(hasVideo, hasUpload); actions[|actions| - 1] == Action("0", "Back", "back")
  {
  }

  /** The actions `manage_single_date(d)` offers, built by appends from the
      date's two flags as the readers report them. */
  method ManageActions(store: Store, fs: FileSystem, d: string) returns (actions: seq<Action>)
    ensures actions == Menu(IsVideoCreated(store, fs, d), IsUploaded(store, d))
  {
    var hasVideo := IsVideoCreated(store, fs, d);
    var hasUpload := IsUploaded(store, d);
    actions := [];
    if !hasVideo {
      actions := actions + [Action("1", "Create Video", "create")];
    } else {
      actions := actions + [Action("1", "Regenerate Video", "regenerate")];
    }
    if hasVideo && !hasUpload {
      actions := actions + [Action("2", "Upload to YouTube", "upload")];
    } else if hasUpload {
      actions := actions + [Action("2", "Re-upload to YouTube (delete old + upload new)", "reupload")];
    }
    if hasUpload {
      actions := actions + [Action("3", "Remove from YouTube", "remove_yt")];
    }
    if hasUpload {
      actions := actions + [Action("4", "Edit YouTube Title/Description", "edit_meta")];
    }
    if hasVideo {
      actions := actions + [Action("5", "Edit Video Overlay Text", "edit_overlay")];
    }
    if hasVideo {
      actions := actions + [Action("6", "Delete Local Video File", "delete_local")];
    }
    actions := actions + [Action("0", "Back", "back")];
  }

  /** `next(a[2] for a in actions if a[0] == choice)`: the name of the first
      action with that key; None where the generator would be exhausted. */
  function SelectedAction(actions: seq<Action>, choice: string): (r: Option<string>)
    ensures r.None? <==> forall i :: 0 <= i < |actions| ==> actions[i].key != choice
    ensures r.Some? ==> exists i :: 0 <= i < |actions| && actions[i].key == choice && actions[i].name == r.value
  {
    if actions == [] then None
    else if actions[0].key == choice then Some(actions[0].name)
    else
      var r := SelectedAction(actions[1..], choice);
      assert forall i :: 1 <= i < |actions| ==> actions[i] == actions[1..][i - 1];
      r
  }

  /** With unique keys, typing an action's key selects that very action. */
  lemma SelectedIsKeyed(actions: seq<Action>, i: nat)
    requires KeysUnique(actions)
    requires i < |actions|
    ensures SelectedAction(actions, actions[i].key) == Some(actions[i].name)
  {
  }

  // ---------------------------------------------------------------------
  // Single-date actions
  // ---------------------------------------------------------------------

  /** The checks `_action_upload_video(d)` makes before calling
      `upload_video`: a recorded path that exists, a confirmation, and a
      working YouTube login. */
  predicate UploadGuardsPass(store: Store, fs: FileSystem, d: string, confirmed: bool, authOk: bool)
  {
    var path := EntryOrNew(store, d).videoPath;
    Truthy(path) && fs.Exists(path.value) && confirmed && authOk
  }

  /** The ledger after `_action_upload_video(d)`; `insert(k)` is the
      outcome of the k-th insert call. */
  function UploadActionResult(store: Store, fs: FileSystem, d: string, confirmed: bool, authOk: bool,
                              insert: nat -> Option<string>, now: string): (r: Store)
    ensures !UploadGuardsPass(store, fs, d, confirmed, authOk) ==> r == store
    ensures !Truthy(FirstSuccess(insert, 1)) ==> r == store
    ensures UploadGuardsPass(store, fs, d, confirmed, authOk) && Truthy(FirstSuccess(insert, 1)) ==>
      d in store && d in r
      && r[d] == store[d].(youtubeUploaded := true, youtubeVideoId := FirstSuccess(insert, 1), uploadedAt := Some(now))
    ensures IsUploaded(r, d) <==> IsUploaded(store, d) || (UploadGuardsPass(store, fs, d, confirmed, authOk) && Truthy(FirstSuccess(insert, 1)))
    ensures r != store ==> d in r && r[d].youtubeVideoId == FirstSuccess(insert, 1)
    ensures forall k :: k != d ==> (k in r <==> k in store) && (k in store ==> r[k] == store[k])
    ensures forall k :: IsVideoCreated(r, fs, k) == IsVideoCreated(store, fs, k)
  {
    var videoId := FirstSuccess(insert, 1);
    if UploadGuardsPass(store, fs, d, confirmed, authOk) && Truthy(videoId) then
      MarkUploadedReads(store, fs, d, videoId.value, now);
      WithUploaded(store, d, videoId.value, now)
    else store
  }

  /** `_action_upload_video(d)`: `confirmed` is the answer to the upload
      question and `authOk` whether logging in to YouTube worked. */
  method ActionUploadVideo(ledger: Ledger, fs: FileSystem, d: string, confirmed: bool, authOk: bool,
                           insert: nat -> Option<string>, now: string)
    returns (videoId: Option<string>)
    modifies ledger
    ensures ledger.data == UploadActionResult(old(ledger.data), fs, d, confirmed, authOk, insert, now)
    ensures videoId == if UploadGuardsPass(old(ledger.data), fs, d, confirmed, authOk) then FirstSuccess(insert, 1) else None
  {
    videoId := None;
    var entry := GetEntry(ledger.data, d);
    var videoPath := if entry.Some? then entry.value.videoPath else None;
    if !Truthy(videoPath) || !fs.Exists(videoPath.value) {
      return;
    }
    if !confirmed || !authOk {
      return;
    }
    var attempts;
    videoId, attempts := UploadVideo(fs.Exists(videoPath.value), insert);
    if Truthy(videoId) {
      ledger.MarkUploaded(d, videoId.value, now);
    }
  }

  /** The checks `_action_remove_from_youtube(d)` makes before calling
      `delete_video`: a tracked id, a confirmation and a working login. */
  predicate RemoveGuardsPass(store: Store, d: string, confirmed: bool, authOk: bool)
  {
    Truthy(EntryOrNew(store, d).youtubeVideoId) && confirmed && authOk
  }

  /** The ledger after `_action_remove_from_youtube(d)`; `deleteRaised`
      says whether the delete call raised. */
  function RemoveActionResult(store: Store, d: string, confirmed: bool, authOk: bool, deleteRaised: bool): (r: Store)
    ensures !Truthy(EntryOrNew(store, d).youtubeVideoId) ==> r == store
    ensures !(RemoveGuardsPass(store, d, confirmed, authOk) && !deleteRaised) ==> r == store
    ensures RemoveGuardsPass(store, d, confirmed, authOk) && !deleteRaised ==>
      d in store && d in r && r[d] == store[d].(youtubeUploaded := false)
    ensures !IsUploaded(r, d) <==> !IsUploaded(store, d) || (RemoveGuardsPass(store, d, confirmed, authOk) && !deleteRaised)
    ensures forall k :: k != d ==> (k in r <==> k in store) && (k in store ==> r[k] == store[k])
    ensures forall fs: FileSystem, k :: IsVideoCreated(r, fs, k) == IsVideoCreated(store, fs, k)
  {
    if RemoveGuardsPass(store, d, confirmed, authOk) && !deleteRaised then
      WithoutUpload(store, d)
    else store
  }

  /** `_action_remove_from_youtube(d)`; whether `delete_video` was called. */
  method ActionRemoveFromYoutube(ledger: Ledger, d: string, confirmed: bool, authOk: bool, deleteRaised: bool)
    returns (deleteCalled: bool)
    modifies ledger
    ensures ledger.data == RemoveActionResult(old(ledger.data), d, confirmed, authOk, deleteRaised)
    ensures deleteCalled <==> RemoveGuardsPass(old(ledger.data), d, confirmed, authOk)
  {
    deleteCalled := false;
    var entry := GetEntry(ledger.data, d);
    var videoId := if entry.Some? then entry.value.youtubeVideoId else None;
    if !Truthy(videoId) {
      return;
    }
    if !confirmed || !authOk {
      return;
    }
    deleteCalled := true;
    // `delete_video` returns True exactly when the delete call did not raise.
    var success := !deleteRaised;
    if success {
      ledger.UnmarkUploaded(d);
    }
  }

  /** `_action_reupload_video(d)`: after the first confirmation, the removal
      and then the upload, each with its own confirmation and login. The
      upload goes ahead even when the removal did not happen. */
  method ActionReuploadVideo(ledger: Ledger, fs: FileSystem, d: string, confirmed: bool,
                             confirmDelete: bool, authDelete: bool, deleteRaised: bool,
                             confirmUpload: bool, authUpload: bool, insert: nat -> Option<string>, now: string)
    modifies ledger
    ensures !confirmed ==> ledger.data == old(ledger.data)
    ensures confirmed ==> ledger.data == UploadActionResult(RemoveActionResult(old(ledger.data), d, confirmDelete, authDelete, deleteRaised),
                                                            fs, d, confirmUpload, authUpload, insert, now)
  {
    if !confirmed {
      return;
    }
    var _ := ActionRemoveFromYoutube(ledger, d, confirmDelete, authDelete, deleteRaised);
    var _ := ActionUploadVideo(ledger, fs, d, confirmUpload, authUpload, insert, now);
  }

  /** `_action_edit_youtube_metadata(d)`: `newTitle` and `newDesc` are the
      answers (empty to keep), `lookup` and `updateRaised` what the channel
      does. Returns whether `update_video_metadata` was called, what it
      returned and the snippet it sent. The ledger is only read. */
  method ActionEditYoutubeMetadata(store: Store, d: string, newTitle: string, newDesc: string, authOk: bool,
                                   lookup: Lookup, updateRaised: bool)
    returns (called: bool, ok: bool, sent: Option<map<string, Value>>)
    ensures called <==> Truthy(EntryOrNew(store, d).youtubeVideoId) && (newTitle != "" || newDesc != "") && authOk
    ensures !called ==> !ok && sent.None?
    ensures called ==> (sent.Some? <==> lookup.Found?) && (ok <==> lookup.Found? && !updateRaised)
    ensures sent.Some? ==> var before, after := lookup.snippet, sent.value;
      && (newTitle != "" ==> "title" in after && after["title"] == Text(newTitle))
      && (newDesc != "" ==> "description" in after && after["description"] == Text(newDesc))
      && ("tags" in after <==> "tags" in before)
      && (forall k :: k in before && !(k == "title" && newTitle != "") && !(k == "description" && newDesc != "") ==>
            k in after && after[k] == before[k])
  {
    called, ok, sent := false, false, None;
    var entry := GetEntry(store, d);
    var videoId := if entry.Some? then entry.value.youtubeVideoId else None;
    if !Truthy(videoId) {
      return;
    }
    if newTitle == "" && newDesc == "" {
      return;
    }
    if !authOk {
      return;
    }
    called := true;
    // An empty answer keeps the current value: the argument is None.
    var title := if newTitle != "" then Some(newTitle) else None;
    var description := if newDesc != "" then Some(newDesc) else None;
    ok, sent := UpdateVideoMetadata(lookup, title, description, None, updateRaised);
  }

  // ---------------------------------------------------------------------
  // _batch_regenerate_all
  // ---------------------------------------------------------------------

  datatype UnmarkState = UnmarkState(store: Store, fs: FileSystem)

  /** One date of the unmarking loop: delete the recorded file if it is
      there, then clear the video flag. */
  function UnmarkStep(st: UnmarkState, d: string): UnmarkState
  {
    var vp := EntryOrNew(st.store, d).videoPath;
    var fs := if Truthy(vp) && st.fs.Exists(vp.value) then st.fs.Unlink(vp.value) else st.fs;
    UnmarkState(WithoutVideo(st.store, d), fs)
  }

  function UnmarkRun(st: UnmarkState, ds: seq<string>): UnmarkState
    decreases |ds|
  {
    if ds == [] then st else UnmarkStep(UnmarkRun(st, ds[..|ds| - 1]), ds[|ds| - 1])
  }

  lemma UnmarkRunSnoc(st: UnmarkState, ds: seq<string>, i: nat)
    requires i < |ds|
    ensures UnmarkRun(st, ds[..i + 1]) == UnmarkStep(UnmarkRun(st, ds[..i]), ds[i])
  {
    assert ds[..i + 1][..i] == ds[..i];
  }

  /** Unmarking keeps every key and every recorded path, clears the video
      flag of each listed date, and leaves other dates' entries and all
      upload state as they were; on disk it only deletes. */
  lemma {:induction false} UnmarkRunEntries(st: UnmarkState, ds: seq<string>)
    ensures var r := UnmarkRun(st, ds);
      && r.store.Keys == st.store.Keys
      && (forall k :: k in st.store ==> r.store[k] == st.store[k].(videoCreated := r.store[k].videoCreated))
      && (forall k :: k in st.store && k in ds ==> !r.store[k].videoCreated)
      && (forall k :: k in st.store && k !in ds ==> r.store[k] == st.store[k])
      && r.fs.cwd == st.fs.cwd && r.fs.files <= st.fs.files
  {
    if ds != [] {
      UnmarkRunEntries(st, ds[..|ds| - 1]);
    }
  }

  /** After unmarking, no listed date reads as created, and the file each
      listed date had recorded is gone. */
  lemma {:induction false} UnmarkRunRemovesVideos(st: UnmarkState, ds: seq<string>)
    ensures var r := UnmarkRun(st, ds);
      && (forall d :: d in ds ==> !IsVideoCreated(r.store, r.fs, d))
      && (forall d :: d in ds && d in st.store && Truthy(st.store[d].videoPath) ==> !r.fs.Exists(st.store[d].videoPath.value))
  {
    UnmarkRunEntries(st, ds);
    if ds != [] {
      var init := ds[..|ds| - 1];
      var x := ds[|ds| - 1];
      UnmarkRunRemovesVideos(st, init);
      UnmarkRunEntries(st, init);
      var prev := UnmarkRun(st, init);
      var r := UnmarkStep(prev, x);
      forall d | d in ds && d in st.store && Truthy(st.store[d].videoPath)
        ensures !r.fs.Exists(st.store[d].videoPath.value)
      {
        if d != x {
          assert d in init;
        } else {
          assert prev.store[d].videoPath == st.store[d].videoPath;
        }
      }
    }
  }

  /** Hence the creation run that follows builds every listed date. */
  lemma RegenerateNeedsAll(st: UnmarkState, ds: seq<string>)
    ensures var r := UnmarkRun(st, ds); DatesNeedingVideo(r.store, r.fs, ds) == ds
  {
    var r := UnmarkRun(st, ds);
    UnmarkRunRemovesVideos(st, ds);
    assert forall k :: 0 <= k < |ds| ==> ds[k] in ds;
    FilterKeepsAll(ds, d => !IsVideoCreated(r.store, r.fs, d));
  }

  /** `_batch_regenerate_all()`: `recent` is what `_get_recent_dates()`
      returned or the error it raised, `confirmed` the answer to the
      question. */
  method BatchRegenerateAll(ledger: Ledger, fs: FileSystem, recent: Result<seq<string>>, confirmed: bool,
                            env: BuildEnv, now: string)
    returns (created: nat, fs': FileSystem)
    modifies ledger
    ensures recent.Err? || !confirmed ==> created == 0 && fs' == fs && ledger.data == old(ledger.data)
    ensures recent.Ok? && confirmed ==>
      var u := UnmarkRun(UnmarkState(old(ledger.data), fs), recent.value);
      var run := CreateRun(CreateState(u.store, u.fs, 0, []), recent.value, env, now);
      ledger.data == run.store && fs' == run.fs && created == run.created
  {
    created, fs' := 0, fs;
    if recent.Err? || !confirmed {
      return;
    }
    var dates := recent.value;
    ghost var start := UnmarkState(ledger.data, fs);
    var i := 0;
    assert dates[..0] == [];
    while i < |dates|
      invariant 0 <= i <= |dates|
      invariant UnmarkRun(start, dates[..i]) == UnmarkState(ledger.data, fs')
    {
      var d := dates[i];
      var entry := GetEntry(ledger.data, d);
      var vp := if entry.Some? then entry.value.videoPath else None;
      if Truthy(vp) && fs'.Exists(vp.value) {
        fs' := fs'.Unlink(vp.value);
      }
      ledger.UnmarkVideoCreated(d);
      UnmarkRunSnoc(start, dates, i);
      i := i + 1;
    }
    assert dates[..i] == dates;
    RegenerateNeedsAll(start, dates);
    created, fs' := CreateMissingVideos(ledger, fs', dates, env, now);
  }

  // ---------------------------------------------------------------------
  // youtube_sync
  // ---------------------------------------------------------------------

  /** The loop state: ledger, `synced` and `desynced`. */
  datatype SyncState = SyncState(store: Store, synced: nat, desynced: nat)

  /** One date: adopt a title found on the channel but not tracked, clear a
      tracked upload whose title is not on the channel. `titleOf` is the
      title builder (the sync uses `MakeVideoTitle`; the proofs about the
      loop hold for any). */
  function SyncStep(st: SyncState, d: string, titleOf: string -> string, titles: map<string, string>, now: string): SyncState
  {
    var title := titleOf(d);
    var onYoutube := title in titles;
    var inTracking := IsUploaded(st.store, d);
    if onYoutube && !inTracking then SyncState(WithUploaded(st.store, d, titles[title], now), st.synced + 1, st.desynced)
    else if !onYoutube && inTracking then SyncState(WithoutUpload(st.store, d), st.synced, st.desynced + 1)
    else st
  }

  function SyncRun(st: SyncState, ds: seq<string>, titleOf: string -> string, titles: map<string, string>, now: string): SyncState
    decreases |ds|
  {
    if ds == [] then st else SyncStep(SyncRun(st, ds[..|ds| - 1], titleOf, titles, now), ds[|ds| - 1], titleOf, titles, now)
  }

  lemma SyncRunSnoc(st: SyncState, ds: seq<string>, i: nat, titleOf: string -> string, titles: map<string, string>, now: string)
    requires i < |ds|
    ensures SyncRun(st, ds[..i + 1], titleOf, titles, now) == SyncStep(SyncRun(st, ds[..i], titleOf, titles, now), ds[i], titleOf, titles, now)
  {
    assert ds[..i + 1][..i] == ds[..i];
  }

  /** After the sync every processed date reads as uploaded exactly when
      its title is on the channel. */
  lemma {:induction false} SyncRunReads(st: SyncState, ds: seq<string>, titleOf: string -> string, titles: map<string, string>, now: string)
    ensures var r := SyncRun(st, ds, titleOf, titles, now);
      forall d :: d in ds ==> (IsUploaded(r.store, d) <==> titleOf(d) in titles)
  {
    if ds != [] {
      var init := ds[..|ds| - 1];
      var x := ds[|ds| - 1];
      SyncRunReads(st, init, titleOf, titles, now);
      var prev := SyncRun(st, init, titleOf, titles, now);
      assert forall d :: d in init ==> (IsUploaded(prev.store, d) <==> titleOf(d) in titles);
      var r := SyncStep(prev, x, titleOf, titles, now);
      var fs := FileSystem("/", {});
      if titleOf(x) in titles && !IsUploaded(prev.store, x) {
        MarkUploadedReads(prev.store, fs, x, titles[titleOf(x)], now);
      } else if titleOf(x) !in titles && IsUploaded(prev.store, x) {
        UnmarkUploadReads(prev.store, fs, x);
      }
      forall d | d in ds ensures IsUploaded(r.store, d) <==> titleOf(d) in titles {
        if d != x {
          assert d in init;
        }
      }
    }
  }

  /** The sync touches only the processed dates, and never a video flag or
      path. */
  lemma {:induction false} SyncRunKeepsOthers(st: SyncState, ds: seq<string>, titleOf: string -> string, titles: map<string, string>, now: string)
    ensures var r := SyncRun(st, ds, titleOf, titles, now);
      && (forall k :: k !in ds ==> (k in r.store <==> k in st.store) && (k in st.store ==> r.store[k] == st.store[k]))
      && (forall fs: FileSystem, k :: IsVideoCreated(r.store, fs, k) == IsVideoCreated(st.store, fs, k))
  {
    if ds != [] {
      var init := ds[..|ds| - 1];
      SyncRunKeepsOthers(st, init, titleOf, titles, now);
      assert forall k :: k !in ds ==> k !in init;
    }
  }

  /** Each processed date moves at most one counter, and when neither moved
      ("in sync") the ledger is unchanged. */
  lemma {:induction false} SyncRunCounts(st: SyncState, ds: seq<string>, titleOf: string -> string, titles: map<string, string>, now: string)
    ensures var r := SyncRun(st, ds, titleOf, titles, now);
      && st.synced <= r.synced && st.desynced <= r.desynced
      && r.synced + r.desynced <= st.synced + st.desynced + |ds|
      && (r.synced == st.synced && r.desynced == st.desynced ==> r.store == st.store)
  {
    if ds != [] {
      SyncRunCounts(st, ds[..|ds| - 1], titleOf, titles, now);
    }
  }

  /** A processed date whose title is on the channel but which was not
      tracked as uploaded ends up uploaded with the channel's id. */
  lemma {:induction false} SyncRunAdoptsId(st: SyncState, ds: seq<string>, titleOf: string -> string, titles: map<string, string>,
                                           now: string, x: string)
    requires x in ds && titleOf(x) in titles && !IsUploaded(st.store, x)
    ensures var r := SyncRun(st, ds, titleOf, titles, now);
      x in r.store && r.store[x].youtubeUploaded && r.store[x].youtubeVideoId == Some(titles[titleOf(x)])
  {
    var init := ds[..|ds| - 1];
    if x in init {
      SyncRunAdoptsId(st, init, titleOf, titles, now, x);
      SyncRunReads(st, init, titleOf, titles, now);
    } else {
      SyncRunKeepsOthers(st, init, titleOf, titles, now);
    }
  }

  /** A date on which the ledger already agrees with the channel keeps its
      entry, wherever it occurs in the dates. */
  lemma {:induction false} SyncRunKeepsAgreeing(st: SyncState, ds: seq<string>, titleOf: string -> string, titles: map<string, string>,
                                                now: string, x: string)
    requires IsUploaded(st.store, x) <==> titleOf(x) in titles
    ensures var r := SyncRun(st, ds, titleOf, titles, now);
      (x in r.store <==> x in st.store) && (x in st.store ==> r.store[x] == st.store[x])
  {
    if ds != [] {
      SyncRunKeepsAgreeing(st, ds[..|ds| - 1], titleOf, titles, now, x);
    }
  }

  /** The processed dates on the channel but not tracked as uploaded. */
  ghost function Adoptable(store: Store, ds: seq<string>, titleOf: string -> string, titles: map<string, string>): set<string>
  {
    set d | d in ds && titleOf(d) in titles && !IsUploaded(store, d)
  }

  /** The processed dates tracked as uploaded but not on the channel. */
  ghost function Clearable(store: Store, ds: seq<string>, titleOf: string -> string, titles: map<string, string>): set<string>
  {
    set d | d in ds && titleOf(d) !in titles && IsUploaded(store, d)
  }

  lemma AdoptableSnoc(store: Store, init: seq<string>, x: string, titleOf: string -> string, titles: map<string, string>)
    ensures Adoptable(store, init + [x], titleOf, titles)
      == if x !in init && titleOf(x) in titles && !IsUploaded(store, x)
         then Adoptable(store, init, titleOf, titles) + {x} else Adoptable(store, init, titleOf, titles)
    ensures x !in init ==> x !in Adoptable(store, init, titleOf, titles)
  {
    assert forall d :: d in init + [x] <==> d in init || d == x;
  }

  lemma ClearableSnoc(store: Store, init: seq<string>, x: string, titleOf: string -> string, titles: map<string, string>)
    ensures Clearable(store, init + [x], titleOf, titles)
      == if x !in init && titleOf(x) !in titles && IsUploaded(store, x)
         then Clearable(store, init, titleOf, titles) + {x} else Clearable(store, init, titleOf, titles)
    ensures x !in init ==> x !in Clearable(store, init, titleOf, titles)
  {
    assert forall d :: d in init + [x] <==> d in init || d == x;
  }

  /** `synced` counts the distinct processed dates that were on the channel
      but not tracked. */
  lemma {:induction false} SyncRunSyncedCount(st: SyncState, ds: seq<string>, titleOf: string -> string, titles: map<string, string>, now: string)
    ensures SyncRun(st, ds, titleOf, titles, now).synced == st.synced + |Adoptable(st.store, ds, titleOf, titles)|
  {
    if ds == [] {
      assert Adoptable(st.store, ds, titleOf, titles) == {};
    } else {
      var init, x := ds[..|ds| - 1], ds[|ds| - 1];
      assert ds == init + [x];
      SyncRunSyncedCount(st, init, titleOf, titles, now);
      AdoptableSnoc(st.store, init, x, titleOf, titles);
      var prev := SyncRun(st, init, titleOf, titles, now);
      if x in init {
        SyncRunReads(st, init, titleOf, titles, now);
        assert IsUploaded(prev.store, x) <==> titleOf(x) in titles;
      } else {
        SyncRunKeepsOthers(st, init, titleOf, titles, now);
        assert IsUploaded(prev.store, x) == IsUploaded(st.store, x);
      }
    }
  }

  /** `desynced` counts the distinct processed dates that were tracked as
      uploaded but not on the channel. */
  lemma {:induction false} SyncRunDesyncedCount(st: SyncState, ds: seq<string>, titleOf: string -> string, titles: map<string, string>, now: string)
    ensures SyncRun(st, ds, titleOf, titles, now).desynced == st.desynced + |Clearable(st.store, ds, titleOf, titles)|
  {
    if ds == [] {
      assert Clearable(st.store, ds, titleOf, titles) == {};
    } else {
      var init, x := ds[..|ds| - 1], ds[|ds| - 1];
      assert ds == init + [x];
      SyncRunDesyncedCount(st, init, titleOf, titles, now);
      ClearableSnoc(st.store, init, x, titleOf, titles);
      var prev := SyncRun(st, init, titleOf, titles, now);
      if x in init {
        SyncRunReads(st, init, titleOf, titles, now);
        assert IsUploaded(prev.store, x) <==> titleOf(x) in titles;
      } else {
        SyncRunKeepsOthers(st, init, titleOf, titles, now);
        assert IsUploaded(prev.store, x) == IsUploaded(st.store, x);
      }
    }
  }

  /** A ledger already in agreement with the channel is left as it is. */
  lemma {:induction false} SyncInSyncIsNoop(st: SyncState, ds: seq<string>, titleOf: string -> string, titles: map<string, string>, now: string)
    requires forall d :: d in ds ==> (IsUploaded(st.store, d) <==> titleOf(d) in titles)
    ensures SyncRun(st, ds, titleOf, titles, now) == st
  {
    if ds != [] {
      var init := ds[..|ds| - 1];
      assert forall d :: d in init ==> d in ds;
      SyncInSyncIsNoop(st, init, titleOf, titles, now);
    }
  }

  /** Syncing twice against the same listing: the second sync reports that
      tracking is in sync and changes nothing. */
  lemma SyncIdempotent(st: SyncState, ds: seq<string>, titleOf: string -> string, titles: map<string, string>, now: string)
    ensures var r := SyncRun(st, ds, titleOf, titles, now);
      SyncRun(SyncState(r.store, 0, 0), ds, titleOf, titles, now) == SyncState(r.store, 0, 0)
  {
    var r := SyncRun(st, ds, titleOf, titles, now);
    SyncRunReads(st, ds, titleOf, titles, now);
    SyncInSyncIsNoop(SyncState(r.store, 0, 0), ds, titleOf, titles, now);
  }

  /** What a sync from zero counters does: the counters are the numbers of
      dates adopted and cleared, every processed date ends in agreement
      with the channel, and adopted dates carry the channel's id. */
  lemma SyncOutcomes(store: Store, ds: seq<string>, titleOf: string -> string, titles: map<string, string>, now: string)
    ensures var r := SyncRun(SyncState(store, 0, 0), ds, titleOf, titles, now);
      && r.synced == |Adoptable(store, ds, titleOf, titles)|
      && r.desynced == |Clearable(store, ds, titleOf, titles)|
      && (forall d :: d in ds ==> (IsUploaded(r.store, d) <==> titleOf(d) in titles))
      && (forall d :: d in ds && titleOf(d) in titles && !IsUploaded(store, d) ==>
            d in r.store && r.store[d].youtubeVideoId == Some(titles[titleOf(d)]))
  {
    var st := SyncState(store, 0, 0);
    SyncRunSyncedCount(st, ds, titleOf, titles, now);
    SyncRunDesyncedCount(st, ds, titleOf, titles, now);
    SyncRunReads(st, ds, titleOf, titles, now);
    forall d | d in ds && titleOf(d) in titles && !IsUploaded(store, d)
      ensures var r := SyncRun(st, ds, titleOf, titles, now);
        d in r.store && r.store[d].youtubeVideoId == Some(titles[titleOf(d)])
    {
      SyncRunAdoptsId(st, ds, titleOf, titles, now, d);
    }
  }

  /** `youtube_sync()`: `authOk` says whether logging in worked, `listing`
      is the channel's title-to-id map or None when fetching it raised, and
      `recent` what `_get_recent_dates()` returned or the error it raised. */
  method YoutubeSync(ledger: Ledger, authOk: bool, listing: Option<map<string, string>>, recent: Result<seq<string>>, now: string)
    returns (synced: nat, desynced: nat)
    modifies ledger
    ensures !authOk || listing.None? || recent.Err? ==> synced == 0 && desynced == 0 && ledger.data == old(ledger.data)
    ensures authOk && listing.Some? && recent.Ok? ==>
      SyncRun(SyncState(old(ledger.data), 0, 0), recent.value, MakeVideoTitle, listing.value, now) == SyncState(ledger.data, synced, desynced)
    ensures authOk && listing.Some? && recent.Ok? ==>
      && synced == |Adoptable(old(ledger.data), recent.value, MakeVideoTitle, listing.value)|
      && desynced == |Clearable(old(ledger.data), recent.value, MakeVideoTitle, listing.value)|
      && (forall d :: d in recent.value ==> (IsUploaded(ledger.data, d) <==> MakeVideoTitle(d) in listing.value))
      && (forall d :: d in recent.value && MakeVideoTitle(d) in listing.value && !IsUploaded(old(ledger.data), d) ==>
            d in ledger.data && ledger.data[d].youtubeVideoId == Some(listing.value[MakeVideoTitle(d)]))
  {
    synced, desynced := 0, 0;
    if !authOk || listing.None? || recent.Err? {
      return;
    }
    var titles := listing.value;
    var dates := recent.value;
    ghost var start := SyncState(ledger.data, 0, 0);
    var i := 0;
    assert dates[..0] == [];
    while i < |dates|
      invariant 0 <= i <= |dates|
      invariant SyncRun(start, dates[..i], MakeVideoTitle, titles, now) == SyncState(ledger.data, synced, desynced)
    {
      var added, cleared := SyncDate(ledger, dates[i], titles, now, SyncState(ledger.data, synced, desynced));
      if added {
        synced := synced + 1;
      }
      if cleared {
        desynced := desynced + 1;
      }
      SyncRunSnoc(start, dates, i, MakeVideoTitle, titles, now);
      i := i + 1;
    }
    assert dates[..i] == dates;
    assert start.store == old(ledger.data);
    SyncOutcomes(start.store, dates, MakeVideoTitle, titles, now);
  }

  /** The body of the sync loop for date `d`, starting from loop state
      `st`: whether the date was added to tracking or cleared. */
  method SyncDate(ledger: Ledger, d: string, titles: map<string, string>, now: string, ghost st: SyncState)
    returns (added: bool, cleared: bool)
    requires st.store == ledger.data
    modifies ledger
    ensures SyncStep(st, d, MakeVideoTitle, titles, now)
      == SyncState(ledger.data, st.synced + (if added then 1 else 0), st.desynced + (if cleared then 1 else 0))
  {
    added, cleared := false, false;
    var title := MakeVideoTitle(d);
    var onYoutube := title in titles;
    var inTracking := IsUploaded(ledger.data, d);
    if onYoutube && !inTracking {
      ledger.MarkUploaded(d, titles[title], now);
      added := true;
    } else if !onYoutube && inTracking {
      ledger.UnmarkUploaded(d);
      cleared := true;
    }
  }
}
