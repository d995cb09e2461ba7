/** The daily run of `main.py`: choosing the recent dates, building the
    videos that are missing and publishing the videos that are not on the
    channel yet. The NASA API, the renderer, YouTube and the clock are
    inputs; the tracking file is a `Ledger` and the disk a `FileSystem`. */
module Pipeline {
  import opened Wrappers
  import opened Strings
  import opened Calendar
  import opened Files
  import opened Tracking
  import opened NasaApi
  import opened YouTubeUpload

  const FramesDir := "frames"
  const OutputDir := "output"
  const LookbackDays := 14

  // ---------------------------------------------------------------------
  // get_recent_epic_dates
  // ---------------------------------------------------------------------

  /** `cutoff <= d <= today` with `cutoff = today - LOOKBACK_DAYS`. */
  predicate InWindow(d: string, today: Date)
    requires ValidDate(today)
  {
    ParseDate(d).Some? && Ordinal(today) - LookbackDays <= Ordinal(ParseDate(d).value) <= Ordinal(today)
  }

  /** `get_recent_epic_dates` over the dates the API listed: an unparsable
      date makes strptime raise, and so does a cutoff before 0001-01-01. */
  function GetRecentEpicDates(all: seq<string>, today: Date): (r: Result<seq<string>>)
    requires ValidDate(today)
    ensures r.Err? <==> Ordinal(today) <= LookbackDays || exists k :: 0 <= k < |all| && ParseDate(all[k]).None?
    ensures r.Ok? ==> Sorted(r.value)
    ensures r.Ok? ==> forall d :: d in r.value <==> d in all && InWindow(d, today)
    ensures r.Ok? ==> forall d :: multiset(r.value)[d] == if InWindow(d, today) then multiset(all)[d] else 0
  {
    if Ordinal(today) <= LookbackDays then Err("date value out of range")
    else if exists k :: 0 <= k < |all| && ParseDate(all[k]).None? then Err("time data does not match format '%Y-%m-%d'")
    else
      var recent := Filter(all, d => InWindow(d, today));
      var sorted := SortStrings(recent);
      assert forall d :: d in sorted <==> d in recent by {
        forall d ensures d in sorted <==> d in recent {
          assert d in sorted <==> multiset(sorted)[d] > 0;
          assert d in recent <==> multiset(recent)[d] > 0;
        }
      }
      Ok(sorted)
  }

  // ---------------------------------------------------------------------
  // create_missing_videos
  // ---------------------------------------------------------------------

  /** `OUTPUT_DIR / f"epic_earth_{d}.mp4"` */
  function OutputPath(d: string): string
  {
    OutputDir + "/epic_earth_" + d + ".mp4"
  }

  /** What the outside world does for a date: the metadata request (Err
      when it raises), whether fetching an image URL succeeds, and whether
      rendering the video succeeds. */
  datatype BuildEnv = BuildEnv(
    metadata: string -> Result<seq<ImageMeta>>,
    fetchOk: string -> bool,
    renderOk: string -> bool)

  datatype BuildOutcome = Built(path: string) | NoImages | TooFewFrames | BuildFailed

  /** The body of the `try` for one date: the outcome and the file system
      before the `finally`. A built video is `create_video`'s resolved
      output path. */
  function BuildDate(fs: FileSystem, d: string, env: BuildEnv): (BuildOutcome, FileSystem)
  {
    match env.metadata(d)
    case Err(_) => (BuildFailed, fs)
    case Ok(meta) =>
      if meta == [] then (NoImages, fs)
      else
        var fs1 := DownloadRun(ImageUrls(meta), FramesDir, fs, env.fetchOk).fs;
        match DownloadResult(meta, FramesDir, fs, env.fetchOk)
        case Err(_) => (BuildFailed, fs1)
        case Ok(frames) =>
          if |frames| < 2 then (TooFewFrames, fs1)
          else if !env.renderOk(d) then (BuildFailed, fs1)
          else (Built(fs1.Resolve(OutputPath(d))), fs1.Write(OutputPath(d)))
  }

  /** The loop state: ledger, disk, `created`, and the dates marked so far. */
  datatype CreateState = CreateState(store: Store, fs: FileSystem, created: nat, marked: seq<string>)

  /** One date: build, mark on success, and remove the frames directory
      whatever happened. */
  function CreateStep(st: CreateState, d: string, env: BuildEnv, now: string): CreateState
  {
    var (outcome, fs1) := BuildDate(st.fs, d, env);
    var fs2 := fs1.RemoveTree(FramesDir);
    match outcome
    case Built(p) => CreateState(WithVideoCreated(st.store, d, fs1.Resolve(p), now), fs2, st.created + 1, st.marked + [d])
    case _ => st.(fs := fs2)
  }

  function CreateRun(st: CreateState, need: seq<string>, env: BuildEnv, now: string): CreateState
    decreases |need|
  {
    if need == [] then st
    else CreateStep(CreateRun(st, need[..|need| - 1], env, now), need[|need| - 1], env, now)
  }

  lemma CreateRunSnoc(st: CreateState, need: seq<string>, i: nat, env: BuildEnv, now: string)
    requires i < |need|
    ensures CreateRun(st, need[..i + 1], env, now) == CreateStep(CreateRun(st, need[..i], env, now), need[i], env, now)
  {
    assert need[..i + 1][..i] == need[..i];
  }

  /** The run of `create_missing_videos(dates)` from a ledger and a disk. */
  function CreateFrom(store: Store, fs: FileSystem, dates: seq<string>, env: BuildEnv, now: string): CreateState
  {
    CreateRun(CreateState(store, fs, 0, []), DatesNeedingVideo(store, fs, dates), env, now)
  }

  /** Building a date only adds files, except that the frames directory is
      emptied, and keeps the working directory; a built video's path is the
      resolved output path and that file exists afterwards. */
  lemma CreateStepFiles(st: CreateState, d: string, env: BuildEnv, now: string)
    ensures var next := CreateStep(st, d, env, now);
      && next.fs.cwd == st.fs.cwd
      && (forall f :: f in st.fs.files && !InDir(f, st.fs.Resolve(FramesDir)) ==> f in next.fs.files)
      && (forall f :: f in next.fs.files ==> !InDir(f, st.fs.Resolve(FramesDir)))
  {
    var (outcome, fs1) := BuildDate(st.fs, d, env);
    match env.metadata(d)
    case Err(_) =>
    case Ok(meta) =>
      if meta != [] {
        DownloadRunFiles(ImageUrls(meta), FramesDir, st.fs, env.fetchOk);
      }
  }

  /** The output file of a date is not under the frames directory. */
  lemma OutputOutsideFrames(fs: FileSystem, d: string)
    ensures !InDir(fs.Resolve(OutputPath(d)), fs.Resolve(FramesDir))
  {
    var f, dir := fs.Resolve(OutputPath(d)), fs.Resolve(FramesDir);
    assert f == fs.cwd + "/output/epic_earth_" + d + ".mp4";
    assert dir + "/" == fs.cwd + "/frames/";
    if |dir| + 1 <= |f| {
      assert f[|fs.cwd| + 1] == 'o';
      assert (dir + "/")[|fs.cwd| + 1] == 'f';
    }
  }

  /** A step either leaves the ledger alone, or marks `d` with its resolved
      output path and counts it. */
  lemma CreateStepLedger(st: CreateState, d: string, env: BuildEnv, now: string)
    requires st.fs.Valid()
    ensures var next := CreateStep(st, d, env, now);
      || (next.store == st.store && next.created == st.created && next.marked == st.marked)
      || (&& next.store == WithVideoCreated(st.store, d, st.fs.Resolve(OutputPath(d)), now)
          && next.created == st.created + 1 && next.marked == st.marked + [d]
          && next.fs.Exists(OutputPath(d)))
  {
    var (outcome, fs1) := BuildDate(st.fs, d, env);
    match env.metadata(d)
    case Err(_) =>
    case Ok(meta) =>
      if meta != [] {
        DownloadRunFiles(ImageUrls(meta), FramesDir, st.fs, env.fetchOk);
        if outcome.Built? {
          ResolveIdempotent(fs1, OutputPath(d));
          OutputOutsideFrames(fs1, d);
        }
      }
  }

  /** The metadata came back non-empty, every frame was obtained, at least
      two frames are on the list and rendering worked. */
  predicate BuildSucceeds(fs: FileSystem, d: string, env: BuildEnv)
  {
    && env.metadata(d).Ok?
    && env.metadata(d).value != []
    && DownloadResult(env.metadata(d).value, FramesDir, fs, env.fetchOk).Ok?
    && |DownloadResult(env.metadata(d).value, FramesDir, fs, env.fetchOk).value| >= 2
    && env.renderOk(d)
  }

  /** A date is marked and counted exactly when its build succeeds; a date
      without images, with fewer than two frames, or whose download or
      render fails leaves the ledger and the counter as they were. */
  lemma CreateStepMarksIff(st: CreateState, d: string, env: BuildEnv, now: string)
    ensures var next := CreateStep(st, d, env, now);
      && (next.marked == st.marked + [d] <==> BuildSucceeds(st.fs, d, env))
      && (!BuildSucceeds(st.fs, d, env) ==> next.store == st.store && next.created == st.created && next.marked == st.marked)
      && (BuildSucceeds(st.fs, d, env) ==> next.created == st.created + 1 && IsUploaded(next.store, d) == IsUploaded(st.store, d))
  {
  }

  /** `created` counts the marked dates, and no date is marked more often
      than it occurs in `need`. */
  lemma {:induction false} CreateRunCounts(st: CreateState, need: seq<string>, env: BuildEnv, now: string)
    requires st.created == |st.marked| && st.fs.Valid()
    ensures var run := CreateRun(st, need, env, now);
      && run.created == |run.marked|
      && run.fs.Valid()
      && |run.marked| <= |st.marked| + |need|
      && (forall x :: multiset(run.marked)[x] <= multiset(st.marked)[x] + multiset(need)[x])
  {
    if need != [] {
      var init := need[..|need| - 1];
      var x := need[|need| - 1];
      CreateRunCounts(st, init, env, now);
      var prev := CreateRun(st, init, env, now);
      CreateStepLedger(prev, x, env, now);
      CreateStepFiles(prev, x, env, now);
      assert need == init + [x];
    }
  }

  /** Dates that were never marked keep their ledger entry untouched. */
  lemma {:induction false} CreateRunUnmarkedUnchanged(st: CreateState, need: seq<string>, env: BuildEnv, now: string)
    requires st.fs.Valid()
    ensures var run := CreateRun(st, need, env, now);
      && run.fs.Valid()
      && forall k :: k !in run.marked && k !in st.marked ==> (k in run.store <==> k in st.store) && (k in st.store ==> run.store[k] == st.store[k])
  {
    if need != [] {
      var init := need[..|need| - 1];
      CreateRunUnmarkedUnchanged(st, init, env, now);
      var prev := CreateRun(st, init, env, now);
      CreateStepLedger(prev, need[|need| - 1], env, now);
      CreateStepFiles(prev, need[|need| - 1], env, now);
    }
  }

  /** Every date marked by the run reads as created at the end, with its
      resolved output path recorded. */
  lemma {:induction false} CreatedDatesReadCreated(st: CreateState, need: seq<string>, env: BuildEnv, now: string)
    requires st.fs.Valid()
    requires forall d :: d in st.marked ==>
      IsVideoCreated(st.store, st.fs, d) && st.store[d].videoPath == Some(st.fs.Resolve(OutputPath(d)))
    ensures var run := CreateRun(st, need, env, now);
      && run.fs.Valid() && run.fs.cwd == st.fs.cwd
      && forall d :: d in run.marked ==>
        IsVideoCreated(run.store, run.fs, d) && run.store[d].videoPath == Some(run.fs.Resolve(OutputPath(d)))
  {
    if need != [] {
      var init := need[..|need| - 1];
      var x := need[|need| - 1];
      CreatedDatesReadCreated(st, init, env, now);
      var prev := CreateRun(st, init, env, now);
      CreateStepLedger(prev, x, env, now);
      CreateStepFiles(prev, x, env, now);
      var run := CreateStep(prev, x, env, now);
      forall d | d in run.marked
        ensures IsVideoCreated(run.store, run.fs, d) && run.store[d].videoPath == Some(run.fs.Resolve(OutputPath(d)))
      {
        if d != x || run.marked == prev.marked {
          assert d in prev.marked;
          OutputOutsideFrames(prev.fs, d);
          assert prev.fs.Resolve(OutputPath(d)) in run.fs.files;
        }
      }
    }
  }

  /** After a run over at least one date nothing is left under `frames/`. */
  lemma {:induction false} FramesRemovedAfterRun(st: CreateState, need: seq<string>, env: BuildEnv, now: string)
    requires need != []
    ensures var run := CreateRun(st, need, env, now);
      forall f :: f in run.fs.files ==> !InDir(f, st.fs.Resolve(FramesDir))
    ensures CreateRun(st, need, env, now).fs.cwd == st.fs.cwd
  {
    var init := need[..|need| - 1];
    CreateRunKeepsCwd(st, init, env, now);
    CreateStepFiles(CreateRun(st, init, env, now), need[|need| - 1], env, now);
  }

  lemma {:induction false} CreateRunKeepsCwd(st: CreateState, need: seq<string>, env: BuildEnv, now: string)
    ensures CreateRun(st, need, env, now).fs.cwd == st.fs.cwd
  {
    if need != [] {
      CreateRunKeepsCwd(st, need[..|need| - 1], env, now);
      CreateStepFiles(CreateRun(st, need[..|need| - 1], env, now), need[|need| - 1], env, now);
    }
  }

  /** Files outside the frames directory survive the run. */
  lemma {:induction false} CreateRunKeepsFiles(st: CreateState, need: seq<string>, env: BuildEnv, now: string)
    ensures var run := CreateRun(st, need, env, now);
      forall f :: f in st.fs.files && !InDir(f, st.fs.Resolve(FramesDir)) ==> f in run.fs.files
  {
    if need != [] {
      var init := need[..|need| - 1];
      CreateRunKeepsFiles(st, init, env, now);
      CreateRunKeepsCwd(st, init, env, now);
      CreateStepFiles(CreateRun(st, init, env, now), need[|need| - 1], env, now);
    }
  }

  /** Running `create_missing_videos` again over the same dates revisits
      only dates the first run needed and did not build: a date that read
      as created keeps reading so, as long as no recorded video lies under
      the frames directory, and every date built reads as created. */
  lemma SecondRunRetriesOnlyFailures(store: Store, fs: FileSystem, dates: seq<string>, env: BuildEnv, now: string)
    requires fs.Valid()
    requires forall k :: k in store && Truthy(store[k].videoPath) ==>
      !InDir(fs.Resolve(store[k].videoPath.value), fs.Resolve(FramesDir))
    ensures var run := CreateFrom(store, fs, dates, env, now);
      forall x :: x in DatesNeedingVideo(run.store, run.fs, dates) ==>
        x in DatesNeedingVideo(store, fs, dates) && x !in run.marked
  {
    var st := CreateState(store, fs, 0, []);
    var need := DatesNeedingVideo(store, fs, dates);
    var run := CreateRun(st, need, env, now);
    CreatedDatesReadCreated(st, need, env, now);
    CreateRunUnmarkedUnchanged(st, need, env, now);
    CreateRunKeepsFiles(st, need, env, now);
    forall x | IsVideoCreated(store, fs, x)
      ensures IsVideoCreated(run.store, run.fs, x)
    {
      if x !in run.marked {
        var p := store[x].videoPath.value;
        assert run.store[x] == store[x];
        assert fs.Resolve(p) in run.fs.files;
      }
    }
  }

  /** Nothing lies under the frames directory. */
  predicate NoFrames(fs: FileSystem)
  {
    forall f :: f in fs.files ==> !InDir(f, fs.Resolve(FramesDir))
  }

  /** The disk with the same working directory and no files. */
  function Emptied(fs: FileSystem): FileSystem
  {
    FileSystem(fs.cwd, {})
  }

  /** Every frame file lies under the frames directory. */
  lemma FrameUnderFrames(fs: FileSystem, i: nat)
    ensures InDir(fs.Resolve(FrameName(FramesDir, i)), fs.Resolve(FramesDir))
  {
    var f := fs.Resolve(FrameName(FramesDir, i));
    assert f == fs.cwd + "/frames" + "/frame_" + PadInt(i, 3) + ".png";
    assert f[..|fs.Resolve(FramesDir)| + 1] == fs.cwd + "/frames" + "/";
  }

  /** A build that succeeds over a disk with fewer cached frames also
      succeeds over one with more. */
  lemma BuildMonotone(more: FileSystem, fewer: FileSystem, d: string, env: BuildEnv)
    requires more.cwd == fewer.cwd
    requires forall i :: fewer.Exists(FrameName(FramesDir, i)) ==> more.Exists(FrameName(FramesDir, i))
    ensures BuildSucceeds(fewer, d, env) ==> BuildSucceeds(more, d, env)
  {
    if env.metadata(d).Ok? {
      DownloadRunMoreCached(ImageUrls(env.metadata(d).value), FramesDir, more, fewer, env.fetchOk);
    }
  }

  /** A date the run needed and did not build would not build from an
      empty frames directory either. */
  lemma {:induction false} CreateRunFailures(st: CreateState, need: seq<string>, env: BuildEnv, now: string)
    ensures var run := CreateRun(st, need, env, now);
      && st.marked <= run.marked
      && forall x :: x in need && x !in run.marked ==> !BuildSucceeds(Emptied(st.fs), x, env)
  {
    if need != [] {
      var init, y := need[..|need| - 1], need[|need| - 1];
      CreateRunFailures(st, init, env, now);
      CreateRunKeepsCwd(st, init, env, now);
      var prev := CreateRun(st, init, env, now);
      CreateStepMarksIff(prev, y, env, now);
      BuildMonotone(prev.fs, Emptied(st.fs), y, env);
      assert need == init + [y];
    }
  }

  /** A run over dates that all fail to build from an empty frames
      directory, starting without frames, builds nothing and changes no
      entry. */
  lemma {:induction false} CreateRunNoFrames(st: CreateState, need: seq<string>, env: BuildEnv, now: string)
    requires NoFrames(st.fs)
    requires forall x :: x in need ==> !BuildSucceeds(Emptied(st.fs), x, env)
    ensures var run := CreateRun(st, need, env, now);
      run.store == st.store && run.created == st.created && run.marked == st.marked
    ensures NoFrames(CreateRun(st, need, env, now).fs) && CreateRun(st, need, env, now).fs.cwd == st.fs.cwd
  {
    if need != [] {
      var init, y := need[..|need| - 1], need[|need| - 1];
      CreateRunNoFrames(st, init, env, now);
      var prev := CreateRun(st, init, env, now);
      forall i ensures !prev.fs.Exists(FrameName(FramesDir, i)) {
        FrameUnderFrames(prev.fs, i);
      }
      BuildMonotone(Emptied(st.fs), prev.fs, y, env);
      CreateStepMarksIff(prev, y, env, now);
      CreateStepFiles(prev, y, env, now);
    }
  }

  /** Running `create_missing_videos` a second time over the same dates,
      with the same outside world, builds nothing and leaves the ledger as
      the first run left it. */
  lemma SecondRunCreatesNothing(store: Store, fs: FileSystem, dates: seq<string>, env: BuildEnv, now: string, later: string)
    requires fs.Valid()
    requires forall k :: k in store && Truthy(store[k].videoPath) ==>
      !InDir(fs.Resolve(store[k].videoPath.value), fs.Resolve(FramesDir))
    ensures var run := CreateFrom(store, fs, dates, env, now);
      var again := CreateFrom(run.store, run.fs, dates, env, later);
      again.created == 0 && again.store == run.store && again.marked == []
  {
    var st := CreateState(store, fs, 0, []);
    var need := DatesNeedingVideo(store, fs, dates);
    var run := CreateRun(st, need, env, now);
    if need != [] {
      var need2 := DatesNeedingVideo(run.store, run.fs, dates);
      SecondRunRetriesOnlyFailures(store, fs, dates, env, now);
      CreateRunFailures(st, need, env, now);
      FramesRemovedAfterRun(st, need, env, now);
      CreateRunNoFrames(CreateState(run.store, run.fs, 0, []), need2, env, later);
    }
  }

  /** `create_missing_videos(dates)`: returns `created` and the disk after
      the run; the ledger is updated in place. */
  method CreateMissingVideos(ledger: Ledger, fs: FileSystem, dates: seq<string>, env: BuildEnv, now: string)
    returns (created: nat, fs': FileSystem)
    modifies ledger
    ensures var run := CreateFrom(old(ledger.data), fs, dates, env, now);
      ledger.data == run.store && fs' == run.fs && created == run.created
    ensures DatesNeedingVideo(old(ledger.data), fs, dates) == [] ==> created == 0 && ledger.data == old(ledger.data) && fs' == fs
  {
    var need := DatesNeedingVideo(ledger.data, fs, dates);
    created, fs' := 0, fs;
    if need == [] {
      return;
    }
    created, fs' := CreateEach(ledger, fs, need, env, now);
  }

  /** The `for` loop over the dates that need a video. */
  method CreateEach(ledger: Ledger, fs: FileSystem, need: seq<string>, env: BuildEnv, now: string)
    returns (created: nat, fs': FileSystem)
    modifies ledger
    ensures var run := CreateRun(CreateState(old(ledger.data), fs, 0, []), need, env, now);
      ledger.data == run.store && fs' == run.fs && created == run.created
  {
    ghost var start := CreateState(ledger.data, fs, 0, []);
    ghost var marked: seq<string> := [];
    created, fs' := 0, fs;
    var i := 0;
    assert need[..0] == [];
    while i < |need|
      invariant 0 <= i <= |need|
      invariant CreateRun(start, need[..i], env, now) == CreateState(ledger.data, fs', created, marked)
    {
      var d := need[i];
      ghost var before := CreateState(ledger.data, fs', created, marked);
      CreateRunSnoc(start, need, i, env, now);
      ghost var next := CreateStep(before, d, env, now);
      assert CreateRun(start, need[..i + 1], env, now) == next;
      var built;
      built, fs' := CreateForDate(ledger, d, fs', env, now, before);
      if built {
        created := created + 1;
        marked := marked + [d];
      }
      assert next == CreateState(ledger.data, fs', created, marked);
      i := i + 1;
    }
    assert need[..i] == need;
  }

  /** The body of the loop for date `d`, its `finally` included, starting
      from loop state `st`. */
  method CreateForDate(ledger: Ledger, d: string, fs: FileSystem, env: BuildEnv, now: string, ghost st: CreateState)
    returns (built: bool, fs': FileSystem)
    requires st.store == ledger.data && st.fs == fs
    modifies ledger
    ensures CreateStep(st, d, env, now)
      == CreateState(ledger.data, fs', st.created + (if built then 1 else 0), if built then st.marked + [d] else st.marked)
  {
    var path;
    built, path, fs' := BuildForDate(d, fs, env);
    if built {
      ledger.MarkVideoCreated(d, path, fs', now);
    }
    fs' := fs'.RemoveTree(FramesDir);
  }

  /** The body of the `try` for date `d`: fetch the metadata, download the
      frames and render; whether a video was built, its path, and the disk
      before the `finally`. */
  method BuildForDate(d: string, fs: FileSystem, env: BuildEnv) returns (built: bool, path: string, fs': FileSystem)
    ensures built == BuildDate(fs, d, env).0.Built?
    ensures built ==> path == BuildDate(fs, d, env).0.path && path == fs.Resolve(OutputPath(d))
    ensures fs' == BuildDate(fs, d, env).1
  {
    built, path, fs' := false, "", fs;
    var metadata := env.metadata(d);
    if metadata.Ok? && metadata.value != [] {
      var frames;
      frames, fs' := DownloadImages(metadata.value, FramesDir, fs, env.fetchOk);
      if frames.Ok? && |frames.value| >= 2 && env.renderOk(d) {
        DownloadRunFiles(ImageUrls(metadata.value), FramesDir, fs, env.fetchOk);
        path := fs'.Resolve(OutputPath(d));
        fs' := fs'.Write(OutputPath(d));
        built := true;
      }
    }
  }

  // ---------------------------------------------------------------------
  // upload_missing_videos
  // ---------------------------------------------------------------------

  /** The loop state: ledger, `uploaded`, the dates marked uploaded, and
      the dates `upload_video` was called for. */
  datatype UploadState = UploadState(store: Store, uploaded: nat, marked: seq<string>, attempted: seq<string>)

  /** One date: a title already on the channel is adopted without an
      upload; otherwise the recorded file, if present, is published and
      marked when an id comes back. `titleOf` is the title builder (the
      run uses `MakeVideoTitle`; the proofs about the loop hold for any),
      and `insert(d)` are the outcomes of the insert calls of d's upload. */
  function UploadStep(st: UploadState, d: string, fs: FileSystem, titleOf: string -> string, titles: map<string, string>,
                      insert: string -> nat -> Option<string>, now: string): UploadState
  {
    var title := titleOf(d);
    if title in titles then
      UploadState(WithUploaded(st.store, d, titles[title], now), st.uploaded + 1, st.marked + [d], st.attempted)
    else match GetEntry(st.store, d)
      case None => st
      case Some(entry) =>
        if !Truthy(entry.videoPath) || !fs.Exists(entry.videoPath.value) then st
        else
          var videoId := FirstSuccess(insert(d), 1);
          if Truthy(videoId) then
            UploadState(WithUploaded(st.store, d, videoId.value, now), st.uploaded + 1, st.marked + [d], st.attempted + [d])
          else st.(attempted := st.attempted + [d])
  }

  function UploadRun(st: UploadState, need: seq<string>, fs: FileSystem, titleOf: string -> string, titles: map<string, string>,
                     insert: string -> nat -> Option<string>, now: string): UploadState
    decreases |need|
  {
    if need == [] then st
    else UploadStep(UploadRun(st, need[..|need| - 1], fs, titleOf, titles, insert, now), need[|need| - 1], fs, titleOf, titles, insert, now)
  }

  lemma UploadRunSnoc(st: UploadState, need: seq<string>, i: nat, fs: FileSystem, titleOf: string -> string,
                      titles: map<string, string>, insert: string -> nat -> Option<string>, now: string)
    requires i < |need|
    ensures UploadRun(st, need[..i + 1], fs, titleOf, titles, insert, now)
      == UploadStep(UploadRun(st, need[..i], fs, titleOf, titles, insert, now), need[i], fs, titleOf, titles, insert, now)
  {
    assert need[..i + 1][..i] == need[..i];
  }

  /** The channel listing, or `{}` when fetching it raised. */
  function ListingOrEmpty(listing: Option<map<string, string>>): map<string, string>
  {
    if listing.Some? then listing.value else map[]
  }

  /** `uploaded` counts the marked dates; only dates from `need` are marked
      or published, no more often than they occur in it; a date is marked
      only when its title was on the channel or its upload was attempted. */
  lemma {:induction false} UploadRunCounts(st: UploadState, need: seq<string>, fs: FileSystem, titleOf: string -> string, titles: map<string, string>,
                                           insert: string -> nat -> Option<string>, now: string)
    requires st.uploaded == |st.marked|
    ensures var run := UploadRun(st, need, fs, titleOf, titles, insert, now);
      && run.uploaded == |run.marked|
      && |run.marked| <= |st.marked| + |need|
      && (forall x :: multiset(run.marked)[x] <= multiset(st.marked)[x] + multiset(need)[x])
      && (forall x :: multiset(run.attempted)[x] <= multiset(st.attempted)[x] + multiset(need)[x])
      && (forall x :: x in run.marked && x !in st.marked ==> titleOf(x) in titles || x in run.attempted)
  {
    if need != [] {
      var init := need[..|need| - 1];
      UploadRunCounts(st, init, fs, titleOf, titles, insert, now);
      assert need == init + [need[|need| - 1]];
    }
  }

  /** No upload is attempted for a date whose title is on the channel, and
      every marked date reads as uploaded at the end. */
  lemma {:induction false} UploadRunReads(st: UploadState, need: seq<string>, fs: FileSystem, titleOf: string -> string, titles: map<string, string>,
                                          insert: string -> nat -> Option<string>, now: string)
    requires forall x :: x in st.attempted ==> titleOf(x) !in titles
    requires forall x :: x in st.marked ==> IsUploaded(st.store, x)
    ensures var run := UploadRun(st, need, fs, titleOf, titles, insert, now);
      && (forall x :: x in run.attempted ==> titleOf(x) !in titles)
      && (forall x :: x in run.marked ==> IsUploaded(run.store, x))
  {
    if need != [] {
      var x := need[|need| - 1];
      var init := need[..|need| - 1];
      UploadRunReads(st, init, fs, titleOf, titles, insert, now);
      assert var r := UploadRun(st, init, fs, titleOf, titles, insert, now); forall z :: z in r.marked ==> IsUploaded(r.store, z);
      var prev := UploadRun(st, init, fs, titleOf, titles, insert, now);
      var run := UploadStep(prev, x, fs, titleOf, titles, insert, now);
      forall y | y in run.marked ensures IsUploaded(run.store, y) {
        if y != x {
          assert y in prev.marked;
          assert IsUploaded(prev.store, y);
        }
      }
    }
  }

  /** A date whose title is on the channel is marked, with the channel's id
      for that title. */
  lemma {:induction false} UploadRunListedMarked(st: UploadState, need: seq<string>, fs: FileSystem, titleOf: string -> string,
                                                 titles: map<string, string>, insert: string -> nat -> Option<string>, now: string, x: string)
    requires x in need && titleOf(x) in titles
    ensures var run := UploadRun(st, need, fs, titleOf, titles, insert, now);
      && x in run.marked && x in run.store && run.store[x].youtubeUploaded
      && run.store[x].youtubeVideoId == Some(titles[titleOf(x)])
  {
    var init := need[..|need| - 1];
    if x in init {
      UploadRunListedMarked(st, init, fs, titleOf, titles, insert, now, x);
    } else {
      assert x == need[|need| - 1];
    }
  }

  /** A date whose title is not on the channel and that has no entry, no
      recorded path or no file is neither uploaded nor marked, and keeps
      its entry. */
  lemma {:induction false} UploadRunSkipsMissing(st: UploadState, need: seq<string>, fs: FileSystem, titleOf: string -> string,
                                                 titles: map<string, string>, insert: string -> nat -> Option<string>, now: string, x: string)
    requires titleOf(x) !in titles
    requires x !in st.store || !Truthy(st.store[x].videoPath) || !fs.Exists(st.store[x].videoPath.value)
    ensures var run := UploadRun(st, need, fs, titleOf, titles, insert, now);
      && (x in run.attempted <==> x in st.attempted)
      && (x in run.marked <==> x in st.marked)
      && (x in run.store <==> x in st.store)
      && (x in st.store ==> run.store[x] == st.store[x])
  {
    if need != [] {
      UploadRunSkipsMissing(st, need[..|need| - 1], fs, titleOf, titles, insert, now, x);
    }
  }

  /** A date whose title is not on the channel is marked only after its
      upload was attempted, and then with the id the first successful
      insert returned. */
  lemma {:induction false} UploadRunUnlistedIds(st: UploadState, need: seq<string>, fs: FileSystem, titleOf: string -> string,
                                                titles: map<string, string>, insert: string -> nat -> Option<string>, now: string, x: string)
    requires titleOf(x) !in titles && x !in st.marked
    ensures var run := UploadRun(st, need, fs, titleOf, titles, insert, now);
      x in run.marked ==>
        && x in run.attempted && x in run.store && run.store[x].youtubeUploaded
        && Truthy(FirstSuccess(insert(x), 1)) && run.store[x].youtubeVideoId == FirstSuccess(insert(x), 1)
  {
    if need != [] {
      UploadRunUnlistedIds(st, need[..|need| - 1], fs, titleOf, titles, insert, now, x);
    }
  }

  /** What a run from an empty start does to each date: listed dates take
      the channel's id, unlisted dates are marked only with an id an
      insert returned, and dates without a usable file are skipped. */
  lemma UploadRunOutcomes(store: Store, need: seq<string>, fs: FileSystem, titleOf: string -> string,
                          titles: map<string, string>, insert: string -> nat -> Option<string>, now: string)
    ensures var run := UploadRun(UploadState(store, 0, [], []), need, fs, titleOf, titles, insert, now);
      && (forall x :: x in need && titleOf(x) in titles ==>
            x in run.store && run.store[x].youtubeUploaded && run.store[x].youtubeVideoId == Some(titles[titleOf(x)]))
      && (forall x :: x in run.marked && titleOf(x) !in titles ==>
            x in run.attempted && x in run.store && run.store[x].youtubeVideoId == FirstSuccess(insert(x), 1))
      && (forall x :: titleOf(x) !in titles && (x !in store || !Truthy(store[x].videoPath) || !fs.Exists(store[x].videoPath.value)) ==>
            x !in run.attempted && x !in run.marked && (x in run.store <==> x in store) && (x in store ==> run.store[x] == store[x]))
  {
    var st := UploadState(store, 0, [], []);
    forall x | x in need && titleOf(x) in titles
      ensures var run := UploadRun(st, need, fs, titleOf, titles, insert, now);
        x in run.store && run.store[x].youtubeUploaded && run.store[x].youtubeVideoId == Some(titles[titleOf(x)])
    {
      UploadRunListedMarked(st, need, fs, titleOf, titles, insert, now, x);
    }
    forall x | titleOf(x) !in titles
      ensures var run := UploadRun(st, need, fs, titleOf, titles, insert, now);
        x in run.marked ==> x in run.attempted && x in run.store && run.store[x].youtubeVideoId == FirstSuccess(insert(x), 1)
    {
      UploadRunUnlistedIds(st, need, fs, titleOf, titles, insert, now, x);
    }
    forall x | titleOf(x) !in titles && (x !in store || !Truthy(store[x].videoPath) || !fs.Exists(store[x].videoPath.value))
      ensures var run := UploadRun(st, need, fs, titleOf, titles, insert, now);
        x !in run.attempted && x !in run.marked && (x in run.store <==> x in store) && (x in store ==> run.store[x] == store[x])
    {
      UploadRunSkipsMissing(st, need, fs, titleOf, titles, insert, now, x);
    }
  }

  /** Dates never marked keep their ledger entry untouched. */
  lemma {:induction false} UploadRunUnmarkedUnchanged(st: UploadState, need: seq<string>, fs: FileSystem, titleOf: string -> string, titles: map<string, string>,
                                                      insert: string -> nat -> Option<string>, now: string)
    ensures var run := UploadRun(st, need, fs, titleOf, titles, insert, now);
      forall k :: k !in run.marked && k !in st.marked ==> (k in run.store <==> k in st.store) && (k in st.store ==> run.store[k] == st.store[k])
  {
    if need != [] {
      var init := need[..|need| - 1];
      UploadRunUnmarkedUnchanged(st, init, fs, titleOf, titles, insert, now);
      var prev := UploadRun(st, init, fs, titleOf, titles, insert, now);
      UploadStepUnmarkedUnchanged(prev, need[|need| - 1], fs, titleOf, titles, insert, now);
    }
  }

  /** One step keeps the marked dates so far, and the entry of every date
      it does not mark. */
  lemma UploadStepUnmarkedUnchanged(st: UploadState, d: string, fs: FileSystem, titleOf: string -> string, titles: map<string, string>,
                                    insert: string -> nat -> Option<string>, now: string)
    ensures var r := UploadStep(st, d, fs, titleOf, titles, insert, now);
      && (forall k :: k in st.marked ==> k in r.marked)
      && (forall k :: k !in r.marked ==> (k in r.store <==> k in st.store) && (k in st.store ==> r.store[k] == st.store[k]))
  {
  }

  /** A date whose title is not on the channel, whose recorded file exists
      and whose first insert succeeds is published and marked, and its
      recorded file stays the same. */
  lemma UploadStepPublishes(st: UploadState, d: string, fs: FileSystem, titleOf: string -> string, titles: map<string, string>,
                            insert: string -> nat -> Option<string>, now: string)
    requires titleOf(d) !in titles
    requires d in st.store && Truthy(st.store[d].videoPath) && fs.Exists(st.store[d].videoPath.value)
    requires Truthy(insert(d)(1))
    ensures var r := UploadStep(st, d, fs, titleOf, titles, insert, now);
      && r.uploaded == st.uploaded + 1 && r.attempted == st.attempted + [d]
      && d in r.store && r.store[d].videoPath == st.store[d].videoPath
  {
  }

  /** The per-date checks are made against the listing fetched once before
      the loop, so a date listed twice whose upload succeeds is uploaded
      twice. */
  lemma DuplicateDateUploadedTwice(store: Store, d: string, fs: FileSystem, titleOf: string -> string, titles: map<string, string>,
                                   insert: string -> nat -> Option<string>, now: string)
    requires titleOf(d) !in titles
    requires d in store && Truthy(store[d].videoPath) && fs.Exists(store[d].videoPath.value)
    requires Truthy(insert(d)(1))
    ensures UploadRun(UploadState(store, 0, [], []), [d, d], fs, titleOf, titles, insert, now).attempted == [d, d]
    ensures UploadRun(UploadState(store, 0, [], []), [d, d], fs, titleOf, titles, insert, now).uploaded == 2
  {
    var st0 := UploadState(store, 0, [], []);
    UploadStepPublishes(st0, d, fs, titleOf, titles, insert, now);
    var st1 := UploadStep(st0, d, fs, titleOf, titles, insert, now);
    UploadStepPublishes(st1, d, fs, titleOf, titles, insert, now);
    var dd := [d, d];
    assert dd[..0] == [] && dd[..2] == dd;
    UploadRunSnoc(st0, dd, 0, fs, titleOf, titles, insert, now);
    UploadRunSnoc(st0, dd, 1, fs, titleOf, titles, insert, now);
  }

  /** `upload_missing_videos(dates)`: `authOk` says whether authentication
      succeeded, `listing` is the channel's title-to-id map or None when
      fetching it raised. */
  method UploadMissingVideos(ledger: Ledger, fs: FileSystem, dates: seq<string>, authOk: bool,
                             listing: Option<map<string, string>>, insert: string -> nat -> Option<string>, now: string)
    returns (uploaded: nat)
    modifies ledger
    ensures var need := DatesNeedingUpload(old(ledger.data), fs, dates);
      need == [] || !authOk ==> uploaded == 0 && ledger.data == old(ledger.data)
    ensures var need := DatesNeedingUpload(old(ledger.data), fs, dates);
      need != [] && authOk ==>
        var run := UploadRun(UploadState(old(ledger.data), 0, [], []), need, fs, MakeVideoTitle, ListingOrEmpty(listing), insert, now);
        ledger.data == run.store && uploaded == run.uploaded
    ensures var need := DatesNeedingUpload(old(ledger.data), fs, dates);
      var titles := ListingOrEmpty(listing);
      need != [] && authOk ==>
        forall x :: x in need && MakeVideoTitle(x) in titles ==>
          x in ledger.data && ledger.data[x].youtubeUploaded && ledger.data[x].youtubeVideoId == Some(titles[MakeVideoTitle(x)])
    ensures var titles := ListingOrEmpty(listing);
      forall x :: x in old(ledger.data) && MakeVideoTitle(x) !in titles
                  && (!Truthy(old(ledger.data)[x].videoPath) || !fs.Exists(old(ledger.data)[x].videoPath.value)) ==>
        x in ledger.data && ledger.data[x] == old(ledger.data)[x]
  {
    var need := DatesNeedingUpload(ledger.data, fs, dates);
    uploaded := 0;
    if need == [] || !authOk {
      return;
    }
    var titles := ListingOrEmpty(listing);
    ghost var start := UploadState(ledger.data, 0, [], []);
    ghost var marked: seq<string> := [];
    ghost var attempted: seq<string> := [];
    var i := 0;
    assert need[..0] == [];
    while i < |need|
      invariant 0 <= i <= |need|
      invariant UploadRun(start, need[..i], fs, MakeVideoTitle, titles, insert, now) == UploadState(ledger.data, uploaded, marked, attempted)
    {
      var d := need[i];
      ghost var before := UploadState(ledger.data, uploaded, marked, attempted);
      var counted;
      ghost var tried;
      counted, tried := UploadForDate(ledger, d, fs, titles, insert, now, before);
      if counted {
        uploaded := uploaded + 1;
        marked := marked + [d];
      }
      if tried {
        attempted := attempted + [d];
      }
      UploadRunSnoc(start, need, i, fs, MakeVideoTitle, titles, insert, now);
      i := i + 1;
    }
    assert need[..i] == need;
    UploadRunOutcomes(old(ledger.data), need, fs, MakeVideoTitle, titles, insert, now);
  }

  /** The body of the loop for date `d`, starting from loop state `st`:
      whether the date was counted, and whether `upload_video` was called. */
  method UploadForDate(ledger: Ledger, d: string, fs: FileSystem, titles: map<string, string>,
                       insert: string -> nat -> Option<string>, now: string, ghost st: UploadState)
    returns (counted: bool, ghost tried: bool)
    requires st.store == ledger.data
    modifies ledger
    ensures UploadStep(st, d, fs, MakeVideoTitle, titles, insert, now)
      == UploadState(ledger.data, st.uploaded + (if counted then 1 else 0),
                     if counted then st.marked + [d] else st.marked,
                     if tried then st.attempted + [d] else st.attempted)
  {
    counted, tried := false, false;
    var title := MakeVideoTitle(d);
    if title in titles {
      ledger.MarkUploaded(d, titles[title], now);
      counted := true;
      return;
    }
    var entry := GetEntry(ledger.data, d);
    if entry.None? || !Truthy(entry.value.videoPath) || !fs.Exists(entry.value.videoPath.value) {
      return;
    }
    tried := true;
    var videoId, _ := UploadVideo(fs.Exists(entry.value.videoPath.value), insert(d));
    if Truthy(videoId) {
      ledger.MarkUploaded(d, videoId.value, now);
      counted := true;
    }
  }
}
