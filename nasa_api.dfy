/** `utils/nasa_api.py`: the list of available dates, the archive URL of an
    image and the download of a date's frames into a directory. HTTP calls
    are inputs: the response bodies, and whether fetching a URL succeeds. */
module NasaApi {
  import opened Wrappers
  import opened Strings
  import opened Calendar
  import opened Files

  const ArchiveUrl := "https://epic.gsfc.nasa.gov/archive/natural"

  /** One element of a `/api/natural/date/{date}` response: the
      `"YYYY-MM-DD HH:MM:SS"` capture time and the image name. */
  datatype ImageMeta = ImageMeta(date: string, image: string)

  /** One element of the `/api/natural/all` response. */
  datatype DateRecord = DateRecord(date: string)

  /** `get_available_dates`: the `date` of each element, in response order. */
  function GetAvailableDates(response: seq<DateRecord>): (dates: seq<string>)
    ensures |dates| == |response|
    ensures forall i :: 0 <= i < |response| ==> dates[i] == response[i].date
  {
    if response == [] then [] else [response[0].date] + GetAvailableDates(response[1..])
  }

  /** `_build_image_url(meta)`; Err where strptime raises ValueError. */
  function BuildImageUrl(meta: ImageMeta): Result<string>
  {
    match ParseDateTime(meta.date)
    case None => Err("time data does not match format '%Y-%m-%d %H:%M:%S'")
    case Some(dt) =>
      Ok(ArchiveUrl + "/" + DecimalString(dt.year) + "/" + PadInt(dt.month, 2) + "/" + PadInt(dt.day, 2)
         + "/png/" + meta.image + ".png")
  }

  lemma NumDigitsFour(y: nat)
    requires 1000 <= y < 10000
    ensures NumDigits(y) == 4
  {
    assert NumDigits(y / 1000) == 1;
    assert y / 10 / 10 / 10 == y / 1000;
    assert NumDigits(y / 10 / 10) == 2;
  }

  lemma DayFieldOfDigitsThenSpace(d: int, time: string)
    requires 1 <= d <= 31
    requires |time| > 0 && IsDigit(time[0])
    ensures DayFieldThenSpace(Digits(d, 2) + " " + time) == Some((d, time))
  {
    DigitsTwo(d);
    var r := Digits(d, 2) + " " + time;
    assert r[0] == DigitChar(d / 10) && r[1] == DigitChar(d % 10) && r[2] == ' ';
    assert r[2..] == " " + time;
    assert DropSpaces(" " + time) == DropSpaces(time) == time;
  }

  /** A capture time written the way the API writes it parses back to its
      date. */
  lemma ParseTimestamp(dt: Date, time: string)
    requires ValidDate(dt) && TimeFields(time)
    ensures ParseDateTime(IsoFormat(dt) + " " + time) == Some(dt)
  {
    var day := Digits(dt.day, 2) + " " + time;
    var rest := Digits(dt.month, 2) + "-" + day;
    assert IsoFormat(dt) + " " + time == Digits(dt.year, 4) + "-" + rest;
    YearFieldOfDigits(dt.year, rest);
    MonthFieldOfDigits(dt.month, day);
    assert |time| > 0 && IsDigit(time[0]);
    DayFieldOfDigitsThenSpace(dt.day, time);
  }

  /** The URL of an image captured on a date from year 1000 on is the
      archive root, then the four-digit year, the two-digit month and the
      two-digit day, then `png/` and the image name with `.png`. */
  lemma ImageUrlOfTimestamp(dt: Date, time: string, name: string)
    requires ValidDate(dt) && dt.year >= 1000 && TimeFields(time)
    ensures BuildImageUrl(ImageMeta(IsoFormat(dt) + " " + time, name))
      == Ok(ArchiveUrl + "/" + Digits(dt.year, 4) + "/" + Digits(dt.month, 2) + "/" + Digits(dt.day, 2)
            + "/png/" + name + ".png")
  {
    ParseTimestamp(dt, time);
    NumDigitsFour(dt.year);
    PadIntBelowWidth(dt.month, 2);
    PadIntBelowWidth(dt.day, 2);
  }

  /** `output_dir / f"frame_{i:03d}.png"` */
  function FrameName(dir: string, i: nat): string
  {
    dir + "/frame_" + PadInt(i, 3) + ".png"
  }

  // ---------------------------------------------------------------------
  // download_images as a fold over the metadata.
  // ---------------------------------------------------------------------

  /** The state of the download loop: whether no exception has escaped, the
      file system, the `downloaded` list, and the indices whose image was
      requested over HTTP. */
  datatype Download = Download(ok: bool, fs: FileSystem, paths: seq<string>, fetched: seq<nat>)

  /** The URLs of the items, each built before its item is looked at. */
  function ImageUrls(metadata: seq<ImageMeta>): (urls: seq<Result<string>>)
    ensures |urls| == |metadata|
    ensures forall i :: 0 <= i < |metadata| ==> urls[i] == BuildImageUrl(metadata[i])
  {
    seq(|metadata|, i requires 0 <= i < |metadata| => BuildImageUrl(metadata[i]))
  }

  /** One iteration for item `i`: the URL was built first (and may have
      raised), then a cached frame is taken as is, otherwise the image is
      fetched. */
  function DownloadStep(st: Download, url: Result<string>, i: nat, dir: string, fetchOk: string -> bool): Download
  {
    match url
    case Err(_) => st.(ok := false)
    case Ok(url) =>
      var dest := FrameName(dir, i);
      if st.fs.Exists(dest) then st.(paths := st.paths + [dest])
      else if !fetchOk(url) then st.(ok := false, fetched := st.fetched + [i])
      else st.(fs := st.fs.Write(dest), paths := st.paths + [dest], fetched := st.fetched + [i])
  }

  /** The loop over the items' URLs, stopping at the first exception. */
  function DownloadRun(urls: seq<Result<string>>, dir: string, fs: FileSystem, fetchOk: string -> bool): Download
    decreases |urls|
  {
    if urls == [] then Download(true, fs, [], [])
    else
      var prev := DownloadRun(urls[..|urls| - 1], dir, fs, fetchOk);
      if !prev.ok then prev else DownloadStep(prev, urls[|urls| - 1], |urls| - 1, dir, fetchOk)
  }

  /** What `download_images` returns: the sorted list, or the exception. */
  function DownloadResult(metadata: seq<ImageMeta>, dir: string, fs: FileSystem, fetchOk: string -> bool): Result<seq<string>>
  {
    var run := DownloadRun(ImageUrls(metadata), dir, fs, fetchOk);
    if run.ok then Ok(SortStrings(run.paths)) else Err("download failed")
  }

  /** Once an exception has escaped, later items change nothing. */
  lemma {:induction false} DownloadRunStops(urls: seq<Result<string>>, k: nat, dir: string, fs: FileSystem, fetchOk: string -> bool)
    requires k <= |urls|
    requires !DownloadRun(urls[..k], dir, fs, fetchOk).ok
    ensures DownloadRun(urls, dir, fs, fetchOk) == DownloadRun(urls[..k], dir, fs, fetchOk)
    decreases |urls| - k
  {
    if k < |urls| {
      var init := urls[..|urls| - 1];
      assert init[..k] == urls[..k];
      DownloadRunStops(init, k, dir, fs, fetchOk);
      assert !DownloadRun(init, dir, fs, fetchOk).ok;
    } else {
      assert urls[..k] == urls;
    }
  }

  /** One step appends item i's frame or nothing, only adds files, keeps
      the working directory and records only index i as fetched. */
  lemma DownloadStepShape(st: Download, url: Result<string>, i: nat, dir: string, fetchOk: string -> bool)
    ensures var next := DownloadStep(st, url, i, dir, fetchOk);
      && (next.paths == st.paths + [FrameName(dir, i)] || (!next.ok && next.paths == st.paths))
      && (next.ok ==> next.paths == st.paths + [FrameName(dir, i)])
      && next.fs.cwd == st.fs.cwd
      && st.fs.files <= next.fs.files
      && next.fs.Exists(FrameName(dir, i)) == (next.paths != st.paths || st.fs.Exists(FrameName(dir, i)))
      && (next.fetched == st.fetched || next.fetched == st.fetched + [i])
  {
  }

  /** The list holds item i's frame at index i, one per item when no
      exception escaped. */
  lemma {:induction false} DownloadRunPaths(urls: seq<Result<string>>, dir: string, fs: FileSystem, fetchOk: string -> bool)
    ensures var run := DownloadRun(urls, dir, fs, fetchOk);
      && |run.paths| <= |urls|
      && (run.ok ==> |run.paths| == |urls|)
      && (forall i :: 0 <= i < |run.paths| ==> run.paths[i] == FrameName(dir, i))
  {
    if urls != [] {
      var n := |urls| - 1;
      var init := urls[..n];
      DownloadRunPaths(init, dir, fs, fetchOk);
      var prev := DownloadRun(init, dir, fs, fetchOk);
      if prev.ok {
        DownloadStepShape(prev, urls[n], n, dir, fetchOk);
      }
    }
  }

  /** Downloading only adds files and keeps the working directory; every
      listed frame exists afterwards. */
  lemma {:induction false} DownloadRunFiles(urls: seq<Result<string>>, dir: string, fs: FileSystem, fetchOk: string -> bool)
    ensures var run := DownloadRun(urls, dir, fs, fetchOk);
      && run.fs.cwd == fs.cwd
      && fs.files <= run.fs.files
      && (forall i :: 0 <= i < |run.paths| ==> run.fs.Exists(FrameName(dir, i)))
  {
    if urls != [] {
      var n := |urls| - 1;
      var init := urls[..n];
      DownloadRunFiles(init, dir, fs, fetchOk);
      var prev := DownloadRun(init, dir, fs, fetchOk);
      if prev.ok {
        DownloadRunPaths(init, dir, fs, fetchOk);
        DownloadStepShape(prev, urls[n], n, dir, fetchOk);
        var run := DownloadStep(prev, urls[n], n, dir, fetchOk);
        forall i | 0 <= i < |run.paths| ensures run.fs.Exists(FrameName(dir, i)) {
          if i < |prev.paths| {
            assert prev.fs.Exists(FrameName(dir, i));
          }
        }
      }
    }
  }

  /** Only indices of items already reached are fetched. */
  lemma {:induction false} DownloadRunFetched(urls: seq<Result<string>>, dir: string, fs: FileSystem, fetchOk: string -> bool)
    ensures forall k :: k in DownloadRun(urls, dir, fs, fetchOk).fetched ==> k < |urls|
  {
    if urls != [] {
      var n := |urls| - 1;
      DownloadRunFetched(urls[..n], dir, fs, fetchOk);
      var prev := DownloadRun(urls[..n], dir, fs, fetchOk);
      if prev.ok {
        DownloadStepShape(prev, urls[n], n, dir, fetchOk);
      }
    }
  }

  /** A frame that is already on disk is listed without being fetched. */
  lemma {:induction false} CachedFramesNotFetched(urls: seq<Result<string>>, dir: string, fs: FileSystem, fetchOk: string -> bool)
    ensures forall i :: 0 <= i < |urls| && fs.Exists(FrameName(dir, i)) ==> i !in DownloadRun(urls, dir, fs, fetchOk).fetched
  {
    if urls != [] {
      var n := |urls| - 1;
      var init := urls[..n];
      CachedFramesNotFetched(init, dir, fs, fetchOk);
      DownloadRunFetched(init, dir, fs, fetchOk);
      var prev := DownloadRun(init, dir, fs, fetchOk);
      if prev.ok && fs.Exists(FrameName(dir, n)) {
        DownloadRunFiles(init, dir, fs, fetchOk);
        assert prev.fs.Exists(FrameName(dir, n));
        assert DownloadStep(prev, urls[n], n, dir, fetchOk).fetched == prev.fetched;
      }
    }
  }

  /** A download that succeeds over a disk with fewer cached frames also
      succeeds over one with more, and lists the same frames: a cached
      frame only spares a fetch. */
  lemma {:induction false} DownloadRunMoreCached(urls: seq<Result<string>>, dir: string, more: FileSystem, fewer: FileSystem,
                                                 fetchOk: string -> bool)
    requires more.cwd == fewer.cwd
    requires forall i :: fewer.Exists(FrameName(dir, i)) ==> more.Exists(FrameName(dir, i))
    ensures var r1, r2 := DownloadRun(urls, dir, more, fetchOk), DownloadRun(urls, dir, fewer, fetchOk);
      r2.ok ==>
        && r1.ok && r1.paths == r2.paths && r1.fs.cwd == r2.fs.cwd
        && forall i :: r2.fs.Exists(FrameName(dir, i)) ==> r1.fs.Exists(FrameName(dir, i))
  {
    if urls != [] {
      var n := |urls| - 1;
      var init := urls[..n];
      DownloadRunMoreCached(init, dir, more, fewer, fetchOk);
    }
  }

  /** Names of frames with smaller indices sort first, up to index 999. */
  lemma FrameNameOrder(dir: string, i: nat, j: nat)
    requires i < j < 1000
    ensures LexLess(FrameName(dir, i), FrameName(dir, j))
  {
    assert Pow10(3) == 1000;
    PadIntBelowWidth(i, 3);
    PadIntBelowWidth(j, 3);
    DigitsOrder(i, j, 3);
    LexLessEqualLengthAppend(Digits(i, 3), Digits(j, 3), ".png", ".png");
    LexLessCommonPrefix(dir + "/frame_", Digits(i, 3) + ".png", Digits(j, 3) + ".png");
    assert FrameName(dir, i) == (dir + "/frame_") + (Digits(i, 3) + ".png");
    assert FrameName(dir, j) == (dir + "/frame_") + (Digits(j, 3) + ".png");
  }

  /** With at most 1000 items the final sort leaves the frames in index
      order. */
  lemma FramesInIndexOrder(metadata: seq<ImageMeta>, dir: string, fs: FileSystem, fetchOk: string -> bool)
    requires |metadata| <= 1000
    requires DownloadRun(ImageUrls(metadata), dir, fs, fetchOk).ok
    ensures DownloadResult(metadata, dir, fs, fetchOk) == Ok(DownloadRun(ImageUrls(metadata), dir, fs, fetchOk).paths)
  {
    var paths := DownloadRun(ImageUrls(metadata), dir, fs, fetchOk).paths;
    DownloadRunPaths(ImageUrls(metadata), dir, fs, fetchOk);
    forall i, j | 0 <= i < j < |paths| ensures LexLess(paths[i], paths[j]) {
      FrameNameOrder(dir, i, j);
    }
    StrictlyIncreasingIsSorted(paths);
    SortSortedIsIdentity(paths);
  }

  /** From 1001 items on the sort no longer keeps index order: the name of
      frame 1000 sorts before that of frame 101. */
  lemma FrameThousandSortsEarly(dir: string)
    ensures LexLess(FrameName(dir, 1000), FrameName(dir, 101))
  {
    assert Pow10(3) == 1000 && Pow10(4) == 10000;
    PadIntBelowWidth(101, 3);
    PadIntBelowWidth(1000, 4);
    assert NumDigits(1000) == 4 by { NumDigitsFour(1000); }
    assert PadInt(1000, 3) == Digits(1000, 4);
    var a, b := Digits(1000, 4) + ".png", Digits(101, 3) + ".png";
    assert a == "1000.png" && b == "101.png";
    assert LexLess(a, b);
    LexLessCommonPrefix(dir + "/frame_", a, b);
    assert FrameName(dir, 1000) == (dir + "/frame_") + a;
    assert FrameName(dir, 101) == (dir + "/frame_") + b;
  }

  /** `download_images(metadata, dir)`: returns the result and the file
      system after the downloads. */
  method DownloadImages(metadata: seq<ImageMeta>, dir: string, fs: FileSystem, fetchOk: string -> bool)
    returns (r: Result<seq<string>>, fs': FileSystem)
    ensures r == DownloadResult(metadata, dir, fs, fetchOk)
    ensures fs' == DownloadRun(ImageUrls(metadata), dir, fs, fetchOk).fs
  {
    ghost var urls := ImageUrls(metadata);
    var downloaded: seq<string> := [];
    ghost var fetched: seq<nat> := [];
    fs' := fs;
    var i := 0;
    while i < |metadata|
      invariant 0 <= i <= |metadata|
      invariant DownloadRun(urls[..i], dir, fs, fetchOk) == Download(true, fs', downloaded, fetched)
    {
      assert urls[..i + 1][..i] == urls[..i];
      var url := BuildImageUrl(metadata[i]);
      if url.Err? {
        DownloadRunStops(urls, i + 1, dir, fs, fetchOk);
        return Err("download failed"), fs';
      }
      var dest := FrameName(dir, i);
      if fs'.Exists(dest) {
        downloaded := downloaded + [dest];
        i := i + 1;
        continue;
      }
      fetched := fetched + [i];
      if !fetchOk(url.value) {
        DownloadRunStops(urls, i + 1, dir, fs, fetchOk);
        return Err("download failed"), fs';
      }
      fs' := fs'.Write(dest);
      downloaded := downloaded + [dest];
      i := i + 1;
    }
    assert urls[..i] == urls;
    r := Ok(SortStrings(downloaded));
  }
}
