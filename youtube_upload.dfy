/** The deterministic parts of `utils/youtube_upload.py`: the title and the
    description a date's video is published under, the title-to-id listing
    of the channel, the retry bound of an upload, the snippet merge of a
    metadata update and the result of a delete. Every call to the YouTube
    API is an input here. */
module YouTubeUpload {
  import opened Wrappers
  import opened Strings
  import opened Calendar

  /** `MAX_RETRIES` */
  const MaxRetries := 3

  // ---------------------------------------------------------------------
  // Titles and descriptions.
  // ---------------------------------------------------------------------

  /** The `formatted` date of both builders: `"%B %d, %Y"` when `s` parses
      as `"%Y-%m-%d"`, otherwise `s` itself. */
  function FormattedDate(s: string): string
  {
    match ParseDate(s)
    case Some(dt) => LongDate(dt)
    case None => s
  }

  const TitlePrefix := "Earth from Space - "
  const TitleSuffix := " | NASA EPIC"

  /** `make_video_title(s)` */
  function MakeVideoTitle(s: string): string
  {
    TitlePrefix + FormattedDate(s) + TitleSuffix
  }

  const DescriptionLead := "A time-lapse of Earth on "
  const DescriptionTail :=
    ", captured by NASA's EPIC camera aboard the DSCOVR satellite, orbiting approximately 1.5 million km from Earth.\n\n"
    + "These images show the sunlit side of Earth as it rotates throughout the day.\n\n"
    + "Source: NASA EPIC (Earth Polychromatic Imaging Camera)\n"
    + "https://epic.gsfc.nasa.gov/\n\n"
    + "#NASA #Earth #Space #EPIC #DSCOVR #Timelapse #Shorts"

  /** `make_video_description(s)` */
  function MakeVideoDescription(s: string): string
  {
    DescriptionLead + FormattedDate(s) + DescriptionTail
  }

  /** The title of a valid date's canonical key spells out the month name,
      the two-digit day and the four-digit year. */
  lemma TitleOfDate(dt: Date)
    requires ValidDate(dt)
    ensures MakeVideoTitle(IsoFormat(dt))
      == "Earth from Space - " + MonthName(dt.month) + " " + Digits(dt.day, 2) + ", " + Digits(dt.year, 4) + " | NASA EPIC"
  {
    ParseIsoFormat(dt);
  }

  /** A string that does not parse as a date is embedded verbatim. */
  lemma TitleOfUnparsable(s: string)
    requires ParseDate(s).None?
    ensures MakeVideoTitle(s) == "Earth from Space - " + s + " | NASA EPIC"
  {
  }

  /** Distinct canonical date keys get distinct titles, which is what the
      title-based duplicate check against the channel relies on. */
  lemma TitleInjective(a: string, b: string)
    requires IsCanonicalKey(a) && IsCanonicalKey(b)
    requires MakeVideoTitle(a) == MakeVideoTitle(b)
    ensures a == b
  {
    AffixCancel(TitlePrefix, FormattedDate(a), FormattedDate(b), TitleSuffix);
    LongDateInjective(ParseDate(a).value, ParseDate(b).value);
  }

  /** Outside canonical keys titles do collide: strptime accepts a month
      and a day without their leading zero, ... */
  lemma TitleCollisionUnpadded()
    ensures MakeVideoTitle("2026-2-6") == MakeVideoTitle("2026-02-06")
    ensures MakeVideoTitle("2026-02-06") == TitlePrefix + "February 06, 2026" + TitleSuffix
  {
    NonCanonicalKeysParse();
    LongDateExample();
  }

  /** ... and a string that does not parse is used verbatim. */
  lemma TitleCollisionVerbatim()
    ensures MakeVideoTitle("February 06, 2026") == MakeVideoTitle("2026-02-06")
  {
    TitleCollisionUnpadded();
    assert ParseDate("February 06, 2026").None? by {
      assert YearField("February 06, 2026").None?;
    }
  }

  lemma LongDateExample()
    ensures ValidDate(Date(2026, 2, 6)) && LongDate(Date(2026, 2, 6)) == "February 06, 2026"
  {
  }

  /** The description embeds the same formatted date as the title: two
      strings share a title exactly when they share a description. */
  lemma TitleAndDescriptionAgree(a: string, b: string)
    ensures MakeVideoTitle(a) == MakeVideoTitle(b) <==> MakeVideoDescription(a) == MakeVideoDescription(b)
  {
    if MakeVideoTitle(a) == MakeVideoTitle(b) {
      AffixCancel(TitlePrefix, FormattedDate(a), FormattedDate(b), TitleSuffix);
    }
    if MakeVideoDescription(a) == MakeVideoDescription(b) {
      AffixCancel(DescriptionLead, FormattedDate(a), FormattedDate(b), DescriptionTail);
    }
  }

  // ---------------------------------------------------------------------
  // The channel's uploads, page by page.
  // ---------------------------------------------------------------------

  /** The `snippet` of one playlist item: its title and its video id. */
  datatype PlaylistItem = PlaylistItem(title: string, videoId: string)

  /** One response of `playlistItems().list`. */
  datatype Page = Page(items: seq<PlaylistItem>, nextPageToken: Option<string>)

  /** `title_to_id` after writing `items` into `m` in order. */
  function Merge(m: map<string, string>, items: seq<PlaylistItem>): map<string, string>
    decreases |items|
  {
    if items == [] then m
    else Merge(m, items[..|items| - 1])[items[|items| - 1].title := items[|items| - 1].videoId]
  }

  /** The items of the pages, in the order they were fetched. */
  function AllItems(pages: seq<Page>): seq<PlaylistItem>
  {
    if pages == [] then [] else AllItems(pages[..|pages| - 1]) + pages[|pages| - 1].items
  }

  /** The first page without a next-page token: the last page requested. */
  function FinalPage(pages: seq<Page>): (n: nat)
    requires exists i :: 0 <= i < |pages| && !Truthy(pages[i].nextPageToken)
    ensures n < |pages| && !Truthy(pages[n].nextPageToken)
    ensures forall i :: 0 <= i < n ==> Truthy(pages[i].nextPageToken)
  {
    if !Truthy(pages[0].nextPageToken) then 0
    else
      var i :| 0 <= i < |pages| && !Truthy(pages[i].nextPageToken);
      assert 0 <= i - 1 < |pages[1..]| && !Truthy(pages[1..][i - 1].nextPageToken);
      1 + FinalPage(pages[1..])
  }

  /** Every title of the listing comes from the initial map or from some
      item, and every item's title is in it. */
  lemma {:induction false} MergeKeys(m: map<string, string>, items: seq<PlaylistItem>)
    ensures forall t :: t in Merge(m, items) <==> t in m || exists k :: 0 <= k < |items| && items[k].title == t
  {
    if items != [] {
      var init := items[..|items| - 1];
      MergeKeys(m, init);
      forall t | t in Merge(m, items)
        ensures t in m || exists k :: 0 <= k < |items| && items[k].title == t
      {
        if t != items[|items| - 1].title {
          assert t in Merge(m, init);
          if t !in m {
            var k :| 0 <= k < |init| && init[k].title == t;
            assert items[k].title == t;
          }
        }
      }
      forall t | t in m || exists k :: 0 <= k < |items| && items[k].title == t
        ensures t in Merge(m, items)
      {
        if t !in m && t != items[|items| - 1].title {
          var k :| 0 <= k < |items| && items[k].title == t;
          assert k < |init| && init[k].title == t;
        }
      }
    }
  }

  /** A title maps to the id of its last occurrence. */
  lemma {:induction false} MergeLastWins(m: map<string, string>, items: seq<PlaylistItem>, k: int)
    requires 0 <= k < |items|
    requires forall j :: k < j < |items| ==> items[j].title != items[k].title
    ensures items[k].title in Merge(m, items)
    ensures Merge(m, items)[items[k].title] == items[k].videoId
  {
    if k < |items| - 1 {
      var init := items[..|items| - 1];
      assert init[k] == items[k];
      MergeLastWins(m, init, k);
    }
  }

  /** A title no item carries keeps the id it had. */
  lemma {:induction false} MergeKeepsOthers(m: map<string, string>, items: seq<PlaylistItem>, t: string)
    requires t in m
    requires forall j :: 0 <= j < |items| ==> items[j].title != t
    ensures t in Merge(m, items) && Merge(m, items)[t] == m[t]
  {
    if items != [] {
      MergeKeepsOthers(m, items[..|items| - 1], t);
    }
  }

  lemma MergeSnoc(m: map<string, string>, items: seq<PlaylistItem>, x: PlaylistItem)
    ensures Merge(m, items + [x]) == Merge(m, items)[x.title := x.videoId]
  {
  }

  lemma AllItemsSnoc(pages: seq<Page>, i: nat)
    requires i < |pages|
    ensures AllItems(pages[..i + 1]) == AllItems(pages[..i]) + pages[i].items
  {
    assert pages[..i + 1][..i] == pages[..i];
  }

  /** `get_uploaded_video_titles`: `channelFound` says whether the channel
      list had items; `pages` are the successive playlist pages the API
      returns, the last one requested being the first without a token. */
  method GetUploadedVideoTitles(channelFound: bool, pages: seq<Page>) returns (titles: map<string, string>)
    requires channelFound ==> exists i :: 0 <= i < |pages| && !Truthy(pages[i].nextPageToken)
    ensures !channelFound ==> titles == map[]
    ensures channelFound ==> titles == Merge(map[], AllItems(pages[..FinalPage(pages) + 1]))
  {
    titles := map[];
    if !channelFound {
      return;
    }
    var last := FinalPage(pages);
    var i := 0;
    while true
      invariant 0 <= i <= last
      invariant titles == Merge(map[], AllItems(pages[..i]))
      decreases last - i
    {
      var page := pages[i];
      titles := AddItems(titles, AllItems(pages[..i]), page.items);
      AllItemsSnoc(pages, i);
      if !Truthy(page.nextPageToken) {
        assert i == last;
        return;
      }
      assert i != last;
      i := i + 1;
    }
  }

  /** The `for item in ...` loop over one page: writes each item's title
      and id into `titles`, the listing of the items `before`. */
  method AddItems(titles: map<string, string>, ghost before: seq<PlaylistItem>, items: seq<PlaylistItem>)
    returns (titles': map<string, string>)
    requires titles == Merge(map[], before)
    ensures titles' == Merge(map[], before + items)
  {
    titles' := titles;
    var j := 0;
    assert before + items[..0] == before;
    while j < |items|
      invariant 0 <= j <= |items|
      invariant titles' == Merge(map[], before + items[..j])
    {
      assert before + items[..j + 1] == (before + items[..j]) + [items[j]];
      MergeSnoc(map[], before + items[..j], items[j]);
      titles' := titles'[items[j].title := items[j].videoId];
      j := j + 1;
    }
    assert items[..j] == items;
  }

  // ---------------------------------------------------------------------
  // Uploading, deleting, updating.
  // ---------------------------------------------------------------------

  /** The id of the first of insert calls `from`..MaxRetries that returns
      one. */
  function FirstSuccess(insert: nat -> Option<string>, from: nat): Option<string>
    decreases MaxRetries + 1 - from
  {
    if from > MaxRetries then None
    else if insert(from).Some? then insert(from)
    else FirstSuccess(insert, from + 1)
  }

  /** `upload_video`: `insert(k)` is the outcome of the k-th call of
      `videos().insert` — the id it returns, or None when it raises. The
      result is the id and the number of insert calls made. */
  method UploadVideo(fileExists: bool, insert: nat -> Option<string>) returns (videoId: Option<string>, attempts: nat)
    ensures !fileExists ==> videoId.None? && attempts == 0
    ensures attempts <= MaxRetries
    ensures forall k :: 1 <= k < attempts ==> insert(k).None?
    ensures videoId.Some? ==> fileExists && videoId == insert(attempts)
    ensures videoId.None? && fileExists ==> attempts == MaxRetries && insert(MaxRetries).None?
    ensures videoId == if fileExists then FirstSuccess(insert, 1) else None
  {
    videoId, attempts := None, 0;
    if !fileExists {
      return;
    }
    var attempt := 1;
    while attempt <= MaxRetries
      invariant 1 <= attempt <= MaxRetries + 1
      invariant attempts == attempt - 1
      invariant forall k :: 1 <= k < attempt ==> insert(k).None?
      invariant FirstSuccess(insert, 1) == FirstSuccess(insert, attempt)
    {
      attempts := attempt;
      var response := insert(attempt);
      if response.Some? {
        videoId := response;
        return;
      }
      attempt := attempt + 1;
    }
  }

  /** A value of a video snippet. */
  datatype Value = Text(s: string) | TextList(items: seq<string>) | OtherValue

  /** What `videos().list` gave for the id: it raised, it had no items, or
      the snippet of the video. */
  datatype Lookup = LookupFailed | NotFound | Found(snippet: map<string, Value>)

  /** Whether the update overwrites snippet field `k`. */
  predicate Replaced(k: string, title: Option<string>, description: Option<string>, tags: Option<seq<string>>)
  {
    (k == "title" && title.Some?) || (k == "description" && description.Some?) || (k == "tags" && tags.Some?)
  }

  /** `update_video_metadata`: merges the given fields into the fetched
      snippet; returns whether the update went through and the snippet
      sent with `videos().update`, if one was. */
  method UpdateVideoMetadata(lookup: Lookup, title: Option<string>, description: Option<string>,
                             tags: Option<seq<string>>, updateRaised: bool)
    returns (ok: bool, sent: Option<map<string, Value>>)
    ensures !lookup.Found? ==> !ok && sent.None?
    ensures lookup.Found? ==> sent.Some? && ok == !updateRaised
    ensures sent.Some? ==> var old_, new_ := lookup.snippet, sent.value;
      && new_.Keys == old_.Keys + {"categoryId"}
         + (if title.Some? then {"title"} else {})
         + (if description.Some? then {"description"} else {})
         + (if tags.Some? then {"tags"} else {})
      && (title.Some? ==> new_["title"] == Text(title.value))
      && (description.Some? ==> new_["description"] == Text(description.value))
      && (tags.Some? ==> new_["tags"] == TextList(tags.value))
      && new_["categoryId"] == (if "categoryId" in old_ then old_["categoryId"] else Text("28"))
      && (forall k :: k in old_ && !Replaced(k, title, description, tags) ==> new_[k] == old_[k])
  {
    if !lookup.Found? {
      return false, None;
    }
    var snippet := lookup.snippet;
    if title.Some? {
      snippet := snippet["title" := Text(title.value)];
    }
    if description.Some? {
      snippet := snippet["description" := Text(description.value)];
    }
    if tags.Some? {
      snippet := snippet["tags" := TextList(tags.value)];
    }
    if "categoryId" !in snippet {
      snippet := snippet["categoryId" := Text("28")];
    }
    sent := Some(snippet);
    ok := !updateRaised;
  }
}
