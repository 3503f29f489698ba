/** bin/youtube.py: the download and upload actions of the caption backup
    script. The API calls, the OAuth service and the file writes are not
    performed here: their results are inputs and the files to be written
    are returned as a list. */
module YoutubeScript {
  import opened Wrappers
  import opened Text
  import opened YoutubeLib

  // ---------------------------------------------------------------- plural suffix

  /** `_s` applied to a count: no suffix for exactly one. */
  function Plural(n: int): (r: string)
    ensures r == "" <==> n == 1
    ensures r != "" ==> r == "s"
  {
    if n == 1 then "" else "s"
  }

  /** `_s` applied to a list: the suffix for its length. */
  function PluralOf<T>(items: seq<T>): (r: string)
    ensures r == "" <==> |items| == 1
  {
    Plural(|items|)
  }

  // ---------------------------------------------------------------- directory

  /** The captions directory: a `--directory` starting with `/` as given,
      any other joined to the script's directory and made absolute
      (`abspath`, whose normalisation of `..` is not modelled). */
  function CaptionsDirectory(scriptDir: string, dataDir: string, abspath: string -> string): (dir: string)
    ensures StartsWith(dataDir, "/") ==> dir == dataDir
    ensures !StartsWith(dataDir, "/") ==> dir == abspath(PathJoin(scriptDir, dataDir))
  {
    if StartsWith(dataDir, "/") then dataDir else abspath(PathJoin(scriptDir, dataDir))
  }

  /** The explicit branch for absolute paths agrees with `os.path.join`,
      which already drops the script directory before an absolute path. */
  lemma AbsoluteDirectoryIsJoin(scriptDir: string, dataDir: string, abspath: string -> string)
    requires StartsWith(dataDir, "/")
    ensures CaptionsDirectory(scriptDir, dataDir, abspath) == PathJoin(scriptDir, dataDir)
  {
  }

  // ---------------------------------------------------------------- VTT header splice

  /** `caption_lines[0:3]`. */
  function HeadLines(lines: seq<string>): (head: seq<string>)
    ensures |head| == if |lines| < 3 then |lines| else 3
    ensures head == lines[..|head|]
  {
    if |lines| < 3 then lines else lines[..3]
  }

  /** `caption_lines[3:]`. */
  function TailLines(lines: seq<string>): (tail: seq<string>)
    ensures HeadLines(lines) + tail == lines
  {
    if |lines| < 3 then [] else lines[3..]
  }

  /** The three metadata lines the script appends to the VTT comments. */
  function MetadataLines(lastUpdated: string, captionId: string, yid: string): (m: seq<string>)
    ensures |m| == 3
  {
    ["LastUpdated: " + lastUpdated, "Caption: " + captionId, "Video: " + yid]
  }

  /** Metadata values without a newline give three lines without one. */
  lemma MetadataLinesNoNewline(lastUpdated: string, captionId: string, yid: string)
    requires NoNewline(lastUpdated) && NoNewline(captionId) && NoNewline(yid)
    ensures forall i :: 0 <= i < 3 ==> NoNewline(MetadataLines(lastUpdated, captionId, yid)[i])
  {
    NoNewlineAppend("LastUpdated: ", lastUpdated);
    NoNewlineAppend("Caption: ", captionId);
    NoNewlineAppend("Video: ", yid);
  }

  /** The downloaded VTT text with the metadata lines spliced in after its
      first three lines. */
  function Splice(contents: string, lastUpdated: string, captionId: string, yid: string): string
  {
    var lines := Split(contents);
    Join(HeadLines(lines) + MetadataLines(lastUpdated, captionId, yid)) + "\n" + Join(TailLines(lines))
  }

  /** The spliced text's lines are the first three original lines, the three
      metadata lines, then the remaining original lines unchanged (one empty
      line when there are none). */
  lemma SpliceLines(contents: string, lastUpdated: string, captionId: string, yid: string)
    requires NoNewline(lastUpdated) && NoNewline(captionId) && NoNewline(yid)
    ensures Split(Splice(contents, lastUpdated, captionId, yid)) ==
      HeadLines(Split(contents)) + MetadataLines(lastUpdated, captionId, yid)
      + (if TailLines(Split(contents)) == [] then [""] else TailLines(Split(contents)))
  {
    var lines := Split(contents);
    var head := HeadLines(lines);
    var meta := MetadataLines(lastUpdated, captionId, yid);
    var front := head + meta;
    var tail := TailLines(lines);
    MetadataLinesNoNewline(lastUpdated, captionId, yid);
    assert forall i :: 0 <= i < |front| ==> front[i] == if i < |head| then head[i] else meta[i - |head|];
    SplitJoinThen(front, Join(tail));
    if tail != [] {
      SplitJoin(tail);
    }
  }

  /** Dropping the three metadata lines from a spliced text of more than
      three lines gives back the downloaded text. */
  lemma SpliceKeepsOriginal(contents: string, lastUpdated: string, captionId: string, yid: string)
    requires NoNewline(lastUpdated) && NoNewline(captionId) && NoNewline(yid)
    requires |Split(contents)| > 3
    ensures var spliced := Split(Splice(contents, lastUpdated, captionId, yid));
      |spliced| == |Split(contents)| + 3 && Join(spliced[..3] + spliced[6..]) == contents
  {
    var lines := Split(contents);
    SpliceLines(contents, lastUpdated, captionId, yid);
    var spliced := Split(Splice(contents, lastUpdated, captionId, yid));
    assert spliced[..3] + spliced[6..] == lines;
    JoinSplit(contents);
  }

  /** A blank line matches no header entry. */
  lemma BlankLineHasNoEntry(line: string)
    requires IsBlank(line)
    ensures HeaderEntry(line).None?
  {
    if line != [] {
      assert IsSpace(line[0]);
    }
  }

  lemma {:induction false} HeaderEndIs(lines: seq<string>, from: nat, e: nat)
    requires from <= e <= |lines|
    requires forall k :: from <= k < e ==> !IsBlank(lines[k])
    requires e == |lines| || IsBlank(lines[e])
    ensures HeaderEnd(lines, from) == e
    decreases e - from
  {
    if from < e {
      HeaderEndIs(lines, from + 1, e);
    }
  }

  /** A header line "Key: value" is not blank. */
  lemma EntryLineNotBlank(key: string, value: string)
    requires key != [] && IsWordChar(key[0])
    ensures !IsBlank(key + ": " + value)
  {
    assert (key + ": " + value)[0] == key[0];
  }

  /** The keys of the metadata the round trip recovers, in line order from
      the third line on. */
  const SplicedKeys: seq<string> := ["Language", "LastUpdated", "Caption", "Video"]

  /** The lines `readline` sees in a spliced text: the first two original
      lines, then "Key: value" lines for the language and the three
      metadata values, then the blank fourth original line if any line is
      left. */
  lemma SplicedFileLayout(contents: string, lastUpdated: string, captionId: string, yid: string, language: string)
    requires RoundTripReady(contents, lastUpdated, captionId, yid, language)
    ensures var file := FileLines(Splice(contents, lastUpdated, captionId, yid));
      var values := [language, lastUpdated, captionId, yid];
      && |file| >= 6
      && !IsBlank(file[0]) && !IsBlank(file[1])
      && (forall j :: 2 <= j < 6 ==> file[j] == SplicedKeys[j - 2] + ": " + values[j - 2])
      && (|file| > 6 ==> IsBlank(file[6]))
  {
    var lines := Split(contents);
    var text := Splice(contents, lastUpdated, captionId, yid);
    SpliceLines(contents, lastUpdated, captionId, yid);
    FileLinesOfParts(text);
    var meta := MetadataLines(lastUpdated, captionId, yid);
    assert Split(text) == lines[..3] + meta + lines[3..];
    assert "Language: " + language == "Language" + ": " + language;
  }

  /** A key the header regex accepts in full: one or more `\w` characters. */
  predicate WordKey(key: string)
  {
    key != [] && forall k :: 0 <= k < |key| ==> IsWordChar(key[k])
  }

  lemma MetadataKeysAreWords()
    ensures forall i :: 0 <= i < |SplicedKeys| ==> WordKey(SplicedKeys[i])
    ensures forall i, i' :: 0 <= i < i' < |SplicedKeys| ==> SplicedKeys[i] != SplicedKeys[i']
  {
    assert WordKey("Language") && WordKey("LastUpdated") && WordKey("Caption") && WordKey("Video");
  }

  /** A line "Key: value" is not blank and reads back as its entry. */
  lemma LineEntry(file: seq<string>, j: nat, key: string, value: string)
    requires WordKey(key)
    requires value != [] && Stripped(value)
    requires j < |file| && file[j] == key + ": " + value
    ensures Entries(file)[j] == Some((key, value)) && !IsBlank(file[j])
  {
    HeaderEntryRoundTrip(key, value);
    EntryLineNotBlank(key, value);
    EntriesIndex(file, j);
  }

  lemma BlankLineNoEntry(file: seq<string>, j: nat)
    requires j < |file| ==> IsBlank(file[j])
    ensures EntryAt(Entries(file), j).None?
  {
    if j < |file| {
      BlankLineHasNoEntry(file[j]);
      EntriesIndex(file, j);
    }
  }

  /** Four "Key: value" lines at indexes 2 to 5 are not blank and read
      back as their entries. */
  lemma EntryLines(file: seq<string>, keys: seq<string>, values: seq<string>)
    requires |file| >= 6 && |keys| == 4 && |values| == 4
    requires forall i :: 0 <= i < 4 ==> WordKey(keys[i]) && values[i] != [] && Stripped(values[i])
    requires forall j :: 2 <= j < 6 ==> file[j] == keys[j - 2] + ": " + values[j - 2]
    ensures forall j :: 2 <= j < 6 ==> !IsBlank(file[j])
    ensures forall j :: 2 <= j < 6 ==> Entries(file)[j] == Some((keys[j - 2], values[j - 2]))
  {
    forall j | 2 <= j < 6
      ensures Entries(file)[j] == Some((keys[j - 2], values[j - 2])) && !IsBlank(file[j])
    {
      LineEntry(file, j, keys[j - 2], values[j - 2]);
    }
  }

  /** The header dict of file lines laid out as a spliced VTT file: two
      non-blank lines, then four lines holding entries with distinct keys,
      then a blank line or the end of the file. Each key maps to its value. */
  lemma SplicedHeader(file: seq<string>, keys: seq<string>, values: seq<string>)
    requires |file| >= 6 && |keys| == 4 && |values| == 4
    requires forall j :: 0 <= j < 6 ==> !IsBlank(file[j])
    requires forall j :: 2 <= j < 6 ==> Entries(file)[j] == Some((keys[j - 2], values[j - 2]))
    requires forall i, i' :: 0 <= i < i' < 4 ==> keys[i] != keys[i']
    requires |file| > 6 ==> IsBlank(file[6])
    ensures var m := Metas(Entries(file), HeaderEnd(file, 0));
      forall i :: 0 <= i < 4 ==> keys[i] in m && m[keys[i]] == values[i]
  {
    HeaderEndIs(file, 0, 6);
    BlankLineNoEntry(file, 6);
    SplicedMetas(Entries(file), keys, values);
  }

  lemma SplicedMetas(entries: seq<Entry>, keys: seq<string>, values: seq<string>)
    requires |entries| >= 6 && |keys| == 4 && |values| == 4
    requires forall j :: 2 <= j < 6 ==> entries[j] == Some((keys[j - 2], values[j - 2]))
    requires forall i, i' :: 0 <= i < i' < 4 ==> keys[i] != keys[i']
    requires EntryAt(entries, 6).None?
    ensures forall i :: 0 <= i < 4 ==> keys[i] in Metas(entries, 6) && Metas(entries, 6)[keys[i]] == values[i]
  {
    forall i | 0 <= i < 4
      ensures keys[i] in Metas(entries, 6) && Metas(entries, 6)[keys[i]] == values[i]
    {
      MetasLastWins(entries, 6, i + 2, keys[i], values[i]);
    }
  }

  /** The requirements on a downloaded VTT for the round trip: more than
      three lines, the first two not blank, the third "Language: L", the
      fourth blank, and metadata values that are single stripped words of
      text. */
  predicate RoundTripReady(contents: string, lastUpdated: string, captionId: string, yid: string, language: string)
  {
    var lines := Split(contents);
    && |lines| > 3
    && !IsBlank(lines[0]) && !IsBlank(lines[1])
    && lines[2] == "Language: " + language
    && IsBlank(lines[3])
    && language != [] && Stripped(language)
    && lastUpdated != [] && Stripped(lastUpdated) && NoNewline(lastUpdated)
    && captionId != [] && Stripped(captionId) && NoNewline(captionId)
    && yid != [] && Stripped(yid) && NoNewline(yid)
  }

  /** The header dict of the spliced file holds the four metadata values. */
  lemma SplicedHeaderMetas(contents: string, lastUpdated: string, captionId: string, yid: string, language: string)
    requires RoundTripReady(contents, lastUpdated, captionId, yid, language)
    ensures var m := HeaderMetas(Splice(contents, lastUpdated, captionId, yid));
      && "Language" in m && m["Language"] == language
      && "LastUpdated" in m && m["LastUpdated"] == lastUpdated
      && "Caption" in m && m["Caption"] == captionId
      && "Video" in m && m["Video"] == yid
  {
    var text := Splice(contents, lastUpdated, captionId, yid);
    var file := FileLines(text);
    var values := [language, lastUpdated, captionId, yid];
    SplicedFileLayout(contents, lastUpdated, captionId, yid, language);
    MetadataKeysAreWords();
    EntryLines(file, SplicedKeys, values);
    SplicedHeader(file, SplicedKeys, values);
    var m := HeaderMetas(text);
    assert m == Metas(Entries(file), HeaderEnd(file, 0));
    assert SplicedKeys[0] in m && m[SplicedKeys[0]] == values[0];
    assert SplicedKeys[1] in m && m[SplicedKeys[1]] == values[1];
    assert SplicedKeys[2] in m && m[SplicedKeys[2]] == values[2];
    assert SplicedKeys[3] in m && m[SplicedKeys[3]] == values[3];
  }

  /** Round trip of the splice with the header parser: for a downloaded VTT
      whose first two lines are not blank, whose third line is
      "Language: L" and whose fourth line is blank, parsing the spliced file
      gives back the caption id, the video id, L and the update time. */
  lemma SpliceReadsBack(path: string, contents: string, lastUpdated: string, captionId: string, yid: string, language: string)
    requires RoundTripReady(contents, lastUpdated, captionId, yid, language)
    ensures CaptionFromText(path, Splice(contents, lastUpdated, captionId, yid))
      == Ok(Caption(path, captionId, yid, language, lastUpdated))
  {
    SplicedHeaderMetas(contents, lastUpdated, captionId, yid, language);
  }

  // ---------------------------------------------------------------- file names

  /** `"%s.%s.%s.%s.%s" % (day, slug, language, caption id, extension)`. */
  function CaptionFilename(day: string, slug: string, language: string, captionId: string, ext: string): (name: string)
    ensures StartsWith(name, day + ".") && EndsWith(name, "." + ext)
    ensures NoSlash(day) && NoSlash(slug) && NoSlash(language) && NoSlash(captionId) && NoSlash(ext) ==> NoSlash(name)
  {
    var name := day + "." + slug + "." + language + "." + captionId + "." + ext;
    assert name == (day + ".") + (slug + "." + language + "." + captionId + ".") + ext;
    assert name == (day + "." + slug + "." + language + "." + captionId) + ("." + ext);
    name
  }

  /** `os.path.join(directory, year, filename)`. */
  function CaptionPath(dir: string, year: string, filename: string): (path: string)
    ensures EndsWith(path, filename)
  {
    PathJoin(PathJoin(dir, year), filename)
  }

  // ---------------------------------------------------------------- download action

  /** One caption track as listed by the captions endpoint. */
  datatype CaptionTrack = CaptionTrack(id: string, trackKind: string, isDraft: bool, language: string, lastUpdated: string)

  /** A video with what the script derives from it outside this model: the
      `%Y-%m-%d` day, the `%Y` year and the slug of its title, and the
      caption tracks listed for it. */
  datatype Listing = Listing(video: Video, day: string, year: string, slug: string, tracks: seq<CaptionTrack>)

  /** A file the script writes. */
  datatype FileWrite = FileWrite(path: string, contents: string)

  /** Only standard tracks that are not drafts are downloaded. */
  predicate Kept(track: CaptionTrack)
  {
    track.trackKind == "standard" && !track.isDraft
  }

  /** The file written for one kept track: vtt text gets the metadata
      splice, other formats are written as downloaded. */
  function TrackFile(dir: string, ext: string, listing: Listing, track: CaptionTrack, download: string -> string): (w: FileWrite)
    ensures ext != "vtt" ==> w.contents == download(track.id)
    ensures EndsWith(w.path, CaptionFilename(listing.day, listing.slug, track.language, track.id, ext))
  {
    var raw := download(track.id);
    var contents := if ext == "vtt" then Splice(raw, track.lastUpdated, track.id, listing.video.yid) else raw;
    FileWrite(CaptionPath(dir, listing.year, CaptionFilename(listing.day, listing.slug, track.language, track.id, ext)), contents)
  }

  /** The files written for a video's tracks, in track order. */
  function TrackWrites(dir: string, ext: string, listing: Listing, tracks: seq<CaptionTrack>, download: string -> string): seq<FileWrite>
  {
    if tracks == [] then []
    else
      var last := tracks[|tracks| - 1];
      TrackWrites(dir, ext, listing, tracks[..|tracks| - 1], download)
        + (if Kept(last) then [TrackFile(dir, ext, listing, last, download)] else [])
  }

  /** The files written for all videos, in video then track order. */
  function Writes(dir: string, ext: string, listings: seq<Listing>, download: string -> string): seq<FileWrite>
  {
    if listings == [] then []
    else
      var last := listings[|listings| - 1];
      Writes(dir, ext, listings[..|listings| - 1], download) + TrackWrites(dir, ext, last, last.tracks, download)
  }

  /** How many tracks pass the kind and draft filter. */
  function KeptTracks(tracks: seq<CaptionTrack>): nat
  {
    if tracks == [] then 0
    else KeptTracks(tracks[..|tracks| - 1]) + (if Kept(tracks[|tracks| - 1]) then 1 else 0)
  }

  function KeptCount(listings: seq<Listing>): nat
  {
    if listings == [] then 0
    else KeptCount(listings[..|listings| - 1]) + KeptTracks(listings[|listings| - 1].tracks)
  }

  lemma {:induction false} TrackWritesCount(dir: string, ext: string, listing: Listing, tracks: seq<CaptionTrack>, download: string -> string)
    ensures |TrackWrites(dir, ext, listing, tracks, download)| == KeptTracks(tracks)
  {
    if tracks != [] {
      TrackWritesCount(dir, ext, listing, tracks[..|tracks| - 1], download);
    }
  }

  /** One file is written per kept track, and no other. */
  lemma {:induction false} WritesCount(dir: string, ext: string, listings: seq<Listing>, download: string -> string)
    ensures |Writes(dir, ext, listings, download)| == KeptCount(listings)
  {
    if listings != [] {
      var last := listings[|listings| - 1];
      WritesCount(dir, ext, listings[..|listings| - 1], download);
      TrackWritesCount(dir, ext, last, last.tracks, download);
    }
  }

  /** The inner loop of the download action, over one video's tracks: the
      files written and how many captions were counted. */
  method DownloadTracks(dir: string, ext: string, listing: Listing, download: string -> string)
    returns (writes: seq<FileWrite>, count: nat)
    ensures writes == TrackWrites(dir, ext, listing, listing.tracks, download)
    ensures count == |writes|
  {
    writes := [];
    count := 0;
    var j := 0;
    while j < |listing.tracks|
      invariant 0 <= j <= |listing.tracks|
      invariant writes == TrackWrites(dir, ext, listing, listing.tracks[..j], download)
      invariant count == |writes|
    {
      var track := listing.tracks[j];
      assert listing.tracks[..j + 1][..j] == listing.tracks[..j];
      if Kept(track) {
        var raw := download(track.id);
        var contents := raw;
        if ext == "vtt" {
          contents := Splice(raw, track.lastUpdated, track.id, listing.video.yid);
        }
        var filename := CaptionFilename(listing.day, listing.slug, track.language, track.id, ext);
        var path := CaptionPath(dir, listing.year, filename);
        writes := writes + [FileWrite(path, contents)];
        count := count + 1;
      }
      j := j + 1;
    }
    assert listing.tracks[..j] == listing.tracks;
  }

  /** The download loop: the files to write, and `captions_count`, which
      counts exactly the kept tracks. */
  method DownloadCaptions(dir: string, ext: string, listings: seq<Listing>, download: string -> string)
    returns (writes: seq<FileWrite>, count: nat)
    ensures writes == Writes(dir, ext, listings, download)
    ensures count == |writes| == KeptCount(listings)
  {
    writes := [];
    count := 0;
    var i := 0;
    while i < |listings|
      invariant 0 <= i <= |listings|
      invariant writes == Writes(dir, ext, listings[..i], download)
      invariant count == |writes|
    {
      var files, n := DownloadTracks(dir, ext, listings[i], download);
      assert listings[..i + 1][..i] == listings[..i];
      writes := writes + files;
      count := count + n;
      i := i + 1;
    }
    assert listings[..i] == listings;
    WritesCount(dir, ext, listings, download);
  }

  // ---------------------------------------------------------------- video selection

  /** The `--videos` branch: the videos of the response when it reports as
      many results as ids were given, and exit 1 otherwise. */
  method SelectVideos(ids: seq<string>, totalResults: int, items: seq<VideoItem>) returns (r: Result<seq<Video>>)
    ensures r.Err? <==> totalResults != |ids|
    ensures r.Err? ==> r.failure == Exit(1)
    ensures r.Ok? ==> |r.value| == |items| && forall i :: 0 <= i < |items| ==> r.value[i] == VideoOf(items[i])
  {
    if totalResults != |ids| {
      return Err(Exit(1));
    }
    var videos := ParseVideos(items);
    return Ok(videos);
  }

  /** The videos of every item of every page, in order. */
  function PagesVideos(pages: seq<seq<VideoItem>>): seq<Video>
  {
    if pages == [] then []
    else PagesVideos(pages[..|pages| - 1]) + seq(|pages[|pages| - 1]|, k requires 0 <= k < |pages[|pages| - 1]| => VideoOf(pages[|pages| - 1][k]))
  }

  function TotalItems(pages: seq<seq<VideoItem>>): nat
  {
    if pages == [] then 0 else TotalItems(pages[..|pages| - 1]) + |pages[|pages| - 1]|
  }

  lemma {:induction false} PagesVideosCount(pages: seq<seq<VideoItem>>)
    ensures |PagesVideos(pages)| == TotalItems(pages)
  {
    if pages != [] {
      PagesVideosCount(pages[..|pages| - 1]);
    }
  }

  /** The channel branch: the first page and each page its `nextPageToken`
      leads to, parsed and appended in turn (the responses are given in
      the order they are fetched). */
  method ChannelVideos(pages: seq<seq<VideoItem>>) returns (videos: seq<Video>)
    ensures videos == PagesVideos(pages)
    ensures |videos| == TotalItems(pages)
  {
    videos := [];
    var i := 0;
    while i < |pages|
      invariant 0 <= i <= |pages|
      invariant videos == PagesVideos(pages[..i])
    {
      var parsed := ParseVideos(pages[i]);
      assert pages[..i + 1][..i] == pages[..i];
      videos := videos + parsed;
      i := i + 1;
    }
    assert pages[..i] == pages;
    PagesVideosCount(pages);
  }

  // ---------------------------------------------------------------- upload action

  /** The upload action: exit 1 without `--captions`; otherwise the file of
      the first caption id, found as `get_caption_file_by_id` does, is the
      one uploaded. */
  method UploadTarget(captions: seq<string>, walk: seq<WalkEntry>, ext: string, read: string -> string)
    returns (r: Result<Caption>)
    ensures captions == [] ==> r == Err(Exit(1))
    ensures captions != [] ==> r == SearchPaths(captions[0], Candidates(walk, ext), read)
    ensures r.Ok? ==> captions != [] && r.value.id == captions[0]
  {
    if captions == [] {
      return Err(Exit(1));
    }
    r := FindCaptionFile(captions[0], walk, ext, read);
  }
}
