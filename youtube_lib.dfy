/** lib/youtube.py: the Video and Caption records, parsing of the video
    platform's JSON items, the metadata header of a downloaded caption file,
    the search for a caption file by id, and the `cap < 51` guard of the
    channel searches. Network requests and OAuth are not modelled: their
    results are the inputs here. */
module YoutubeLib {
  import opened Wrappers
  import opened Text

  /** A video as parsed from one API item. The publication date (RFC 3339)
      and the duration (ISO 8601) keep the API's text form. */
  datatype Video = Video(yid: string, title: string, date: string, duration: Option<string>)

  /** A caption file's metadata. `modifiedAt` keeps the `LastUpdated` text. */
  datatype Caption = Caption(filepath: string, id: string, videoId: string, language: string, modifiedAt: string)

  // ---------------------------------------------------------------- videos from JSON

  /** The `id` of an API item: a plain string (videos endpoint) or an object
      holding `videoId` (search endpoint). */
  datatype ItemId = IdString(id: string) | IdObject(videoId: string)

  /** One element of a response's `items`: its id, `snippet.title`,
      `snippet.publishedAt`, and `contentDetails.duration` when the item has
      `contentDetails`. */
  datatype VideoItem = VideoItem(id: ItemId, title: string, publishedAt: string, contentDetails: Option<string>)

  /** The Video built from one item: its id is `id.videoId` when `id` is an
      object and `id` otherwise; its duration is absent exactly when the
      item has no `contentDetails`. */
  function VideoOf(item: VideoItem): (v: Video)
    ensures item.id.IdObject? ==> v.yid == item.id.videoId
    ensures item.id.IdString? ==> v.yid == item.id.id
    ensures v.duration.None? <==> item.contentDetails.None?
    ensures v.title == item.title && v.date == item.publishedAt
  {
    var yid := match item.id case IdString(s) => s case IdObject(s) => s;
    var duration := match item.contentDetails case None => None case Some(d) => Some(d);
    Video(yid, item.title, item.publishedAt, duration)
  }

  /** One Video per item, in item order. */
  function VideosOf(items: seq<VideoItem>): (videos: seq<Video>)
    ensures |videos| == |items|
    ensures forall i :: 0 <= i < |items| ==> videos[i] == VideoOf(items[i])
  {
    seq(|items|, i requires 0 <= i < |items| => VideoOf(items[i]))
  }

  /** `parse_videos_from_json`: the append loop over the items. */
  method ParseVideos(items: seq<VideoItem>) returns (videos: seq<Video>)
    ensures videos == VideosOf(items)
  {
    videos := [];
    var i := 0;
    while i < |items|
      invariant 0 <= i <= |items|
      invariant |videos| == i
      invariant forall k :: 0 <= k < i ==> videos[k] == VideoOf(items[k])
    {
      videos := videos + [VideoOf(items[i])];
      i := i + 1;
    }
  }

  // ---------------------------------------------------------------- channel search cap

  const LatestVideosCap: nat := 10
  const ChannelVideosCap: nat := 50

  /** The `maxResults` parameter of a channel search (`'%d' % cap`), or
      nothing when the `cap < 51` assertion fails. */
  function SearchMaxResults(cap: nat): (r: Option<string>)
    ensures r.Some? <==> cap < 51
    ensures r.Some? ==> AllDigits(r.value) && DigitsValue(r.value) == cap
  {
    DecimalRoundTrip(cap);
    if cap < 51 then Some(Decimal(cap)) else None
  }

  // ---------------------------------------------------------------- caption header

  /** Length of the longest prefix of `s` made of `\w` characters. */
  function WordRun(s: string): (n: nat)
    ensures n <= |s|
    ensures forall k :: 0 <= k < n ==> IsWordChar(s[k])
    ensures n < |s| ==> !IsWordChar(s[n])
  {
    if s != [] && IsWordChar(s[0]) then 1 + WordRun(s[1..]) else 0
  }

  /** Length of the longest prefix of `s` made of spaces. */
  function SpaceRun(s: string): (n: nat)
    ensures n <= |s|
    ensures forall k :: 0 <= k < n ==> s[k] == ' '
    ensures n < |s| ==> s[n] != ' '
  {
    if s != [] && s[0] == ' ' then 1 + SpaceRun(s[1..]) else 0
  }

  /** `re.match("(\w+): +(.+)", line)` on one line (its newline left off,
      since `.` does not match it) with both groups stripped. Group 1 is the
      word run before the colon; `+` takes every space, and `.+` the rest of
      the line, except that after "Key:" followed only by two or more spaces
      the last space is left to `.+` and the value strips to "". */
  function HeaderEntry(line: string): (r: Option<(string, string)>)
    ensures r.Some? ==> r.value.0 != [] && forall k :: 0 <= k < |r.value.0| ==> IsWordChar(r.value.0[k])
    ensures r.Some? ==> Stripped(r.value.1) && StartsWith(line, r.value.0 + ": ")
  {
    var w := WordRun(line);
    if w == 0 || w == |line| || line[w] != ':' then None
    else
      var tail := line[w + 1..];
      var spaces := SpaceRun(tail);
      var rest := tail[spaces..];
      if spaces == 0 || (rest == [] && spaces == 1) then None
      else
        var key := line[..w];
        assert line[..w + 2] == key + ": " by {
          assert line[w] == ':' && tail[0] == ' ' && tail[0] == line[w + 1];
        }
        Some((key, Strip(rest)))
  }

  /** The line written as `"%s: %s" % (key, value)` reads back as that entry. */
  lemma HeaderEntryRoundTrip(key: string, value: string)
    requires key != [] && forall k :: 0 <= k < |key| ==> IsWordChar(key[k])
    requires value != [] && Stripped(value)
    ensures HeaderEntry(key + ": " + value) == Some((key, value))
  {
    var line := key + ": " + value;
    WordRunOf(key, ": " + value);
    assert line == key + (": " + value);
    assert line[|key| + 1..] == " " + value;
    SpaceRunOf(" ", value);
    assert line[|key| + 2..] == value;
    assert line[..|key|] == key;
  }

  lemma {:induction false} WordRunOf(word: string, rest: string)
    requires forall k :: 0 <= k < |word| ==> IsWordChar(word[k])
    requires rest == [] || !IsWordChar(rest[0])
    ensures WordRun(word + rest) == |word|
  {
    if word != [] {
      assert (word + rest)[1..] == word[1..] + rest;
      WordRunOf(word[1..], rest);
    } else {
      assert word + rest == rest;
    }
  }

  lemma {:induction false} SpaceRunOf(spaces: string, rest: string)
    requires forall k :: 0 <= k < |spaces| ==> spaces[k] == ' '
    requires rest == [] || rest[0] != ' '
    ensures SpaceRun(spaces + rest) == |spaces|
  {
    if spaces != [] {
      assert (spaces + rest)[1..] == spaces[1..] + rest;
      SpaceRunOf(spaces[1..], rest);
    } else {
      assert spaces + rest == rest;
    }
  }

  /** The lines `readline` returns before end of file, newlines left off:
      the parts of `split("\n")`, less a final empty part. */
  function FileLines(text: string): (lines: seq<string>)
    ensures forall i :: 0 <= i < |lines| ==> NoNewline(lines[i])
  {
    var parts := Split(text);
    if parts[|parts| - 1] == "" then parts[..|parts| - 1] else parts
  }

  lemma FileLinesOfParts(text: string)
    ensures |FileLines(text)| >= |Split(text)| - 1
    ensures forall k :: 0 <= k < |FileLines(text)| ==> FileLines(text)[k] == Split(text)[k]
  {
  }

  /** The index of the first line, from `from` on, that is blank or past the
      end of the file. (`line.strip()` is empty exactly for a blank line,
      newline or not.) */
  function HeaderEnd(lines: seq<string>, from: nat): (e: nat)
    requires from <= |lines|
    ensures from <= e <= |lines|
    ensures forall k :: from <= k < e ==> !IsBlank(lines[k])
    ensures e < |lines| ==> IsBlank(lines[e])
    decreases |lines| - from
  {
    if from == |lines| || IsBlank(lines[from]) then from else HeaderEnd(lines, from + 1)
  }

  type Entry = Option<(string, string)>

  /** The entry each line of a file matches, if any. */
  function Entries(lines: seq<string>): (entries: seq<Entry>)
    ensures |entries| == |lines|
  {
    if lines == [] then [] else Entries(lines[..|lines| - 1]) + [HeaderEntry(lines[|lines| - 1])]
  }

  lemma {:induction false} EntriesIndex(lines: seq<string>, k: nat)
    requires k < |lines|
    ensures Entries(lines)[k] == HeaderEntry(lines[k])
  {
    if k < |lines| - 1 {
      EntriesIndex(lines[..|lines| - 1], k);
    }
  }

  /** The entry of line k, nothing past the end of the file. */
  function EntryAt(entries: seq<Entry>, k: nat): Entry
  {
    if k < |entries| then entries[k] else None
  }

  /** Line k matches and sets `key`. */
  predicate SetsKey(entries: seq<Entry>, k: nat, key: string)
  {
    EntryAt(entries, k).Some? && EntryAt(entries, k).value.0 == key
  }

  /** The `metas` dict after lines 1 to n have been matched in turn: a later
      line with the same key overwrites an earlier one. */
  function Metas(entries: seq<Entry>, n: nat): map<string, string>
  {
    if n == 0 then map[]
    else
      var m := Metas(entries, n - 1);
      match EntryAt(entries, n)
      case None => m
      case Some(entry) => m[entry.0 := entry.1]
  }

  /** Every key of the dict comes from some matching line. */
  lemma {:induction false} MetasKeys(entries: seq<Entry>, n: nat, key: string)
    requires key in Metas(entries, n)
    ensures exists j :: 1 <= j <= n && SetsKey(entries, j, key)
  {
    if n > 0 && !SetsKey(entries, n, key) {
      MetasKeys(entries, n - 1, key);
    }
  }

  /** The value kept for a key is that of its last matching line. */
  lemma {:induction false} MetasLastWins(entries: seq<Entry>, n: nat, j: nat, key: string, value: string)
    requires 1 <= j <= n
    requires EntryAt(entries, j) == Some((key, value))
    requires forall k :: j < k <= n ==> !SetsKey(entries, k, key)
    ensures key in Metas(entries, n) && Metas(entries, n)[key] == value
  {
    if n > j {
      MetasLastWins(entries, n - 1, j, key, value);
      assert !SetsKey(entries, n, key);
    }
  }

  /** The header dict of a caption file: line 1 is skipped, the next lines
      are matched up to and including the first blank line or end of file. */
  function HeaderMetas(text: string): map<string, string>
  {
    var lines := FileLines(text);
    Metas(Entries(lines), HeaderEnd(lines, 0))
  }

  /** The Caption built from a file's text, or the KeyError of the first
      missing key among `Caption`, `Video`, `Language` and `LastUpdated`. */
  function CaptionFromText(filepath: string, text: string): (r: Result<Caption>)
    ensures r.Ok? <==> (var m := HeaderMetas(text);
      "Caption" in m && "Video" in m && "Language" in m && "LastUpdated" in m)
    ensures r.Ok? ==> (var m := HeaderMetas(text);
      r.value == Caption(filepath, m["Caption"], m["Video"], m["Language"], m["LastUpdated"]))
  {
    var m := HeaderMetas(text);
    if "Caption" !in m then Err(MissingKey("Caption"))
    else if "Video" !in m then Err(MissingKey("Video"))
    else if "Language" !in m then Err(MissingKey("Language"))
    else if "LastUpdated" !in m then Err(MissingKey("LastUpdated"))
    else Ok(Caption(filepath, m["Caption"], m["Video"], m["Language"], m["LastUpdated"]))
  }

  /** `Caption.from_file`: the `readline` loop over the file's text. */
  method ReadCaption(filepath: string, text: string) returns (r: Result<Caption>)
    ensures r == CaptionFromText(filepath, text)
  {
    var lines := FileLines(text);
    var metas: map<string, string> := map[];
    var i := 0;
    while i < |lines| && !IsBlank(lines[i])
      invariant 0 <= i <= |lines|
      invariant HeaderEnd(lines, i) == HeaderEnd(lines, 0)
      invariant metas == Metas(Entries(lines), i)
    {
      i := i + 1;
      if i < |lines| {
        var entry := HeaderEntry(lines[i]);
        EntriesIndex(lines, i);
        if entry.Some? {
          metas := metas[entry.value.0 := entry.value.1];
        }
      }
    }
    if "Caption" !in metas {
      return Err(MissingKey("Caption"));
    }
    if "Video" !in metas {
      return Err(MissingKey("Video"));
    }
    if "Language" !in metas {
      return Err(MissingKey("Language"));
    }
    if "LastUpdated" !in metas {
      return Err(MissingKey("LastUpdated"));
    }
    r := Ok(Caption(filepath, metas["Caption"], metas["Video"], metas["Language"], metas["LastUpdated"]));
  }

  // ---------------------------------------------------------------- caption file by id

  /** One step of `os.walk`: a directory and the names of its files. */
  datatype WalkEntry = WalkEntry(dirpath: string, filenames: seq<string>)

  /** The paths of a directory's files whose name ends with the extension. */
  function EntryCandidates(dirpath: string, names: seq<string>, ext: string): (paths: seq<string>)
    ensures |paths| <= |names|
  {
    if names == [] then []
    else
      var here := if EndsWith(names[0], ext) then [PathJoin(dirpath, names[0])] else [];
      here + EntryCandidates(dirpath, names[1..], ext)
  }

  /** The paths `get_caption_file_by_id` reads, in walk order. */
  function Candidates(walk: seq<WalkEntry>, ext: string): seq<string>
  {
    if walk == [] then []
    else EntryCandidates(walk[0].dirpath, walk[0].filenames, ext) + Candidates(walk[1..], ext)
  }

  /** The file at `path` parses, and its caption has another id. */
  predicate Skipped(id: string, path: string, read: string -> string)
  {
    var c := CaptionFromText(path, read(path));
    c.Ok? && c.value.id != id
  }

  /** Reading the candidates in order: the first caption with the id, or the
      first parse failure (its KeyError escapes), or "no caption". */
  function SearchPaths(id: string, paths: seq<string>, read: string -> string): (r: Result<Caption>)
    ensures r.Ok? ==> r.value.id == id && r.value.filepath in paths
    ensures r == Err(NoCaptionFile(id)) <==> forall k :: 0 <= k < |paths| ==> Skipped(id, paths[k], read)
  {
    if paths == [] then Err(NoCaptionFile(id))
    else
      match CaptionFromText(paths[0], read(paths[0]))
      case Err(f) => Err(f)
      case Ok(c) =>
        if c.id == id then Ok(c)
        else
          var r := SearchPaths(id, paths[1..], read);
          assert forall k :: 1 <= k < |paths| ==> paths[k] == paths[1..][k - 1];
          r
  }

  /** The candidate at `k` is the first one not skipped. */
  predicate FirstNotSkipped(id: string, paths: seq<string>, read: string -> string, k: int)
  {
    0 <= k < |paths| && !Skipped(id, paths[k], read) && forall j :: 0 <= j < k ==> Skipped(id, paths[j], read)
  }

  /** A skipped first candidate is passed over. */
  lemma SearchPathsSkip(id: string, paths: seq<string>, read: string -> string)
    requires paths != [] && Skipped(id, paths[0], read)
    ensures SearchPaths(id, paths, read) == SearchPaths(id, paths[1..], read)
  {
  }

  /** A first candidate not skipped is the result. */
  lemma SearchPathsStop(id: string, paths: seq<string>, read: string -> string)
    requires paths != [] && !Skipped(id, paths[0], read)
    ensures SearchPaths(id, paths, read) == CaptionFromText(paths[0], read(paths[0]))
  {
  }

  /** Past a skipped first candidate, the first one not skipped moves one
      position later. */
  lemma FirstNotSkippedShift(id: string, paths: seq<string>, read: string -> string, k: int)
    requires paths != [] && Skipped(id, paths[0], read)
    requires FirstNotSkipped(id, paths[1..], read, k)
    ensures FirstNotSkipped(id, paths, read, k + 1)
  {
    assert forall j :: 1 <= j < k + 1 ==> paths[j] == paths[1..][j - 1];
  }

  /** Unless no file has the id, the search stops at the first candidate
      that is not skipped: the result is what that file parses to (its
      caption, with the id, or its KeyError), and every earlier candidate
      parsed to a caption with another id. */
  lemma {:induction false} SearchPathsFirst(id: string, paths: seq<string>, read: string -> string)
    ensures SearchPaths(id, paths, read) != Err(NoCaptionFile(id)) ==>
      exists k :: FirstNotSkipped(id, paths, read, k)
        && CaptionFromText(paths[k], read(paths[k])) == SearchPaths(id, paths, read)
  {
    if paths != [] {
      if !Skipped(id, paths[0], read) {
        SearchPathsStop(id, paths, read);
        assert FirstNotSkipped(id, paths, read, 0);
      } else {
        var rest := paths[1..];
        SearchPathsSkip(id, paths, read);
        SearchPathsFirst(id, rest, read);
        if SearchPaths(id, rest, read) != Err(NoCaptionFile(id)) {
          var k :| FirstNotSkipped(id, rest, read, k)
            && CaptionFromText(rest[k], read(rest[k])) == SearchPaths(id, rest, read);
          FirstNotSkippedShift(id, paths, read, k);
          assert paths[k + 1] == rest[k];
        }
      }
    }
  }

  lemma SearchPathsStep(id: string, p: string, rest: seq<string>, read: string -> string)
    ensures SearchPaths(id, [p] + rest, read) ==
      match CaptionFromText(p, read(p))
      case Err(f) => Err(f)
      case Ok(c) => if c.id == id then Ok(c) else SearchPaths(id, rest, read)
  {
    assert ([p] + rest)[1..] == rest;
  }

  lemma EntryCandidatesStep(dirpath: string, names: seq<string>, j: nat, ext: string, later: seq<string>)
    requires j < |names|
    ensures EntryCandidates(dirpath, names[j..], ext) + later ==
      if EndsWith(names[j], ext)
      then [PathJoin(dirpath, names[j])] + (EntryCandidates(dirpath, names[j + 1..], ext) + later)
      else EntryCandidates(dirpath, names[j + 1..], ext) + later
  {
    assert names[j..][1..] == names[j + 1..];
  }

  /** The inner loop of `get_caption_file_by_id`, over the names of one
      directory: the caption it stops at, if any, or nothing to go on with
      the files after this directory (`later`). */
  method SearchDirectory(id: string, dirpath: string, names: seq<string>, ext: string,
                         read: string -> string, ghost later: seq<string>)
    returns (stop: Option<Result<Caption>>)
    ensures stop.Some? ==> stop.value == SearchPaths(id, EntryCandidates(dirpath, names, ext) + later, read)
    ensures stop.None? ==>
      SearchPaths(id, EntryCandidates(dirpath, names, ext) + later, read) == SearchPaths(id, later, read)
  {
    var j := 0;
    while j < |names|
      invariant 0 <= j <= |names|
      invariant SearchPaths(id, EntryCandidates(dirpath, names, ext) + later, read)
        == SearchPaths(id, EntryCandidates(dirpath, names[j..], ext) + later, read)
    {
      ghost var rest := EntryCandidates(dirpath, names[j + 1..], ext) + later;
      EntryCandidatesStep(dirpath, names, j, ext, later);
      if EndsWith(names[j], ext) {
        var path := PathJoin(dirpath, names[j]);
        SearchPathsStep(id, path, rest, read);
        var caption := ReadCaption(path, read(path));
        if caption.Err? || caption.value.id == id {
          return Some(caption);
        }
      }
      j := j + 1;
    }
    assert names[j..] == [];
    assert EntryCandidates(dirpath, names[j..], ext) + later == later;
    return None;
  }

  /** `get_caption_file_by_id`: the walk over directories. */
  method FindCaptionFile(id: string, walk: seq<WalkEntry>, ext: string, read: string -> string)
    returns (r: Result<Caption>)
    ensures r == SearchPaths(id, Candidates(walk, ext), read)
  {
    var i := 0;
    while i < |walk|
      invariant 0 <= i <= |walk|
      invariant SearchPaths(id, Candidates(walk, ext), read) == SearchPaths(id, Candidates(walk[i..], ext), read)
    {
      assert Candidates(walk[i..], ext)
        == EntryCandidates(walk[i].dirpath, walk[i].filenames, ext) + Candidates(walk[i + 1..], ext) by {
        assert walk[i..][1..] == walk[i + 1..];
      }
      var stop := SearchDirectory(id, walk[i].dirpath, walk[i].filenames, ext, read, Candidates(walk[i + 1..], ext));
      if stop.Some? {
        return stop.value;
      }
      i := i + 1;
    }
    r := Err(NoCaptionFile(id));
  }
}
