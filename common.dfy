/** lib/common.py: the captions staged in the subtitles repository. The
    output of `git add -n .` is an input, and so are the caption files'
    text and the video API's answer. */
module Common {
  import opened Wrappers
  import opened Text
  import opened YoutubeLib
  import YoutubeScript

  // ---------------------------------------------------------------- git output

  /** The path in one line of `git add -n` output: `^add '(.+)'$` on a line
      captures everything between `add '` and the line's last character,
      which must be a quote, as long as that is at least one character. */
  function AddedPath(line: string): (p: Option<string>)
    ensures p.Some? ==> p.value != [] && line == "add '" + p.value + "'"
  {
    if |line| >= 7 && StartsWith(line, "add '") && line[|line| - 1] == '\''
    then
      var p := line[5..|line| - 1];
      assert line == line[..5] + p + [line[|line| - 1]];
      Some(p)
    else None
  }

  /** Every path yields its line back. */
  lemma AddedPathOfLine(p: string)
    requires p != []
    ensures AddedPath("add '" + p + "'") == Some(p)
  {
    var line := "add '" + p + "'";
    assert line[..5] == "add '";
    assert line[5..|line| - 1] == p;
  }

  /** The paths of the lines that match, in line order. */
  function AddedPaths(lines: seq<string>): (paths: seq<string>)
    ensures |paths| <= |lines|
  {
    if lines == [] then []
    else
      var last := AddedPath(lines[|lines| - 1]);
      AddedPaths(lines[..|lines| - 1]) + (if last.Some? then [last.value] else [])
  }

  /** `re.findall("^add '(.+)'$", output, flags=re.MULTILINE)`: with
      MULTILINE, `^` and `$` hold at each line's ends and `.` never crosses
      a newline, so each line is matched on its own. */
  function GitAddedPaths(output: string): seq<string>
  {
    AddedPaths(Split(output))
  }

  lemma {:induction false} AddedPathsAppend(a: seq<string>, b: seq<string>)
    ensures AddedPaths(a + b) == AddedPaths(a) + AddedPaths(b)
    decreases |b|
  {
    if b == [] {
      assert a + b == a;
    } else {
      assert (a + b)[..|a + b| - 1] == a + b[..|b| - 1];
      AddedPathsAppend(a, b[..|b| - 1]);
    }
  }

  /** The `git add -n` lines listing some paths. */
  function AddLines(paths: seq<string>): (lines: seq<string>)
    ensures |lines| == |paths|
    ensures forall i :: 0 <= i < |paths| ==> lines[i] == "add '" + paths[i] + "'"
  {
    seq(|paths|, i requires 0 <= i < |paths| => "add '" + paths[i] + "'")
  }

  lemma {:induction false} AddedPathsOfAddLines(paths: seq<string>)
    requires forall i :: 0 <= i < |paths| ==> paths[i] != []
    ensures AddedPaths(AddLines(paths)) == paths
  {
    if paths != [] {
      var front := paths[..|paths| - 1];
      AddedPathsOfAddLines(front);
      assert AddLines(paths)[..|paths| - 1] == AddLines(front);
      AddedPathOfLine(paths[|paths| - 1]);
    }
  }

  /** Round trip: the output listing newline-free, non-empty paths one per
      line gives those paths back, in order. */
  lemma GitOutputRoundTrip(paths: seq<string>)
    requires forall i :: 0 <= i < |paths| ==> paths[i] != [] && NoNewline(paths[i])
    ensures GitAddedPaths(Join(AddLines(paths))) == paths
  {
    if paths == [] {
      assert Split("") == [""];
      assert AddedPaths([""]) == AddedPaths([]) + [];
    } else {
      var lines := AddLines(paths);
      forall i | 0 <= i < |lines| ensures NoNewline(lines[i]) {
        NoNewlineAppend("add '", paths[i]);
        NoNewlineAppend("add '" + paths[i], "'");
      }
      SplitJoin(lines);
      AddedPathsOfAddLines(paths);
    }
  }

  /** Lines that are not `add '...'` lines are skipped: appending them to
      the output adds no path. */
  lemma OtherLinesIgnored(lines: seq<string>, others: seq<string>)
    requires forall i :: 0 <= i < |others| ==> AddedPath(others[i]).None?
    ensures AddedPaths(lines + others) == AddedPaths(lines)
  {
    AddedPathsAppend(lines, others);
    NoneAdded(others);
  }

  lemma {:induction false} NoneAdded(lines: seq<string>)
    requires forall i :: 0 <= i < |lines| ==> AddedPath(lines[i]).None?
    ensures AddedPaths(lines) == []
  {
    if lines != [] {
      NoneAdded(lines[..|lines| - 1]);
    }
  }

  // ---------------------------------------------------------------- path regex

  /** The index of the last slash of `s`, if any. */
  function LastSlash(s: string): (k: Option<nat>)
    ensures k.Some? ==> k.value < |s| && s[k.value] == '/' && NoSlash(s[k.value + 1..])
    ensures k.None? <==> NoSlash(s)
  {
    if s == [] then None
    else if s[|s| - 1] == '/' then Some(|s| - 1)
    else
      var k := LastSlash(s[..|s| - 1]);
      assert k.Some? ==> s[k.value + 1..] == s[..|s| - 1][k.value + 1..] + [s[|s| - 1]];
      k
  }

  /** `re.search("([0-9]+)/([^/]+)$", path)`: the year directory and the
      file name. A match must use the last slash, since no slash may follow
      it; the leftmost match starts at the first digit of the digit run just
      before that slash, and `[^/]+` takes every remaining character. */
  function CaptionLocation(path: string): (r: Option<(string, string)>)
    ensures r.Some? ==> var (year, filename) := r.value;
      && year != [] && AllDigits(year)
      && filename != [] && NoSlash(filename)
      && EndsWith(path, year + "/" + filename)
  {
    match LastSlash(path)
    case None => None
    case Some(k) =>
      var filename := path[k + 1..];
      var year := TrailingDigits(path[..k]);
      if filename == [] || year == [] then None
      else
        LocationSuffix(path, k);
        Some((year, filename))
  }

  /** The digits before a slash, the slash and the rest end the path. */
  lemma LocationSuffix(path: string, k: nat)
    requires k < |path|
    ensures EndsWith(path, TrailingDigits(path[..k]) + [path[k]] + path[k + 1..])
  {
    var rest := [path[k]] + path[k + 1..];
    assert path == path[..k] + rest;
    EndsWithAppend(path[..k], TrailingDigits(path[..k]), rest);
    assert TrailingDigits(path[..k]) + rest == TrailingDigits(path[..k]) + [path[k]] + path[k + 1..];
  }

  /** The paths the regex rejects: those without a slash, ending in one,
      or without a digit just before the last one. */
  lemma CaptionLocationRejects(path: string)
    ensures CaptionLocation(path).None? <==>
      (LastSlash(path).None? || LastSlash(path).value == |path| - 1 || !EndsInDigit(path[..LastSlash(path).value]))
  {
    if LastSlash(path).Some? {
      var k := LastSlash(path).value;
      var year := TrailingDigits(path[..k]);
      if year != [] {
        assert path[..k][k - 1] == year[|year| - 1];
      }
    }
  }

  /** The path written for a caption reads back as its year and file name. */
  lemma CaptionLocationOfPath(dir: string, year: string, filename: string)
    requires year != [] && AllDigits(year)
    requires filename != [] && NoSlash(filename)
    ensures CaptionLocation(YoutubeScript.CaptionPath(dir, year, filename)) == Some((year, filename))
  {
    var front := YearDirFront(dir, year);
    var yearDir := front + year;
    TrailingDigitsOfDigits(front, year);
    assert YoutubeScript.CaptionPath(dir, year, filename) == yearDir + "/" + filename by {
      assert filename[0] != '/';
    }
    CaptionLocationOfSplit(yearDir, filename);
  }

  /** `os.path.join(dir, year)` for a year of digits: `dir`, a slash unless
      `dir` is empty or ends in one, then the year. */
  lemma YearDirFront(dir: string, year: string) returns (front: string)
    requires year != [] && AllDigits(year)
    ensures PathJoin(dir, year) == front + year && !EndsInDigit(front)
  {
    assert year[0] != '/';
    front := if dir == [] || dir[|dir| - 1] == '/' then dir else dir + "/";
  }

  /** A path ending in a slash and a slash-free, non-empty name is split at
      that slash. */
  lemma CaptionLocationOfSplit(front: string, name: string)
    requires name != [] && NoSlash(name)
    ensures CaptionLocation(front + "/" + name) ==
      if TrailingDigits(front) == [] then None else Some((TrailingDigits(front), name))
  {
    var path := front + "/" + name;
    LastSlashBefore(front, name);
    assert path[..|front|] == front;
    assert path[|front| + 1..] == name;
  }

  lemma {:induction false} LastSlashBefore(front: string, name: string)
    requires NoSlash(name)
    ensures LastSlash(front + "/" + name) == Some(|front|)
    decreases |name|
  {
    var s := front + "/" + name;
    if name == [] {
      assert s[|s| - 1] == '/';
    } else {
      assert s[..|s| - 1] == front + "/" + name[..|name| - 1];
      assert s[|s| - 1] == name[|name| - 1];
      LastSlashBefore(front, name[..|name| - 1]);
    }
  }

  // ---------------------------------------------------------------- staged captions

  /** The caption behind one staged path: exit 1 for a path the regex
      rejects, else the file at `directory/year/filename` parsed. */
  function LoadCaption(directory: string, gitPath: string, read: string -> string): (r: Result<Caption>)
    ensures CaptionLocation(gitPath).None? ==> r == Err(BadPath(gitPath))
    ensures r.Ok? ==> r.value.filepath == YoutubeScript.CaptionPath(directory,
      CaptionLocation(gitPath).value.0, CaptionLocation(gitPath).value.1)
  {
    match CaptionLocation(gitPath)
    case None => Err(BadPath(gitPath))
    case Some((year, filename)) =>
      var path := YoutubeScript.CaptionPath(directory, year, filename);
      CaptionFromText(path, read(path))
  }

  /** The outcome of loading each staged path, in order. */
  function Loaded(directory: string, paths: seq<string>, read: string -> string): (rs: seq<Result<Caption>>)
    ensures |rs| == |paths|
  {
    if paths == [] then []
    else Loaded(directory, paths[..|paths| - 1], read) + [LoadCaption(directory, paths[|paths| - 1], read)]
  }

  lemma {:induction false} LoadedIndex(directory: string, paths: seq<string>, read: string -> string, k: nat)
    requires k < |paths|
    ensures Loaded(directory, paths, read)[k] == LoadCaption(directory, paths[k], read)
  {
    if k < |paths| - 1 {
      LoadedIndex(directory, paths[..|paths| - 1], read, k);
    }
  }

  /** All the values, or the first failure. */
  function Collect<T>(rs: seq<Result<T>>): (r: Result<seq<T>>)
    ensures r.Ok? ==> |r.value| == |rs| && forall i :: 0 <= i < |rs| ==> rs[i] == Ok(r.value[i])
  {
    if rs == [] then Ok([])
    else
      match Collect(rs[..|rs| - 1])
      case Err(f) => Err(f)
      case Ok(values) =>
        match rs[|rs| - 1]
        case Err(f) => Err(f)
        case Ok(v) => Ok(values + [v])
  }

  /** Collect fails exactly when some outcome is a failure, and then with
      the first one. */
  lemma {:induction false} CollectFails<T>(rs: seq<Result<T>>)
    ensures Collect(rs).Err? <==> exists i :: 0 <= i < |rs| && rs[i].Err?
    ensures Collect(rs).Err? ==>
      exists i :: 0 <= i < |rs| && rs[i] == Err(Collect(rs).failure) && forall k :: 0 <= k < i ==> rs[k].Ok?
  {
    if rs != [] {
      var front := rs[..|rs| - 1];
      CollectFails(front);
      assert forall k :: 0 <= k < |front| ==> rs[k] == front[k];
      if Collect(front).Err? {
        var i :| 0 <= i < |front| && front[i] == Err(Collect(front).failure)
          && forall k :: 0 <= k < i ==> front[k].Ok?;
        assert rs[i] == front[i];
      }
    }
  }

  /** A failure on a prefix of the outcomes is the failure of all of them. */
  lemma {:induction false} CollectPrefixFails<T>(rs: seq<Result<T>>, n: nat)
    requires n <= |rs|
    requires Collect(rs[..n]).Err?
    ensures Collect(rs) == Collect(rs[..n])
    decreases |rs| - n
  {
    if n < |rs| {
      assert rs[..n + 1][..n] == rs[..n];
      CollectPrefixFails(rs, n + 1);
    } else {
      assert rs[..n] == rs;
    }
  }

  /** The captions of the staged paths in order, or the first failure. */
  function LoadCaptions(directory: string, paths: seq<string>, read: string -> string): Result<seq<Caption>>
  {
    Collect(Loaded(directory, paths, read))
  }

  /** Loading fails exactly when some staged path fails, with the failure of
      the first one; otherwise caption `i` is the one behind path `i`. */
  lemma LoadCaptionsOutcome(directory: string, paths: seq<string>, read: string -> string)
    ensures LoadCaptions(directory, paths, read).Err? <==>
      exists i :: 0 <= i < |paths| && LoadCaption(directory, paths[i], read).Err?
    ensures LoadCaptions(directory, paths, read).Err? ==>
      exists i :: 0 <= i < |paths| && LoadCaption(directory, paths[i], read) == Err(LoadCaptions(directory, paths, read).failure)
        && forall k :: 0 <= k < i ==> LoadCaption(directory, paths[k], read).Ok?
    ensures LoadCaptions(directory, paths, read).Ok? ==>
      |LoadCaptions(directory, paths, read).value| == |paths| &&
      forall i :: 0 <= i < |paths| ==> LoadCaption(directory, paths[i], read) == Ok(LoadCaptions(directory, paths, read).value[i])
  {
    var rs := Loaded(directory, paths, read);
    forall k | 0 <= k < |paths| ensures rs[k] == LoadCaption(directory, paths[k], read) {
      LoadedIndex(directory, paths, read, k);
    }
    CollectFails(rs);
  }

  /** The ids of the captions' videos, in caption order. */
  function VideoIds(captions: seq<Caption>): (ids: seq<string>)
    ensures |ids| == |captions|
    ensures forall i :: 0 <= i < |captions| ==> ids[i] == captions[i].videoId
  {
    seq(|captions|, i requires 0 <= i < |captions| => captions[i].videoId)
  }

  /** The captions of the paths `git add -n` lists, or the first failure. */
  function StagedCaptions(directory: string, gitOutput: string, read: string -> string): Result<seq<Caption>>
  {
    LoadCaptions(directory, GitAddedPaths(gitOutput), read)
  }

  /** `get_downloaded_captions_and_videos`: no staged path gives two empty
      lists without asking for videos; otherwise the staged captions in
      order and the videos the API returns for their ids (`fetch`). */
  method DownloadedCaptionsAndVideos(directory: string, gitOutput: string, read: string -> string,
                                     fetch: seq<string> -> seq<VideoItem>)
    returns (r: Result<(seq<Caption>, seq<Video>)>)
    ensures GitAddedPaths(gitOutput) == [] ==> r == Ok(([], []))
    ensures match StagedCaptions(directory, gitOutput, read)
      case Err(f) => r == Err(f)
      case Ok(captions) => r == Ok((captions, if captions == [] then [] else VideosOf(fetch(VideoIds(captions)))))
  {
    var paths := GitAddedPaths(gitOutput);
    if |paths| == 0 {
      assert Loaded(directory, paths, read) == [];
      return Ok(([], []));
    }
    var captions: seq<Caption> := [];
    var i := 0;
    while i < |paths|
      invariant 0 <= i <= |paths|
      invariant Collect(Loaded(directory, paths[..i], read)) == Ok(captions)
    {
      var caption := LoadOne(directory, paths[i], read);
      LoadedStep(directory, paths, read, i, captions);
      if caption.Err? {
        LoadFailsAt(directory, paths, read, i + 1);
        return Err(caption.failure);
      }
      captions := captions + [caption.value];
      i := i + 1;
    }
    assert paths[..i] == paths;
    var ids := VideoIds(captions);
    var videos := ParseVideos(fetch(ids));
    r := Ok((captions, videos));
  }

  /** One more staged path: its caption appended, or its failure. */
  lemma LoadedStep(directory: string, paths: seq<string>, read: string -> string, i: nat, captions: seq<Caption>)
    requires i < |paths|
    requires Collect(Loaded(directory, paths[..i], read)) == Ok(captions)
    ensures Collect(Loaded(directory, paths[..i + 1], read)) ==
      match LoadCaption(directory, paths[i], read)
      case Err(f) => Err(f)
      case Ok(c) => Ok(captions + [c])
  {
    assert paths[..i + 1][..i] == paths[..i];
  }

  /** A failure among the first `n` staged paths is the failure of all. */
  lemma LoadFailsAt(directory: string, paths: seq<string>, read: string -> string, n: nat)
    requires n <= |paths|
    requires Collect(Loaded(directory, paths[..n], read)).Err?
    ensures LoadCaptions(directory, paths, read) == Collect(Loaded(directory, paths[..n], read))
  {
    LoadedPrefix(directory, paths, n, read);
    CollectPrefixFails(Loaded(directory, paths, read), n);
  }

  lemma {:induction false} LoadedPrefix(directory: string, paths: seq<string>, n: nat, read: string -> string)
    requires n <= |paths|
    ensures Loaded(directory, paths, read)[..n] == Loaded(directory, paths[..n], read)
    decreases |paths| - n
  {
    if n < |paths| {
      LoadedPrefix(directory, paths[..|paths| - 1], n, read);
      assert paths[..|paths| - 1][..n] == paths[..n];
    } else {
      assert paths[..n] == paths;
    }
  }

  /** One pass of the loop: the year and file name from the staged path
      (exit 1 when it does not match), then the caption file parsed. */
  method LoadOne(directory: string, gitPath: string, read: string -> string) returns (r: Result<Caption>)
    ensures r == LoadCaption(directory, gitPath, read)
  {
    var location := CaptionLocation(gitPath);
    if location.None? {
      return Err(BadPath(gitPath));
    }
    var (year, filename) := location.value;
    var path := YoutubeScript.CaptionPath(directory, year, filename);
    r := ReadCaption(path, read(path));
  }
}
