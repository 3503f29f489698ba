/** bin/suffix-commit.py: the ` Closes #N.` fragments appended to the
    commit message of newly downloaded captions. The issue list, the git
    output, the caption files and the video API's answer are inputs;
    `remove_country_code` is the parameter `normalize`. */
module SuffixCommit {
  import opened Wrappers
  import opened Text
  import opened GithubConfig
  import opened YoutubeLib
  import YoutubeScript
  import Common

  // ---------------------------------------------------------------- video URL in a body

  const WatchUrl: string := "https://www.youtube.com/watch?v="

  /** `[a-zA-Z0-9._-]`. */
  predicate IsIdChar(c: char) {
    'a' <= c <= 'z' || 'A' <= c <= 'Z' || IsDigit(c) || c == '.' || c == '_' || c == '-'
  }

  /** The longest prefix of `s` made of id characters. */
  function IdRun(s: string): (r: string)
    ensures StartsWith(s, r)
    ensures forall i :: 0 <= i < |r| ==> IsIdChar(r[i])
    ensures |r| < |s| ==> !IsIdChar(s[|r|])
  {
    if s != [] && IsIdChar(s[0]) then [s[0]] + IdRun(s[1..]) else []
  }

  lemma {:induction false} IdRunOf(id: string, rest: string)
    requires forall i :: 0 <= i < |id| ==> IsIdChar(id[i])
    requires rest == [] || !IsIdChar(rest[0])
    ensures IdRun(id + rest) == id
  {
    if id != [] {
      assert (id + rest)[1..] == id[1..] + rest;
      IdRunOf(id[1..], rest);
    }
  }

  /** The id captured by a match of the URL pattern starting at `p`, if one
      starts there: the URL, then one or more id characters, all taken. */
  function WatchIdAt(body: string, p: nat): (r: Option<string>)
    requires p <= |body|
    ensures r.Some? ==> r.value != [] && StartsWith(body[p..], WatchUrl + r.value)
  {
    var tail := body[p..];
    if StartsWith(tail, WatchUrl) && |WatchUrl| < |tail| && IsIdChar(tail[|WatchUrl|]) then
      var id := IdRun(tail[|WatchUrl|..]);
      assert tail[..|WatchUrl + id|] == WatchUrl + id by {
        assert tail == tail[..|WatchUrl|] + tail[|WatchUrl|..];
      }
      Some(id)
    else None
  }

  /** `re.search` from position `p` on: the match at the leftmost position
      where one starts. */
  function WatchIdFrom(body: string, p: nat): Option<string>
    requires p <= |body|
    decreases |body| - p
  {
    if WatchIdAt(body, p).Some? then WatchIdAt(body, p)
    else if p == |body| then None
    else WatchIdFrom(body, p + 1)
  }

  /** The search finds the match at the leftmost position where one starts,
      and nothing when none does. */
  lemma {:induction false} WatchIdFromLeftmost(body: string, p: nat)
    requires p <= |body|
    ensures WatchIdFrom(body, p).Some? ==>
      exists q :: p <= q <= |body| && WatchIdAt(body, q) == WatchIdFrom(body, p)
        && (forall k :: p <= k < q ==> WatchIdAt(body, k).None?)
    ensures WatchIdFrom(body, p).None? ==> forall q :: p <= q <= |body| ==> WatchIdAt(body, q).None?
    decreases |body| - p
  {
    var here := WatchIdAt(body, p);
    if here.Some? {
      assert WatchIdFrom(body, p) == here;
      assert p <= p <= |body| && WatchIdAt(body, p) == WatchIdFrom(body, p);
    } else if p < |body| {
      var next := WatchIdFrom(body, p + 1);
      assert WatchIdFrom(body, p) == next;
      WatchIdFromLeftmost(body, p + 1);
      if next.Some? {
        var q :| p + 1 <= q <= |body| && WatchIdAt(body, q) == next
          && (forall k :: p + 1 <= k < q ==> WatchIdAt(body, k).None?);
        assert forall k :: p <= k < q ==> WatchIdAt(body, k).None?;
      } else {
        assert forall q :: p < q <= |body| ==> WatchIdAt(body, q).None?;
      }
    }
  }

  /** The id of the first video URL of an issue body. */
  function FirstWatchId(body: string): Option<string>
  {
    WatchIdFrom(body, 0)
  }

  /** A body whose text before the URL has no `h` (so no URL can start
      there) yields the id written after the URL. */
  lemma FirstWatchIdOf(prefix: string, id: string, rest: string)
    requires forall i :: 0 <= i < |prefix| ==> prefix[i] != 'h'
    requires id != [] && forall i :: 0 <= i < |id| ==> IsIdChar(id[i])
    requires rest == [] || !IsIdChar(rest[0])
    ensures FirstWatchId(prefix + WatchUrl + id + rest) == Some(id)
  {
    var body := prefix + WatchUrl + id + rest;
    forall k | 0 <= k < |prefix| ensures WatchIdAt(body, k).None? {
      assert body[k..][0] == prefix[k];
      assert WatchUrl[0] == 'h';
    }
    var tail := body[|prefix|..];
    assert tail == WatchUrl + (id + rest);
    assert tail[..|WatchUrl|] == WatchUrl;
    assert tail[|WatchUrl|..] == id + rest;
    IdRunOf(id, rest);
    assert WatchIdAt(body, |prefix|) == Some(id);
    WatchIdSkip(body, 0, |prefix|);
  }

  /** The search moves past positions where no match starts. */
  lemma {:induction false} WatchIdSkip(body: string, p: nat, q: nat)
    requires p <= q <= |body|
    requires forall k :: p <= k < q ==> WatchIdAt(body, k).None?
    ensures WatchIdFrom(body, p) == WatchIdFrom(body, q)
    decreases q - p
  {
    if p < q {
      WatchIdSkip(body, p + 1, q);
    }
  }

  // ---------------------------------------------------------------- issue lookup

  /** `"[subtitles] [%s]" % language`. */
  function TitlePrefix(language: string): string
  {
    "[subtitles] [" + language + "]"
  }

  /** The test of the inner loop: the body's first video URL names the video
      and the title has the language prefix. */
  predicate Closes(issue: Issue, yid: string, prefix: string)
  {
    issue.body.Some? && FirstWatchId(issue.body.value) == Some(yid) && StartsWith(issue.title, prefix)
  }

  /** The number of the first issue that passes the test, when every issue
      before it has a body. */
  function ClosingNumber(issues: seq<Issue>, yid: string, prefix: string): Option<int>
  {
    if issues == [] then None
    else if Closes(issues[0], yid, prefix) then Some(issues[0].number)
    else ClosingNumber(issues[1..], yid, prefix)
  }

  /** A number is found exactly when some issue passes the test, and it is
      that of the first such issue in list order. */
  lemma {:induction false} ClosingNumberFirst(issues: seq<Issue>, yid: string, prefix: string)
    ensures ClosingNumber(issues, yid, prefix).Some? <==> exists k :: 0 <= k < |issues| && Closes(issues[k], yid, prefix)
    ensures ClosingNumber(issues, yid, prefix).Some? ==>
      exists k :: 0 <= k < |issues| && Closes(issues[k], yid, prefix)
        && issues[k].number == ClosingNumber(issues, yid, prefix).value
        && (forall j :: 0 <= j < k ==> !Closes(issues[j], yid, prefix))
  {
    if issues != [] && !Closes(issues[0], yid, prefix) {
      var rest := issues[1..];
      ClosingNumberFirst(rest, yid, prefix);
      assert forall k :: 1 <= k < |issues| ==> issues[k] == rest[k - 1];
      if ClosingNumber(rest, yid, prefix).Some? {
        var k :| 0 <= k < |rest| && Closes(rest[k], yid, prefix)
          && rest[k].number == ClosingNumber(rest, yid, prefix).value
          && (forall j :: 0 <= j < k ==> !Closes(rest[j], yid, prefix));
        assert issues[k + 1] == rest[k];
        assert forall j :: 0 <= j < k + 1 ==> !Closes(issues[j], yid, prefix);
      }
    }
  }

  /** The inner loop as written: the issues in list order, stopping at the
      first that passes the test; `r.search(None)` raises a TypeError at the
      first issue with a null body reached before that. */
  function SearchIssues(issues: seq<Issue>, yid: string, prefix: string): Result<Option<int>>
  {
    if issues == [] then Ok(None)
    else if issues[0].body.None? then Err(NullBody(issues[0].number))
    else if Closes(issues[0], yid, prefix) then Ok(Some(issues[0].number))
    else SearchIssues(issues[1..], yid, prefix)
  }

  /** The issue at `k` has a null body and no issue before it passes the
      test. */
  predicate NullBodyFirst(issues: seq<Issue>, yid: string, prefix: string, k: int)
  {
    0 <= k < |issues| && issues[k].body.None? && forall j :: 0 <= j < k ==> !Closes(issues[j], yid, prefix)
  }

  /** The search fails exactly when an issue with a null body comes before
      every issue that passes the test, and then with that issue's number;
      otherwise it finds `ClosingNumber`. */
  lemma {:induction false} SearchIssuesSpec(issues: seq<Issue>, yid: string, prefix: string)
    ensures SearchIssues(issues, yid, prefix).Ok? ==>
      SearchIssues(issues, yid, prefix).value == ClosingNumber(issues, yid, prefix)
    ensures SearchIssues(issues, yid, prefix).Err? ==>
      exists k :: NullBodyFirst(issues, yid, prefix, k)
        && SearchIssues(issues, yid, prefix) == Err(NullBody(issues[k].number))
    ensures (exists k :: NullBodyFirst(issues, yid, prefix, k)) ==> SearchIssues(issues, yid, prefix).Err?
  {
    if issues != [] && issues[0].body.Some? && !Closes(issues[0], yid, prefix) {
      var rest := issues[1..];
      SearchIssuesSpec(rest, yid, prefix);
      assert forall k :: 1 <= k < |issues| ==> issues[k] == rest[k - 1];
      if SearchIssues(rest, yid, prefix).Err? {
        var k :| NullBodyFirst(rest, yid, prefix, k) && SearchIssues(rest, yid, prefix) == Err(NullBody(rest[k].number));
        assert issues[k + 1] == rest[k];
        assert forall j :: 0 <= j < k + 1 ==> !Closes(issues[j], yid, prefix);
        assert NullBodyFirst(issues, yid, prefix, k + 1);
      }
      if exists k :: NullBodyFirst(issues, yid, prefix, k) {
        var k :| NullBodyFirst(issues, yid, prefix, k);
        assert k > 0;
        assert rest[k - 1].body.None?;
        assert forall j :: 0 <= j < k - 1 ==> !Closes(rest[j], yid, prefix);
        assert NullBodyFirst(rest, yid, prefix, k - 1);
      }
    }
  }

  /** The inner loop. */
  method FindClosing(issues: seq<Issue>, yid: string, prefix: string) returns (r: Result<Option<int>>)
    ensures r == SearchIssues(issues, yid, prefix)
  {
    var j := 0;
    while j < |issues|
      invariant 0 <= j <= |issues|
      invariant SearchIssues(issues, yid, prefix) == SearchIssues(issues[j..], yid, prefix)
    {
      assert issues[j..][1..] == issues[j + 1..];
      var issue := issues[j];
      if issue.body.None? {
        return Err(NullBody(issue.number));
      }
      var matches := FirstWatchId(issue.body.value);
      if matches.Some? && matches.value == yid && StartsWith(issue.title, prefix) {
        return Ok(Some(issue.number));
      }
      j := j + 1;
    }
    return Ok(None);
  }

  // ---------------------------------------------------------------- fragments

  const ClosesPrefix: string := " Closes #"

  /** `" Closes #%d." % number`. */
  function Fragment(number: int): (f: string)
    ensures StartsWith(f, ClosesPrefix) && EndsWith(f, ".")
  {
    ClosesPrefix + Signed(number) + "."
  }

  /** The issue closed by the pair at `i` of `zip(videos, captions)`. */
  function PairNumber(video: Video, caption: Caption, issues: seq<Issue>, normalize: string -> string): Option<int>
  {
    ClosingNumber(issues, video.yid, TitlePrefix(normalize(caption.language)))
  }

  /** The numbers closed by the first `n` pairs, in pair order. */
  function ClosedNumbers(videos: seq<Video>, captions: seq<Caption>, issues: seq<Issue>,
                         normalize: string -> string, n: nat): (numbers: seq<int>)
    requires n <= |videos| && n <= |captions|
    ensures |numbers| <= n
  {
    if n == 0 then []
    else
      var last := PairNumber(videos[n - 1], captions[n - 1], issues, normalize);
      ClosedNumbers(videos, captions, issues, normalize, n - 1) + (if last.Some? then [last.value] else [])
  }

  function Min(a: nat, b: nat): nat { if a <= b then a else b }

  /** What `zip` pairs: as many pairs as the shorter list has elements. */
  function ZipNumbers(videos: seq<Video>, captions: seq<Caption>, issues: seq<Issue>,
                      normalize: string -> string): (numbers: seq<int>)
    ensures |numbers| <= |videos| && |numbers| <= |captions|
  {
    ClosedNumbers(videos, captions, issues, normalize, Min(|videos|, |captions|))
  }

  /** Surplus elements of the longer list play no part. */
  lemma {:induction false} ZipIgnoresSurplus(videos: seq<Video>, captions: seq<Caption>, issues: seq<Issue>,
                                            normalize: string -> string, n: nat)
    requires n <= |videos| && n <= |captions|
    ensures ClosedNumbers(videos, captions, issues, normalize, n)
      == ClosedNumbers(videos[..n], captions[..n], issues, normalize, n)
  {
    if n > 0 {
      ZipIgnoresSurplus(videos, captions, issues, normalize, n - 1);
      ClosedNumbersPrefix(videos[..n], captions[..n], issues, normalize, n - 1, videos[..n - 1], captions[..n - 1]);
      assert videos[..n][..n - 1] == videos[..n - 1];
      assert captions[..n][..n - 1] == captions[..n - 1];
      ClosedNumbersPrefix(videos, captions, issues, normalize, n - 1, videos[..n - 1], captions[..n - 1]);
    }
  }

  /** The first `n` numbers depend only on the first `n` pairs. */
  lemma {:induction false} ClosedNumbersPrefix(videos: seq<Video>, captions: seq<Caption>, issues: seq<Issue>,
                                              normalize: string -> string, n: nat, vs: seq<Video>, cs: seq<Caption>)
    requires n <= |videos| && n <= |captions| && n <= |vs| && n <= |cs|
    requires videos[..n] == vs[..n] && captions[..n] == cs[..n]
    ensures ClosedNumbers(videos, captions, issues, normalize, n) == ClosedNumbers(vs, cs, issues, normalize, n)
  {
    if n > 0 {
      assert videos[n - 1] == videos[..n][n - 1] == vs[n - 1];
      assert captions[n - 1] == captions[..n][n - 1] == cs[n - 1];
      assert videos[..n - 1] == videos[..n][..n - 1];
      assert vs[..n - 1] == vs[..n][..n - 1];
      assert captions[..n - 1] == captions[..n][..n - 1];
      assert cs[..n - 1] == cs[..n][..n - 1];
      ClosedNumbersPrefix(videos, captions, issues, normalize, n - 1, vs, cs);
    }
  }

  /** No number is closed exactly when no pair finds an issue. */
  lemma {:induction false} ClosedNumbersEmpty(videos: seq<Video>, captions: seq<Caption>, issues: seq<Issue>,
                                             normalize: string -> string, n: nat)
    requires n <= |videos| && n <= |captions|
    ensures ClosedNumbers(videos, captions, issues, normalize, n) == [] <==>
      forall i :: 0 <= i < n ==> PairNumber(videos[i], captions[i], issues, normalize).None?
  {
    if n > 0 {
      ClosedNumbersEmpty(videos, captions, issues, normalize, n - 1);
    }
  }

  /** The search of the pair at `i` of `zip(videos, captions)`, as written. */
  function PairSearch(video: Video, caption: Caption, issues: seq<Issue>, normalize: string -> string): Result<Option<int>>
  {
    SearchIssues(issues, video.yid, TitlePrefix(normalize(caption.language)))
  }

  /** The first `n` pairs as the pair loop runs them: the numbers found, up
      to the first search that raises. */
  function SearchedNumbers(videos: seq<Video>, captions: seq<Caption>, issues: seq<Issue>,
                           normalize: string -> string, n: nat): Result<seq<int>>
    requires n <= |videos| && n <= |captions|
  {
    if n == 0 then Ok([])
    else
      match SearchedNumbers(videos, captions, issues, normalize, n - 1)
      case Err(f) => Err(f)
      case Ok(numbers) =>
        match PairSearch(videos[n - 1], captions[n - 1], issues, normalize)
        case Err(f) => Err(f)
        case Ok(None) => Ok(numbers)
        case Ok(Some(k)) => Ok(numbers + [k])
  }

  /** The pair loop fails exactly when some pair's search raises, with the
      error of the first such pair; otherwise it finds `ClosedNumbers`. */
  lemma {:induction false} SearchedNumbersSpec(videos: seq<Video>, captions: seq<Caption>, issues: seq<Issue>,
                                              normalize: string -> string, n: nat)
    requires n <= |videos| && n <= |captions|
    ensures SearchedNumbers(videos, captions, issues, normalize, n).Ok? ==>
      SearchedNumbers(videos, captions, issues, normalize, n).value == ClosedNumbers(videos, captions, issues, normalize, n)
    ensures SearchedNumbers(videos, captions, issues, normalize, n).Err? <==>
      exists i :: 0 <= i < n && PairSearch(videos[i], captions[i], issues, normalize).Err?
    ensures SearchedNumbers(videos, captions, issues, normalize, n).Err? ==>
      exists i :: 0 <= i < n
        && PairSearch(videos[i], captions[i], issues, normalize).Err?
        && SearchedNumbers(videos, captions, issues, normalize, n).failure
          == PairSearch(videos[i], captions[i], issues, normalize).failure
        && (forall j :: 0 <= j < i ==> PairSearch(videos[j], captions[j], issues, normalize).Ok?)
  {
    if n > 0 {
      SearchedNumbersSpec(videos, captions, issues, normalize, n - 1);
      var search := PairSearch(videos[n - 1], captions[n - 1], issues, normalize);
      SearchIssuesSpec(issues, videos[n - 1].yid, TitlePrefix(normalize(captions[n - 1].language)));
      if SearchedNumbers(videos, captions, issues, normalize, n - 1).Ok? && search.Err? {
        assert forall j :: 0 <= j < n - 1 ==> PairSearch(videos[j], captions[j], issues, normalize).Ok?;
      }
    }
  }

  /** Once a pair's search has raised, later pairs change nothing. */
  lemma {:induction false} SearchCrashSticks(videos: seq<Video>, captions: seq<Caption>, issues: seq<Issue>,
                                            normalize: string -> string, i: nat, n: nat)
    requires i <= n <= |videos| && n <= |captions|
    requires SearchedNumbers(videos, captions, issues, normalize, i).Err?
    ensures SearchedNumbers(videos, captions, issues, normalize, n) == SearchedNumbers(videos, captions, issues, normalize, i)
  {
    if i < n {
      SearchCrashSticks(videos, captions, issues, normalize, i, n - 1);
    }
  }

  /** One more pair whose search does not raise. */
  lemma SearchedStep(videos: seq<Video>, captions: seq<Caption>, issues: seq<Issue>,
                     normalize: string -> string, i: nat)
    requires i < |videos| && i < |captions|
    requires SearchedNumbers(videos, captions, issues, normalize, i) == Ok(ClosedNumbers(videos, captions, issues, normalize, i))
    requires PairSearch(videos[i], captions[i], issues, normalize).Ok?
    ensures SearchedNumbers(videos, captions, issues, normalize, i + 1)
      == Ok(ClosedNumbers(videos, captions, issues, normalize, i + 1))
  {
    SearchIssuesSpec(issues, videos[i].yid, TitlePrefix(normalize(captions[i].language)));
    var found := PairSearch(videos[i], captions[i], issues, normalize).value;
    assert found == PairNumber(videos[i], captions[i], issues, normalize);
    var closed := ClosedNumbers(videos, captions, issues, normalize, i);
    if found.Some? {
      assert SearchedNumbers(videos, captions, issues, normalize, i + 1) == Ok(closed + [found.value]);
    } else {
      assert closed + [] == closed;
      assert SearchedNumbers(videos, captions, issues, normalize, i + 1) == Ok(closed);
    }
  }

  /** What the pair loop over `zip(videos, captions)` ends with. */
  function ZipSearch(videos: seq<Video>, captions: seq<Caption>, issues: seq<Issue>,
                     normalize: string -> string): Result<seq<int>>
  {
    SearchedNumbers(videos, captions, issues, normalize, Min(|videos|, |captions|))
  }

  /** When every issue has a body, the pair loop never raises and finds the
      numbers of `ZipNumbers`. */
  lemma BodiesNeverRaise(videos: seq<Video>, captions: seq<Caption>, issues: seq<Issue>, normalize: string -> string)
    requires forall k :: 0 <= k < |issues| ==> issues[k].body.Some?
    ensures ZipSearch(videos, captions, issues, normalize) == Ok(ZipNumbers(videos, captions, issues, normalize))
  {
    var n := Min(|videos|, |captions|);
    forall i | 0 <= i < n
      ensures PairSearch(videos[i], captions[i], issues, normalize).Ok?
    {
      SearchIssuesSpec(issues, videos[i].yid, TitlePrefix(normalize(captions[i].language)));
    }
    SearchedNumbersSpec(videos, captions, issues, normalize, n);
  }

  /** `output_lines`: one fragment per closed number. */
  function Fragments(numbers: seq<int>): (lines: seq<string>)
    ensures |lines| == |numbers|
    ensures forall i :: 0 <= i < |numbers| ==> lines[i] == Fragment(numbers[i])
  {
    seq(|numbers|, i requires 0 <= i < |numbers| => Fragment(numbers[i]))
  }

  lemma FragmentsSnoc(numbers: seq<int>, n: int)
    ensures Fragments(numbers + [n]) == Fragments(numbers) + [Fragment(n)]
  {
  }

  /** `''.join(parts)`. */
  function Concat(parts: seq<string>): string
  {
    if parts == [] then "" else parts[0] + Concat(parts[1..])
  }

  // ---------------------------------------------------------------- reading the output back

  /** The longest run of digits at the start of `s`. */
  function LeadingDigits(s: string): (d: string)
    ensures StartsWith(s, d) && AllDigits(d)
    ensures |d| < |s| ==> !IsDigit(s[|d|])
  {
    if s != [] && IsDigit(s[0]) then [s[0]] + LeadingDigits(s[1..]) else []
  }

  lemma {:induction false} LeadingDigitsOf(d: string, rest: string)
    requires AllDigits(d)
    requires rest == [] || !IsDigit(rest[0])
    ensures LeadingDigits(d + rest) == d
  {
    if d != [] {
      assert (d + rest)[1..] == d[1..] + rest;
      LeadingDigitsOf(d[1..], rest);
    }
  }

  /** The issue numbers of a run of ` Closes #N.` fragments, up to the first
      text that is not one. */
  function ReadCloses(s: string): seq<nat>
    decreases |s|
  {
    if StartsWith(s, ClosesPrefix) then
      var d := LeadingDigits(s[|ClosesPrefix|..]);
      var end := |ClosesPrefix| + |d|;
      if d != [] && end < |s| && s[end] == '.' then [DigitsValue(d)] + ReadCloses(s[end + 1..])
      else []
    else []
  }

  /** A fragment with any digits reads back as their value. */
  lemma ReadClosesDigits(d: string, rest: string)
    requires d != [] && AllDigits(d)
    ensures ReadCloses(ClosesPrefix + d + "." + rest) == [DigitsValue(d)] + ReadCloses(rest)
  {
    var s := ClosesPrefix + d + "." + rest;
    assert s == ClosesPrefix + (d + ("." + rest));
    assert s[..|ClosesPrefix|] == ClosesPrefix;
    assert s[|ClosesPrefix|..] == d + ("." + rest);
    LeadingDigitsOf(d, "." + rest);
    var end := |ClosesPrefix| + |d|;
    assert s[end] == '.';
    assert s[end + 1..] == rest;
  }

  /** One fragment reads back as its number. */
  lemma ReadClosesStep(n: nat, rest: string)
    ensures ReadCloses(Fragment(n) + rest) == [n] + ReadCloses(rest)
  {
    ReadClosesDigits(Decimal(n), rest);
    DecimalRoundTrip(n);
  }

  /** Round trip: the printed suffix lists the closed issue numbers, in
      order (issue numbers are never negative). */
  lemma {:induction false} ReadClosesOfFragments(numbers: seq<int>)
    requires forall i :: 0 <= i < |numbers| ==> numbers[i] >= 0
    ensures ReadCloses(Concat(Fragments(numbers))) == numbers
  {
    if numbers != [] {
      var lines, rest := Fragments(numbers), Concat(Fragments(numbers[1..]));
      assert lines[1..] == Fragments(numbers[1..]);
      assert Concat(lines) == Fragment(numbers[0]) + rest;
      ReadClosesOfFragments(numbers[1..]);
      ReadClosesStep(numbers[0], rest);
      assert [numbers[0]] + numbers[1..] == numbers;
    }
  }

  // ---------------------------------------------------------------- the script

  /** The pair loop: one fragment for each pair that finds its issue, in
      pair order, or the TypeError of the first search that raises. */
  method ClosingFragments(videos: seq<Video>, captions: seq<Caption>, issues: seq<Issue>,
                          normalize: string -> string) returns (r: Result<seq<string>>)
    ensures ZipSearch(videos, captions, issues, normalize).Err? ==>
      r == Err(ZipSearch(videos, captions, issues, normalize).failure)
    ensures ZipSearch(videos, captions, issues, normalize).Ok? ==>
      r == Ok(Fragments(ZipNumbers(videos, captions, issues, normalize)))
  {
    var lines := [];
    var n := Min(|videos|, |captions|);
    var i := 0;
    while i < n
      invariant 0 <= i <= n
      invariant SearchedNumbers(videos, captions, issues, normalize, i)
        == Ok(ClosedNumbers(videos, captions, issues, normalize, i))
      invariant lines == Fragments(ClosedNumbers(videos, captions, issues, normalize, i))
    {
      var video, caption := videos[i], captions[i];
      var language := normalize(caption.language);
      var prefix := TitlePrefix(language);
      var number := FindClosing(issues, video.yid, prefix);
      assert number == PairSearch(video, caption, issues, normalize);
      if number.Err? {
        SearchCrashSticks(videos, captions, issues, normalize, i + 1, n);
        return Err(number.failure);
      }
      SearchIssuesSpec(issues, video.yid, prefix);
      SearchedStep(videos, captions, issues, normalize, i);
      ghost var closed := ClosedNumbers(videos, captions, issues, normalize, i);
      if number.value.Some? {
        FragmentsSnoc(closed, number.value.value);
        lines := lines + [Fragment(number.value.value)];
      }
      i := i + 1;
    }
    return Ok(lines);
  }

  /** What is printed: the fragments joined, and nothing when there are
      none. */
  function Printed(numbers: seq<int>): (out: Option<string>)
    ensures out.None? <==> numbers == []
  {
    if numbers == [] then None else Some(Concat(Fragments(numbers)))
  }

  /** What a run ends with: the printed text (none when no pair matched)
      and whether the issue list was fetched from the tracker. */
  datatype Run = Run(printed: Option<string>, issuesFetched: bool)

  /** The whole script: exit 1 without a captions directory; the staged
      captions' failures; exit 0 with nothing fetched when no caption is
      staged; the TypeError of an issue with a null body; otherwise the
      fragments of the matching issues, printed only when there is at least
      one. */
  function SuffixRun(dir: string, isDir: bool, gitOutput: string, read: string -> string,
                     fetchVideos: seq<string> -> seq<VideoItem>, issues: seq<Issue>, normalize: string -> string)
    : Result<Run>
  {
    if !isDir then Err(Exit(1))
    else
      match Common.StagedCaptions(dir, gitOutput, read)
      case Err(f) => Err(f)
      case Ok(captions) =>
        if captions == [] then Ok(Run(None, false))
        else
          match ZipSearch(VideosOf(fetchVideos(Common.VideoIds(captions))), captions, issues, normalize)
          case Err(f) => Err(f)
          case Ok(numbers) => Ok(Run(Printed(numbers), true))
  }

  /** The script as run: its loops give exactly `SuffixRun`. */
  method CommitSuffix(dir: string, isDir: bool, gitOutput: string, read: string -> string,
                      fetchVideos: seq<string> -> seq<VideoItem>, issues: seq<Issue>, normalize: string -> string)
    returns (r: Result<Run>)
    ensures !isDir ==> r == Err(Exit(1))
    ensures r == SuffixRun(dir, isDir, gitOutput, read, fetchVideos, issues, normalize)
  {
    if !isDir {
      return Err(Exit(1));
    }
    var downloaded := Common.DownloadedCaptionsAndVideos(dir, gitOutput, read, fetchVideos);
    if downloaded.Err? {
      return Err(downloaded.failure);
    }
    var (captions, videos) := downloaded.value;
    if |captions| == 0 {
      return Ok(Run(None, false));
    }
    var lines := ClosingFragments(videos, captions, issues, normalize);
    if lines.Err? {
      return Err(lines.failure);
    }
    SearchedNumbersSpec(videos, captions, issues, normalize, Min(|videos|, |captions|));
    if lines.value == [] {
      return Ok(Run(None, true));
    }
    return Ok(Run(Some(Concat(lines.value)), true));
  }
}
