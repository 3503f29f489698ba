/** bin/create-issues.py: one tracker issue, with a card on the board, for
    each (video, language) pair that has none yet. The tracker is the class
    `Repository`; the videos are an input, and `render(t, v)` stands for
    `TemplateText(t).format(video=v)`. */
module CreateIssues {
  import opened Wrappers
  import opened Text
  import opened GithubConfig
  import opened YoutubeLib
  import Webhook
  import SuffixCommit

  // ---------------------------------------------------------------- configuration

  /** The script's own language table: French and English only, with the
      French card column 398411 rather than the 910796 of lib/github.py. */
  const ScriptLanguages: seq<Language> := [
    Language("fr", "\U{2691} Fran\U{E7}ais", "398411", French),
    Language("en", "\U{2691} English", "387590", English)
  ]

  /** The label every new issue starts with. */
  const LabelStart: string := "Process: [0] Awaiting subtitles"

  /** The script's card columns are the stage-0 columns of the webhook's
      table; the French one is not the stage-0 column of lib/github.py. */
  lemma ScriptColumnsAreBotStageZero()
    ensures forall i :: 0 <= i < |ScriptLanguages| ==>
      ScriptLanguages[i].column == Decimal(Webhook.BotLabelsColumns[0].columns[i])
    ensures ScriptLanguages[0].column != Languages[0].column
    ensures ScriptLanguages[1] == Languages[1]
  {
    DecimalScriptFr();
    DecimalEn();
  }

  lemma DecimalScriptFr() ensures Decimal(398411) == "398411" {}

  // ---------------------------------------------------------------- titles

  /** `"[subtitles] [%s] %s" % (short, title)`. */
  function IssueTitle(short: string, videoTitle: string): (t: string)
    ensures StartsWith(t, SuffixCommit.TitlePrefix(short))
  {
    var t := "[subtitles] [" + short + "] " + videoTitle;
    assert t == SuffixCommit.TitlePrefix(short) + (" " + videoTitle);
    t
  }

  predicate NoBracket(s: string) { forall i :: 0 <= i < |s| ==> s[i] != ']' }

  /** The index of the first `]` of `s`, or `|s|`. */
  function FirstBracket(s: string): (k: nat)
    ensures k <= |s|
  {
    if s == [] || s[0] == ']' then 0 else 1 + FirstBracket(s[1..])
  }

  lemma {:induction false} FirstBracketOf(s: string, rest: string)
    requires NoBracket(s)
    ensures FirstBracket(s + "]" + rest) == |s|
  {
    if s != [] {
      assert (s + "]" + rest)[1..] == s[1..] + "]" + rest;
      FirstBracketOf(s[1..], rest);
    }
  }

  /** The code and the video title can be read off a title: the code runs
      from after `[subtitles] [` to the first `]`, the video title starts
      two characters later. */
  lemma IssueTitleParts(short: string, videoTitle: string)
    requires NoBracket(short)
    ensures var rest := IssueTitle(short, videoTitle)[13..];
      && FirstBracket(rest) == |short| && |short| + 2 <= |rest|
      && rest[..|short|] == short && rest[|short| + 2..] == videoTitle
  {
    var rest := short + "]" + (" " + videoTitle);
    assert IssueTitle(short, videoTitle) == "[subtitles] [" + rest;
    assert IssueTitle(short, videoTitle)[13..] == rest;
    FirstBracketOf(short, " " + videoTitle);
    assert rest[|short| + 2..] == videoTitle;
  }

  /** Titles of languages whose codes hold no `]` tell the language and the
      video title apart: equal titles mean equal codes and equal videos. */
  lemma IssueTitleInjective(s1: string, t1: string, s2: string, t2: string)
    requires NoBracket(s1) && NoBracket(s2)
    requires IssueTitle(s1, t1) == IssueTitle(s2, t2)
    ensures s1 == s2 && t1 == t2
  {
    IssueTitleParts(s1, t1);
    IssueTitleParts(s2, t2);
  }

  // ---------------------------------------------------------------- labels

  /** The `labels` dict: short code to language label, a later language
      overriding an earlier one with the same code. */
  function LabelMap(languages: seq<Language>): (labels: map<string, string>)
    ensures labels.Keys == set l | l in languages :: l.short
  {
    if languages == [] then map[]
    else
      var last := languages[|languages| - 1];
      var front := languages[..|languages| - 1];
      assert languages == front + [last];
      LabelMap(front)[last.short := last.labelName]
  }

  predicate DistinctShorts(languages: seq<Language>)
  {
    forall i, j :: 0 <= i < j < |languages| ==> languages[i].short != languages[j].short
  }

  /** With distinct codes, each language's code maps to its own label. */
  lemma {:induction false} LabelMapLookup(languages: seq<Language>, i: nat)
    requires DistinctShorts(languages)
    requires i < |languages|
    ensures LabelMap(languages)[languages[i].short] == languages[i].labelName
  {
    if i < |languages| - 1 {
      var front := languages[..|languages| - 1];
      assert front[i] == languages[i];
      LabelMapLookup(front, i);
    }
  }

  /** The loop filling `labels` (the label lookups on the tracker are taken
      to return the label of that name). */
  method LanguageLabels(languages: seq<Language>) returns (labels: map<string, string>)
    ensures labels == LabelMap(languages)
  {
    labels := map[];
    var i := 0;
    while i < |languages|
      invariant 0 <= i <= |languages|
      invariant labels == LabelMap(languages[..i])
    {
      assert languages[..i + 1][..i] == languages[..i];
      labels := labels[languages[i].short := languages[i].labelName];
      i := i + 1;
    }
    assert languages[..i] == languages;
  }

  // ---------------------------------------------------------------- the plan

  /** One (video, language) pair of the nested loops. */
  datatype Pair = Pair(video: Video, language: Language)

  function PairTitle(p: Pair): string { IssueTitle(p.language.short, p.video.title) }

  /** No issue of the list fetched before the loops has this exact title. */
  predicate Missing(prefetched: seq<Issue>, title: string)
  {
    forall k :: 0 <= k < |prefetched| ==> prefetched[k].title != title
  }

  /** The pairs of one video whose title is missing, in language order. */
  function VideoPairs(video: Video, languages: seq<Language>, prefetched: seq<Issue>): (pairs: seq<Pair>)
    ensures |pairs| <= |languages|
  {
    if languages == [] then []
    else
      var p := Pair(video, languages[|languages| - 1]);
      VideoPairs(video, languages[..|languages| - 1], prefetched)
        + (if Missing(prefetched, PairTitle(p)) then [p] else [])
  }

  /** The pairs to create, videos in the outer loop and languages in the
      inner one, each judged against the prefetched list only. */
  function PairsToCreate(videos: seq<Video>, languages: seq<Language>, prefetched: seq<Issue>): seq<Pair>
  {
    if videos == [] then []
    else
      PairsToCreate(videos[..|videos| - 1], languages, prefetched)
        + VideoPairs(videos[|videos| - 1], languages, prefetched)
  }

  lemma {:induction false} VideoPairsMembers(video: Video, languages: seq<Language>, prefetched: seq<Issue>, p: Pair)
    ensures p in VideoPairs(video, languages, prefetched) <==>
      p.video == video && p.language in languages && Missing(prefetched, PairTitle(p))
  {
    if languages != [] {
      var front := languages[..|languages| - 1];
      VideoPairsMembers(video, front, prefetched, p);
      assert languages == front + [languages[|languages| - 1]];
    }
  }

  /** A pair is created iff its video and language are in the lists and no
      prefetched issue has its title. */
  lemma {:induction false} PairsToCreateMembers(videos: seq<Video>, languages: seq<Language>, prefetched: seq<Issue>, p: Pair)
    ensures p in PairsToCreate(videos, languages, prefetched) <==>
      p.video in videos && p.language in languages && Missing(prefetched, PairTitle(p))
  {
    if videos != [] {
      var front := videos[..|videos| - 1];
      PairsToCreateMembers(front, languages, prefetched, p);
      VideoPairsMembers(videos[|videos| - 1], languages, prefetched, p);
      assert videos == front + [videos[|videos| - 1]];
    }
  }

  /** Every pair of a video, in language order. */
  function AllVideoPairs(video: Video, languages: seq<Language>): (pairs: seq<Pair>)
    ensures |pairs| == |languages|
    ensures forall j :: 0 <= j < |languages| ==> pairs[j] == Pair(video, languages[j])
  {
    seq(|languages|, j requires 0 <= j < |languages| => Pair(video, languages[j]))
  }

  /** Every pair, videos outer and languages inner. */
  function AllPairs(videos: seq<Video>, languages: seq<Language>): (pairs: seq<Pair>)
    ensures |pairs| == |videos| * |languages|
  {
    if videos == [] then []
    else AllPairs(videos[..|videos| - 1], languages) + AllVideoPairs(videos[|videos| - 1], languages)
  }

  lemma {:induction false} VideoPairsAllMissing(video: Video, languages: seq<Language>, prefetched: seq<Issue>)
    requires forall j :: 0 <= j < |languages| ==> Missing(prefetched, IssueTitle(languages[j].short, video.title))
    ensures VideoPairs(video, languages, prefetched) == AllVideoPairs(video, languages)
  {
    if languages != [] {
      VideoPairsAllMissing(video, languages[..|languages| - 1], prefetched);
    }
  }

  /** Creations never suppress later ones: when no prefetched issue has any
      of the titles, every pair is created, in loop order, even when a video
      is listed twice. */
  lemma {:induction false} PairsToCreateAllMissing(videos: seq<Video>, languages: seq<Language>, prefetched: seq<Issue>)
    requires forall i, j :: 0 <= i < |videos| && 0 <= j < |languages| ==>
      Missing(prefetched, IssueTitle(languages[j].short, videos[i].title))
    ensures PairsToCreate(videos, languages, prefetched) == AllPairs(videos, languages)
  {
    if videos != [] {
      PairsToCreateAllMissing(videos[..|videos| - 1], languages, prefetched);
      VideoPairsAllMissing(videos[|videos| - 1], languages, prefetched);
    }
  }

  lemma {:induction false} VideoPairsNoneMissing(video: Video, languages: seq<Language>, prefetched: seq<Issue>)
    requires forall j :: 0 <= j < |languages| ==> !Missing(prefetched, IssueTitle(languages[j].short, video.title))
    ensures VideoPairs(video, languages, prefetched) == []
  {
    if languages != [] {
      VideoPairsNoneMissing(video, languages[..|languages| - 1], prefetched);
    }
  }

  /** Idempotence: when every generated title is already on the tracker,
      nothing is created. */
  lemma {:induction false} PairsToCreateNoneMissing(videos: seq<Video>, languages: seq<Language>, prefetched: seq<Issue>)
    requires forall i, j :: 0 <= i < |videos| && 0 <= j < |languages| ==>
      !Missing(prefetched, IssueTitle(languages[j].short, videos[i].title))
    ensures PairsToCreate(videos, languages, prefetched) == []
  {
    if videos != [] {
      PairsToCreateNoneMissing(videos[..|videos| - 1], languages, prefetched);
      VideoPairsNoneMissing(videos[|videos| - 1], languages, prefetched);
    }
  }

  // ---------------------------------------------------------------- the tracker

  /** A card request: the column posted to, and the id and type of its
      content. */
  datatype CardPost = CardPost(column: string, contentId: int, contentType: string)

  /** What the script can see of the tracker: the repository's open issues, the
      card requests sent to the board, and the id and number the next new
      issue receives. */
  datatype Tracker = Tracker(issues: seq<Issue>, cards: seq<CardPost>, nextId: int, nextNumber: int)

  /** The issue created for pair `p` with the given tracker id and number:
      its exact title, the rendered template, and two labels. */
  function NewIssue(p: Pair, id: int, number: int, start: string, render: (Template, Video) -> string): (issue: Issue)
    ensures issue.title == PairTitle(p) && issue.id == id && issue.number == number
    ensures issue.labels == [p.language.labelName, start]
  {
    Issue(id, number, PairTitle(p), Some(render(p.language.template, p.video)), [p.language.labelName, start])
  }

  /** One pass of the `else` branch: the new issue, then a card in the
      language's column whose content is that issue. */
  function Open(t: Tracker, p: Pair, start: string, render: (Template, Video) -> string): Tracker
  {
    Tracker(t.issues + [NewIssue(p, t.nextId, t.nextNumber, start, render)],
            t.cards + [CardPost(p.language.column, t.nextId, "Issue")],
            t.nextId + 1, t.nextNumber + 1)
  }

  /** The tracker after opening the pairs in order. */
  function After(t: Tracker, pairs: seq<Pair>, start: string, render: (Template, Video) -> string): Tracker
  {
    if pairs == [] then t
    else Open(After(t, pairs[..|pairs| - 1], start, render), pairs[|pairs| - 1], start, render)
  }

  lemma AfterSnoc(t: Tracker, pairs: seq<Pair>, p: Pair, start: string, render: (Template, Video) -> string)
    ensures After(t, pairs + [p], start, render) == Open(After(t, pairs, start, render), p, start, render)
  {
    assert (pairs + [p])[..|pairs|] == pairs;
  }

  /** Opening two runs of pairs one after the other is opening them all. */
  lemma {:induction false} AfterAppend(t: Tracker, a: seq<Pair>, b: seq<Pair>, start: string, render: (Template, Video) -> string)
    ensures After(t, a + b, start, render) == After(After(t, a, start, render), b, start, render)
  {
    if b == [] {
      assert a + b == a;
    } else {
      var n := |b| - 1;
      assert (a + b)[..|a| + n] == a + b[..n];
      AfterAppend(t, a, b[..n], start, render);
    }
  }

  /** Nothing is removed or rewritten: one issue and one card are appended
      per pair, and the counters advance by the number of pairs. */
  lemma {:induction false} AfterShape(t: Tracker, pairs: seq<Pair>, start: string, render: (Template, Video) -> string)
    ensures var r := After(t, pairs, start, render);
      && |r.issues| == |t.issues| + |pairs| && r.issues[..|t.issues|] == t.issues
      && |r.cards| == |t.cards| + |pairs| && r.cards[..|t.cards|] == t.cards
      && r.nextId == t.nextId + |pairs| && r.nextNumber == t.nextNumber + |pairs|
  {
    if pairs != [] {
      var front := After(t, pairs[..|pairs| - 1], start, render);
      AfterShape(t, pairs[..|pairs| - 1], start, render);
      assert (front.issues + [NewIssue(pairs[|pairs| - 1], front.nextId, front.nextNumber, start, render)])[..|t.issues|]
        == front.issues[..|t.issues|];
      assert (front.cards + [CardPost(pairs[|pairs| - 1].language.column, front.nextId, "Issue")])[..|t.cards|]
        == front.cards[..|t.cards|];
    }
  }

  /** The `k`-th creation: an issue with the pair's title and two labels,
      followed by a card in its language's column whose content is that
      issue. */
  lemma {:induction false} AfterIndex(t: Tracker, pairs: seq<Pair>, start: string, render: (Template, Video) -> string, k: nat)
    requires k < |pairs|
    ensures var r := After(t, pairs, start, render);
      && |t.issues| + k < |r.issues| && |t.cards| + k < |r.cards|
      && r.issues[|t.issues| + k] == NewIssue(pairs[k], t.nextId + k, t.nextNumber + k, start, render)
      && r.cards[|t.cards| + k] == CardPost(pairs[k].language.column, t.nextId + k, "Issue")
  {
    var n := |pairs| - 1;
    var front := After(t, pairs[..n], start, render);
    AfterShape(t, pairs[..n], start, render);
    assert After(t, pairs, start, render) == Open(front, pairs[n], start, render);
    if k < n {
      AfterIndex(t, pairs[..n], start, render, k);
      assert pairs[..n][k] == pairs[k];
    }
  }

  /** Idempotence across runs: a second run over the same videos creates
      nothing, as long as the open issues it lists still include those of
      the first run (a closed issue is not listed, and its pair is opened
      again). */
  lemma SecondRunCreatesNothing(videos: seq<Video>, languages: seq<Language>, t: Tracker,
                                start: string, render: (Template, Video) -> string)
    ensures PairsToCreate(videos, languages,
      After(t, PairsToCreate(videos, languages, t.issues), start, render).issues) == []
  {
    var pairs := PairsToCreate(videos, languages, t.issues);
    var after := After(t, pairs, start, render).issues;
    AfterShape(t, pairs, start, render);
    forall i, j | 0 <= i < |videos| && 0 <= j < |languages|
      ensures !Missing(after, IssueTitle(languages[j].short, videos[i].title))
    {
      var p := Pair(videos[i], languages[j]);
      PairsToCreateMembers(videos, languages, t.issues, p);
      if Missing(t.issues, PairTitle(p)) {
        var k :| 0 <= k < |pairs| && pairs[k] == p;
        AfterIndex(t, pairs, start, render, k);
        assert after[|t.issues| + k].title == PairTitle(p);
      } else {
        var k :| 0 <= k < |t.issues| && t.issues[k].title == PairTitle(p);
        assert after[..|t.issues|][k] == t.issues[k];
      }
    }
    PairsToCreateNoneMissing(videos, languages, after);
  }

  /** The repository on the tracker, as the script changes it. */
  class Repository {
    var issues: seq<Issue>
    var cards: seq<CardPost>
    var nextId: int
    var nextNumber: int

    function State(): Tracker
      reads this
    {
      Tracker(issues, cards, nextId, nextNumber)
    }

    constructor (issues: seq<Issue>, nextId: int, nextNumber: int)
      ensures this.issues == issues && cards == [] && this.nextId == nextId && this.nextNumber == nextNumber
    {
      this.issues := issues;
      cards := [];
      this.nextId := nextId;
      this.nextNumber := nextNumber;
    }

    /** `repo.create_issue`: the new issue is appended with the next id and
        number. */
    method CreateIssue(title: string, body: string, labels: seq<string>) returns (issue: Issue)
      modifies this
      ensures issue == Issue(old(nextId), old(nextNumber), title, Some(body), labels)
      ensures issues == old(issues) + [issue] && cards == old(cards)
      ensures nextId == old(nextId) + 1 && nextNumber == old(nextNumber) + 1
    {
      issue := Issue(nextId, nextNumber, title, Some(body), labels);
      issues := issues + [issue];
      nextId := nextId + 1;
      nextNumber := nextNumber + 1;
    }

    /** The card POST to `/projects/columns/<column>/cards`. */
    method PostCard(column: string, contentId: int)
      modifies this
      ensures cards == old(cards) + [CardPost(column, contentId, "Issue")]
      ensures issues == old(issues) && nextId == old(nextId) && nextNumber == old(nextNumber)
    {
      cards := cards + [CardPost(column, contentId, "Issue")];
    }
  }

  // ---------------------------------------------------------------- the loops

  /** The `found` loop: whether some issue has exactly this title. */
  method TitleExists(issues: seq<Issue>, title: string) returns (found: bool)
    ensures found <==> !Missing(issues, title)
  {
    found := false;
    var k := 0;
    while k < |issues|
      invariant 0 <= k <= |issues|
      invariant forall m :: 0 <= m < k ==> issues[m].title != title
    {
      if issues[k].title == title {
        found := true;
        break;
      }
      k := k + 1;
    }
  }

  /** The body of the `else` branch: the issue with its title, rendered
      body and two labels, then the card pointing at it. */
  method OpenIssue(repo: Repository, p: Pair, title: string, languageLabel: string, start: string,
                   render: (Template, Video) -> string)
    requires title == PairTitle(p) && languageLabel == p.language.labelName
    modifies repo
    ensures repo.State() == Open(old(repo.State()), p, start, render)
  {
    var issue := repo.CreateIssue(title, render(p.language.template, p.video), [languageLabel, start]);
    repo.PostCard(p.language.column, issue.id);
  }

  /** The inner loop for one video: for each language without an issue, a
      new issue with its two labels, then its card. */
  method ReconcileVideo(repo: Repository, video: Video, languages: seq<Language>, prefetched: seq<Issue>,
                        labels: map<string, string>, start: string, render: (Template, Video) -> string)
    requires forall j :: 0 <= j < |languages| ==>
      languages[j].short in labels && labels[languages[j].short] == languages[j].labelName
    modifies repo
    ensures repo.State() == After(old(repo.State()), VideoPairs(video, languages, prefetched), start, render)
  {
    ghost var t0 := repo.State();
    var j := 0;
    while j < |languages|
      invariant 0 <= j <= |languages|
      invariant repo.State() == After(t0, VideoPairs(video, languages[..j], prefetched), start, render)
    {
      ghost var pairs := VideoPairs(video, languages[..j], prefetched);
      var language := languages[j];
      assert languages[..j + 1][..j] == languages[..j];
      var title := IssueTitle(language.short, video.title);
      var found := TitleExists(prefetched, title);
      var p := Pair(video, language);
      if !found {
        OpenIssue(repo, p, title, labels[language.short], start, render);
        AfterSnoc(t0, pairs, p, start, render);
        assert VideoPairs(video, languages[..j + 1], prefetched) == pairs + [p];
      } else {
        assert VideoPairs(video, languages[..j + 1], prefetched) == pairs;
      }
      j := j + 1;
    }
    assert languages[..j] == languages;
  }

  /** The outer loop, over the videos. */
  method ReconcileVideos(repo: Repository, videos: seq<Video>, languages: seq<Language>, prefetched: seq<Issue>,
                         labels: map<string, string>, start: string, render: (Template, Video) -> string)
    requires forall j :: 0 <= j < |languages| ==>
      languages[j].short in labels && labels[languages[j].short] == languages[j].labelName
    modifies repo
    ensures repo.State() == After(old(repo.State()), PairsToCreate(videos, languages, prefetched), start, render)
  {
    ghost var t0 := repo.State();
    var i := 0;
    while i < |videos|
      invariant 0 <= i <= |videos|
      invariant repo.State() == After(t0, PairsToCreate(videos[..i], languages, prefetched), start, render)
    {
      assert videos[..i + 1][..i] == videos[..i];
      ReconcileVideo(repo, videos[i], languages, prefetched, labels, start, render);
      AfterAppend(t0, PairsToCreate(videos[..i], languages, prefetched),
                  VideoPairs(videos[i], languages, prefetched), start, render);
      i := i + 1;
    }
    assert videos[..i] == videos;
  }

  /** `create-issues.py` after the videos are known: the issue list fetched
      once, the labels looked up, then the nested loops. */
  method CreateIssues(repo: Repository, videos: seq<Video>, render: (Template, Video) -> string)
    modifies repo
    ensures repo.State() == After(old(repo.State()), PairsToCreate(videos, ScriptLanguages, old(repo.issues)),
      LabelStart, render)
  {
    var prefetched := repo.issues;
    var labels := LanguageLabels(ScriptLanguages);
    forall j | 0 <= j < |ScriptLanguages|
      ensures labels[ScriptLanguages[j].short] == ScriptLanguages[j].labelName
    {
      LabelMapLookup(ScriptLanguages, j);
    }
    ReconcileVideos(repo, videos, ScriptLanguages, prefetched, labels, LabelStart, render);
  }
}
