/** bin/update-issues.py: for each downloaded caption, the card of the issue
    with the matching title is moved to its language's "Approved" column.
    The board's cards are gathered first from the twelve columns before the
    last stage; then every (video, caption) pair looks its issue's card up.

    As written, the lookup compares every card with `issue_number`, the
    variable left over from the card-gathering loop, instead of the issue's
    own number; the lookup is therefore a parameter: `LastParsed` is the
    script as written, `OwnNumber` the evidently intended one. */
module UpdateIssues {
  import opened Wrappers
  import opened Text
  import opened GithubConfig
  import opened YoutubeLib
  import Webhook
  import Common
  import SuffixCommit
  import CreateIssues

  // ---------------------------------------------------------------- configuration

  /** `APPROVAL_COLUMNS`: the last-stage column of each handled language. */
  const ApprovalColumns: map<string, int> := map["fr" := 398417, "en" := 390130, "de" := 654919]

  /** The columns scanned for cards, language by language: all but the last. */
  const ScannedColumns: seq<int> := [
    398411, 398412, 398414, 398416,
    387590, 387592, 654829, 387597,
    654910, 654907, 654913, 654916
  ]

  /** The scanned columns are stages 0 to 3 of the webhook's table for fr,
      en and de; the approval columns are its stage 4, so a moved card
      leaves the scanned columns. */
  lemma ColumnsAgreeWithBoard()
    ensures |ScannedColumns| == 12
    ensures forall l, s :: 0 <= l < 3 && 0 <= s < 4 ==>
      ScannedColumns[4 * l + s] == Webhook.BotLabelsColumns[s].columns[l]
    ensures forall l :: 0 <= l < 3 ==>
      ColumnOrder[l] in ApprovalColumns && ApprovalColumns[ColumnOrder[l]] == Webhook.BotLabelsColumns[4].columns[l]
    ensures forall language :: language in ApprovalColumns ==> ApprovalColumns[language] !in ScannedColumns
  {
  }

  // ---------------------------------------------------------------- gathering the cards

  /** A card as the column listing returns it. A note card has no content
      URL (`None`): `card_data['content_url']` raises a KeyError when the
      key is absent, and `re.search` a TypeError when it is null; either
      ends the script, as `MissingKey("content_url")`. */
  datatype RawCard = RawCard(id: int, contentUrl: Option<string>)

  /** A gathered card: its id and the issue number its content URL ends in. */
  datatype Card = Card(id: int, issueNumber: int)

  /** The listings of the columns, one after the other (`fetch` stands for
      the GET of `/projects/columns/<id>/cards`). */
  function Listed(fetch: int -> seq<RawCard>, columns: seq<int>): seq<RawCard>
  {
    if columns == [] then []
    else Listed(fetch, columns[..|columns| - 1]) + fetch(columns[|columns| - 1])
  }

  /** The listings of a run of columns split anywhere. */
  lemma {:induction false} ListedSplit(fetch: int -> seq<RawCard>, columns: seq<int>, c: nat)
    requires c <= |columns|
    ensures Listed(fetch, columns) == Listed(fetch, columns[..c]) + Listed(fetch, columns[c..])
  {
    if c == |columns| {
      assert columns[..c] == columns;
      assert columns[c..] == [];
    } else {
      var n := |columns| - 1;
      ListedSplit(fetch, columns[..n], c);
      assert columns[..n][..c] == columns[..c];
      assert columns[c..][..n - c] == columns[..n][c..];
      assert columns[c..][n - c] == columns[n];
    }
  }

  /** Every listed card has a content URL. */
  predicate AllHaveUrls(raw: seq<RawCard>)
  {
    forall i :: 0 <= i < |raw| ==> raw[i].contentUrl.Some?
  }

  /** `re.search("([0-9]+)$", content_url)`: the card with the number its
      content URL ends in, or nothing for a URL that does not end in one
      (a card without a URL never gets here: see `Gathered`). */
  function CardOf(raw: RawCard): Option<Card>
  {
    if raw.contentUrl.None? then None
    else
      match TrailingNumber(raw.contentUrl.value)
      case None => None
      case Some(k) => Some(Card(raw.id, k))
  }

  /** The values `f` gives for the elements of `xs`, in order. */
  function Keep(f: RawCard -> Option<Card>, xs: seq<RawCard>): (values: seq<Card>)
    ensures |values| <= |xs|
  {
    if xs == [] then []
    else
      var n := |xs| - 1;
      match f(xs[n])
      case None => Keep(f, xs[..n])
      case Some(v) => Keep(f, xs[..n]) + [v]
  }

  lemma {:induction false} KeepAppend(f: RawCard -> Option<Card>, a: seq<RawCard>, b: seq<RawCard>)
    ensures Keep(f, a + b) == Keep(f, a) + Keep(f, b)
  {
    if b == [] {
      assert a + b == a;
    } else {
      var n := |b| - 1;
      assert (a + b)[..|a| + n] == a + b[..n];
      KeepAppend(f, a, b[..n]);
    }
  }

  lemma {:induction false} KeepMembers(f: RawCard -> Option<Card>, xs: seq<RawCard>, v: Card)
    ensures v in Keep(f, xs) <==> exists i :: 0 <= i < |xs| && f(xs[i]) == Some(v)
  {
    if xs != [] {
      var n := |xs| - 1;
      KeepMembers(f, xs[..n], v);
      assert forall i :: 0 <= i < n ==> xs[..n][i] == xs[i];
    }
  }

  /** The cards whose content URL ends in a number, in listing order; the
      others are skipped with a warning. */
  function Parsed(raw: seq<RawCard>): (cards: seq<Card>)
    ensures |cards| <= |raw|
  {
    Keep(CardOf, raw)
  }

  /** What the gathering loop ends with: the parsed cards, or the error of
      a listed card without a content URL. */
  function Gathered(raw: seq<RawCard>): Result<seq<Card>>
  {
    if AllHaveUrls(raw) then Ok(Parsed(raw)) else Err(MissingKey("content_url"))
  }

  /** The value `issue_number` holds after the gathering loop: the number of
      the last card gathered, unbound (`None`) when none was. */
  function LastNumber(cards: seq<Card>): Option<int>
  {
    if cards == [] then None else Some(cards[|cards| - 1].issueNumber)
  }

  lemma ParsedSnoc(raw: seq<RawCard>, x: RawCard)
    ensures Parsed(raw + [x]) == Parsed(raw) + if CardOf(x).Some? then [CardOf(x).value] else []
  {
    assert (raw + [x])[..|raw|] == raw;
  }

  /** A card is gathered exactly when some listed card parses to it. */
  lemma ParsedMembers(raw: seq<RawCard>, card: Card)
    ensures card in Parsed(raw) <==> exists i :: 0 <= i < |raw| && CardOf(raw[i]) == Some(card)
  {
    KeepMembers(CardOf, raw, card);
  }

  /** A card whose content URL is an issue URL yields that issue's number. */
  lemma ParsedOfIssueUrl(id: int, prefix: string, number: nat)
    requires !EndsInDigit(prefix)
    ensures Parsed([RawCard(id, Some(prefix + Decimal(number)))]) == [Card(id, number)]
  {
    var raw := RawCard(id, Some(prefix + Decimal(number)));
    TrailingNumberOfDecimal(prefix, number);
    assert CardOf(raw) == Some(Card(id, number));
    ParsedSnoc([], raw);
    assert [] + [raw] == [raw];
  }

  /** One listed card: parsed and appended, or skipped. `cards0` and `before`
      are the cards gathered before this column and the column's cards
      already seen. */
  method GatherOne(raw: RawCard, cards: seq<Card>, last: Option<int>,
                   ghost cards0: seq<Card>, ghost before: seq<RawCard>)
    returns (cards': seq<Card>, last': Option<int>)
    requires raw.contentUrl.Some?
    requires cards == cards0 + Parsed(before) && last == LastNumber(cards)
    ensures cards' == cards0 + Parsed(before + [raw]) && last' == LastNumber(cards')
  {
    var number := TrailingNumber(raw.contentUrl.value);
    ParsedSnoc(before, raw);
    if number.None? {
      return cards, last;
    }
    var card := Card(raw.id, number.value);
    assert CardOf(raw) == Some(card);
    cards' := cards + [card];
    assert cards' == cards0 + (Parsed(before) + [card]);
    last' := Some(number.value);
  }

  /** The inner loop: one column's listing added to the gathered cards;
      `complete` is false when it stopped at a card without a content URL. */
  method GatherColumn(data: seq<RawCard>, cards0: seq<Card>, last0: Option<int>)
    returns (cards: seq<Card>, last: Option<int>, complete: bool)
    requires last0 == LastNumber(cards0)
    ensures complete <==> AllHaveUrls(data)
    ensures complete ==> cards == cards0 + Parsed(data) && last == LastNumber(cards)
  {
    cards, last := cards0, last0;
    var d := 0;
    while d < |data|
      invariant 0 <= d <= |data|
      invariant AllHaveUrls(data[..d])
      invariant cards == cards0 + Parsed(data[..d])
      invariant last == LastNumber(cards)
    {
      if data[d].contentUrl.None? {
        return cards, last, false;
      }
      assert data[..d + 1] == data[..d] + [data[d]];
      cards, last := GatherOne(data[d], cards, last, cards0, data[..d]);
      d := d + 1;
    }
    assert data[..d] == data;
    return cards, last, true;
  }

  /** The gathering loop over the columns: the cards and the leftover
      `issue_number`, or the error of the first card without a content URL. */
  method GatherCards(fetch: int -> seq<RawCard>, columns: seq<int>) returns (r: Result<seq<Card>>, last: Option<int>)
    ensures r == Gathered(Listed(fetch, columns))
    ensures r.Ok? ==> last == LastNumber(r.value)
  {
    var cards: seq<Card> := [];
    last := None;
    var c := 0;
    while c < |columns|
      invariant 0 <= c <= |columns|
      invariant AllHaveUrls(Listed(fetch, columns[..c]))
      invariant cards == Parsed(Listed(fetch, columns[..c]))
      invariant last == LastNumber(cards)
    {
      var before := Listed(fetch, columns[..c]);
      assert columns[..c + 1][..c] == columns[..c];
      assert Listed(fetch, columns[..c + 1]) == before + fetch(columns[c]);
      var complete;
      cards, last, complete := GatherColumn(fetch(columns[c]), cards, last);
      if !complete {
        var i :| 0 <= i < |fetch(columns[c])| && fetch(columns[c])[i].contentUrl.None?;
        ListedSplit(fetch, columns, c + 1);
        assert Listed(fetch, columns)[|before| + i] == fetch(columns[c])[i];
        return Err(MissingKey("content_url")), last;
      }
      KeepAppend(CardOf, before, fetch(columns[c]));
      c := c + 1;
    }
    assert columns[..c] == columns;
    r := Ok(cards);
  }

  // ---------------------------------------------------------------- finding a card

  /** The id of the first gathered card with this issue number. */
  function FirstCard(cards: seq<Card>, number: int): Option<int>
  {
    if cards == [] then None
    else if cards[0].issueNumber == number then Some(cards[0].id)
    else FirstCard(cards[1..], number)
  }

  /** A card is found iff one carries the number, and it is the first one. */
  lemma {:induction false} FirstCardSpec(cards: seq<Card>, number: int)
    ensures FirstCard(cards, number).None? <==> forall i :: 0 <= i < |cards| ==> cards[i].issueNumber != number
    ensures FirstCard(cards, number).Some? ==>
      exists i :: 0 <= i < |cards| && cards[i] == Card(FirstCard(cards, number).value, number)
        && forall j :: 0 <= j < i ==> cards[j].issueNumber != number
  {
    if cards != [] && cards[0].issueNumber != number {
      FirstCardSpec(cards[1..], number);
      if FirstCard(cards, number).Some? {
        var i :| 0 <= i < |cards[1..]| && cards[1..][i] == Card(FirstCard(cards, number).value, number)
          && forall j :: 0 <= j < i ==> cards[1..][j].issueNumber != number;
        assert cards[i + 1] == cards[1..][i];
        assert forall j :: 1 <= j < i + 1 ==> cards[j] == cards[1..][j - 1];
      }
    }
  }

  /** The `card_id` loop. */
  method FindCard(cards: seq<Card>, number: int) returns (cardId: Option<int>)
    ensures cardId == FirstCard(cards, number)
  {
    var k := 0;
    while k < |cards|
      invariant 0 <= k <= |cards|
      invariant FirstCard(cards[k..], number) == FirstCard(cards, number)
    {
      assert cards[k..][1..] == cards[k + 1..];
      if cards[k].issueNumber == number {
        return Some(cards[k].id);
      }
      k := k + 1;
    }
    return None;
  }

  // ---------------------------------------------------------------- one pair

  /** What the card lookup compares with. */
  datatype Lookup =
    | LastParsed  // the leftover `issue_number`, as written
    | OwnNumber   // the matching issue's own number

  function Key(lookup: Lookup, last: Option<int>, issue: Issue): Option<int>
  {
    match lookup
    case LastParsed => last
    case OwnNumber => Some(issue.number)
  }

  /** A card move request: the card, to the top of this column. */
  datatype Move = Move(cardId: int, column: int)

  /** The issue loop for one pair: the first issue with the title whose card
      is found decides; without a card (or with card id 0) the loop goes on
      to the next issue; an unbound `issue_number` is a `NameError`; an
      unhandled language ends the loop without a move. */
  function Outcome(issues: seq<Issue>, cards: seq<Card>, last: Option<int>, lookup: Lookup,
                   title: string, language: string): Result<Option<Move>>
  {
    if issues == [] then Ok(None)
    else if issues[0].title != title then Outcome(issues[1..], cards, last, lookup, title, language)
    else
      match Key(lookup, last, issues[0])
      case None => Err(UnboundName("issue_number"))
      case Some(number) =>
        var cardId := FirstCard(cards, number);
        if cardId.None? || cardId.value == 0 then Outcome(issues[1..], cards, last, lookup, title, language)
        else if language !in ApprovalColumns then Ok(None)
        else Ok(Some(Move(cardId.value, ApprovalColumns[language])))
  }

  /** The lookup of `number` finds a card whose id is not 0, so the issue
      loop stops there. */
  predicate CardFound(cards: seq<Card>, number: int)
  {
    FirstCard(cards, number).Some? && FirstCard(cards, number).value != 0
  }

  /** Some issue carries the pair's title. */
  predicate TitleListed(issues: seq<Issue>, title: string)
  {
    exists k :: 0 <= k < |issues| && issues[k].title == title
  }

  /** As written, the card moved is the first one carrying the number of the
      last gathered card, whichever issue matched the title, and it goes to
      the approval column of the pair's language. */
  lemma {:induction false} LastParsedOutcome(issues: seq<Issue>, cards: seq<Card>, last: Option<int>,
                                             title: string, language: string)
    ensures var r := Outcome(issues, cards, last, LastParsed, title, language);
      r.Ok? && r.value.Some? ==>
        && last.Some? && FirstCard(cards, last.value) == Some(r.value.value.cardId)
        && language in ApprovalColumns && r.value.value.column == ApprovalColumns[language]
  {
    if issues != [] {
      LastParsedOutcome(issues[1..], cards, last, title, language);
    }
  }

  /** As written, the converse: once an issue carries the title and the last
      gathered number's card is found, that card is moved to the approval
      column of a handled language, and nothing is moved for another
      language; when that card is not found, every matching issue is passed
      over and nothing is moved. */
  lemma {:induction false} LastParsedMoves(issues: seq<Issue>, cards: seq<Card>, last: Option<int>,
                                           title: string, language: string)
    requires last.Some? && TitleListed(issues, title)
    ensures CardFound(cards, last.value) && language in ApprovalColumns ==>
      Outcome(issues, cards, last, LastParsed, title, language)
        == Ok(Some(Move(FirstCard(cards, last.value).value, ApprovalColumns[language])))
    ensures CardFound(cards, last.value) && language !in ApprovalColumns ==>
      Outcome(issues, cards, last, LastParsed, title, language) == Ok(None)
    ensures !CardFound(cards, last.value) ==>
      Outcome(issues, cards, last, LastParsed, title, language) == Ok(None)
  {
    var k :| 0 <= k < |issues| && issues[k].title == title;
    if issues[0].title != title {
      assert issues[1..][k - 1] == issues[k];
      LastParsedMoves(issues[1..], cards, last, title, language);
    } else if !CardFound(cards, last.value) {
      if TitleListed(issues[1..], title) {
        LastParsedMoves(issues[1..], cards, last, title, language);
      } else {
        NoTitleNoMove(issues[1..], cards, last, LastParsed, title, language);
      }
    }
  }

  /** With no issue carrying the title, the pair moves nothing. */
  lemma {:induction false} NoTitleNoMove(issues: seq<Issue>, cards: seq<Card>, last: Option<int>, lookup: Lookup,
                                         title: string, language: string)
    requires !TitleListed(issues, title)
    ensures Outcome(issues, cards, last, lookup, title, language) == Ok(None)
  {
    if issues != [] {
      assert issues[0].title != title;
      assert !TitleListed(issues[1..], title) by {
        forall j | 0 <= j < |issues[1..]|
          ensures issues[1..][j].title != title
        {
          assert issues[1..][j] == issues[j + 1];
        }
      }
      NoTitleNoMove(issues[1..], cards, last, lookup, title, language);
    }
  }

  /** A pair whose title matches an issue when no card was gathered stops
      the script with a `NameError`. */
  lemma {:induction false} NoCardsCrash(issues: seq<Issue>, title: string, language: string)
    requires exists k :: 0 <= k < |issues| && issues[k].title == title
    ensures Outcome(issues, [], LastNumber([]), LastParsed, title, language) == Err(UnboundName("issue_number"))
  {
    if issues[0].title != title {
      var k :| 0 <= k < |issues| && issues[k].title == title;
      assert issues[1..][k - 1] == issues[k];
      NoCardsCrash(issues[1..], title, language);
    }
  }

  /** A board where the matching issue #5 has card 50 and the last gathered
      card is card 70 of issue #7: as written card 70 is moved, intended is
      card 50. */
  lemma StaleNumberMovesOtherCard()
    ensures var issues := [Issue(1, 5, "t", Some(""), [])];
      var cards := [Card(50, 5), Card(70, 7)];
      && LastNumber(cards) == Some(7)
      && Outcome(issues, cards, LastNumber(cards), LastParsed, "t", "fr") == Ok(Some(Move(70, 398417)))
      && Outcome(issues, cards, LastNumber(cards), OwnNumber, "t", "fr") == Ok(Some(Move(50, 398417)))
  {
    var cards := [Card(50, 5), Card(70, 7)];
    assert cards[1..][0] == Card(70, 7);
    assert FirstCard(cards, 7) == Some(70);
  }

  /** Intended: the lookup never fails, and a moved card is one carrying the
      number of an issue with the pair's title, sent to the approval column
      of the pair's language. */
  lemma {:induction false} OwnNumberOutcome(issues: seq<Issue>, cards: seq<Card>, last: Option<int>,
                                            title: string, language: string)
    ensures Outcome(issues, cards, last, OwnNumber, title, language).Ok?
    ensures var r := Outcome(issues, cards, last, OwnNumber, title, language);
      r.value.Some? ==>
        && language in ApprovalColumns && r.value.value.column == ApprovalColumns[language]
        && exists k, i :: 0 <= k < |issues| && 0 <= i < |cards| && issues[k].title == title
             && cards[i] == Card(r.value.value.cardId, issues[k].number)
  {
    if issues != [] {
      OwnNumberOutcome(issues[1..], cards, last, title, language);
      var r := Outcome(issues, cards, last, OwnNumber, title, language);
      if issues[0].title == title && r != Outcome(issues[1..], cards, last, OwnNumber, title, language) {
        FirstCardSpec(cards, issues[0].number);
      } else if r.value.Some? {
        var k, i :| 0 <= k < |issues[1..]| && 0 <= i < |cards| && issues[1..][k].title == title
          && cards[i] == Card(r.value.value.cardId, issues[1..][k].number);
        assert issues[k + 1] == issues[1..][k];
      }
    }
  }

  /** The issue at `k` is the first with the title whose own number's card
      is found. */
  predicate FirstMovable(issues: seq<Issue>, cards: seq<Card>, title: string, k: int)
  {
    && 0 <= k < |issues| && issues[k].title == title && CardFound(cards, issues[k].number)
    && forall j :: 0 <= j < k && issues[j].title == title ==> !CardFound(cards, issues[j].number)
  }

  /** Intended, the converse: the first issue with the title whose own
      number's card is found decides; its card goes to the approval column
      of a handled language, and nothing is moved for another language. */
  lemma {:induction false} OwnNumberMoves(issues: seq<Issue>, cards: seq<Card>, last: Option<int>,
                                          title: string, language: string, k: int)
    requires FirstMovable(issues, cards, title, k)
    ensures language in ApprovalColumns ==>
      Outcome(issues, cards, last, OwnNumber, title, language)
        == Ok(Some(Move(FirstCard(cards, issues[k].number).value, ApprovalColumns[language])))
    ensures language !in ApprovalColumns ==> Outcome(issues, cards, last, OwnNumber, title, language) == Ok(None)
  {
    if k > 0 {
      assert !(issues[0].title == title && CardFound(cards, issues[0].number));
      assert issues[1..][k - 1] == issues[k];
      assert FirstMovable(issues[1..], cards, title, k - 1) by {
        forall j | 0 <= j < k - 1 && issues[1..][j].title == title
          ensures !CardFound(cards, issues[1..][j].number)
        {
          assert issues[1..][j] == issues[j + 1];
        }
      }
      OwnNumberMoves(issues[1..], cards, last, title, language, k - 1);
    }
  }

  /** Intended: when no issue with the title has its card found, the pair
      moves nothing. */
  lemma {:induction false} OwnNumberNoMove(issues: seq<Issue>, cards: seq<Card>, last: Option<int>,
                                           title: string, language: string)
    requires forall j :: 0 <= j < |issues| && issues[j].title == title ==> !CardFound(cards, issues[j].number)
    ensures Outcome(issues, cards, last, OwnNumber, title, language) == Ok(None)
  {
    if issues != [] {
      assert forall j :: 0 <= j < |issues[1..]| ==> issues[1..][j] == issues[j + 1];
      OwnNumberNoMove(issues[1..], cards, last, title, language);
    }
  }

  /** The issue loop of one pair. */
  method UpdatePair(issues: seq<Issue>, cards: seq<Card>, last: Option<int>, lookup: Lookup,
                    title: string, language: string) returns (r: Result<Option<Move>>)
    ensures r == Outcome(issues, cards, last, lookup, title, language)
  {
    var k := 0;
    while k < |issues|
      invariant 0 <= k <= |issues|
      invariant Outcome(issues[k..], cards, last, lookup, title, language) == Outcome(issues, cards, last, lookup, title, language)
    {
      assert issues[k..][1..] == issues[k + 1..];
      if issues[k].title == title {
        var number := Key(lookup, last, issues[k]);
        if number.None? {
          return Err(UnboundName("issue_number"));
        }
        var cardId := FindCard(cards, number.value);
        if cardId.Some? && cardId.value != 0 {
          if language !in ApprovalColumns {
            return Ok(None);
          }
          return Ok(Some(Move(cardId.value, ApprovalColumns[language])));
        }
      }
      k := k + 1;
    }
    return Ok(None);
  }

  // ---------------------------------------------------------------- all pairs

  /** The move requests sent, and the error that stopped the script, if any
      (the requests sent before it stay sent). */
  datatype Sent = Sent(moves: seq<Move>, crash: Option<Failure>)

  /** The outcome of pair `i`: the issue title built from the caption's
      language without its country code and the video's title. */
  function PairOutcome(videos: seq<Video>, captions: seq<Caption>, issues: seq<Issue>, cards: seq<Card>,
                       last: Option<int>, lookup: Lookup, normalize: string -> string, i: nat): Result<Option<Move>>
    requires i < |videos| && i < |captions|
  {
    var language := normalize(captions[i].language);
    Outcome(issues, cards, last, lookup, CreateIssues.IssueTitle(language, videos[i].title), language)
  }

  /** The first `n` pairs in order, up to the first error. */
  function Moves(videos: seq<Video>, captions: seq<Caption>, issues: seq<Issue>, cards: seq<Card>,
                 last: Option<int>, lookup: Lookup, normalize: string -> string, n: nat): (s: Sent)
    requires n <= |videos| && n <= |captions|
    ensures |s.moves| <= n
  {
    if n == 0 then Sent([], None)
    else
      var prev := Moves(videos, captions, issues, cards, last, lookup, normalize, n - 1);
      if prev.crash.Some? then prev
      else
        match PairOutcome(videos, captions, issues, cards, last, lookup, normalize, n - 1)
        case Err(f) => Sent(prev.moves, Some(f))
        case Ok(None) => prev
        case Ok(Some(m)) => Sent(prev.moves + [m], None)
  }

  /** Once a pair has failed, later pairs change nothing. */
  lemma {:induction false} CrashSticks(videos: seq<Video>, captions: seq<Caption>, issues: seq<Issue>, cards: seq<Card>,
                                       last: Option<int>, lookup: Lookup, normalize: string -> string, i: nat, n: nat)
    requires i <= n <= |videos| && n <= |captions|
    requires Moves(videos, captions, issues, cards, last, lookup, normalize, i).crash.Some?
    ensures Moves(videos, captions, issues, cards, last, lookup, normalize, n)
      == Moves(videos, captions, issues, cards, last, lookup, normalize, i)
  {
    if i < n {
      CrashSticks(videos, captions, issues, cards, last, lookup, normalize, i, n - 1);
    }
  }

  /** Every move request comes from the outcome of one of the pairs run. */
  lemma {:induction false} MovesFromPairs(videos: seq<Video>, captions: seq<Caption>, issues: seq<Issue>, cards: seq<Card>,
                                          last: Option<int>, lookup: Lookup, normalize: string -> string, n: nat, j: nat)
    requires n <= |videos| && n <= |captions|
    requires j < |Moves(videos, captions, issues, cards, last, lookup, normalize, n).moves|
    ensures exists i ::
      && 0 <= i < n
      && PairOutcome(videos, captions, issues, cards, last, lookup, normalize, i)
        == Ok(Some(Moves(videos, captions, issues, cards, last, lookup, normalize, n).moves[j]))
  {
    var prev := Moves(videos, captions, issues, cards, last, lookup, normalize, n - 1);
    if j < |prev.moves| {
      MovesFromPairs(videos, captions, issues, cards, last, lookup, normalize, n - 1, j);
    }
  }

  /** With the intended lookup the script never fails after the captions
      are loaded. */
  lemma {:induction false} OwnNumberNeverCrashes(videos: seq<Video>, captions: seq<Caption>, issues: seq<Issue>,
                                                 cards: seq<Card>, last: Option<int>, normalize: string -> string, n: nat)
    requires n <= |videos| && n <= |captions|
    ensures Moves(videos, captions, issues, cards, last, OwnNumber, normalize, n).crash == None
  {
    if n > 0 {
      OwnNumberNeverCrashes(videos, captions, issues, cards, last, normalize, n - 1);
      var language := normalize(captions[n - 1].language);
      OwnNumberOutcome(issues, cards, last, CreateIssues.IssueTitle(language, videos[n - 1].title), language);
    }
  }

  /** One more pair after a run without error. */
  lemma MovesStep(videos: seq<Video>, captions: seq<Caption>, issues: seq<Issue>, cards: seq<Card>,
                  last: Option<int>, lookup: Lookup, normalize: string -> string, i: nat, moves: seq<Move>)
    requires i < |videos| && i < |captions|
    requires Moves(videos, captions, issues, cards, last, lookup, normalize, i) == Sent(moves, None)
    ensures Moves(videos, captions, issues, cards, last, lookup, normalize, i + 1) ==
      match PairOutcome(videos, captions, issues, cards, last, lookup, normalize, i)
      case Err(f) => Sent(moves, Some(f))
      case Ok(None) => Sent(moves, None)
      case Ok(Some(m)) => Sent(moves + [m], None)
  {
  }

  /** The pair loop. */
  method MovePairs(videos: seq<Video>, captions: seq<Caption>, issues: seq<Issue>, cards: seq<Card>,
                   last: Option<int>, lookup: Lookup, normalize: string -> string) returns (sent: Sent)
    ensures sent == Moves(videos, captions, issues, cards, last, lookup, normalize,
      SuffixCommit.Min(|videos|, |captions|))
  {
    var n := SuffixCommit.Min(|videos|, |captions|);
    var moves: seq<Move> := [];
    var i := 0;
    while i < n
      invariant 0 <= i <= n
      invariant Moves(videos, captions, issues, cards, last, lookup, normalize, i) == Sent(moves, None)
    {
      var language := normalize(captions[i].language);
      var title := CreateIssues.IssueTitle(language, videos[i].title);
      var r := UpdatePair(issues, cards, last, lookup, title, language);
      assert r == PairOutcome(videos, captions, issues, cards, last, lookup, normalize, i);
      MovesStep(videos, captions, issues, cards, last, lookup, normalize, i, moves);
      if r.Err? {
        CrashSticks(videos, captions, issues, cards, last, lookup, normalize, i + 1, n);
        return Sent(moves, Some(r.failure));
      }
      if r.value.Some? {
        moves := moves + [r.value.value];
      }
      i := i + 1;
    }
    return Sent(moves, None);
  }

  // ---------------------------------------------------------------- the script

  /** The whole script: exit 1 without a captions directory; the staged
      captions' failures; exit 0 with nothing fetched (`Ok(None)`) when no
      caption is staged; otherwise the cards gathered from the scanned
      columns and the pairs handled. `issues` is the list fetched once. */
  function ScriptResult(dir: string, isDir: bool, gitOutput: string, read: string -> string,
                        fetchVideos: seq<string> -> seq<VideoItem>, issues: seq<Issue>,
                        fetchColumn: int -> seq<RawCard>, normalize: string -> string, lookup: Lookup)
    : Result<Option<Sent>>
  {
    if !isDir then Err(Exit(1))
    else
      match Common.StagedCaptions(dir, gitOutput, read)
      case Err(f) => Err(f)
      case Ok(captions) =>
        if captions == [] then Ok(None)
        else
          var videos := VideosOf(fetchVideos(Common.VideoIds(captions)));
          match Gathered(Listed(fetchColumn, ScannedColumns))
          case Err(f) => Err(f)
          case Ok(cards) =>
            Ok(Some(Moves(videos, captions, issues, cards, LastNumber(cards), lookup, normalize,
              SuffixCommit.Min(|videos|, |captions|))))
  }

  /** The script as run: the loops of `GatherCards` and `MovePairs` give
      exactly `ScriptResult`; once captions are staged, a listed card
      without a content URL ends the run before any move is sent. */
  method UpdateIssues(dir: string, isDir: bool, gitOutput: string, read: string -> string,
                      fetchVideos: seq<string> -> seq<VideoItem>, issues: seq<Issue>,
                      fetchColumn: int -> seq<RawCard>, normalize: string -> string, lookup: Lookup)
    returns (r: Result<Option<Sent>>)
    ensures !isDir ==> r == Err(Exit(1))
    ensures var staged := Common.StagedCaptions(dir, gitOutput, read);
      isDir && staged.Ok? && staged.value != [] && !AllHaveUrls(Listed(fetchColumn, ScannedColumns)) ==>
        r == Err(MissingKey("content_url"))
    ensures r == ScriptResult(dir, isDir, gitOutput, read, fetchVideos, issues, fetchColumn, normalize, lookup)
  {
    if !isDir {
      return Err(Exit(1));
    }
    var downloaded := Common.DownloadedCaptionsAndVideos(dir, gitOutput, read, fetchVideos);
    if downloaded.Err? {
      return Err(downloaded.failure);
    }
    var (captions, videos) := downloaded.value;
    if |captions| == 0 {
      return Ok(None);
    }
    var cards, last := GatherCards(fetchColumn, ScannedColumns);
    if cards.Err? {
      return Err(cards.failure);
    }
    var sent := MovePairs(videos, captions, issues, cards.value, last, lookup, normalize);
    return Ok(Some(sent));
  }
}
