/** web/bot.py: the `/labellize` webhook. The tracker posts a project-card
    event; when a card was moved, the handler relabels the card's issue so
    that its workflow-stage labels match the destination column. */
module Webhook {
  import opened Wrappers
  import Text
  import opened GithubConfig

  /** The handler's own copy of the stage table, columns fr, en, de. It is
      not the table of lib/github.py: French stage 0 is 398411 here. */
  const BotLabelsColumns: seq<Stage> := [
    Stage("\U{2699} [0] Awaiting subtitles", [398411, 387590, 654910]),
    Stage("\U{2699} [1] Writing in progress", [398412, 387592, 654907]),
    Stage("\U{2699} [2] First review", [398414, 654829, 654913]),
    Stage("\U{2699} [3] Second review", [398416, 387597, 654916]),
    Stage("\U{2699} [4] Approved", [398417, 390130, 654919])
  ]

  /** Issue numbers whose cards are never acted upon (a pinned meta-issue). */
  const Blacklist: seq<int> := [1]

  /** The `project_card` object of the payload; a key it lacks is `None`. */
  datatype ProjectCard = ProjectCard(id: Option<int>, columnId: Option<int>, contentUrl: Option<string>)

  /** A parsed JSON payload that Python finds truthy; a key it lacks (the
      `ping` delivery has no `action`) is `None`. */
  datatype Payload = Payload(action: Option<string>, projectCard: Option<ProjectCard>)

  /** The three `project_card` lookups of a `moved` event all find their key. */
  predicate HasCardFields(p: Payload)
  {
    && p.projectCard.Some?
    && p.projectCard.value.id.Some?
    && p.projectCard.value.columnId.Some?
    && p.projectCard.value.contentUrl.Some?
  }

  /** One label request sent to the tracker. */
  datatype LabelCall = RemoveLabel(name: string) | AddLabel(name: string)

  /** An issue on the tracker, whose labels the handler changes in place;
      `calls` records the label requests sent for it, in order. */
  class TrackedIssue {
    const number: int
    var labels: set<string>
    var calls: seq<LabelCall>

    constructor (number: int, labels: set<string>)
      ensures this.number == number && this.labels == labels && calls == []
    {
      this.number := number;
      this.labels := labels;
      calls := [];
    }

    method RemoveFromLabels(name: string)
      modifies this
      ensures labels == old(labels) - {name}
      ensures calls == old(calls) + [RemoveLabel(name)]
    {
      labels := labels - {name};
      calls := calls + [RemoveLabel(name)];
    }

    method AddToLabels(name: string)
      modifies this
      ensures labels == old(labels) + {name}
      ensures calls == old(calls) + [AddLabel(name)]
    {
      labels := labels + {name};
      calls := calls + [AddLabel(name)];
    }
  }

  // ---------------------------------------------------------------- label delta

  /** Stage labels to add: those of stages listing the column, when absent. */
  function LabelsToAdd(table: seq<Stage>, column: int, current: set<string>): seq<string>
  {
    if table == [] then []
    else
      var last := table[|table| - 1];
      LabelsToAdd(table[..|table| - 1], column, current)
        + (if column in last.columns && last.name !in current then [last.name] else [])
  }

  /** Stage labels to remove: those of stages not listing the column, when present. */
  function LabelsToRemove(table: seq<Stage>, column: int, current: set<string>): seq<string>
  {
    if table == [] then []
    else
      var last := table[|table| - 1];
      LabelsToRemove(table[..|table| - 1], column, current)
        + (if column !in last.columns && last.name in current then [last.name] else [])
  }

  lemma {:induction false} LabelsToAddMembers(table: seq<Stage>, column: int, current: set<string>, name: string)
    ensures name in LabelsToAdd(table, column, current) <==>
      exists i :: 0 <= i < |table| && table[i].name == name && column in table[i].columns && name !in current
  {
    if table != [] {
      var init := table[..|table| - 1];
      LabelsToAddMembers(init, column, current, name);
      if name in LabelsToAdd(init, column, current) {
        var i :| 0 <= i < |init| && init[i].name == name && column in init[i].columns && name !in current;
        assert table[i] == init[i];
      }
      if exists i :: 0 <= i < |table| && table[i].name == name && column in table[i].columns && name !in current {
        var i :| 0 <= i < |table| && table[i].name == name && column in table[i].columns && name !in current;
        if i < |init| {
          assert init[i] == table[i];
        }
      }
    }
  }

  lemma {:induction false} LabelsToRemoveMembers(table: seq<Stage>, column: int, current: set<string>, name: string)
    ensures name in LabelsToRemove(table, column, current) <==>
      exists i :: 0 <= i < |table| && table[i].name == name && column !in table[i].columns && name in current
  {
    if table != [] {
      var init := table[..|table| - 1];
      LabelsToRemoveMembers(init, column, current, name);
      if name in LabelsToRemove(init, column, current) {
        var i :| 0 <= i < |init| && init[i].name == name && column !in init[i].columns && name in current;
        assert table[i] == init[i];
      }
      if exists i :: 0 <= i < |table| && table[i].name == name && column !in table[i].columns && name in current {
        var i :| 0 <= i < |table| && table[i].name == name && column !in table[i].columns && name in current;
        if i < |init| {
          assert init[i] == table[i];
        }
      }
    }
  }

  /** The loop over the stage table: a stage label is added exactly when the
      column is in that stage's list and the label is absent, and removed
      exactly when the column is not in the list and the label is present. */
  method ComputeDelta(table: seq<Stage>, column: int, current: set<string>)
    returns (toAdd: seq<string>, toRemove: seq<string>)
    ensures toAdd == LabelsToAdd(table, column, current)
    ensures toRemove == LabelsToRemove(table, column, current)
    ensures forall name :: name in toAdd <==>
      exists i :: 0 <= i < |table| && table[i].name == name && column in table[i].columns && name !in current
    ensures forall name :: name in toRemove <==>
      exists i :: 0 <= i < |table| && table[i].name == name && column !in table[i].columns && name in current
  {
    toAdd, toRemove := [], [];
    var i := 0;
    while i < |table|
      invariant 0 <= i <= |table|
      invariant toAdd == LabelsToAdd(table[..i], column, current)
      invariant toRemove == LabelsToRemove(table[..i], column, current)
    {
      assert table[..i + 1][..i] == table[..i];
      var stage := table[i];
      if column in stage.columns && stage.name !in current {
        toAdd := toAdd + [stage.name];
      }
      if column !in stage.columns && stage.name in current {
        toRemove := toRemove + [stage.name];
      }
      i := i + 1;
    }
    assert table[..i] == table;
    forall name
      ensures name in toAdd <==>
        exists i :: 0 <= i < |table| && table[i].name == name && column in table[i].columns && name !in current
      ensures name in toRemove <==>
        exists i :: 0 <= i < |table| && table[i].name == name && column !in table[i].columns && name in current
    {
      LabelsToAddMembers(table, column, current, name);
      LabelsToRemoveMembers(table, column, current, name);
    }
  }

  function Removals(names: seq<string>): (calls: seq<LabelCall>)
    ensures |calls| == |names|
    ensures forall k :: 0 <= k < |names| ==> calls[k] == RemoveLabel(names[k])
  {
    seq(|names|, k requires 0 <= k < |names| => RemoveLabel(names[k]))
  }

  function Additions(names: seq<string>): (calls: seq<LabelCall>)
    ensures |calls| == |names|
    ensures forall k :: 0 <= k < |names| ==> calls[k] == AddLabel(names[k])
  {
    seq(|names|, k requires 0 <= k < |names| => AddLabel(names[k]))
  }

  function Elements(names: seq<string>): set<string>
  {
    set n | n in names
  }

  /** Sends every removal, then every addition. */
  method ApplyDelta(issue: TrackedIssue, toRemove: seq<string>, toAdd: seq<string>)
    modifies issue
    ensures issue.labels == (old(issue.labels) - Elements(toRemove)) + Elements(toAdd)
    ensures issue.calls == old(issue.calls) + Removals(toRemove) + Additions(toAdd)
  {
    var i := 0;
    while i < |toRemove|
      invariant 0 <= i <= |toRemove|
      invariant issue.labels == old(issue.labels) - Elements(toRemove[..i])
      invariant issue.calls == old(issue.calls) + Removals(toRemove[..i])
    {
      assert Elements(toRemove[..i + 1]) == Elements(toRemove[..i]) + {toRemove[i]} by {
        assert toRemove[..i + 1] == toRemove[..i] + [toRemove[i]];
      }
      issue.RemoveFromLabels(toRemove[i]);
      i := i + 1;
    }
    assert toRemove[..i] == toRemove;
    var j := 0;
    while j < |toAdd|
      invariant 0 <= j <= |toAdd|
      invariant issue.labels == (old(issue.labels) - Elements(toRemove)) + Elements(toAdd[..j])
      invariant issue.calls == old(issue.calls) + Removals(toRemove) + Additions(toAdd[..j])
    {
      assert Elements(toAdd[..j + 1]) == Elements(toAdd[..j]) + {toAdd[j]} by {
        assert toAdd[..j + 1] == toAdd[..j] + [toAdd[j]];
      }
      issue.AddToLabels(toAdd[j]);
      j := j + 1;
    }
    assert toAdd[..j] == toAdd;
  }

  /** The issue's labels once the delta is applied. */
  function LabelsAfterMove(table: seq<Stage>, column: int, current: set<string>): set<string>
  {
    (current - Elements(LabelsToRemove(table, column, current))) + Elements(LabelsToAdd(table, column, current))
  }

  predicate IsStageLabel(table: seq<Stage>, name: string)
  {
    exists i :: 0 <= i < |table| && table[i].name == name
  }

  /** After a move, the issue carries exactly the stage labels of the stages
      whose column list holds the destination column, and every other label
      is as it was. */
  lemma StageLabelsAfterMove(table: seq<Stage>, column: int, current: set<string>)
    requires WellFormedStages(table)
    ensures forall i :: 0 <= i < |table| ==>
      (table[i].name in LabelsAfterMove(table, column, current) <==> column in table[i].columns)
    ensures forall name :: !IsStageLabel(table, name) ==>
      (name in LabelsAfterMove(table, column, current) <==> name in current)
  {
    forall i | 0 <= i < |table|
      ensures table[i].name in LabelsAfterMove(table, column, current) <==> column in table[i].columns
    {
      var name := table[i].name;
      LabelsToAddMembers(table, column, current, name);
      LabelsToRemoveMembers(table, column, current, name);
      forall j | 0 <= j < |table| && table[j].name == name ensures j == i {
      }
    }
    forall name | !IsStageLabel(table, name)
      ensures name in LabelsAfterMove(table, column, current) <==> name in current
    {
      LabelsToAddMembers(table, column, current, name);
      LabelsToRemoveMembers(table, column, current, name);
    }
  }

  /** With no column shared between stages, a moved issue carries at most
      one stage label. */
  lemma AtMostOneStageLabel(table: seq<Stage>, column: int, current: set<string>)
    requires WellFormedStages(table)
    ensures forall i, j :: 0 <= i < j < |table| ==>
      !(table[i].name in LabelsAfterMove(table, column, current)
        && table[j].name in LabelsAfterMove(table, column, current))
  {
    StageLabelsAfterMove(table, column, current);
  }

  lemma BotStagesDisjoint(i: nat, j: nat)
    requires i < j < |BotLabelsColumns|
    ensures DisjointIds(BotLabelsColumns[i].columns, BotLabelsColumns[j].columns)
  {
  }

  /** No column id of the handler's table belongs to two stages, and the
      stage labels are distinct. */
  lemma BotLabelsColumnsWellFormed()
    ensures WellFormedStages(BotLabelsColumns)
  {
    forall i, j | 0 <= i < j < |BotLabelsColumns|
      ensures DisjointIds(BotLabelsColumns[i].columns, BotLabelsColumns[j].columns)
      ensures BotLabelsColumns[i].name != BotLabelsColumns[j].name
    {
      BotStagesDisjoint(i, j);
      assert BotLabelsColumns[i].name[3] != BotLabelsColumns[j].name[3];
    }
  }

  // ---------------------------------------------------------------- the request

  /** What the handler decides to do with a request, before touching any issue. */
  datatype Decision = Reject(status: int) | Ignore | Relabel(number: int, column: int)

  /** The gates of the handler, in their order: payload (400), signature
      (403), action, the card's keys, trailing issue number in the content
      URL, blacklist. A missing key raises a KeyError, which Flask answers
      with 500. */
  function Decide(payload: Option<Payload>, signature: string, hexDigest: string): (d: Decision)
    ensures payload.None? <==> d == Reject(400)
    ensures d == Reject(403) <==> payload.Some? && signature != "sha1=" + hexDigest
    ensures d == Reject(500) <==>
      && payload.Some?
      && signature == "sha1=" + hexDigest
      && (payload.value.action.None? || (payload.value.action == Some("moved") && !HasCardFields(payload.value)))
    ensures d.Reject? ==> d.status == 400 || d.status == 403 || d.status == 500
    ensures d.Relabel? <==>
      && payload.Some?
      && signature == "sha1=" + hexDigest
      && payload.value.action == Some("moved")
      && HasCardFields(payload.value)
      && Text.TrailingNumber(payload.value.projectCard.value.contentUrl.value).Some?
      && Text.TrailingNumber(payload.value.projectCard.value.contentUrl.value).value != 1
    ensures d.Relabel? ==>
      && d.number == Text.TrailingNumber(payload.value.projectCard.value.contentUrl.value).value
      && d.column == payload.value.projectCard.value.columnId.value
  {
    if payload.None? then Reject(400)
    else if signature != "sha1=" + hexDigest then Reject(403)
    else if payload.value.action.None? then Reject(500)
    else if payload.value.action.value != "moved" then Ignore
    else if !HasCardFields(payload.value) then Reject(500)
    else
      var card := payload.value.projectCard.value;
      match Text.TrailingNumber(card.contentUrl.value)
      case None => Ignore
      case Some(n) => if n in Blacklist then Ignore else Relabel(n, card.columnId.value)
  }

  /** The status the handler answers with: 500 when the issue cannot be
      fetched (the tracker's exception escapes the handler). */
  function StatusOf(d: Decision, known: set<int>): int
  {
    match d
    case Reject(s) => s
    case Ignore => 200
    case Relabel(n, _) => if n in known then 200 else 500
  }

  /** `labellize`. `hexDigest` is the HMAC-SHA1 hex digest of the raw body
      under the shared secret; `issues` is the tracker, by issue number. */
  method Labellize(payload: Option<Payload>, signature: string, hexDigest: string, issues: map<int, TrackedIssue>)
    returns (status: int)
    requires forall n :: n in issues ==> issues[n].number == n
    modifies issues.Values
    ensures status == StatusOf(Decide(payload, signature, hexDigest), issues.Keys)
    ensures var d := Decide(payload, signature, hexDigest);
      forall n :: n in issues && !(d.Relabel? && d.number == n) ==> unchanged(issues[n])
    ensures forall n, column :: n in issues && Decide(payload, signature, hexDigest) == Relabel(n, column) ==>
      && issues[n].labels == LabelsAfterMove(BotLabelsColumns, column, old(issues[n].labels))
      && issues[n].calls == old(issues[n].calls)
           + Removals(LabelsToRemove(BotLabelsColumns, column, old(issues[n].labels)))
           + Additions(LabelsToAdd(BotLabelsColumns, column, old(issues[n].labels)))
  {
    if payload.None? {
      return 400;
    }
    if signature != "sha1=" + hexDigest {
      return 403;
    }
    if payload.value.action.None? {
      return 500;
    }
    if payload.value.action.value == "moved" {
      if !HasCardFields(payload.value) {
        return 500;
      }
      var card := payload.value.projectCard.value;
      var m := Text.TrailingNumber(card.contentUrl.value);
      if m.None? {
        return 200;
      }
      var number := m.value;
      if number in Blacklist {
        return 200;
      }
      if number !in issues {
        return 500;
      }
      var issue := issues[number];
      var toAdd, toRemove := ComputeDelta(BotLabelsColumns, card.columnId.value, issue.labels);
      ApplyDelta(issue, toRemove, toAdd);
    }
    return 200;
  }
}
