/** lib/github.py: the static configuration of the subtitling board (five
    workflow stages, each with one column per language) and of the supported
    languages, plus the read-only view of an issue that the scripts fetch
    from the tracker. */
module GithubConfig {
  import Text
  import Wrappers

  /** One workflow stage: its label and the board column of each language. */
  datatype Stage = Stage(name: string, columns: seq<int>)

  /** Which issue body template a language uses. */
  datatype Template = French | English | German | Portuguese | Chinese

  /** One supported language: short code, language label, the decimal id of
      its stage-0 column, and its issue body template. */
  datatype Language = Language(short: string, labelName: string, column: string, template: Template)

  /** An issue as listed by the tracker (`repo.get_issues()`). `id` is the
      tracker-wide id used by cards, `number` the per-repository number.
      An issue opened with no description has a null `body`: `None`. */
  datatype Issue = Issue(id: int, number: int, title: string, body: Wrappers.Option<string>, labels: seq<string>)

  const Repository: string := "jlm2017/jlm-video-subtitles"

  /** `LABELS_COLUMNS`, columns in the order fr, en, de, pt, zh. */
  const LabelsColumns: seq<Stage> := [
    Stage("\U{2699} [0] Awaiting subtitles", [910796, 387590, 654910, 654905, 654911]),
    Stage("\U{2699} [1] Writing in progress", [398412, 387592, 654907, 654906, 654908]),
    Stage("\U{2699} [2] First review", [398414, 654829, 654913, 654912, 654914]),
    Stage("\U{2699} [3] Second review", [398416, 387597, 654916, 654915, 654917]),
    Stage("\U{2699} [4] Approved", [398417, 390130, 654919, 654918, 654920])
  ]

  /** The text of each template: a `str.format` pattern over `video`. */
  function TemplateText(t: Template): string
  {
    match t
    case French =>
      "\n"
      + "## {video.title}\n"
      + "\n"
      + "&nbsp;          | Info\n"
      + "--------------- | ---------------\n"
      + "**Date**        | {video.day_fr}\n"
      + "**Dur\U{E9}e**       | {video.duration} :clock7:\n"
      + "**Langue**      | Fran\U{E7}ais :fr:\n"
      + "**Vid\U{E9}o**       | [Voir dans YouTube :arrow_upper_right:](https://www.youtube.com/watch?v={video.yid})\n"
      + "**Sous-titres** | [\U{C9}diter dans YouTube :arrow_upper_right:](https://www.youtube.com/timedtext_editor?v={video.yid}&tab=captions&bl=vmp&action_mde_edit_form=1&lang=fr&ui=hd)\n"
    case English =>
      "\n"
      + "## {video.title}\n"
      + "\n"
      + "&nbsp;        | Info\n"
      + "------------- | -------------\n"
      + "**Date**      | {video.day_en}\n"
      + "**Duration**  | {video.duration} :clock7:\n"
      + "**Language**  | English :gb:\n"
      + "**Video**     | [See it on YouTube :arrow_upper_right:](https://www.youtube.com/watch?v={video.yid})\n"
      + "**Subtitles** | [Edit them in YouTube :arrow_upper_right:](https://www.youtube.com/timedtext_editor?v={video.yid}&tab=captions&bl=vmp&action_mde_edit_form=1&lang=en&ui=hd)\n"
    case German =>
      "\n"
      + "## {video.title}\n"
      + "\n"
      + "&nbsp;         | Info\n"
      + "-------------- | -------------\n"
      + "**Datum**      | {video.day_en}\n"
      + "**Dauer**      | {video.duration} :clock7:\n"
      + "**Sprache**    | Deutsche :de:\n"
      + "**Video**      | [See it on YouTube :arrow_upper_right:](https://www.youtube.com/watch?v={video.yid})\n"
      + "**Untertitel** | [Edit them in YouTube :arrow_upper_right:](https://www.youtube.com/timedtext_editor?v={video.yid}&tab=captions&bl=vmp&action_mde_edit_form=1&lang=de&ui=hd)\n"
    case Portuguese =>
      "\n"
      + "## {video.title}\n"
      + "\n"
      + "&nbsp;         | Info\n"
      + "-------------- | -------------\n"
      + "**Datum**      | {video.day_en}\n"
      + "**Dauer**      | {video.duration} :clock7:\n"
      + "**Sprache**    | Portugu\U{EA}s :pt:\n"
      + "**Video**      | [See it on YouTube :arrow_upper_right:](https://www.youtube.com/watch?v={video.yid})\n"
      + "**Untertitel** | [Edit them in YouTube :arrow_upper_right:](https://www.youtube.com/timedtext_editor?v={video.yid}&tab=captions&bl=vmp&action_mde_edit_form=1&lang=pt&ui=hd)\n"
    case Chinese =>
      "\n"
      + "## {video.title}\n"
      + "\n"
      + "&nbsp;        | Info\n"
      + "------------- | -------------\n"
      + "**Date**      | {video.day_en}\n"
      + "**Duration**  | {video.duration} :clock7:\n"
      + "**Language**  | \U{4E2D}\U{56FD} :cn:\n"
      + "**Video**     | [See it on YouTube :arrow_upper_right:](https://www.youtube.com/watch?v={video.yid})\n"
      + "**Subtitles** | [Edit them in YouTube :arrow_upper_right:](https://www.youtube.com/timedtext_editor?v={video.yid}&tab=captions&bl=vmp&action_mde_edit_form=1&lang=zh&ui=hd)\n"
  }

  /** `LANGUAGES`. */
  const Languages: seq<Language> := [
    Language("fr", "\U{2691} Fran\U{E7}ais", "910796", French),
    Language("en", "\U{2691} English", "387590", English),
    Language("de", "\U{2691} Deutsche", "654910", German),
    Language("pt", "\U{2691} Portugu\U{EA}s", "654905", Portuguese),
    Language("zh", "\U{2691} Chinese", "654911", Chinese)
  ]

  /** The short codes in column order. */
  const ColumnOrder: seq<string> := ["fr", "en", "de", "pt", "zh"]

  /** A stage table the label-delta logic can rely on: distinct labels, and
      no column shared by two stages. */
  predicate WellFormedStages(table: seq<Stage>)
  {
    && (forall i, j :: 0 <= i < j < |table| ==> table[i].name != table[j].name)
    && (forall i, j, c :: 0 <= i < j < |table| && c in table[i].columns ==> c !in table[j].columns)
  }

  /** Five stages, [0] to [4] in order, each with exactly five columns. */
  lemma LabelsColumnsShape()
    ensures |LabelsColumns| == 5
    ensures forall i :: 0 <= i < 5 ==> |LabelsColumns[i].columns| == |ColumnOrder|
    ensures forall i :: 0 <= i < 5 ==> LabelsColumns[i].name[..5] == "\U{2699} [" + [Text.DigitChar(i)] + "]"
  {
  }

  predicate DistinctIds(a: seq<int>) {
    forall x, y :: 0 <= x < y < |a| ==> a[x] != a[y]
  }

  predicate DisjointIds(a: seq<int>, b: seq<int>) {
    forall x, y :: 0 <= x < |a| && 0 <= y < |b| ==> a[x] != b[y]
  }

  lemma StageColumnsDistinct()
    ensures forall i :: 0 <= i < |LabelsColumns| ==> DistinctIds(LabelsColumns[i].columns)
  {
  }

  lemma StagesDisjoint(i: nat, j: nat)
    requires i < j < |LabelsColumns|
    ensures DisjointIds(LabelsColumns[i].columns, LabelsColumns[j].columns)
  {
  }

  /** All 25 column ids are pairwise distinct (within a stage and across
      stages), so `LABELS_COLUMNS` is a well-formed stage table. */
  lemma LabelsColumnsDistinct()
    ensures forall i, j :: 0 <= i < j < |LabelsColumns| ==>
      DisjointIds(LabelsColumns[i].columns, LabelsColumns[j].columns)
    ensures forall i :: 0 <= i < |LabelsColumns| ==> DistinctIds(LabelsColumns[i].columns)
    ensures WellFormedStages(LabelsColumns)
  {
    StageColumnsDistinct();
    forall i, j | 0 <= i < j < |LabelsColumns|
      ensures DisjointIds(LabelsColumns[i].columns, LabelsColumns[j].columns)
    {
      StagesDisjoint(i, j);
    }
  }

  /** `LANGUAGES` lists fr, en, de, pt, zh in the column order, and its
      short codes and labels are pairwise distinct. */
  lemma LanguagesShape()
    ensures |Languages| == |ColumnOrder|
    ensures forall i :: 0 <= i < |Languages| ==> Languages[i].short == ColumnOrder[i]
    ensures forall i, j :: 0 <= i < j < |Languages| ==> Languages[i].short != Languages[j].short
    ensures forall i, j :: 0 <= i < j < |Languages| ==> Languages[i].labelName != Languages[j].labelName
  {
  }

  lemma DecimalFr() ensures Text.Decimal(910796) == "910796" {}
  lemma DecimalEn() ensures Text.Decimal(387590) == "387590" {}
  lemma DecimalDe() ensures Text.Decimal(654910) == "654910" {}
  lemma DecimalPt() ensures Text.Decimal(654905) == "654905" {}
  lemma DecimalZh() ensures Text.Decimal(654911) == "654911" {}

  /** Each language's `column` is the decimal form of its stage-0 column id. */
  lemma LanguageColumnsAreStageZero()
    ensures forall i :: 0 <= i < |Languages| ==>
      Languages[i].column == Text.Decimal(LabelsColumns[0].columns[i])
  {
    forall i | 0 <= i < |Languages|
      ensures Languages[i].column == Text.Decimal(LabelsColumns[0].columns[i])
    {
      if i == 0 { DecimalFr(); }
      else if i == 1 { DecimalEn(); }
      else if i == 2 { DecimalDe(); }
      else if i == 3 { DecimalPt(); }
      else { DecimalZh(); }
    }
  }
}
