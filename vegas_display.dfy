/** Terminal presentation of the health scores: letter grades, the 20-cell
    bars and the per-indicator lines. Colours and fixed-width number
    formatting are presentation only and are not part of the model. */
module VegasDisplay {
  import opened Common
  import opened VegasScoring

  datatype Grade = A | B | C | D | F | Unknown

  /** Letter grade of a score, `Unknown` ("?") for a missing one. */
  function GradeOf(score: Option<real>): (g: Grade)
    ensures g == Unknown <==> score.None?
    ensures g == A <==> score.Some? && score.value >= 90.0
    ensures g == B <==> score.Some? && 75.0 <= score.value < 90.0
    ensures g == C <==> score.Some? && 60.0 <= score.value < 75.0
    ensures g == D <==> score.Some? && 40.0 <= score.value < 60.0
    ensures g == F <==> score.Some? && score.value < 40.0
  {
    match score
    case None => Unknown
    case Some(s) =>
      if s >= 90.0 then A
      else if s >= 75.0 then B
      else if s >= 60.0 then C
      else if s >= 40.0 then D
      else F
  }

  /** The printed legend: each letter with the least score that earns it
      ("A(90+) B(75+) C(60+) D(40+) F(<40)"). */
  function LegendFloor(g: Grade): Option<real> {
    match g
    case A => Some(90.0)
    case B => Some(75.0)
    case C => Some(60.0)
    case D => Some(40.0)
    case _ => None
  }

  function Rank(g: Grade): nat {
    match g
    case A => 5
    case B => 4
    case C => 3
    case D => 2
    case F => 1
    case Unknown => 0
  }

  /** A score earns a letter exactly when it reaches the legend's floor for
      that letter (F has none) and not the floor of the next better one. */
  lemma GradeMatchesLegend(s: real, g: Grade)
    requires g != Unknown
    ensures GradeOf(Some(s)) == g <==>
      (LegendFloor(g).None? || LegendFloor(g).value <= s) &&
      (g == A || s < LegendFloor(Better(g)).value)
  {
  }

  function Better(g: Grade): Grade {
    match g
    case B => A
    case C => B
    case D => C
    case F => D
    case _ => g
  }

  /** A higher score never gets a worse letter. */
  lemma GradeMonotone(s: real, t: real)
    requires s <= t
    ensures Rank(GradeOf(Some(s))) <= Rank(GradeOf(Some(t)))
  {
  }

  /** Python's `round(x)`: the nearest integer, ties to the even one. */
  function RoundHalfEven(x: real): (r: int)
    ensures -0.5 <= r as real - x <= 0.5
    ensures r as real - x == 0.5 || x - r as real == 0.5 ==> r % 2 == 0
  {
    var f := x.Floor;
    var d := x - f as real;
    if d < 0.5 then f
    else if d > 0.5 then f + 1
    else if f % 2 == 0 then f else f + 1
  }

  /** Rounding to the nearest integer is monotone. */
  lemma RoundMonotone(x: real, y: real)
    requires x <= y
    ensures RoundHalfEven(x) <= RoundHalfEven(y)
  {
  }

  lemma RoundWithin(x: real)
    ensures 0.0 <= x <= 20.0 ==> 0 <= RoundHalfEven(x) <= 20
  {
    if 0.0 <= x <= 20.0 {
      RoundMonotone(0.0, x);
      RoundMonotone(x, 20.0);
    }
  }

  /** Filled cells of a 20-cell bar: one per 5 points, rounded. */
  function Filled(score: real): (n: int)
    ensures 0.0 <= score <= 100.0 ==> 0 <= n <= 20
    ensures -2.5 <= (n as real) * 5.0 - score <= 2.5
  {
    RoundWithin(score / 5.0);
    RoundHalfEven(score / 5.0)
  }

  const FullCell: char := '█'
  const EmptyCell: char := '░'

  /** `_mini_bar`: filled cells then empty ones, all empty for a missing score. */
  function MiniBar(score: Option<real>): (bar: string)
    ensures score.None? ==> bar == Repeat(EmptyCell, 20)
    ensures score.Some? && 0.0 <= score.value <= 100.0 ==>
      var n := Filled(score.value);
      |bar| == 20 &&
      (forall i :: 0 <= i < n ==> bar[i] == FullCell) &&
      (forall i :: n <= i < 20 ==> bar[i] == EmptyCell)
  {
    match score
    case None => Repeat(EmptyCell, 20)
    case Some(s) => Repeat(FullCell, Filled(s)) + Repeat(EmptyCell, 20 - Filled(s))
  }

  /** The indicator's display name: underscores become spaces, then title case. */
  function DisplayName(key: string): (name: string)
    ensures |name| == |key|
  {
    TitleCase(ReplaceUnderscores(key), false)
  }

  predicate SnakeCase(key: string) {
    forall i :: 0 <= i < |key| ==> 'a' <= key[i] <= 'z' || key[i] == '_'
  }

  /** For a lower-case snake_case key, the name capitalises the first
      letter of every word and turns each underscore into a space. */
  lemma DisplayNameOfSnakeCase(key: string)
    requires SnakeCase(key)
    ensures forall i :: 0 <= i < |key| ==>
      DisplayName(key)[i] ==
        if key[i] == '_' then ' '
        else if i == 0 || key[i - 1] == '_' then UpperChar(key[i])
        else key[i]
  {
    TitleCaseWords(ReplaceUnderscores(key), false);
  }

  lemma {:induction false} TitleCaseWords(s: string, afterLetter: bool)
    requires forall i :: 0 <= i < |s| ==> 'a' <= s[i] <= 'z' || s[i] == ' '
    ensures forall i :: 0 <= i < |s| ==>
      TitleCase(s, afterLetter)[i] ==
        if s[i] == ' ' then ' '
        else if (i == 0 && !afterLetter) || (i > 0 && s[i - 1] == ' ') then UpperChar(s[i])
        else s[i]
  {
    if s != [] {
      var c := s[0];
      TitleCaseWords(s[1..], c != ' ');
      var r := TitleCase(s, afterLetter);
      assert r[1..] == TitleCase(s[1..], c != ' ');
      forall i | 0 <= i < |s|
        ensures r[i] == if s[i] == ' ' then ' '
                        else if (i == 0 && !afterLetter) || (i > 0 && s[i - 1] == ' ') then UpperChar(s[i])
                        else s[i]
      {
        if i == 0 {
          assert r[0] == if c == ' ' then ' ' else if !afterLetter then UpperChar(c) else c;
        } else {
          assert r[i] == r[1..][i - 1];
          assert s[1..][i - 1] == s[i];
          if i > 1 {
            assert s[1..][i - 2] == s[i - 1];
          }
        }
      }
    }
  }

  /** One printed indicator line: the name, the bar, and the grade, or
      "N/A" and no grade for an unscored indicator. */
  datatype Line = Line(name: string, bar: string, grade: Option<Grade>, caption: Label)

  function LineOf(key: string, e: ScoreEntry): (line: Line)
    ensures line.name == DisplayName(key) && line.caption == e.caption
    ensures e.score.None? ==> line.bar == Repeat(EmptyCell, 20) + " N/A" && line.grade.None?
    ensures e.score.Some? ==> line.bar == MiniBar(e.score) && line.grade == Some(GradeOf(e.score))
  {
    match e.score
    case None => Line(DisplayName(key), Repeat(EmptyCell, 20) + " N/A", None, e.caption)
    case Some(_) => Line(DisplayName(key), MiniBar(e.score), Some(GradeOf(e.score)), e.caption)
  }

  /** The lines of a score table: every key except "overall", in order. */
  function ScoreLines(items: seq<(string, ScoreEntry)>): (lines: seq<Line>)
    ensures |lines| <= |items|
  {
    if items == [] then []
    else if items[0].0 == "overall" then ScoreLines(items[1..])
    else [LineOf(items[0].0, items[0].1)] + ScoreLines(items[1..])
  }

  function NonOverall(items: seq<(string, ScoreEntry)>): seq<(string, ScoreEntry)> {
    if items == [] then []
    else (if items[0].0 == "overall" then [] else [items[0]]) + NonOverall(items[1..])
  }

  /** One line per non-"overall" item, each line for its own item. */
  lemma {:induction false} ScoreLinesCoverItems(items: seq<(string, ScoreEntry)>)
    ensures |ScoreLines(items)| == |NonOverall(items)|
    ensures forall k :: 0 <= k < |ScoreLines(items)| ==>
      ScoreLines(items)[k] == LineOf(NonOverall(items)[k].0, NonOverall(items)[k].1)
    ensures forall k :: 0 <= k < |NonOverall(items)| ==> NonOverall(items)[k].0 != "overall"
  {
    if items != [] {
      ScoreLinesCoverItems(items[1..]);
    }
  }

  /** The grade shown beside a composite sub-score: "?" whenever the
      sub-score is falsy, which includes a score of exactly 0.0. */
  function SubGrade(score: Option<real>): (g: Grade)
    ensures g == Unknown <==> score.None? || score.value == 0.0
    ensures score.Some? && score.value != 0.0 ==> g == GradeOf(score)
  {
    if score.Some? && score.value != 0.0 then GradeOf(score) else Unknown
  }
}
