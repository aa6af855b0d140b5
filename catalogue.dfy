/** The challenge catalogue and the pure decisions made about it: which file
    name the code widget gets for a language, which starter code a challenge
    offers, how the question list groups challenges by level while keeping
    their positions in the catalogue, and how each question button is
    styled. */
module Catalogue {

  datatype TestCase = TestCase(stdin: string, stdout: string)

  /** A challenge's starter code is either one text per language or a single
      text for every language. */
  datatype Starter = PerLanguage(byLanguage: map<string, string>) | Single(text: string)

  datatype Challenge = Challenge(
    id: string,
    title: string,
    description: string,
    level: string,
    starterCode: Starter,
    testCases: seq<TestCase>)

  /** A challenge as the question list holds it: with its catalogue index. */
  datatype Entry = Entry(challenge: Challenge, originalIndex: nat)

  const LanguageFiles: map<string, string> := map[
    "python" := "main.py",
    "javascript" := "index.js",
    "java" := "Main.java",
    "c" := "main.c",
    "cpp" := "main.cpp",
    "csharp" := "HelloWorld.cs",
    "nodejs" := "index.js",
    "lua" := "main.lua",
    "r" := "main.r",
    "ruby" := "main.rb",
    "php" := "main.php"
  ]

  const DefaultFileName := "main.py"

  /** languageFiles[language] || "main.py". */
  function FileName(language: string): (name: string)
    ensures language in LanguageFiles ==> name == LanguageFiles[language]
    ensures language !in LanguageFiles ==> name == DefaultFileName
  {
    if language in LanguageFiles && LanguageFiles[language] != "" then LanguageFiles[language]
    else DefaultFileName
  }

  /** Only Python and the languages missing from the table get the default
      file name. */
  lemma FileNameDefaultOnlyForPython(language: string)
    ensures FileName(language) == DefaultFileName <==> language == "python" || language !in LanguageFiles
  {
    if language in LanguageFiles && language != "python" {
      assert LanguageFiles[language] != DefaultFileName;
    }
  }

  /** The starter code showQuestion loads: the language's own text (or ""
      when the language has none), or the single text for all languages. */
  function StarterFor(starter: Starter, language: string): (code: string)
    ensures starter.Single? ==> code == starter.text
    ensures starter.PerLanguage? && language in starter.byLanguage ==> code == starter.byLanguage[language]
    ensures starter.PerLanguage? && language !in starter.byLanguage ==> code == ""
  {
    match starter
    case PerLanguage(m) => if language in m then m[language] else ""
    case Single(text) => text
  }

  /** There is no fallback to the Python starter: a language missing from a
      per-language starter gets "", even when Python has non-empty starter
      code, and so the two differ. */
  lemma NoPythonFallback(byLanguage: map<string, string>, language: string)
    requires language !in byLanguage && "python" in byLanguage && byLanguage["python"] != ""
    ensures StarterFor(PerLanguage(byLanguage), language) == ""
    ensures StarterFor(PerLanguage(byLanguage), language) != StarterFor(PerLanguage(byLanguage), "python")
  {
  }

  /** The levels the question list shows: easy, normal and hard, in that
      order. */
  predicate IsShownLevel(level: string) {
    level == "easy" || level == "normal" || level == "hard"
  }

  /** The challenges of one level, in catalogue order, each with its index. */
  function LevelGroup(cs: seq<Challenge>, level: string): seq<Entry>
    decreases |cs|
  {
    if cs == [] then []
    else
      var rest := LevelGroup(cs[..|cs| - 1], level);
      var last := cs[|cs| - 1];
      if last.level == level then rest + [Entry(last, |cs| - 1)] else rest
  }

  /** Every entry of g is the challenge at its index in cs and has the level. */
  predicate EntriesOf(cs: seq<Challenge>, level: string, g: seq<Entry>) {
    forall k :: 0 <= k < |g| ==>
      g[k].originalIndex < |cs| && g[k].challenge == cs[g[k].originalIndex] && g[k].challenge.level == level
  }

  /** The indices of g strictly increase. */
  predicate IncreasingIndices(g: seq<Entry>) {
    forall k, l :: 0 <= k < l < |g| ==> g[k].originalIndex < g[l].originalIndex
  }

  /** Every entry of a level's group is the challenge at its index and has
      that level, and the indices strictly increase. */
  lemma {:induction false} LevelGroupSound(cs: seq<Challenge>, level: string)
    ensures EntriesOf(cs, level, LevelGroup(cs, level))
    ensures IncreasingIndices(LevelGroup(cs, level))
    decreases |cs|
  {
    if cs != [] {
      var init := cs[..|cs| - 1];
      LevelGroupSound(init, level);
      var rest := LevelGroup(init, level);
      if cs[|cs| - 1].level == level {
        var g := rest + [Entry(cs[|cs| - 1], |cs| - 1)];
        assert forall k :: 0 <= k < |rest| ==> g[k] == rest[k];
      }
    }
  }

  /** Every challenge of the level is in its group. */
  lemma {:induction false} LevelGroupComplete(cs: seq<Challenge>, level: string, i: nat)
    requires i < |cs| && cs[i].level == level
    ensures exists k :: 0 <= k < |LevelGroup(cs, level)| && LevelGroup(cs, level)[k].originalIndex == i
    decreases |cs|
  {
    var g := LevelGroup(cs, level);
    var rest := LevelGroup(cs[..|cs| - 1], level);
    if i == |cs| - 1 {
      assert g[|rest|].originalIndex == i;
    } else {
      LevelGroupComplete(cs[..|cs| - 1], level, i);
      var k :| 0 <= k < |rest| && rest[k].originalIndex == i;
      assert g[k] == rest[k];
    }
  }

  /** The grouping loop of initQuestionList: one pass over the catalogue,
      appending each challenge whose level is easy, normal or hard to that
      level's list; other levels are skipped. */
  method GroupByLevel(cs: seq<Challenge>) returns (easy: seq<Entry>, normal: seq<Entry>, hard: seq<Entry>)
    ensures easy == LevelGroup(cs, "easy")
    ensures normal == LevelGroup(cs, "normal")
    ensures hard == LevelGroup(cs, "hard")
  {
    easy, normal, hard := [], [], [];
    var i := 0;
    while i < |cs|
      invariant i <= |cs|
      invariant easy == LevelGroup(cs[..i], "easy")
      invariant normal == LevelGroup(cs[..i], "normal")
      invariant hard == LevelGroup(cs[..i], "hard")
    {
      var c := cs[i];
      assert cs[..i + 1][..i] == cs[..i];
      if c.level == "easy" {
        easy := easy + [Entry(c, i)];
      } else if c.level == "normal" {
        normal := normal + [Entry(c, i)];
      } else if c.level == "hard" {
        hard := hard + [Entry(c, i)];
      }
      i := i + 1;
    }
    assert cs[..|cs|] == cs;
  }

  /** The question buttons in the order initQuestionList renders them. */
  function QuestionButtons(cs: seq<Challenge>): seq<Entry> {
    LevelGroup(cs, "easy") + LevelGroup(cs, "normal") + LevelGroup(cs, "hard")
  }

  /** The button at position k of the list, read from the group it lies in. */
  lemma ButtonAt(cs: seq<Challenge>, k: nat)
    requires k < |QuestionButtons(cs)|
    ensures var b, e, n := QuestionButtons(cs), LevelGroup(cs, "easy"), LevelGroup(cs, "normal");
      && (k < |e| ==> b[k] == e[k])
      && (|e| <= k < |e| + |n| ==> b[k] == n[k - |e|])
      && (|e| + |n| <= k ==> b[k] == LevelGroup(cs, "hard")[k - |e| - |n|])
  {
  }

  /** Every button stands for the challenge at its index, and that
      challenge's level is one of the three shown. */
  lemma QuestionButtonsSound(cs: seq<Challenge>, k: nat)
    requires k < |QuestionButtons(cs)|
    ensures var b := QuestionButtons(cs)[k];
      b.originalIndex < |cs| && b.challenge == cs[b.originalIndex] && IsShownLevel(b.challenge.level)
  {
    ButtonAt(cs, k);
    LevelGroupSound(cs, "easy");
    LevelGroupSound(cs, "normal");
    LevelGroupSound(cs, "hard");
  }

  /** Every challenge whose level is shown has a button. */
  lemma QuestionButtonsComplete(cs: seq<Challenge>, i: nat)
    requires i < |cs| && IsShownLevel(cs[i].level)
    ensures exists k :: 0 <= k < |QuestionButtons(cs)| && QuestionButtons(cs)[k].originalIndex == i
  {
    var e, n, h := LevelGroup(cs, "easy"), LevelGroup(cs, "normal"), LevelGroup(cs, "hard");
    var b := QuestionButtons(cs);
    if cs[i].level == "easy" {
      LevelGroupComplete(cs, "easy", i);
      var k :| 0 <= k < |e| && e[k].originalIndex == i;
      ButtonAt(cs, k);
    } else if cs[i].level == "normal" {
      LevelGroupComplete(cs, "normal", i);
      var k :| 0 <= k < |n| && n[k].originalIndex == i;
      ButtonAt(cs, |e| + k);
    } else {
      LevelGroupComplete(cs, "hard", i);
      var k :| 0 <= k < |h| && h[k].originalIndex == i;
      ButtonAt(cs, |e| + |n| + k);
    }
  }

  /** No two buttons stand for the same challenge: within a level the
      indices increase, and across levels the challenges differ in level. */
  lemma QuestionButtonsDistinct(cs: seq<Challenge>, k: nat, l: nat)
    requires k < l < |QuestionButtons(cs)|
    ensures QuestionButtons(cs)[k].originalIndex != QuestionButtons(cs)[l].originalIndex
  {
    ButtonAt(cs, k);
    ButtonAt(cs, l);
    LevelGroupSound(cs, "easy");
    LevelGroupSound(cs, "normal");
    LevelGroupSound(cs, "hard");
  }

  /** How updateQuestionList styles a button. */
  datatype Status = Active | Completed | Plain

  /** The button of the current question is active, even when that question
      is completed; other completed questions show as completed. */
  function ButtonStatus(index: nat, current: nat, completed: set<nat>): (s: Status)
    ensures s == Active <==> index == current
    ensures s == Completed <==> index != current && index in completed
  {
    if index == current then Active
    else if index in completed then Completed
    else Plain
  }

  /** The styles of all buttons, in rendering order. */
  function Statuses(buttons: seq<Entry>, current: nat, completed: set<nat>): (ss: seq<Status>)
    ensures |ss| == |buttons|
    ensures forall k :: 0 <= k < |ss| ==> ss[k] == ButtonStatus(buttons[k].originalIndex, current, completed)
  {
    seq(|buttons|, k requires 0 <= k < |buttons| => ButtonStatus(buttons[k].originalIndex, current, completed))
  }

  /** At most one question button is active, and one is exactly when the
      current question's level is shown. */
  lemma OneActiveButton(cs: seq<Challenge>, current: nat, completed: set<nat>)
    requires current < |cs|
    ensures var ss := Statuses(QuestionButtons(cs), current, completed);
      forall k, l :: 0 <= k < l < |ss| ==> !(ss[k] == Active && ss[l] == Active)
    ensures var ss := Statuses(QuestionButtons(cs), current, completed);
      (exists k :: 0 <= k < |ss| && ss[k] == Active) <==> IsShownLevel(cs[current].level)
  {
    var b := QuestionButtons(cs);
    var ss := Statuses(b, current, completed);
    forall k, l | 0 <= k < l < |ss| ensures !(ss[k] == Active && ss[l] == Active) {
      QuestionButtonsDistinct(cs, k, l);
    }
    if IsShownLevel(cs[current].level) {
      QuestionButtonsComplete(cs, current);
      var k :| 0 <= k < |b| && b[k].originalIndex == current;
      assert ss[k] == Active;
    } else {
      forall k | 0 <= k < |ss| ensures ss[k] != Active {
        QuestionButtonsSound(cs, k);
      }
    }
  }
}
