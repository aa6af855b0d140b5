/** The page's session state and its event handlers: starting a session,
    selecting and showing a question, running the active question's test
    cases one at a time through the code widget, receiving the widget's
    events, submitting and restarting.

    The widget is seen only through the requests posted to it (an
    append-only log) and the events it sends back (method calls carrying
    the reported output or the changed files). Each test case is one
    PopulateCode request followed by one TriggerRun request; the widget is
    expected to answer each with exactly one run-complete event. Nothing
    correlates an event with a request, so an extra event is scored against
    whatever case is current. */
module Runner {
  import opened Text
  import opened Scoring
  import opened Clock
  import opened Catalogue

  datatype Option<T> = None | Some(value: T)

  /** A message posted to the code widget. */
  datatype Request =
    | PopulateCode(language: string, fileName: string, code: string, stdin: string)
    | TriggerRun

  /** A file as the widget reports it in a code-change event. */
  datatype File = File(name: string, content: string)

  /** What the match label shows. */
  datatype MatchDisplay = Shown(score: Score, tier: Tier) | RunningTests

  /** The label at the end of a run: the pass rate, styled as full exactly
      when it is 100. */
  function Report(passes: nat, total: nat): (d: MatchDisplay)
    requires total == 0 ==> passes == 0
    ensures d.Shown? && d.score == FinalScore(passes, total)
    ensures d.tier == Full <==> d.score == Percent(100)
  {
    var score := FinalScore(passes, total);
    Shown(score, DisplayTier(score, score == Percent(100)))
  }

  /** The two requests that run one test case. */
  function CaseRequests(language: string, code: string, c: TestCase): seq<Request> {
    [PopulateCode(language, FileName(language), code, c.stdin), TriggerRun]
  }

  /** The requests of a whole run: every case, in queue order, loaded with
      the same code and then run. */
  function RunRequests(language: string, code: string, cases: seq<TestCase>): seq<Request>
    decreases |cases|
  {
    if cases == [] then []
    else RunRequests(language, code, cases[..|cases| - 1]) + CaseRequests(language, code, cases[|cases| - 1])
  }

  /** A run posts two requests per case: case k is loaded at position 2k
      with its stdin and run at position 2k + 1. */
  lemma {:induction false} RunRequestsShape(language: string, code: string, cases: seq<TestCase>)
    ensures |RunRequests(language, code, cases)| == 2 * |cases|
    ensures forall k :: 0 <= k < |cases| ==>
      && RunRequests(language, code, cases)[2 * k] == PopulateCode(language, FileName(language), code, cases[k].stdin)
      && RunRequests(language, code, cases)[2 * k + 1] == TriggerRun
    decreases |cases|
  {
    if cases != [] {
      var init := cases[..|cases| - 1];
      RunRequestsShape(language, code, init);
      var rest := RunRequests(language, code, init);
      var rs := rest + CaseRequests(language, code, cases[|cases| - 1]);
      forall k | 0 <= k < |cases|
        ensures rs[2 * k] == PopulateCode(language, FileName(language), code, cases[k].stdin)
        ensures rs[2 * k + 1] == TriggerRun
      {
        if k < |init| {
          assert rs[2 * k] == rest[2 * k] && rs[2 * k + 1] == rest[2 * k + 1];
          assert init[k] == cases[k];
        }
      }
    }
  }

  /** The request showQuestion posts to load the starter code, with the first
      case's stdin; a challenge without test cases gets none, as the deferred
      post fails on the missing case. */
  function StarterLoad(language: string, code: string, cases: seq<TestCase>): seq<Request> {
    if cases == [] then [] else [PopulateCode(language, FileName(language), code, cases[0].stdin)]
  }

  /** How many of the outputs match their case's expected output. */
  function Passes(cases: seq<TestCase>, outputs: seq<string>): nat
    requires |outputs| == |cases|
    decreases |cases|
  {
    if cases == [] then 0
    else
      var m := |cases| - 1;
      Passes(cases[..m], outputs[..m]) + (if IsAnswerCorrect(outputs[m], cases[m].stdout) then 1 else 0)
  }

  /** Every output matches its case's expected output. */
  predicate AllMatch(cases: seq<TestCase>, outputs: seq<string>)
    requires |outputs| == |cases|
  {
    forall k :: 0 <= k < |cases| ==> IsAnswerCorrect(outputs[k], cases[k].stdout)
  }

  /** All outputs match exactly when all but the last do and the last does. */
  lemma AllMatchSplit(cases: seq<TestCase>, outputs: seq<string>)
    requires |outputs| == |cases| > 0
    ensures var m := |cases| - 1;
      AllMatch(cases, outputs) <==>
        AllMatch(cases[..m], outputs[..m]) && IsAnswerCorrect(outputs[m], cases[m].stdout)
  {
    var m := |cases| - 1;
    assert forall k :: 0 <= k < m ==> cases[..m][k] == cases[k] && outputs[..m][k] == outputs[k];
  }

  /** No more cases pass than there are, and all of them pass exactly when
      every output matches its case's expected output. */
  lemma {:induction false} PassesBound(cases: seq<TestCase>, outputs: seq<string>)
    requires |outputs| == |cases|
    ensures Passes(cases, outputs) <= |cases|
    ensures Passes(cases, outputs) == |cases| <==> AllMatch(cases, outputs)
    decreases |cases|
  {
    if cases != [] {
      var m := |cases| - 1;
      PassesBound(cases[..m], outputs[..m]);
      AllMatchSplit(cases, outputs);
    }
  }

  lemma AppendAssociates<T>(a: seq<T>, b: seq<T>, c: seq<T>)
    ensures (a + b) + c == a + (b + c)
  {
  }

  /** Answering one more case adds one to the count when its output matches. */
  lemma PassesStep(cases: seq<TestCase>, outputs: seq<string>, i: nat)
    requires i < |cases| == |outputs|
    ensures Passes(cases[..i + 1], outputs[..i + 1])
      == Passes(cases[..i], outputs[..i]) + (if IsAnswerCorrect(outputs[i], cases[i].stdout) then 1 else 0)
  {
    assert cases[..i + 1][..i] == cases[..i] && outputs[..i + 1][..i] == outputs[..i];
  }

  /** Posting one more case appends its two requests. */
  lemma RunRequestsStep(language: string, code: string, cases: seq<TestCase>, i: nat)
    requires i < |cases|
    ensures RunRequests(language, code, cases[..i + 1])
      == RunRequests(language, code, cases[..i]) + CaseRequests(language, code, cases[i])
  {
    assert cases[..i + 1][..i] == cases[..i];
  }

  /** A set of question indices below n holds n of them exactly when it
      holds all of them: the size test of the submit handler means that
      every question is completed. */
  lemma {:induction false} AllCompleted(n: nat, done: set<nat>)
    requires forall q :: q in done ==> q < n
    ensures |done| <= n
    ensures |done| == n <==> forall q: nat :: q < n ==> q in done
    decreases n
  {
    if n == 0 {
      assert done == {};
    } else if n - 1 in done {
      var rest := done - {n - 1};
      assert done == rest + {n - 1};
      AllCompleted(n - 1, rest);
      if forall q: nat :: q < n ==> q in done {
        forall q: nat | q < n - 1 ensures q in rest {
          assert q in done;
        }
      }
    } else {
      AllCompleted(n - 1, done);
      assert n - 1 !in done;
    }
  }

  /** The module-level state of the page. */
  class Session {
    /** The catalogue, as loaded at startup. */
    const challenges: seq<Challenge>
    /** The question buttons, in rendering order. */
    var buttons: seq<Entry>
    var currentLanguage: string
    var currentQuestion: nat
    var completedQuestions: set<nat>
    var currentOutput: string
    var hasRunCode: bool
    var isCorrect: bool
    var currentCode: string
    var currentTestCase: Option<TestCase>
    var testQueue: seq<TestCase>
    var currentTestIndex: nat
    var passCount: nat
    /** Whether startTime has been set. */
    var timerStarted: bool
    /** Whether the per-second display interval is active. */
    var timerRunning: bool
    var display: MatchDisplay
    var runEnabled: bool
    var submitEnabled: bool
    /** The final time shown on the completion screen, when it is shown. */
    var finalTime: Option<string>
    /** Every request posted to the code widget, oldest first. */
    var sent: seq<Request>

    ghost predicate Valid()
      reads this
    {
      // isCorrect is never set to true, so the handler's branch on it is dead
      && !isCorrect
      // question indices stay within the catalogue; an empty catalogue
      // still has question 0 as the current one
      && currentQuestion < Max(|challenges|, 1)
      && (forall q :: q in completedQuestions ==> q < Max(|challenges|, 1))
      // a current case comes from the current question's queue
      && (currentTestCase.Some? ==>
            && currentQuestion < |challenges|
            && testQueue == challenges[currentQuestion].testCases
            && |testQueue| > 0)
      && (|testQueue| == 0 ==> passCount == 0)
    }

    /** A case has been posted and its one answer is awaited. */
    ghost predicate Dispatched()
      reads this
    {
      && currentTestIndex < |testQueue|
      && currentTestCase == Some(testQueue[currentTestIndex])
      && passCount <= currentTestIndex
      && display == RunningTests && !runEnabled && !submitEnabled
    }

    /** Every case of the queue has been answered and the pass rate shown. */
    ghost predicate Reported()
      reads this
    {
      && currentTestIndex == |testQueue|
      && passCount <= currentTestIndex
      && display == Report(passCount, |testQueue|)
      && runEnabled && submitEnabled
    }

    /** What showQuestion leaves behind. */
    twostate predicate QuestionShown(index: nat)
      reads this
    {
      && index < |challenges|
      && currentQuestion == index
      && currentCode == StarterFor(challenges[index].starterCode, currentLanguage)
      && sent == old(sent) + StarterLoad(currentLanguage, currentCode, challenges[index].testCases)
      && display == Shown(Percent(0), NoMatch)
      && !hasRunCode && submitEnabled && !isCorrect && currentTestCase == None
    }

    /** The page after the catalogue has loaded. */
    constructor (catalogue: seq<Challenge>)
      ensures Valid() && challenges == catalogue && buttons == QuestionButtons(catalogue)
      ensures currentLanguage == "python" && currentQuestion == 0 && completedQuestions == {}
      ensures currentOutput == "" && !hasRunCode && currentCode == "" && currentTestCase == None
      ensures testQueue == [] && currentTestIndex == 0 && passCount == 0
      ensures !timerStarted && !timerRunning && runEnabled && submitEnabled
      ensures display == Shown(Percent(0), NoMatch) && finalTime == None && sent == []
    {
      challenges := catalogue;
      currentLanguage := "python";
      currentQuestion := 0;
      completedQuestions := {};
      currentOutput := "";
      hasRunCode := false;
      isCorrect := false;
      currentCode := "";
      currentTestCase := None;
      testQueue := [];
      currentTestIndex := 0;
      passCount := 0;
      timerStarted := false;
      timerRunning := false;
      display := Shown(Percent(0), NoMatch);
      runEnabled := true;
      submitEnabled := true;
      finalTime := None;
      sent := [];
      new;
      InitQuestionList();
    }

    /** initQuestionList, without the rendering: the buttons, grouped by level. */
    method InitQuestionList()
      modifies this`buttons
      ensures buttons == QuestionButtons(challenges)
    {
      var easy, normal, hard := GroupByLevel(challenges);
      buttons := easy + normal + hard;
    }

    /** The start button: take the chosen language, start the timer and show
        the first question. With an empty catalogue showing it fails, which
        ok reports. */
    method Start(language: string) returns (ok: bool)
      requires Valid()
      modifies this`currentLanguage, this`timerStarted, this`timerRunning, this`currentQuestion,
        this`currentCode, this`sent, this`display, this`hasRunCode, this`submitEnabled, this`isCorrect,
        this`currentTestCase
      ensures Valid()
      ensures currentLanguage == language && timerStarted && timerRunning
      ensures ok <==> |challenges| > 0
      ensures ok ==> QuestionShown(0)
      ensures !ok ==> unchanged(this`currentQuestion, this`currentCode, this`sent, this`display,
        this`hasRunCode, this`submitEnabled, this`currentTestCase)
    {
      currentLanguage := language;
      timerStarted, timerRunning := true, true;
      if |challenges| == 0 {
        return false;
      }
      ShowQuestion(0);
      ok := true;
    }

    /** showQuestion: make index the current question, load its starter code
        for the current language, and clear the run state of the page. */
    method ShowQuestion(index: nat)
      requires Valid() && index < |challenges|
      modifies this`currentQuestion, this`currentCode, this`sent, this`display, this`hasRunCode,
        this`submitEnabled, this`isCorrect, this`currentTestCase
      ensures Valid() && QuestionShown(index)
    {
      currentQuestion := index;
      var challenge := challenges[index];
      currentCode := StarterFor(challenge.starterCode, currentLanguage);
      var fileName := FileName(currentLanguage);
      if |challenge.testCases| > 0 {
        sent := sent + [PopulateCode(currentLanguage, fileName, currentCode, challenge.testCases[0].stdin)];
      }
      display := Shown(Percent(0), NoMatch);
      hasRunCode := false;
      submitEnabled := true;
      isCorrect := false;
      currentTestCase := None;
    }

    /** A click on a question button: a completed question cannot be
        reopened. Only challenges of a shown level have a button. */
    method Select(index: nat)
      requires Valid() && index < |challenges| && IsShownLevel(challenges[index].level)
      modifies this`currentQuestion, this`currentCode, this`sent, this`display, this`hasRunCode,
        this`submitEnabled, this`isCorrect, this`currentTestCase
      ensures Valid()
      ensures index in old(completedQuestions) ==> unchanged(this)
      ensures index !in old(completedQuestions) ==> QuestionShown(index)
    {
      if index !in completedQuestions {
        ShowQuestion(index);
      }
    }

    /** The run button (clickable only while enabled): queue the current
        question's test cases, reset the counters, disable both buttons and
        post the first case. With an empty catalogue there is no current
        challenge and the handler fails before changing anything. */
    method Run()
      requires Valid() && runEnabled
      modifies this`testQueue, this`currentTestIndex, this`passCount, this`display, this`submitEnabled,
        this`runEnabled, this`currentTestCase, this`sent
      ensures Valid()
      ensures old(currentQuestion) >= |challenges| ==> unchanged(this)
      ensures old(currentQuestion) < |challenges| ==>
        && testQueue == challenges[currentQuestion].testCases
        && currentTestIndex == 0 && passCount == 0
        && (testQueue != [] ==>
              && currentTestCase == Some(testQueue[0])
              && sent == old(sent) + CaseRequests(currentLanguage, currentCode, testQueue[0])
              && display == RunningTests && !runEnabled && !submitEnabled)
        && (testQueue == [] ==>
              && unchanged(this`currentTestCase, this`sent)
              && display == Shown(NaN, NoMatch) && runEnabled && submitEnabled)
        && (Dispatched() || Reported())
    {
      if currentQuestion >= |challenges| {
        return;
      }
      testQueue := challenges[currentQuestion].testCases;
      currentTestIndex := 0;
      passCount := 0;
      display := RunningTests;
      submitEnabled := false;
      runEnabled := false;
      RunNext(currentCode);
    }

    /** runNextTestCase: post the case at the index, or, once the index has
        passed the queue, show the pass rate and enable both buttons. The
        current case is left as it was in the second branch. */
    method RunNext(code: string)
      requires Valid()
      requires currentQuestion < |challenges| && testQueue == challenges[currentQuestion].testCases
      modifies this`currentTestCase, this`sent, this`display, this`submitEnabled, this`runEnabled
      ensures Valid()
      ensures currentTestIndex < |testQueue| ==>
        && currentTestCase == Some(testQueue[currentTestIndex])
        && sent == old(sent) + CaseRequests(currentLanguage, code, testQueue[currentTestIndex])
        && unchanged(this`display, this`runEnabled, this`submitEnabled)
      ensures currentTestIndex >= |testQueue| ==>
        && display == Report(passCount, |testQueue|) && runEnabled && submitEnabled
        && unchanged(this`currentTestCase, this`sent)
    {
      if currentTestIndex < |testQueue| {
        var c := testQueue[currentTestIndex];
        currentTestCase := Some(c);
        var fileName := FileName(currentLanguage);
        sent := sent + [PopulateCode(currentLanguage, fileName, code, c.stdin), TriggerRun];
      } else {
        display := Report(passCount, |testQueue|);
        submitEnabled := true;
        runEnabled := true;
      }
    }

    /** A run-complete event carrying the widget's output: record it, score
        it against the current case if there is one and move on to the next
        case; without a current case, show 0%. */
    method OnRunComplete(output: string)
      requires Valid()
      modifies this`currentOutput, this`hasRunCode, this`passCount, this`currentTestIndex,
        this`currentTestCase, this`sent, this`display, this`submitEnabled, this`runEnabled
      ensures Valid()
      ensures currentOutput == Trim(output) && hasRunCode
      ensures old(currentTestCase).None? ==>
        && display == Shown(Percent(0), NoMatch)
        && unchanged(this`currentTestIndex, this`passCount, this`currentTestCase, this`sent,
             this`runEnabled, this`submitEnabled)
      ensures old(currentTestCase).Some? ==>
        && passCount == old(passCount) + (if IsAnswerCorrect(output, old(currentTestCase).value.stdout) then 1 else 0)
        && currentTestIndex == old(currentTestIndex) + 1
        && (currentTestIndex < |testQueue| ==>
              && currentTestCase == Some(testQueue[currentTestIndex])
              && sent == old(sent) + CaseRequests(currentLanguage, currentCode, testQueue[currentTestIndex])
              && unchanged(this`display, this`runEnabled, this`submitEnabled))
        && (currentTestIndex >= |testQueue| ==>
              && display == Report(passCount, |testQueue|) && runEnabled && submitEnabled
              && unchanged(this`currentTestCase, this`sent))
      ensures old(Dispatched()) ==> Dispatched() || Reported()
    {
      currentOutput := Trim(output);
      hasRunCode := true;
      if currentTestCase.Some? {
        var expected := currentTestCase.value.stdout;
        IsAnswerCorrectReflexive(output, expected);
        if IsAnswerCorrect(currentOutput, expected) {
          passCount := passCount + 1;
        }
        currentTestIndex := currentTestIndex + 1;
        RunNext(currentCode);
      } else {
        display := Shown(Percent(0), DisplayTier(Percent(0), false));
      }
    }

    /** A code-change event: the first reported file becomes the current code. */
    method OnCodeUpdate(files: seq<File>)
      modifies this`currentCode
      ensures |files| > 0 ==> currentCode == files[0].content
      ensures |files| == 0 ==> currentCode == old(currentCode)
    {
      if |files| > 0 {
        currentCode := files[0].content;
      }
    }

    /** The submit button (clickable only while enabled): nothing happens
        before a run has reported; otherwise the current question is marked
        completed, and when every question is, the timer stops and the final
        time is shown. */
    method Submit(elapsed: nat)
      requires Valid() && submitEnabled
      modifies this`completedQuestions, this`timerRunning, this`finalTime
      ensures Valid()
      ensures !old(hasRunCode) ==> unchanged(this)
      ensures old(hasRunCode) ==>
        && completedQuestions == old(completedQuestions) + {currentQuestion}
        && (|completedQuestions| == |challenges| ==>
              !timerRunning && finalTime == Some(FinalTime(timerStarted, elapsed)))
        && (|completedQuestions| != |challenges| ==> unchanged(this`timerRunning, this`finalTime))
      ensures old(currentQuestion in completedQuestions) ==> completedQuestions == old(completedQuestions)
    {
      if !hasRunCode {
        return;
      }
      completedQuestions := completedQuestions + {currentQuestion};
      if |completedQuestions| == |challenges| {
        timerRunning := false;
        finalTime := Some(FinalTime(timerStarted, elapsed));
      }
    }

    /** The restart button: back to the start screen with no question
        completed. The pass count, the queue and its index, the timer's
        start and the match label are left as they were. */
    method Restart()
      requires Valid()
      modifies this`finalTime, this`currentQuestion, this`completedQuestions, this`currentOutput,
        this`hasRunCode, this`isCorrect, this`currentTestCase, this`buttons
      ensures Valid() && buttons == QuestionButtons(challenges)
      ensures finalTime == None && currentQuestion == 0 && completedQuestions == {}
      ensures currentOutput == "" && !hasRunCode && !isCorrect && currentTestCase == None
    {
      finalTime := None;
      currentQuestion := 0;
      completedQuestions := {};
      currentOutput := "";
      hasRunCode := false;
      isCorrect := false;
      currentTestCase := None;
      InitQuestionList();
    }
  }

  /** One whole run of question q, answered once per posted case with the
      given outputs: the requests posted are every case in queue order with
      the starter code, the pass count is the number of matching outputs,
      and the reported percentage is 100 exactly when every output matched
      (NaN when the question has no test cases). */
  method ScoreRun(catalogue: seq<Challenge>, language: string, q: nat, outputs: seq<string>)
    returns (score: Score, passes: nat, requests: seq<Request>)
    requires q < |catalogue| && IsShownLevel(catalogue[q].level)
    requires |outputs| == |catalogue[q].testCases|
    ensures passes == Passes(catalogue[q].testCases, outputs)
    ensures score == FinalScore(passes, |outputs|)
    ensures score == Percent(100) <==> |outputs| > 0 && AllMatch(catalogue[q].testCases, outputs)
    ensures requests == RunRequests(language, StarterFor(catalogue[q].starterCode, language), catalogue[q].testCases)
  {
    var s := OpenQuestion(catalogue, language, q);
    var prefix := s.sent;
    s.Run();
    var cases := catalogue[q].testCases;
    if cases != [] {
      assert cases[..1] == [cases[0]];
      assert RunRequests(language, s.currentCode, cases[..1]) == CaseRequests(language, s.currentCode, cases[0]);
    }
    assert cases[..0] == [] && outputs[..0] == [];
    AnswerAll(s, outputs, prefix);
    assert cases[..|outputs|] == cases && outputs[..|outputs|] == outputs;
    PassesBound(cases, outputs);
    passes := s.passCount;
    score := s.display.score;
    requests := s.sent[|prefix|..];
  }

  /** A fresh session, started in the language, with question q on screen
      and the run button enabled. */
  method OpenQuestion(catalogue: seq<Challenge>, language: string, q: nat) returns (s: Session)
    requires q < |catalogue| && IsShownLevel(catalogue[q].level)
    ensures fresh(s) && s.Valid() && s.challenges == catalogue && s.currentQuestion == q
    ensures s.currentLanguage == language && s.currentCode == StarterFor(catalogue[q].starterCode, language)
    ensures s.runEnabled
  {
    s := new Session(catalogue);
    var ok := s.Start(language);
    s.Select(q);
  }

  /** The run in progress after i answers: cases..outputs are the queue and
      the outputs it will be answered with, the pass count covers the first
      i answers, and the requests posted since prefix are those of the first
      i + 1 cases, or of all of them once the rate is reported. */
  ghost predicate AnsweredUpTo(s: Session, outputs: seq<string>, prefix: seq<Request>, i: nat)
    reads s
  {
    && s.Valid() && s.currentQuestion < |s.challenges|
    && s.testQueue == s.challenges[s.currentQuestion].testCases
    && |outputs| == |s.testQueue| && i <= |outputs| && s.currentTestIndex == i
    && s.passCount == Passes(s.testQueue[..i], outputs[..i])
    && (i < |outputs| ==>
          s.Dispatched() && s.sent == prefix + RunRequests(s.currentLanguage, s.currentCode, s.testQueue[..i + 1]))
    && (i == |outputs| ==>
          s.Reported() && s.sent == prefix + RunRequests(s.currentLanguage, s.currentCode, s.testQueue))
  }

  /** Answers the case in flight with its output. */
  method AnswerNext(s: Session, outputs: seq<string>, ghost prefix: seq<Request>, i: nat)
    requires AnsweredUpTo(s, outputs, prefix, i) && i < |outputs|
    modifies s
    ensures AnsweredUpTo(s, outputs, prefix, i + 1)
    ensures unchanged(s`testQueue, s`currentLanguage, s`currentCode)
  {
    var cases, language, code := s.testQueue, s.currentLanguage, s.currentCode;
    ghost var before := s.sent;
    s.OnRunComplete(outputs[i]);
    PassesStep(cases, outputs, i);
    if i + 1 < |outputs| {
      var step := CaseRequests(language, code, cases[i + 1]);
      assert s.sent == before + step;
      RunRequestsStep(language, code, cases, i + 1);
      AppendAssociates(prefix, RunRequests(language, code, cases[..i + 1]), step);
    } else {
      assert cases[..i + 1] == cases;
    }
  }

  /** Answers every posted case of the run in progress, in order, with the
      given outputs: the pass count becomes the number of matching outputs,
      the pass rate is reported, and the requests posted since prefix are
      the whole run's. */
  method AnswerAll(s: Session, outputs: seq<string>, ghost prefix: seq<Request>)
    requires AnsweredUpTo(s, outputs, prefix, 0)
    modifies s
    ensures AnsweredUpTo(s, outputs, prefix, |outputs|)
    ensures unchanged(s`testQueue, s`currentLanguage, s`currentCode)
  {
    var i := 0;
    while i < |outputs|
      invariant AnsweredUpTo(s, outputs, prefix, i)
      invariant unchanged(s`testQueue, s`currentLanguage, s`currentCode)
    {
      AnswerNext(s, outputs, prefix, i);
      i := i + 1;
    }
  }

  /** A second run-complete event for the last case of a one-case queue is
      scored against that case again: the pass count exceeds the queue
      length and the label shows 200%. */
  method StrayResponse() returns (passes: nat, total: nat, score: Score)
    ensures total == 1 && passes == 2 && score == Percent(200)
  {
    var only := TestCase("", "1");
    var s := new Session([Challenge("1", "", "", "easy", Single(""), [only])]);
    var ok := s.Start("python");
    s.Run();
    assert Trim("1") == "1";
    s.OnRunComplete("1");
    s.OnRunComplete("1");
    passes, total := s.passCount, |s.testQueue|;
    score := s.display.score;
  }

  /** Submitting before any run changes nothing; after a run the question is
      completed, and the session is finished exactly when the catalogue had
      only that question. */
  method SubmitFirstQuestion(catalogue: seq<Challenge>, output: string, elapsed: nat)
    returns (beforeRun: set<nat>, afterRun: set<nat>, finished: bool)
    requires |catalogue| > 0
    ensures beforeRun == {} && afterRun == {0}
    ensures finished <==> |catalogue| == 1
  {
    var s := new Session(catalogue);
    var ok := s.Start("python");
    s.Submit(elapsed);
    beforeRun := s.completedQuestions;
    s.OnRunComplete(output);
    s.Submit(elapsed);
    afterRun := s.completedQuestions;
    finished := s.finalTime.Some?;
  }

  /** Selecting another question while a run is in progress drops the run:
      the answer that arrives next finds no current case and shows 0%, and
      nothing enables the run button again. That answer still counts as a
      run of the question now shown, so Submit completes question 1 although
      its code never ran. */
  method AbandonedRun(catalogue: seq<Challenge>, output: string, elapsed: nat)
    returns (runEnabled: bool, submitEnabled: bool, display: MatchDisplay, hasRunCode: bool, completed: set<nat>)
    requires |catalogue| >= 2 && IsShownLevel(catalogue[1].level) && catalogue[0].testCases != []
    ensures !runEnabled && submitEnabled && display == Shown(Percent(0), NoMatch)
    ensures hasRunCode && completed == {1}
  {
    var s := SwitchMidRun(catalogue, output);
    runEnabled, submitEnabled, display, hasRunCode := s.runEnabled, s.submitEnabled, s.display, s.hasRunCode;
    s.Submit(elapsed);
    completed := s.completedQuestions;
  }

  /** A fresh session that starts a run of question 0, switches to question
      1 and then receives the run's first answer. */
  method SwitchMidRun(catalogue: seq<Challenge>, output: string) returns (s: Session)
    requires |catalogue| >= 2 && IsShownLevel(catalogue[1].level) && catalogue[0].testCases != []
    ensures fresh(s) && s.Valid() && s.challenges == catalogue
    ensures s.currentQuestion == 1 && s.completedQuestions == {}
    ensures !s.runEnabled && s.submitEnabled && s.display == Shown(Percent(0), NoMatch) && s.hasRunCode
  {
    s := new Session(catalogue);
    var ok := s.Start("python");
    s.Run();
    s.Select(1);
    s.OnRunComplete(output);
  }
}
