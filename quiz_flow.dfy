/**
 * The quiz page as the session drives it: which screen `quiz_step` and the quiz data
 * select, and what each button does to the step, the quiz data, the recorded answers,
 * the submitted flag, the saved custom questions and the pasted content.
 */
module QuizFlow {
  import opened Wrappers
  import opened JsonValue
  import opened Extract
  import opened Content
  import opened Quiz

  /** The screens of the quiz page. */
  datatype Screen =
    | Answering    // step "play" with questions, not yet submitted
    | Results      // step "play" with questions, submitted
    | NoQuestions  // step "play" with quiz data that has no questions
    | Menu
    | Manual
    | Upload
    | Settings
    | Unknown      // any other step, including "play" without quiz data

  /** The answers after the answering screen records the picked line for each question in turn. */
  function RecordAll(answers: Answers, questions: seq<Question>, picks: seq<Option<string>>): Answers
    requires |picks| == |questions|
  {
    if questions == [] then answers
    else
      var n := |questions| - 1;
      RecordAll(answers, questions[..n], picks[..n])[questions[n].id := RecordedAnswer(picks[n])]
  }

  predicate DistinctIds(questions: seq<Question>) {
    forall i, j :: 0 <= i < j < |questions| ==> questions[i].id != questions[j].id
  }

  /** With distinct ids, each question's answer is what its own pick records. */
  lemma {:induction false} RecordAllAt(answers: Answers, questions: seq<Question>, picks: seq<Option<string>>, i: nat)
    requires |picks| == |questions| && DistinctIds(questions) && i < |questions|
    ensures questions[i].id in RecordAll(answers, questions, picks)
    ensures RecordAll(answers, questions, picks)[questions[i].id] == RecordedAnswer(picks[i])
  {
    var n := |questions| - 1;
    if i < n {
      RecordAllAt(answers, questions[..n], picks[..n], i);
    }
  }

  /** Recording leaves the answers of every other id as they were. */
  lemma {:induction false} RecordAllElsewhere(answers: Answers, questions: seq<Question>, picks: seq<Option<string>>, id: int)
    requires |picks| == |questions|
    requires forall i :: 0 <= i < |questions| ==> questions[i].id != id
    ensures id in RecordAll(answers, questions, picks) <==> id in answers
    ensures id in answers ==> RecordAll(answers, questions, picks)[id] == answers[id]
  {
    if questions != [] {
      var n := |questions| - 1;
      RecordAllElsewhere(answers, questions[..n], picks[..n], id);
    }
  }

  /**
   * A player who picks, for every question, the line of its first correct option scores
   * every question, when the ids are distinct and every label is one character long.
   */
  lemma RightPicksScoreAll(answers: Answers, questions: seq<Question>, picks: seq<Option<string>>)
    requires |picks| == |questions| && DistinctIds(questions)
    requires forall i :: 0 <= i < |questions| ==> FirstCorrect(questions[i].options).Some?
    requires forall i :: 0 <= i < |questions| ==>
      var q := questions[i]; var k := FirstCorrect(q.options).value;
      |q.options[k].letter| == 1 && picks[i] == Some(OptionLine(q.options[k]))
    ensures CorrectCount(RecordAll(answers, questions, picks), questions) == |questions|
  {
    var recorded := RecordAll(answers, questions, picks);
    forall i | 0 <= i < |questions| ensures IsRight(recorded, questions[i]) {
      RecordAllAt(answers, questions, picks, i);
      RecordedLabel(questions[i].options[FirstCorrect(questions[i].options).value]);
    }
    AllRightIsFullScore(recorded, questions);
  }

  /** Saved custom questions are numbered 1, 2, ... in order and each is well formed. */
  predicate CustomQuestionsValid(qs: seq<Question>) {
    forall i :: 0 <= i < |qs| ==> qs[i].id == i + 1 && WellFormed(qs[i])
  }

  const CustomQuizTitle := "My Quiz"

  class QuizSession {
    var step: string
    var data: Option<QuizData>
    var answers: Answers
    var submitted: bool
    var customQuestions: seq<Question>
    var content: string

    ghost predicate Valid()
      reads this
    {
      CustomQuestionsValid(customQuestions)
    }

    /** The screen that the step, the quiz data and the submitted flag select. */
    function CurrentScreen(): Screen
      reads this
    {
      if step == "play" && data.Some? then
        if data.value.questions == [] then NoQuestions
        else if !submitted then Answering
        else Results
      else if step == "menu" then Menu
      else if step == "manual" then Manual
      else if step == "ai_upload" then Upload
      else if step == "ai_settings" then Settings
      else Unknown
    }

    /** The session state the quiz page starts from. */
    constructor ()
      ensures Valid() && CurrentScreen() == Menu
      ensures step == "menu" && data == None && answers == map[] && !submitted
      ensures customQuestions == [] && content == ""
    {
      step := "menu";
      data := None;
      answers := map[];
      submitted := false;
      customQuestions := [];
      content := "";
    }

    /** "Start AI Quiz": on to the upload screen. */
    method StartAiQuiz()
      requires Valid() && CurrentScreen() == Menu
      modifies this
      ensures Valid() && CurrentScreen() == Upload && step == "ai_upload"
      ensures data == old(data) && answers == old(answers) && submitted == old(submitted)
      ensures customQuestions == old(customQuestions) && content == old(content)
    {
      step := "ai_upload";
    }

    /** "Create Manually": on to the manual builder. */
    method CreateManually()
      requires Valid() && CurrentScreen() == Menu
      modifies this
      ensures Valid() && CurrentScreen() == Manual && step == "manual"
      ensures data == old(data) && answers == old(answers) && submitted == old(submitted)
      ensures customQuestions == old(customQuestions) && content == old(content)
    {
      step := "manual";
    }

    /**
     * "Play Saved Quiz" on the menu and "Play Quiz" in the builder, both offered only when
     * questions are saved: the saved questions become a fresh quiz titled "My Quiz".
     */
    method PlayCustom()
      requires Valid() && (CurrentScreen() == Menu || CurrentScreen() == Manual) && customQuestions != []
      modifies this
      ensures Valid() && CurrentScreen() == Answering
      ensures step == "play" && data == Some(QuizData(CustomQuizTitle, customQuestions))
      ensures answers == map[] && !submitted
      ensures customQuestions == old(customQuestions) && content == old(content)
    {
      data := Some(QuizData(CustomQuizTitle, customQuestions));
      step := "play";
      answers := map[];
      submitted := false;
    }

    /** "← Back" from the builder or from the upload screen. */
    method BackToMenuStep()
      requires Valid() && (CurrentScreen() == Manual || CurrentScreen() == Upload)
      modifies this
      ensures Valid() && CurrentScreen() == Menu && step == "menu"
      ensures data == old(data) && answers == old(answers) && submitted == old(submitted)
      ensures customQuestions == old(customQuestions) && content == old(content)
    {
      step := "menu";
    }

    /**
     * "Add Question": with a question text and options A and B filled in, the built
     * question is appended after the saved ones; otherwise nothing changes.
     */
    method AddQuestion(question: string, a: string, b: string, c: string, d: string, correct: Letter) returns (added: bool)
      requires Valid() && CurrentScreen() == Manual
      modifies this
      ensures Valid() && CurrentScreen() == Manual
      ensures added <==> question != "" && a != "" && b != ""
      ensures customQuestions == if added
        then old(customQuestions) + [ManualQuestion(|old(customQuestions)|, question, a, b, c, d, correct)]
        else old(customQuestions)
      ensures step == old(step) && data == old(data) && answers == old(answers)
      ensures submitted == old(submitted) && content == old(content)
    {
      added := question != "" && a != "" && b != "";
      if added {
        ManualQuestionWellFormed(|customQuestions|, question, a, b, c, d, correct);
        customQuestions := customQuestions + [ManualQuestion(|customQuestions|, question, a, b, c, d, correct)];
      }
    }

    /** "Clear All": the saved questions are dropped. */
    method ClearAll()
      requires Valid() && CurrentScreen() == Manual && customQuestions != []
      modifies this
      ensures Valid() && CurrentScreen() == Manual && customQuestions == []
      ensures step == old(step) && data == old(data) && answers == old(answers)
      ensures submitted == old(submitted) && content == old(content)
    {
      customQuestions := [];
    }

    /** "Continue" on the upload screen, enabled only once there is content. */
    method UploadContinue(pasted: string)
      requires Valid() && CurrentScreen() == Upload && pasted != ""
      modifies this
      ensures Valid() && CurrentScreen() == Settings && step == "ai_settings" && content == pasted
      ensures data == old(data) && answers == old(answers) && submitted == old(submitted)
      ensures customQuestions == old(customQuestions)
    {
      content := pasted;
      step := "ai_settings";
    }

    /** "← Back" from the settings screen. */
    method SettingsBack()
      requires Valid() && CurrentScreen() == Settings
      modifies this
      ensures Valid() && CurrentScreen() == Upload && step == "ai_upload"
      ensures data == old(data) && answers == old(answers) && submitted == old(submitted)
      ensures customQuestions == old(customQuestions) && content == old(content)
    {
      step := "ai_upload";
    }

    /**
     * "Generate Quiz": the content is cleaned and cut to 3000 characters and sent with the
     * chosen number of questions; the reply goes through `extract_json`. When the call
     * raises or nothing can be extracted, the error is shown and the state stays as it
     * was; otherwise the extracted quiz is played from a clean slate.
     */
    method GenerateQuiz(numQuestions: nat, isPrintable: char -> bool, generate: (nat, string) -> Option<string>,
                        f: Foreign, asQuiz: Json -> QuizData) returns (failed: bool)
      requires Valid() && CurrentScreen() == Settings
      requires numQuestions == 3 || numQuestions == 5 || numQuestions == 10 || numQuestions == 15
      modifies this
      ensures Valid()
      ensures var reply := old(generate(numQuestions, Sanitize(content, isPrintable, QuizContentLimit)));
        && (failed <==> reply.None? || ExtractJson(reply.value, f).Failure?)
        && (failed ==> step == old(step) && data == old(data) && answers == old(answers) && submitted == old(submitted))
        && (!failed ==> step == "play" && answers == map[] && !submitted
                        && data == Some(old(asQuiz(ExtractJson(reply.value, f).value))))
      ensures customQuestions == old(customQuestions) && content == old(content)
    {
      var reply := generate(numQuestions, Sanitize(content, isPrintable, QuizContentLimit));
      failed := reply.None? || ExtractJson(reply.value, f).Failure?;
      if !failed {
        data := Some(asQuiz(ExtractJson(reply.value, f).value));
        step := "play";
        answers := map[];
        submitted := false;
      }
    }

    /** The answering screen records, question by question, the first character of the line picked. */
    method RecordAnswers(picks: seq<Option<string>>)
      requires Valid() && CurrentScreen() == Answering
      requires |picks| == |data.value.questions|
      modifies this`answers
      ensures Valid() && CurrentScreen() == Answering
      ensures answers == RecordAll(old(answers), data.value.questions, picks)
    {
      var questions := data.value.questions;
      var i := 0;
      while i < |questions|
        invariant 0 <= i <= |questions|
        invariant answers == RecordAll(old(answers), questions[..i], picks[..i])
      {
        assert questions[..i + 1][..i] == questions[..i];
        assert picks[..i + 1][..i] == picks[..i];
        answers := answers[questions[i].id := RecordedAnswer(picks[i])];
        i := i + 1;
      }
      assert questions[..i] == questions && picks[..i] == picks;
    }

    /** "Submit Answers": the results are shown. */
    method Submit()
      requires Valid() && CurrentScreen() == Answering
      modifies this
      ensures Valid() && CurrentScreen() == Results && submitted
      ensures step == old(step) && data == old(data) && answers == old(answers)
      ensures customQuestions == old(customQuestions) && content == old(content)
    {
      submitted := true;
    }

    /** The score of the results screen, over the answers recorded. */
    method Score() returns (correct: nat, percent: int, grade: string)
      requires Valid() && CurrentScreen() == Results
      ensures correct == CorrectCount(answers, data.value.questions) <= |data.value.questions|
      ensures percent == Percent(correct, |data.value.questions|) && 0 <= percent <= 100
      ensures grade == Grade(percent)
    {
      var questions := data.value.questions;
      correct := CountCorrect(answers, questions);
      percent := Percent(correct, |questions|);
      grade := Grade(percent);
    }

    /** "Retry": the same quiz again with no answers. */
    method Retry()
      requires Valid() && CurrentScreen() == Results
      modifies this
      ensures Valid() && CurrentScreen() == Answering
      ensures !submitted && answers == map[]
      ensures step == old(step) && data == old(data)
      ensures customQuestions == old(customQuestions) && content == old(content)
    {
      submitted := false;
      answers := map[];
    }

    /** "Exit Quiz", offered while answering and on the results: the quiz is dropped. */
    method ExitQuiz()
      requires Valid() && (CurrentScreen() == Answering || CurrentScreen() == Results)
      modifies this
      ensures Valid() && CurrentScreen() == Menu
      ensures step == "menu" && data == None && answers == map[] && !submitted
      ensures customQuestions == old(customQuestions) && content == old(content)
    {
      step := "menu";
      data := None;
      answers := map[];
      submitted := false;
    }

    /** "Back to Menu" on the results: the quiz is dropped but the recorded answers stay. */
    method ResultsBackToMenu()
      requires Valid() && CurrentScreen() == Results
      modifies this
      ensures Valid() && CurrentScreen() == Menu
      ensures step == "menu" && data == None && !submitted
      ensures answers == old(answers) && customQuestions == old(customQuestions) && content == old(content)
    {
      step := "menu";
      data := None;
      submitted := false;
    }

    /** "Back to Menu" when the quiz has no questions: only the step changes. */
    method EmptyQuizBackToMenu()
      requires Valid() && CurrentScreen() == NoQuestions
      modifies this
      ensures Valid() && CurrentScreen() == Menu && step == "menu"
      ensures data == old(data) && answers == old(answers) && submitted == old(submitted)
      ensures customQuestions == old(customQuestions) && content == old(content)
    {
      step := "menu";
    }

    /** Any other step, or "play" without quiz data, falls back to the menu. */
    method Fallback()
      requires Valid() && CurrentScreen() == Unknown
      modifies this
      ensures Valid() && CurrentScreen() == Menu && step == "menu"
      ensures data == old(data) && answers == old(answers) && submitted == old(submitted)
      ensures customQuestions == old(customQuestions) && content == old(content)
    {
      step := "menu";
    }
  }
}
