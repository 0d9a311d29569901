/**
 * The quiz: its questions, how the option a player picks is recorded, how a submitted
 * quiz is scored, turned into a percentage and graded, and the question the manual
 * builder creates from its form.
 */
module Quiz {
  import opened Wrappers

  /** One option of a question: its label ("A" to "D"), its text, and whether it is right. */
  datatype Choice = Choice(letter: string, text: string, isCorrect: bool)

  datatype Question = Question(id: int, text: string, options: seq<Choice>, explanation: string)

  datatype QuizData = QuizData(title: string, questions: seq<Question>)

  /** The answers recorded so far, keyed by question id. */
  type Answers = map<int, string>

  /** How an option is offered to the player: its label, ". ", then its text. */
  function OptionLine(o: Choice): string {
    o.letter + ". " + o.text
  }

  /** What is recorded for the line picked: its first character, or "" when none is picked. */
  function RecordedAnswer(picked: Option<string>): string {
    match picked
    case None => ""
    case Some(line) => if line == "" then "" else [line[0]]
  }

  /**
   * Picking an option records its label exactly when the label is one character long:
   * a longer label is recorded as its first character, an empty one as ".".
   */
  lemma RecordedLabel(o: Choice)
    ensures RecordedAnswer(Some(OptionLine(o))) == o.letter <==> |o.letter| == 1
  {
    var line := OptionLine(o);
    if o.letter == [] {
      assert line[0] == '.';
    } else {
      assert line[0] == o.letter[0];
      assert |o.letter| == 1 ==> o.letter == [o.letter[0]];
    }
  }

  /** The index of the first option marked correct, as `next(...)` over the options finds it. */
  function FirstCorrect(options: seq<Choice>): (r: Option<nat>)
    ensures r.None? <==> forall i :: 0 <= i < |options| ==> !options[i].isCorrect
    ensures r.Some? ==> r.value < |options| && options[r.value].isCorrect
    ensures r.Some? ==> forall j :: 0 <= j < r.value ==> !options[j].isCorrect
  {
    if options == [] then None
    else if options[0].isCorrect then Some(0)
    else match FirstCorrect(options[1..])
      case None => None
      case Some(k) => Some(k + 1)
  }

  /** The answer recorded for `q`, or "" when there is none. */
  function UserAnswer(answers: Answers, q: Question): string {
    if q.id in answers then answers[q.id] else ""
  }

  /** A question counts when the recorded answer is the label of its first correct option. */
  predicate IsRight(answers: Answers, q: Question) {
    match FirstCorrect(q.options)
    case None => false
    case Some(k) => UserAnswer(answers, q) == q.options[k].letter
  }

  /** How many of the questions count: never more than there are questions. */
  function CorrectCount(answers: Answers, questions: seq<Question>): (n: nat)
    ensures n <= |questions|
  {
    if questions == [] then 0
    else
      var last := questions[|questions| - 1];
      CorrectCount(answers, questions[..|questions| - 1]) + (if IsRight(answers, last) then 1 else 0)
  }

  /** The scoring loop of the results screen. */
  method CountCorrect(answers: Answers, questions: seq<Question>) returns (correct: nat)
    ensures correct == CorrectCount(answers, questions)
    ensures correct <= |questions|
  {
    correct := 0;
    var i := 0;
    while i < |questions|
      invariant 0 <= i <= |questions|
      invariant correct == CorrectCount(answers, questions[..i])
    {
      assert questions[..i + 1][..i] == questions[..i];
      if IsRight(answers, questions[i]) {
        correct := correct + 1;
      }
      i := i + 1;
    }
    assert questions[..i] == questions;
  }

  /** Every question counts exactly when the score is the number of questions. */
  lemma {:induction false} AllRightIsFullScore(answers: Answers, questions: seq<Question>)
    ensures CorrectCount(answers, questions) == |questions|
      <==> forall i :: 0 <= i < |questions| ==> IsRight(answers, questions[i])
  {
    if questions != [] {
      var init := questions[..|questions| - 1];
      AllRightIsFullScore(answers, init);
      assert forall i :: 0 <= i < |init| ==> init[i] == questions[i];
    }
  }

  /** Questions without a correct option never count, whatever was answered. */
  lemma {:induction false} NoCorrectOptionScoresZero(answers: Answers, questions: seq<Question>)
    requires forall i :: 0 <= i < |questions| ==> FirstCorrect(questions[i].options).None?
    ensures CorrectCount(answers, questions) == 0
  {
    if questions != [] {
      var init := questions[..|questions| - 1];
      assert forall i :: 0 <= i < |init| ==> init[i] == questions[i];
      NoCorrectOptionScoresZero(answers, init);
    }
  }

  /**
   * The percentage shown: the share of right answers times 100, cut to an integer, and 0
   * for a quiz without questions.
   */
  function Percent(correct: nat, total: nat): (p: int)
    ensures total == 0 ==> p == 0
    ensures total > 0 ==> p * total <= 100 * correct < (p + 1) * total
    ensures correct <= total ==> 0 <= p <= 100
  {
    if total == 0 then 0 else (100 * correct) / total
  }

  /** The letter grade for a percentage: A from 90, B from 80, C from 70, D from 60, else F. */
  function Grade(pct: int): string {
    if pct >= 90 then "A" else if pct >= 80 then "B" else if pct >= 70 then "C" else if pct >= 60 then "D" else "F"
  }

  /** The position of a grade from best (A, 0) to worst (F, 4). */
  function GradeRank(g: string): nat {
    if g == "A" then 0 else if g == "B" then 1 else if g == "C" then 2 else if g == "D" then 3 else 4
  }

  /** A higher percentage never gets a worse grade. */
  lemma GradeMonotone(p: int, q: int)
    requires p <= q
    ensures GradeRank(Grade(q)) <= GradeRank(Grade(p))
  {
  }

  /** A quiz with every answer right scores 100 per cent and an A. */
  lemma PerfectQuizGetsA(answers: Answers, questions: seq<Question>)
    requires |questions| > 0
    requires forall i :: 0 <= i < |questions| ==> IsRight(answers, questions[i])
    ensures Percent(CorrectCount(answers, questions), |questions|) == 100
    ensures Grade(Percent(CorrectCount(answers, questions), |questions|)) == "A"
  {
    AllRightIsFullScore(answers, questions);
    WholeIsHundred(|questions|);
  }

  lemma WholeIsHundred(n: nat)
    requires n > 0
    ensures Percent(n, n) == 100
  {
    var q, r := (100 * n) / n, (100 * n) % n;
    assert (100 - q) * n == r;
    if 100 - q >= 1 { MulAtLeast(100 - q, n); }
    if 100 - q <= -1 { MulNegative(100 - q, n); }
  }

  lemma MulAtLeast(k: int, n: int)
    requires n > 0 && k >= 1
    ensures k * n >= n
  {
  }

  lemma MulNegative(k: int, n: int)
    requires n > 0 && k <= -1
    ensures k * n < 0
  {
  }

  /** The four labels the manual builder offers as the correct one. */
  datatype Letter = A | B | C | D

  function LetterName(l: Letter): string {
    match l
    case A => "A"
    case B => "B"
    case C => "C"
    case D => "D"
  }

  function LetterIndex(l: Letter): nat {
    match l
    case A => 0
    case B => 1
    case C => 2
    case D => 3
  }

  /** A blank text for option C or D is shown as "N/A". */
  function OrNotApplicable(s: string): string {
    if s == "" then "N/A" else s
  }

  /**
   * The question the manual builder appends after `count` earlier ones: numbered
   * `count + 1`, options labelled A to D in order, and the selected label marked correct.
   */
  function ManualQuestion(count: nat, question: string, a: string, b: string, c: string, d: string, correct: Letter): Question {
    Question(count + 1, question, [
      Choice("A", a, correct == A),
      Choice("B", b, correct == B),
      Choice("C", OrNotApplicable(c), correct == C),
      Choice("D", OrNotApplicable(d), correct == D)], "")
  }

  /** Four options labelled "A", "B", "C", "D" in that order, exactly one of them correct. */
  predicate WellFormed(q: Question) {
    && |q.options| == 4
    && q.options[0].letter == "A" && q.options[1].letter == "B"
    && q.options[2].letter == "C" && q.options[3].letter == "D"
    && (exists k :: 0 <= k < 4 && q.options[k].isCorrect
          && forall j :: 0 <= j < 4 && j != k ==> !q.options[j].isCorrect)
  }

  /**
   * A built question is well formed, its correct option is the selected label, it holds
   * the texts it was given, and a blank C or D text becomes "N/A".
   */
  lemma ManualQuestionWellFormed(count: nat, question: string, a: string, b: string, c: string, d: string, correct: Letter)
    ensures var q := ManualQuestion(count, question, a, b, c, d, correct);
      && WellFormed(q)
      && q.id == count + 1
      && FirstCorrect(q.options) == Some(LetterIndex(correct))
      && q.options[LetterIndex(correct)].letter == LetterName(correct)
      && q.text == question && q.explanation == ""
      && q.options[0].text == a && q.options[1].text == b
      && q.options[2].text == (if c == "" then "N/A" else c)
      && q.options[3].text == (if d == "" then "N/A" else d)
      && q.options[2].text != "" && q.options[3].text != ""
  {
    var q := ManualQuestion(count, question, a, b, c, d, correct);
    var k := LetterIndex(correct);
    assert q.options[k].isCorrect && forall j :: 0 <= j < 4 && j != k ==> !q.options[j].isCorrect;
  }

  /**
   * On a built question, recording the option line the player picks makes the question
   * count exactly when the picked option is the selected one.
   */
  lemma ManualAnswerScores(answers: Answers, count: nat, question: string, a: string, b: string, c: string, d: string,
                           correct: Letter, picked: nat)
    requires picked < 4
    ensures var q := ManualQuestion(count, question, a, b, c, d, correct);
      var recorded := answers[q.id := RecordedAnswer(Some(OptionLine(q.options[picked])))];
      IsRight(recorded, q) <==> picked == LetterIndex(correct)
  {
    var q := ManualQuestion(count, question, a, b, c, d, correct);
    ManualQuestionWellFormed(count, question, a, b, c, d, correct);
    RecordedLabel(q.options[picked]);
    RecordedLabel(q.options[LetterIndex(correct)]);
  }
}
