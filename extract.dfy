/**
 * `extract_json`: recovering a JSON document from the free text a language model returns.
 * Six strategies are tried in a fixed order on the stripped text and the first one that
 * yields a value wins; when none does, a `ValueError` carrying an excerpt is raised.
 */
module Extract {
  import opened Wrappers
  import opened JsonValue
  import opened Text

  /**
   * The collaborators of the extractor that are not part of this model: `json.loads`
   * (`None` where it raises), and the capture lists that the two `re.findall` calls of the
   * question/answer fallback return for a text.
   */
  datatype Foreign = Foreign(
    loads: string -> Option<Json>,
    questionMatches: string -> seq<string>,
    answerMatches: string -> seq<string>)

  const Fence := "```"
  const ErrorLead := "Could not extract JSON from response: "
  const ExcerptLength := 200
  const FallbackTitle := "Generated Content"

  /**
   * Where `re.search(opening + r'\s*(.*?)\s*```', t, re.DOTALL)` finds its fence, as the
   * index just past the opening marker and the index of the closing "```". The hit starts
   * at the first occurrence of the opening marker; it exists exactly when some "```"
   * follows that marker, and the first such "```" closes it.
   */
  function FenceBounds(t: string, opening: Marker): (r: Option<(nat, nat)>)
    ensures r.None? ==> forall i, j :: 0 <= i && i + MarkerLength(opening) <= j && MatchesAt(t, opening, i) ==> !MatchesAt(t, Literal(Fence), j)
    ensures r.Some? ==> var (a, j) := r.value;
      && MarkerLength(opening) <= a <= j
      && MatchesAt(t, opening, a - MarkerLength(opening))
      && (forall k :: 0 <= k < a - MarkerLength(opening) ==> !MatchesAt(t, opening, k))
      && MatchesAt(t, Literal(Fence), j)
      && (forall k :: a <= k < j ==> !MatchesAt(t, Literal(Fence), k))
  {
    match IndexOf(t, opening, 0)
    case None => None
    case Some(i) =>
      var after := i + MarkerLength(opening);
      match IndexOf(t, Literal(Fence), after)
      case None => None
      case Some(j) => Some((after, j))
  }

  /**
   * `group(1)` of that search. Between the opening marker and the closing fence the greedy
   * `\s*` takes the leading whitespace and the lazy `(.*?)` stops where the whitespace
   * before the closing fence begins, so the group is the interior without its surrounding
   * whitespace.
   */
  function FencedGroup(t: string, opening: Marker): Option<string> {
    match FenceBounds(t, opening)
    case None => None
    case Some((a, j)) => Some(Strip(t[a..j]))
  }

  /**
   * `re.search(r'\{[\s\S]*\}', t)` and its bracket twin, as the indices of the span:
   * it starts at the leftmost `open` and runs greedily to the last `close` of the text.
   * The span is not balanced: whatever lies between is taken as it is.
   */
  function DelimitedBounds(t: string, open: char, close: char): (r: Option<(nat, nat)>)
    ensures r.Some? <==> exists i, j :: 0 <= i < j < |t| && t[i] == open && t[j] == close
    ensures r.Some? ==> var (i, j) := r.value;
      && i < j < |t| && t[i] == open && t[j] == close
      && (forall k :: 0 <= k < i ==> t[k] != open)
      && (forall k :: j < k < |t| ==> t[k] != close)
  {
    match IndexOf(t, Literal([open]), 0)
    case None =>
      assert forall i :: 0 <= i < |t| ==> (t[i] == open <==> MatchesAt(t, Literal([open]), i));
      None
    case Some(i) =>
      assert forall k :: 0 <= k < |t| ==> (t[k] == open <==> MatchesAt(t, Literal([open]), k));
      match LastIndexOf(t, close)
      case None => None
      case Some(j) => if i < j then Some((i, j)) else None
  }

  /** The text between and including the delimiters found by `DelimitedBounds`. */
  function DelimitedSpan(t: string, open: char, close: char): Option<string> {
    match DelimitedBounds(t, open, close)
    case None => None
    case Some((i, j)) => Some(t[i..j + 1])
  }

  /** `s.replace('\n', ' ').replace('\r', '')`: line breaks become spaces, carriage returns vanish. */
  function Flatten(s: string): (r: string)
    ensures |r| <= |s|
    ensures forall k :: 0 <= k < |r| ==> r[k] != '\n' && r[k] != '\r'
    ensures ('\n' !in s && '\r' !in s) ==> r == s
    ensures |s| == 1 ==> r == if s[0] == '\n' then " " else if s[0] == '\r' then "" else s
  {
    if s == [] then []
    else
      var rest := Flatten(s[1..]);
      if s[0] == '\n' then [' '] + rest
      else if s[0] == '\r' then rest
      else [s[0]] + rest
  }

  /** Flattening works character by character, in order: flattening a concatenation flattens each part. */
  lemma {:induction false} FlattenAppend(a: string, b: string)
    ensures Flatten(a + b) == Flatten(a) + Flatten(b)
  {
    if a != [] {
      var head := if a[0] == '\n' then [' '] else if a[0] == '\r' then [] else [a[0]];
      assert (a + b)[0] == a[0] && (a + b)[1..] == a[1..] + b;
      assert Flatten(a + b) == head + Flatten(a[1..] + b);
      assert Flatten(a) == head + Flatten(a[1..]);
      FlattenAppend(a[1..], b);
    } else {
      assert a + b == b;
    }
  }

  /** Strategy 1: the whole stripped text, whatever JSON type it decodes to. */
  function WholeText(t: string, f: Foreign): Option<Json> {
    f.loads(t)
  }

  /** Strategies 2 and 3: the stripped interior of the first fence opened by `opening`. */
  function FencedInterior(t: string, opening: Marker, f: Foreign): Option<Json> {
    match FencedGroup(t, opening)
    case None => None
    case Some(g) => f.loads(Strip(g))
  }

  /** Strategy 4: the object span; when it does not decode, once more with its line breaks flattened. */
  function ObjectSpan(t: string, f: Foreign): Option<Json> {
    match DelimitedSpan(t, '{', '}')
    case None => None
    case Some(s) =>
      match f.loads(s)
      case Some(v) => Some(v)
      case None => f.loads(Flatten(s))
  }

  /** Strategy 5: the array span, wrapped as `{"items": value}`. */
  function ArraySpan(t: string, f: Foreign): Option<Json> {
    match DelimitedSpan(t, '[', ']')
    case None => None
    case Some(s) =>
      match f.loads(s)
      case Some(v) => Some(ItemsRecord(v))
      case None => None
  }

  function ItemsRecord(v: Json): Json {
    JObject([("items", v)])
  }

  function Min(a: nat, b: nat): nat {
    if a <= b then a else b
  }

  function Flashcard(id: nat, question: string, answer: string): Json {
    JObject([("id", JInt(id)), ("question", JString(question)), ("answer", JString(answer))])
  }

  /** Each match with `.strip()` applied. */
  function StripEach(xs: seq<string>): (ys: seq<string>)
    ensures |ys| == |xs| && forall i :: 0 <= i < |xs| ==> ys[i] == Strip(xs[i])
  {
    seq(|xs|, i requires 0 <= i < |xs| => Strip(xs[i]))
  }

  /**
   * The flashcards the fallback appends one by one while zipping question and answer
   * texts: as many as the shorter list, numbered from 1 in order.
   */
  function Flashcards(questions: seq<string>, answers: seq<string>): (cards: seq<Json>)
    ensures |cards| == Min(|questions|, |answers|)
    ensures forall i :: 0 <= i < |cards| ==> cards[i] == Flashcard(i + 1, questions[i], answers[i])
  {
    var n := Min(|questions|, |answers|);
    if n == 0 then []
    else Flashcards(questions[..n - 1], answers[..n - 1]) + [Flashcard(n, questions[n - 1], answers[n - 1])]
  }

  function FlashcardRecord(cards: seq<Json>): Json {
    JObject([("flashcards", JArray(cards)), ("title", JString(FallbackTitle)), ("total_count", JInt(|cards|))])
  }

  /** Strategy 6: the question/answer pattern fallback. */
  function QuestionAnswerFallback(t: string, f: Foreign): (r: Option<Json>)
    ensures r.Some? <==> |f.questionMatches(t)| > 0 && |f.answerMatches(t)| > 0
    ensures r.Some? ==> exists cards ::
      && r.value == FlashcardRecord(cards)
      && 0 < |cards| == Min(|f.questionMatches(t)|, |f.answerMatches(t)|)
      && forall i :: 0 <= i < |cards| ==> cards[i] == Flashcard(i + 1, Strip(f.questionMatches(t)[i]), Strip(f.answerMatches(t)[i]))
  {
    var questions, answers := f.questionMatches(t), f.answerMatches(t);
    if |questions| > 0 && |answers| > 0 then
      var cards := Flashcards(StripEach(questions), StripEach(answers));
      if |cards| > 0 then Some(FlashcardRecord(cards)) else None
    else None
  }

  /** Strategy `k` (counted from 0) of the six, in the order they are tried. */
  function Strategy(t: string, f: Foreign, k: nat): Option<Json>
    requires k < StrategyCount
  {
    if k == 0 then WholeText(t, f)
    else if k == 1 then FencedInterior(t, JsonFence, f)
    else if k == 2 then FencedInterior(t, Literal(Fence), f)
    else if k == 3 then ObjectSpan(t, f)
    else if k == 4 then ArraySpan(t, f)
    else QuestionAnswerFallback(t, f)
  }

  const StrategyCount := 6

  /** The `ValueError` message: a fixed lead, at most 200 characters of the text, and "...". */
  function ErrorMessage(t: string): (msg: string)
    ensures exists excerpt ::
      && msg == ErrorLead + excerpt + "..."
      && |excerpt| <= ExcerptLength && |excerpt| <= |t|
      && excerpt == t[..|excerpt|]
      && (|t| <= ExcerptLength ==> excerpt == t)
      && (|excerpt| == ExcerptLength || excerpt == t)
  {
    ErrorLead + Take(t, ExcerptLength) + "..."
  }

  /**
   * The strategies from the `k`-th on, each tried only when those before it yielded
   * nothing; when none is left, the error.
   */
  function TryFrom(t: string, f: Foreign, k: nat): (r: Result<Json, string>)
    requires k <= StrategyCount
    decreases StrategyCount - k
    ensures r.Failure? ==> r.error == ErrorMessage(t)
  {
    if k == StrategyCount then Failure(ErrorMessage(t))
    else
      match Strategy(t, f, k)
      case Some(v) => Success(v)
      case None => TryFrom(t, f, k + 1)
  }

  /**
   * `extract_json(text)`: the strategies tried one after another on `text.strip()`.
   * When the stripped text decodes as a whole, that value is returned, whatever its JSON
   * type; the error message always quotes the stripped text.
   */
  function ExtractJson(text: string, f: Foreign): (r: Result<Json, string>)
    ensures f.loads(Strip(text)).Some? ==> r == Success(f.loads(Strip(text)).value)
    ensures r.Failure? ==> r.error == ErrorMessage(Strip(text))
  {
    TryFrom(Strip(text), f, 0)
  }

  /** None of the strategies before the `k`-th yields a value. */
  predicate NoneBefore(t: string, f: Foreign, k: nat)
    requires k <= StrategyCount
  {
    k == 0 || (NoneBefore(t, f, k - 1) && Strategy(t, f, k - 1).None?)
  }

  /** `NoneBefore` spelled out strategy by strategy. */
  lemma NoneBeforeNamed(t: string, f: Foreign, k: nat)
    requires k <= StrategyCount
    requires k > 0 ==> WholeText(t, f).None?
    requires k > 1 ==> FencedInterior(t, JsonFence, f).None?
    requires k > 2 ==> FencedInterior(t, Literal(Fence), f).None?
    requires k > 3 ==> ObjectSpan(t, f).None?
    requires k > 4 ==> ArraySpan(t, f).None?
    requires k > 5 ==> QuestionAnswerFallback(t, f).None?
    ensures NoneBefore(t, f, k)
  {
    assert NoneBefore(t, f, 0);
    if k > 0 { assert NoneBefore(t, f, 1); }
    if k > 1 { assert NoneBefore(t, f, 2); }
    if k > 2 { assert NoneBefore(t, f, 3); }
    if k > 3 { assert NoneBefore(t, f, 4); }
    if k > 4 { assert NoneBefore(t, f, 5); }
    if k > 5 { assert NoneBefore(t, f, 6); }
  }

  /** When the strategies before the `k`-th all yield nothing, the outcome is decided from the `k`-th on. */
  lemma {:induction false} SkipFailed(t: string, f: Foreign, k: nat)
    requires k <= StrategyCount && NoneBefore(t, f, k)
    ensures TryFrom(t, f, 0) == TryFrom(t, f, k)
  {
    if k > 0 {
      SkipFailed(t, f, k - 1);
    }
  }

  /** The first strategy that yields a value decides the result. */
  lemma FirstSuccessWins(text: string, f: Foreign, k: nat)
    requires k < StrategyCount && Strategy(Strip(text), f, k).Some?
    requires NoneBefore(Strip(text), f, k)
    ensures ExtractJson(text, f) == Success(Strategy(Strip(text), f, k).value)
  {
    SkipFailed(Strip(text), f, k);
  }

  /** The result is an error exactly when every strategy yields nothing. */
  lemma NoneSucceeds(text: string, f: Foreign)
    ensures ExtractJson(text, f).Failure? <==> NoneBefore(Strip(text), f, StrategyCount)
  {
    var t := Strip(text);
    if NoneBefore(t, f, StrategyCount) {
      SkipFailed(t, f, StrategyCount);
    } else {
      var k := FirstFound(t, f, StrategyCount);
      LaterSuccess(t, f, 0, k);
    }
  }

  /** Some strategy before the `k`-th yields a value when not all of them yield nothing. */
  lemma {:induction false} FirstFound(t: string, f: Foreign, k: nat) returns (j: nat)
    requires k <= StrategyCount && !NoneBefore(t, f, k)
    ensures j < k && Strategy(t, f, j).Some?
  {
    if NoneBefore(t, f, k - 1) {
      j := k - 1;
    } else {
      j := FirstFound(t, f, k - 1);
    }
  }

  /** A strategy that yields a value, at or after the `k`-th, makes the outcome from the `k`-th on a success. */
  lemma {:induction false} LaterSuccess(t: string, f: Foreign, k: nat, j: nat)
    requires k <= j < StrategyCount && Strategy(t, f, j).Some?
    ensures TryFrom(t, f, k).Success?
    decreases j - k
  {
    if Strategy(t, f, k).None? {
      LaterSuccess(t, f, k + 1, j);
    }
  }
}
