/**
 * What `extract_json` recovers from typical model replies: a labelled fence inside prose,
 * an unlabelled fence, an object or an array inside prose, and what it reports when the
 * reply holds none of them.
 */
module ExtractProperties {
  import opened Wrappers
  import opened JsonValue
  import opened Text
  import opened Extract

  /** A search finds the first hit at or after its start, and only that one. */
  lemma IndexOfIs(t: string, m: Marker, from: nat, k: nat)
    requires from <= k && MatchesAt(t, m, k)
    requires forall i :: from <= i < k ==> !MatchesAt(t, m, i)
    ensures IndexOf(t, m, from) == Some(k)
  {
  }

  /** Every fence marker starts with a backtick, so none starts where there is none. */
  lemma NoFenceWithoutBacktick(t: string, m: Marker, i: nat)
    requires m == JsonFence || m == Literal(Fence)
    requires i < |t| ==> t[i] != '`'
    ensures !MatchesAt(t, m, i)
  {
    if i + 3 <= |t| {
      assert t[i..i + 3][0] == t[i];
    }
  }

  /** A text without backticks holds no fence, so neither fence strategy applies. */
  lemma NoBacktickNoFence(t: string, f: Foreign)
    requires '`' !in t
    ensures FencedInterior(t, JsonFence, f).None? && FencedInterior(t, Literal(Fence), f).None?
  {
    assert t[0..|t|] == t;
    NoFenceIn(t, JsonFence, 0, t);
    NoFenceIn(t, Literal(Fence), 0, t);
    assert IndexOf(t, JsonFence, 0).None?;
    assert IndexOf(t, Literal(Fence), 0).None?;
  }

  /** No character of `t` from `lo` up to `hi` is a backtick. */
  predicate BacktickFree(t: string, lo: nat, hi: nat)
    requires lo <= hi <= |t|
  {
    forall i :: lo <= i < hi ==> t[i] != '`'
  }

  /** A stretch of `t` equal to a string without backticks is free of them. */
  lemma BacktickFreeSlice(t: string, lo: nat, s: string)
    requires lo + |s| <= |t| && t[lo..lo + |s|] == s && '`' !in s
    ensures BacktickFree(t, lo, lo + |s|)
  {
    forall i | lo <= i < lo + |s| ensures t[i] != '`' {
      assert t[i] == t[lo..lo + |s|][i - lo] == s[i - lo];
    }
  }

  /**
   * The fence opened by `opening` at `p` and closed by the "```" at `c` is the one the
   * search finds, when no backtick comes before `p` nor between the opening marker and
   * `c`: its group lies between the end of the opening marker and `c`.
   */
  lemma FenceAfterProse(t: string, opening: Marker, p: nat, c: nat)
    requires opening == JsonFence || opening == Literal(Fence)
    requires p + MarkerLength(opening) <= c && c + 3 <= |t|
    requires MatchesAt(t, opening, p) && MatchesAt(t, Literal(Fence), c)
    requires BacktickFree(t, 0, p) && BacktickFree(t, p + MarkerLength(opening), c)
    ensures FenceBounds(t, opening) == Some((p + MarkerLength(opening), c))
  {
    FirstMarkerAfter(t, opening, 0, p);
    FirstMarkerAfter(t, Literal(Fence), p + MarkerLength(opening), c);
  }

  /** After a stretch without backticks, the first fence marker is the one that ends it. */
  lemma FirstMarkerAfter(t: string, m: Marker, lo: nat, hi: nat)
    requires m == JsonFence || m == Literal(Fence)
    requires lo <= hi <= |t| && BacktickFree(t, lo, hi)
    requires MatchesAt(t, m, hi)
    ensures IndexOf(t, m, lo) == Some(hi)
  {
    forall i | lo <= i < hi ensures !MatchesAt(t, m, i) {
      NoFenceWithoutBacktick(t, m, i);
    }
    IndexOfIs(t, m, lo, hi);
  }

  /**
   * The group of a fence is its interior, stripped: the interior is a run of whitespace,
   * the group, and another run of whitespace, and the group neither begins nor ends with
   * whitespace, as the greedy `\s*` and the lazy `(.*?)` leave it.
   */
  lemma GroupOfBounds(t: string, opening: Marker, a: nat, c: nat)
    requires FenceBounds(t, opening) == Some((a, c))
    ensures FencedGroup(t, opening) == Some(Strip(t[a..c]))
    ensures exists lead, trail :: AllSpace(lead) && AllSpace(trail) && t[a..c] == lead + Strip(t[a..c]) + trail
    ensures var g := Strip(t[a..c]); g != [] ==> !IsSpace(g[0]) && !IsSpace(g[|g| - 1])
  {
    StripSplit(t[a..c]);
  }

  /** No fence marker starts inside a stretch of text without backticks. */
  lemma NoFenceIn(t: string, m: Marker, lo: nat, s: string)
    requires m == JsonFence || m == Literal(Fence)
    requires lo + |s| <= |t| && t[lo..lo + |s|] == s && '`' !in s
    ensures forall i :: lo <= i < lo + |s| ==> !MatchesAt(t, m, i)
  {
    forall i | lo <= i < lo + |s| ensures !MatchesAt(t, m, i) {
      assert t[i] == t[lo..lo + |s|][i - lo] == s[i - lo];
      NoFenceWithoutBacktick(t, m, i);
    }
  }

  /**
   * A reply whose stripped text is prose, then a "```json" fence holding `body`, then
   * anything, yields the value `body` decodes to, when the reply as a whole is not JSON
   * and neither the prose nor the body holds a backtick.
   */
  lemma LabelledFenceRecovered(text: string, prose: string, tag: string, body: string, tail: string, f: Foreign)
    requires |tag| == 4 && JsonLabel(tag)
    requires Strip(text) == prose + Fence + tag + body + Fence + tail
    requires '`' !in prose && '`' !in body
    requires f.loads(Strip(text)).None?
    requires f.loads(Strip(body)).Some?
    ensures ExtractJson(text, f) == Success(f.loads(Strip(body)).value)
  {
    LabelledFenceRead(Strip(text), prose, tag, body, tail, f);
    NoneBeforeNamed(Strip(text), f, 1);
    FirstSuccessWins(text, f, 1);
  }

  /** A "```json" fence after prose without backticks is read, its interior stripped. */
  lemma LabelledFenceRead(t: string, prose: string, tag: string, body: string, tail: string, f: Foreign)
    requires |tag| == 4 && JsonLabel(tag)
    requires t == prose + Fence + tag + body + Fence + tail
    requires '`' !in prose && '`' !in body
    ensures FencedInterior(t, JsonFence, f) == f.loads(Strip(body))
  {
    var p := |prose|;
    var c := p + 7 + |body|;
    assert t[p..p + 3] == Fence && t[p + 3..p + 7] == tag;
    assert t[0..p] == prose && t[p + 7..c] == body && t[c..c + 3] == Fence;
    BacktickFreeSlice(t, 0, prose);
    BacktickFreeSlice(t, p + 7, body);
    FenceAfterProse(t, JsonFence, p, c);
    GroupOfBounds(t, JsonFence, p + 7, c);
    StripIdempotent(body);
  }

  /** Where no "```json" marker occurs, the labelled fence strategy has nothing to read. */
  lemma NoLabelledFence(t: string, f: Foreign)
    requires forall i :: !MatchesAt(t, JsonFence, i)
    ensures FencedInterior(t, JsonFence, f).None?
  {
    assert IndexOf(t, JsonFence, 0).None?;
  }

  /** A plain fence after prose without backticks is read, its interior stripped. */
  lemma PlainFenceRead(t: string, prose: string, body: string, tail: string, f: Foreign)
    requires t == prose + Fence + body + Fence + tail
    requires '`' !in prose && '`' !in body
    ensures FencedInterior(t, Literal(Fence), f) == f.loads(Strip(body))
  {
    var p := |prose|;
    var c := p + 3 + |body|;
    assert t[p..p + 3] == Fence;
    assert t[0..p] == prose && t[p + 3..c] == body && t[c..c + 3] == Fence;
    BacktickFreeSlice(t, 0, prose);
    BacktickFreeSlice(t, p + 3, body);
    FenceAfterProse(t, Literal(Fence), p, c);
    GroupOfBounds(t, Literal(Fence), p + 3, c);
    StripIdempotent(body);
  }

  /**
   * With no "```json" marker anywhere, the first plain fence is used instead: its
   * interior, stripped, is what the reply yields.
   */
  lemma PlainFenceRecovered(text: string, prose: string, body: string, tail: string, f: Foreign)
    requires Strip(text) == prose + Fence + body + Fence + tail
    requires forall i :: !MatchesAt(Strip(text), JsonFence, i)
    requires '`' !in prose && '`' !in body
    requires f.loads(Strip(text)).None?
    requires f.loads(Strip(body)).Some?
    ensures ExtractJson(text, f) == Success(f.loads(Strip(body)).value)
  {
    NoLabelledFence(Strip(text), f);
    PlainFenceRead(Strip(text), prose, body, tail, f);
    NoneBeforeNamed(Strip(text), f, 2);
    FirstSuccessWins(text, f, 2);
  }

  /**
   * A text made of a prefix without `open`, the span from `open` to `close`, and a suffix
   * without `close` has exactly that span as its delimited span.
   */
  lemma DelimitedSpanIs(t: string, open: char, close: char, prose: string, inner: string, tail: string)
    requires t == prose + [open] + inner + [close] + tail
    requires open !in prose && close !in tail
    ensures DelimitedSpan(t, open, close) == Some([open] + inner + [close])
  {
    var p, c := |prose|, |prose| + 1 + |inner|;
    assert t[p] == open && t[c] == close;
    forall k | 0 <= k < p ensures t[k] != open {
      assert t[k] == prose[k];
    }
    forall k | c < k < |t| ensures t[k] != close {
      assert t[k] == tail[k - c - 1];
    }
    assert DelimitedBounds(t, open, close) == Some((p, c));
    assert t[p..c + 1] == [open] + inner + [close];
  }

  /** Without `open` there is no delimited span. */
  lemma NoDelimitedSpan(t: string, open: char, close: char)
    requires open !in t
    ensures DelimitedSpan(t, open, close).None?
  {
    assert forall i :: 0 <= i < |t| ==> t[i] != open;
  }

  /**
   * The object strategy takes the text from the first `{` to the last `}`. A reply made of
   * prose without `{`, one object span and a tail without `}`, and with no fence, yields
   * the span decoded, or failing that the span decoded with its line breaks flattened.
   */
  lemma ObjectRecovered(text: string, prose: string, inner: string, tail: string, f: Foreign)
    requires Strip(text) == prose + "{" + inner + "}" + tail
    requires '`' !in Strip(text)
    requires '{' !in prose && '}' !in tail
    requires f.loads(Strip(text)).None?
    requires var span := "{" + inner + "}"; f.loads(span).Some? || f.loads(Flatten(span)).Some?
    ensures var span := "{" + inner + "}";
      ExtractJson(text, f) == Success(if f.loads(span).Some? then f.loads(span).value else f.loads(Flatten(span)).value)
  {
    var t := Strip(text);
    NoBacktickNoFence(t, f);
    DelimitedSpanIs(t, '{', '}', prose, inner, tail);
    NoneBeforeNamed(t, f, 3);
    FirstSuccessWins(text, f, 3);
  }

  /**
   * A reply with no fence and no `{`, holding prose without `[`, one array span and a tail
   * without `]`, yields the decoded span wrapped as `{"items": value}`.
   */
  lemma ArrayWrapped(text: string, prose: string, inner: string, tail: string, f: Foreign)
    requires Strip(text) == prose + "[" + inner + "]" + tail
    requires '`' !in Strip(text) && '{' !in Strip(text)
    requires '[' !in prose && ']' !in tail
    requires f.loads(Strip(text)).None?
    requires f.loads("[" + inner + "]").Some?
    ensures ExtractJson(text, f) == Success(JObject([("items", f.loads("[" + inner + "]").value)]))
  {
    ArrayRead(Strip(text), prose, inner, tail, f);
    FirstSuccessWins(text, f, 4);
  }

  /** In a text with no fence and no `{`, the array strategy is the first to yield a value. */
  lemma ArrayRead(t: string, prose: string, inner: string, tail: string, f: Foreign)
    requires t == prose + "[" + inner + "]" + tail
    requires '`' !in t && '{' !in t
    requires '[' !in prose && ']' !in tail
    requires f.loads(t).None?
    requires f.loads("[" + inner + "]").Some?
    ensures NoneBefore(t, f, 4)
    ensures Strategy(t, f, 4) == Some(ItemsRecord(f.loads("[" + inner + "]").value))
  {
    NoBacktickNoFence(t, f);
    NoDelimitedSpan(t, '{', '}');
    DelimitedSpanIs(t, '[', ']', prose, inner, tail);
    NoneBeforeNamed(t, f, 4);
  }

  /** No fence, no `{` and no `[`: of the structured strategies only the whole text is tried. */
  lemma OnlyPatternsLeft(t: string, f: Foreign)
    requires '`' !in t && '{' !in t && '[' !in t
    ensures FencedInterior(t, JsonFence, f).None? && FencedInterior(t, Literal(Fence), f).None?
    ensures ObjectSpan(t, f).None? && ArraySpan(t, f).None?
  {
    NoBacktickNoFence(t, f);
    NoDelimitedSpan(t, '{', '}');
    NoDelimitedSpan(t, '[', ']');
  }

  /**
   * A reply with no JSON in it but with question and answer matches becomes a flashcard
   * set: the zipped pairs of stripped matches as cards numbered from 1, under the title
   * "Generated Content", with `total_count` the number of cards.
   */
  lemma QuestionAnswerRecovered(text: string, f: Foreign)
    requires var t := Strip(text); '`' !in t && '{' !in t && '[' !in t && f.loads(t).None?
    requires |f.questionMatches(Strip(text))| > 0 && |f.answerMatches(Strip(text))| > 0
    ensures var t := Strip(text);
      ExtractJson(text, f)
        == Success(FlashcardRecord(Flashcards(StripEach(f.questionMatches(t)), StripEach(f.answerMatches(t)))))
  {
    OnlyPatternsLeft(Strip(text), f);
    NoneBeforeNamed(Strip(text), f, 5);
    FirstSuccessWins(text, f, 5);
  }

  /**
   * A reply with no JSON in it and no question or no answer match raises the error, which
   * quotes at most the first 200 characters of the stripped reply.
   */
  lemma NothingRecovered(text: string, f: Foreign)
    requires var t := Strip(text); '`' !in t && '{' !in t && '[' !in t && f.loads(t).None?
    requires |f.questionMatches(Strip(text))| == 0 || |f.answerMatches(Strip(text))| == 0
    ensures ExtractJson(text, f) == Failure(ErrorMessage(Strip(text)))
  {
    OnlyPatternsLeft(Strip(text), f);
    NoneBeforeNamed(Strip(text), f, 6);
    NoneSucceeds(text, f);
  }

  /** A match followed by one space strips to the match. */
  lemma StripOneTrailingSpace(s: string)
    requires s != [] && !IsSpace(s[0]) && !IsSpace(s[|s| - 1])
    ensures Strip(s + " ") == s
  {
    StripPadded([], s, " ");
    assert [] + s + " " == s + " ";
    StripUnpadded(s);
  }

  predicate Unpadded(s: string) {
    s != [] && !IsSpace(s[0]) && !IsSpace(s[|s| - 1])
  }

  /** Two question matches and two answer matches, as the fallback pairs them up. */
  lemma TwoCards(questions: seq<string>, answers: seq<string>, q1: string, q2: string, a1: string, a2: string)
    requires |questions| == 2 && Strip(questions[0]) == q1 && Strip(questions[1]) == q2
    requires |answers| == 2 && Strip(answers[0]) == a1 && Strip(answers[1]) == a2
    ensures Flashcards(StripEach(questions), StripEach(answers)) == [Flashcard(1, q1, a1), Flashcard(2, q2, a2)]
  {
    var qs, ans := StripEach(questions), StripEach(answers);
    TwoFlashcards(qs, ans);
    assert qs[0] == q1 && qs[1] == q2 && ans[0] == a1 && ans[1] == a2;
  }

  /** Two questions and two answers make two cards, numbered 1 and 2. */
  lemma TwoFlashcards(questions: seq<string>, answers: seq<string>)
    requires |questions| == 2 && |answers| == 2
    ensures Flashcards(questions, answers)
      == [Flashcard(1, questions[0], answers[0]), Flashcard(2, questions[1], answers[1])]
  {
    var cards := Flashcards(questions, answers);
    assert |cards| == 2;
    assert cards[0] == Flashcard(1, questions[0], answers[0]);
    assert cards[1] == Flashcard(2, questions[1], answers[1]);
  }

  /**
   * The worked example of the question/answer fallback: for "Q1: What is 2+2? A1: 4 Q2:
   * Capital of France? A2: Paris" the pattern searches capture the questions and all but
   * the last answer with one trailing space. A reply without JSON whose captures have that
   * shape gives two cards holding the texts without the space, numbered 1 and 2.
   */
  lemma TwoPairsRecovered(text: string, f: Foreign, q1: string, q2: string, a1: string, a2: string)
    requires var t := Strip(text); '`' !in t && '{' !in t && '[' !in t && f.loads(t).None?
    requires f.questionMatches(Strip(text)) == [q1 + " ", q2 + " "]
    requires f.answerMatches(Strip(text)) == [a1 + " ", a2]
    requires Unpadded(q1) && Unpadded(q2) && Unpadded(a1) && Unpadded(a2)
    ensures ExtractJson(text, f) == Success(FlashcardRecord([Flashcard(1, q1, a1), Flashcard(2, q2, a2)]))
  {
    StripOneTrailingSpace(q1);
    StripOneTrailingSpace(q2);
    StripOneTrailingSpace(a1);
    StripUnpadded(a2);
    QuestionAnswerRecovered(text, f);
    TwoCards(f.questionMatches(Strip(text)), f.answerMatches(Strip(text)), q1, q2, a1, a2);
  }
}
