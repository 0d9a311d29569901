/**
 * The clean-up applied to study material before it is put into a prompt: every character
 * that is neither printable nor a line feed, carriage return or tab is dropped, and the
 * rest is cut to a fixed length (3000 characters for a quiz, 5000 for a summary).
 * `str.isprintable` is Unicode-table driven and is taken as a parameter.
 */
module Content {
  import opened Text

  const QuizContentLimit := 3000
  const SummaryContentLimit := 5000

  /** Does the clean-up keep `c`? */
  predicate Kept(c: char, isPrintable: char -> bool) {
    isPrintable(c) || c == '\n' || c == '\r' || c == '\t'
  }

  /** The characters of `s` that are kept, in their order; only kept characters remain. */
  function KeepPrintable(s: string, isPrintable: char -> bool): (r: string)
    ensures |r| <= |s|
    ensures forall i :: 0 <= i < |r| ==> Kept(r[i], isPrintable)
  {
    if s == [] then []
    else
      var rest := KeepPrintable(s[1..], isPrintable);
      if Kept(s[0], isPrintable) then [s[0]] + rest else rest
  }

  /** Exactly the kept characters of `s` occur in the filtered text. */
  lemma {:induction false} KeepPrintableMembers(s: string, isPrintable: char -> bool)
    ensures forall c :: c in KeepPrintable(s, isPrintable) <==> c in s && Kept(c, isPrintable)
  {
    if s != [] {
      KeepPrintableMembers(s[1..], isPrintable);
      assert forall c :: c in s <==> c == s[0] || c in s[1..];
    }
  }

  /** A single character is kept or dropped on its own. */
  lemma KeepPrintableOne(c: char, isPrintable: char -> bool)
    ensures KeepPrintable([c], isPrintable) == if Kept(c, isPrintable) then [c] else []
  {
    assert [c][1..] == [];
  }

  /** The filter works character by character, in order: filtering a concatenation filters each part. */
  lemma {:induction false} KeepPrintableAppend(a: string, b: string, isPrintable: char -> bool)
    ensures KeepPrintable(a + b, isPrintable) == KeepPrintable(a, isPrintable) + KeepPrintable(b, isPrintable)
  {
    if a != [] {
      assert (a + b)[0] == a[0] && (a + b)[1..] == a[1..] + b;
      KeepPrintableAppend(a[1..], b, isPrintable);
    } else {
      assert a + b == b;
    }
  }

  /** The clean text cut to `limit` characters. */
  function Sanitize(content: string, isPrintable: char -> bool, limit: nat): (r: string)
    ensures |r| <= limit
    ensures forall i :: 0 <= i < |r| ==> Kept(r[i], isPrintable)
    ensures |r| <= |KeepPrintable(content, isPrintable)| && r == KeepPrintable(content, isPrintable)[..|r|]
    ensures |KeepPrintable(content, isPrintable)| <= limit ==> r == KeepPrintable(content, isPrintable)
    ensures |KeepPrintable(content, isPrintable)| > limit ==> |r| == limit
  {
    Take(KeepPrintable(content, isPrintable), limit)
  }

  /** Text made only of kept characters passes the filter unchanged. */
  lemma {:induction false} KeepPrintableClean(s: string, isPrintable: char -> bool)
    requires forall i :: 0 <= i < |s| ==> Kept(s[i], isPrintable)
    ensures KeepPrintable(s, isPrintable) == s
  {
    if s != [] {
      KeepPrintableClean(s[1..], isPrintable);
    }
  }

  /** Cleaning twice with the same limit gives what cleaning once gives. */
  lemma SanitizeIdempotent(content: string, isPrintable: char -> bool, limit: nat)
    ensures Sanitize(Sanitize(content, isPrintable, limit), isPrintable, limit) == Sanitize(content, isPrintable, limit)
  {
    KeepPrintableClean(Sanitize(content, isPrintable, limit), isPrintable);
  }

  /**
   * The quiz excerpt is the start of the summary excerpt: both cut the same clean text,
   * the quiz one at 3000 characters, the summary one at 5000.
   */
  lemma QuizExcerptPrefixesSummary(content: string, isPrintable: char -> bool)
    ensures var quiz := Sanitize(content, isPrintable, QuizContentLimit);
      quiz == Sanitize(content, isPrintable, SummaryContentLimit)[..|quiz|]
  {
  }
}
