/**
 The deterministic parts of the quiz generator (quiz_generator.py): how
 many questions each Bloom level gets, the string-based answer check, the
 fallback quiz, the brace slice taken from a model reply, and the mean
 response time. The language-model calls themselves are not modelled;
 JSON decoding is a parameter.
 */
module QuizGen {
  import opened Common
  import opened Text
  import opened Dicts
  import opened Stats
  import opened Profile
  import opened Difficulty
  import opened Configurator

  // ------------------------------------------------------------ bloom counts

  /** The mix `generate_quiz` falls back on when the configuration has none. */
  const DefaultMix: Dict<real> := [("remember", 0.2), ("understand", 0.3), ("apply", 0.3), ("analyze", 0.2)]
  const Understand: string := "understand"

  function SumCounts(d: Dict<int>): int {
    if |d| == 0 then 0 else SumCounts(d[..|d| - 1]) + d[|d| - 1].1
  }

  /** `n * x`, by repeated addition, so that proofs about it stay linear. */
  function Times(n: int, x: real): real
    decreases if n < 0 then -n else n
  {
    if n == 0 then 0.0 else if n > 0 then Times(n - 1, x) + x else Times(n + 1, x) - x
  }

  /** Repeated addition is multiplication. */
  lemma {:induction false} TimesIsProduct(n: int, x: real)
    ensures Times(n, x) == n as real * x
    decreases if n < 0 then -n else n
  {
    if n > 0 {
      TimesIsProduct(n - 1, x);
    } else if n < 0 {
      TimesIsProduct(n + 1, x);
    }
  }

  lemma {:induction false} TimesAdd(n: nat, a: real, b: real, c: real)
    requires c == a + b
    ensures Times(n, c) == Times(n, a) + Times(n, b)
  {
    if n > 0 {
      TimesAdd(n - 1, a, b, c);
    }
  }

  lemma {:induction false} TimesNonNegative(n: nat, x: real)
    requires x >= 0.0
    ensures Times(n, x) >= 0.0
  {
    if n > 0 {
      TimesNonNegative(n - 1, x);
    }
  }

  lemma {:induction false} TimesAtMost(n: nat, x: real)
    requires x <= 1.0
    ensures Times(n, x) <= n as real
  {
    if n > 0 {
      TimesAtMost(n - 1, x);
    }
  }

  /** `{level: int(n * ratio)}`: each share truncated toward zero, in the mix's order. */
  function Floors(n: int, ratios: Dict<real>): (r: Dict<int>)
    ensures Keys(r) == Keys(ratios)
    ensures forall i :: 0 <= i < |ratios| ==> r[i].1 == Trunc(Times(n, ratios[i].1))
  {
    if |ratios| == 0 then []
    else
      var last := ratios[|ratios| - 1];
      var front := Floors(n, ratios[..|ratios| - 1]);
      KeysAppend(front, [(last.0, 0)]);
      KeysInit(ratios);
      front + [(last.0, Trunc(Times(n, last.1)))]
  }

  /**
   The shortfall of truncated counts is added to "understand"; `None`
   where that key is missing and the lookup raises.
   */
  function Settle(counts: Dict<int>, n: int): (r: Option<Dict<int>>)
    ensures r.None? <==> SumCounts(counts) < n && Understand !in Keys(counts)
    ensures r.Some? ==> Keys(r.value) == Keys(counts)
    ensures SumCounts(counts) >= n ==> r == Some(counts)
    ensures r.Some? ==> forall k :: k != Understand ==> Get(r.value, k) == Get(counts, k)
    ensures r.Some? && SumCounts(counts) < n ==>
              Get(r.value, Understand) == Some(Get(counts, Understand).value + (n - SumCounts(counts)))
  {
    var diff := n - SumCounts(counts);
    if diff <= 0 then Some(counts)
    else if Understand in Keys(counts) then Some(Put(counts, Understand, Get(counts, Understand).value + diff))
    else None
  }

  /** The per-level counts of `generate_quiz`, for the configured mix or the default one. */
  function BloomCounts(c: QuizConfig): (r: Option<Dict<int>>)
    ensures var n := c.numQuestions.GetOr(DefaultCount);
            var counts := Floors(n, c.difficultyDistribution.GetOr(DefaultMix));
            && (r.None? <==> SumCounts(counts) < n && Understand !in Keys(counts))
            && (r.Some? ==> Keys(r.value) == Keys(counts))
  {
    var n := c.numQuestions.GetOr(DefaultCount);
    Settle(Floors(n, c.difficultyDistribution.GetOr(DefaultMix)), n)
  }

  lemma {:induction false} SumCountsUpdate(d: Dict<int>, i: nat, v: int)
    requires i < |d|
    ensures SumCounts(d[i := (d[i].0, v)]) == SumCounts(d) - d[i].1 + v
  {
    var r := d[i := (d[i].0, v)];
    if i < |d| - 1 {
      assert r[..|r| - 1] == d[..|d| - 1][i := (d[i].0, v)];
      SumCountsUpdate(d[..|d| - 1], i, v);
    } else {
      assert r[..|r| - 1] == d[..|d| - 1];
    }
  }

  /** Storing a new count for a present key changes the total by the difference. */
  lemma SumCountsPut(d: Dict<int>, k: string, v: int)
    requires k in Keys(d)
    ensures SumCounts(Put(d, k, v)) == SumCounts(d) - Get(d, k).value + v
  {
    var i := IndexOf(d, k);
    assert Put(d, k, v) == d[i := (d[i].0, v)];
    SumCountsUpdate(d, i, v);
  }

  /** Adding the shortfall to a present level brings the total to n and keeps counts non-negative. */
  lemma TopUp(counts: Dict<int>, n: int) returns (r: Dict<int>)
    requires Understand in Keys(counts) && SumCounts(counts) < n
    requires forall i :: 0 <= i < |counts| ==> counts[i].1 >= 0
    ensures r == Put(counts, Understand, Get(counts, Understand).value + (n - SumCounts(counts)))
    ensures SumCounts(r) == n
    ensures forall i :: 0 <= i < |r| ==> r[i].1 >= 0
  {
    var i := IndexOf(counts, Understand);
    var v := counts[i].1 + (n - SumCounts(counts));
    assert Get(counts, Understand).value == counts[i].1;
    assert Put(counts, Understand, v) == counts[i := (counts[i].0, v)];
    SumCountsUpdate(counts, i, v);
    r := Put(counts, Understand, v);
  }

  lemma SumCountsSnoc(d: Dict<int>, e: (string, int))
    ensures SumCounts(d + [e]) == SumCounts(d) + e.1
  {
    assert (d + [e])[..|d|] == d;
  }

  /** Truncated shares of a non-negative count are non-negative. */
  lemma {:induction false} FloorsNonNegative(n: int, ratios: Dict<real>)
    requires n >= 0
    requires forall i :: 0 <= i < |ratios| ==> ratios[i].1 >= 0.0
    ensures forall i :: 0 <= i < |ratios| ==> Floors(n, ratios)[i].1 >= 0
  {
    if |ratios| > 0 {
      var front := ratios[..|ratios| - 1];
      assert forall i :: 0 <= i < |front| ==> front[i] == ratios[i];
      FloorsNonNegative(n, front);
      TimesNonNegative(n, ratios[|ratios| - 1].1);
    }
  }

  /** The total of the truncated shares grows by the last share's truncation. */
  lemma FloorsSumSnoc(n: int, ratios: Dict<real>)
    requires |ratios| > 0
    ensures SumCounts(Floors(n, ratios))
         == SumCounts(Floors(n, ratios[..|ratios| - 1])) + Trunc(Times(n, ratios[|ratios| - 1].1))
  {
    var last := ratios[|ratios| - 1];
    assert Floors(n, ratios) == Floors(n, ratios[..|ratios| - 1]) + [(last.0, Trunc(Times(n, last.1)))];
    SumCountsSnoc(Floors(n, ratios[..|ratios| - 1]), (last.0, Trunc(Times(n, last.1))));
  }

  lemma TruncAddBelow(k: int, bound: real, x: real)
    requires k as real <= bound && x >= 0.0
    ensures (k + Trunc(x)) as real <= bound + x
  {
  }

  /** One more share keeps the truncated total below the exact total. */
  lemma FloorsBelowStep(n: nat, ratios: Dict<real>)
    requires |ratios| > 0 && ratios[|ratios| - 1].1 >= 0.0
    requires SumCounts(Floors(n, ratios[..|ratios| - 1])) as real <= Times(n, SumValues(ratios[..|ratios| - 1]))
    ensures SumCounts(Floors(n, ratios)) as real <= Times(n, SumValues(ratios))
  {
    var init := ratios[..|ratios| - 1];
    var last := ratios[|ratios| - 1];
    var x := Times(n, last.1);
    var bound := Times(n, SumValues(init));
    assert x >= 0.0 by {
      TimesNonNegative(n, last.1);
    }
    assert SumCounts(Floors(n, ratios)) == SumCounts(Floors(n, init)) + Trunc(x) by {
      FloorsSumSnoc(n, ratios);
    }
    TimesAdd(n, SumValues(init), last.1, SumValues(ratios));
    TruncAddBelow(SumCounts(Floors(n, init)), bound, x);
  }

  /** Truncated shares of a non-negative count add up to at most the exact shares. */
  lemma {:induction false} FloorsBelow(n: nat, ratios: Dict<real>)
    requires forall i :: 0 <= i < |ratios| ==> ratios[i].1 >= 0.0
    ensures SumCounts(Floors(n, ratios)) as real <= Times(n, SumValues(ratios))
  {
    if |ratios| > 0 {
      FloorsBelow(n, ratios[..|ratios| - 1]);
      FloorsBelowStep(n, ratios);
    } else {
      TimesNonNegative(n, 0.0);
    }
  }

  /**
   Settling non-negative counts that fall short of n, or meet it, at a
   mix with an "understand" level gives non-negative counts totalling n.
   */
  lemma SettleExact(counts: Dict<int>, n: int)
    requires Understand in Keys(counts) && SumCounts(counts) <= n
    requires forall i :: 0 <= i < |counts| ==> counts[i].1 >= 0
    ensures Settle(counts, n).Some?
    ensures SumCounts(Settle(counts, n).value) == n
    ensures forall i :: 0 <= i < |Settle(counts, n).value| ==> Settle(counts, n).value[i].1 >= 0
  {
    if SumCounts(counts) < n {
      var topped := TopUp(counts, n);
      assert Settle(counts, n) == Some(topped);
    }
  }

  /**
   With non-negative ratios summing to at most 1 and an "understand"
   level, the counts are non-negative and add up to exactly the requested
   number of questions.
   */
  lemma BloomCountsExact(c: QuizConfig)
    requires c.numQuestions.GetOr(DefaultCount) >= 0
    requires var ratios := c.difficultyDistribution.GetOr(DefaultMix);
             && Understand in Keys(ratios)
             && (forall i :: 0 <= i < |ratios| ==> ratios[i].1 >= 0.0)
             && SumValues(ratios) <= 1.0
    ensures BloomCounts(c).Some?
    ensures SumCounts(BloomCounts(c).value) == c.numQuestions.GetOr(DefaultCount)
    ensures forall i :: 0 <= i < |BloomCounts(c).value| ==> BloomCounts(c).value[i].1 >= 0
  {
    var n := c.numQuestions.GetOr(DefaultCount);
    var ratios := c.difficultyDistribution.GetOr(DefaultMix);
    var counts := Floors(n, ratios);
    FloorsBelow(n, ratios);
    FloorsNonNegative(n, ratios);
    TimesAtMost(n, SumValues(ratios));
    SettleExact(counts, n);
  }

  /** The default mix sums to 1 and has an "understand" level. */
  lemma DefaultMixIsMix()
    ensures Distinct(DefaultMix) && Understand in Keys(DefaultMix) && SumValues(DefaultMix) == 1.0
    ensures forall i :: 0 <= i < |DefaultMix| ==> DefaultMix[i].1 >= 0.0
  {
    Sum4(DefaultMix[0], DefaultMix[1], DefaultMix[2], DefaultMix[3]);
    assert Keys(DefaultMix)[1] == Understand;
  }

  /** Counts from an adapted configuration (or from none) add up to the requested number. */
  lemma AdaptedCountsExact(c: QuizConfig, level: Level, bloom: Dict<real>)
    requires c.numQuestions.GetOr(DefaultCount) >= 0
    requires c.difficultyDistribution == Some(AdjustDistribution(level, bloom)) || c.difficultyDistribution.None?
    ensures BloomCounts(c).Some?
    ensures SumCounts(BloomCounts(c).value) == c.numQuestions.GetOr(DefaultCount)
  {
    if c.difficultyDistribution.None? {
      DefaultMixIsMix();
    } else {
      var base := BaseDistribution(level);
      assert Keys(base)[1] == Understand;
    }
    BloomCountsExact(c);
  }

  // ------------------------------------------------------------- validation

  datatype Grade = Grade(score: real, isCorrect: bool, feedback: string, missingElements: seq<string>, misconceptions: seq<string>)

  const FullCredit: real := 1.0
  const PartialCredit: real := 0.5

  /**
   `_simple_validation`: full credit for the same answer up to case and
   surrounding whitespace, half credit when one contains the other.
   */
  function SimpleValidation(userAnswer: string, correctAnswer: string): (g: Grade)
    ensures g.score == 0.0 || g.score == PartialCredit || g.score == FullCredit
    ensures g.isCorrect <==> g.score == FullCredit
    ensures g.score == FullCredit <==> Normalize(userAnswer) == Normalize(correctAnswer)
    ensures g.score == PartialCredit <==>
              && Normalize(userAnswer) != Normalize(correctAnswer)
              && (Mentions(Normalize(correctAnswer), Normalize(userAnswer)) ||
                  Mentions(Normalize(userAnswer), Normalize(correctAnswer)))
  {
    var u := Normalize(userAnswer);
    var c := Normalize(correctAnswer);
    ContainsMentions(c, u);
    ContainsMentions(u, c);
    if u == c then
      Grade(FullCredit, true, "Correct!", [], [])
    else if Contains(c, u) || Contains(u, c) then
      Grade(PartialCredit, false, "Partially correct. Review the complete answer.", ["Complete answer"], [])
    else
      Grade(0.0, false, "Incorrect. The correct answer is: " + correctAnswer, ["Correct answer"], ["Review this topic"])
  }

  /** The score does not depend on which answer is the reference. */
  lemma ValidationSymmetric(a: string, b: string)
    ensures SimpleValidation(a, b).score == SimpleValidation(b, a).score
  {
  }

  /** A blank answer to a non-blank question gets half credit, since "" is in every string. */
  lemma BlankAnswerHalfCredit(userAnswer: string, correctAnswer: string)
    requires Normalize(userAnswer) == "" && Normalize(correctAnswer) != ""
    ensures SimpleValidation(userAnswer, correctAnswer).score == PartialCredit
    ensures !SimpleValidation(userAnswer, correctAnswer).isCorrect
  {
    ContainsEmpty(Normalize(correctAnswer));
  }

  /** Re-normalising the learner's answer first changes nothing. */
  lemma ValidationIgnoresCaseAndSpacing(userAnswer: string, correctAnswer: string)
    ensures SimpleValidation(Normalize(userAnswer), correctAnswer) == SimpleValidation(userAnswer, correctAnswer)
  {
    NormalizeIdempotent(userAnswer);
  }

  // ----------------------------------------------------------- fallback quiz

  datatype Question = Question(
    id: Option<string>,
    kind: Option<string>,
    bloomLevel: Option<string>,
    text: Option<string>,
    options: Option<seq<string>>,
    correctAnswer: Option<string>,
    explanation: Option<string>,
    difficulty: Option<int>,
    topic: Option<string>)

  datatype Metadata = Metadata(estimatedTime: Option<int>, fallback: Option<bool>, reason: Option<string>)

  datatype Quiz = Quiz(
    title: Option<string>,
    description: Option<string>,
    questions: Option<seq<Question>>,
    metadata: Option<Metadata>)

  const FallbackCount: int := 5
  const FallbackAnswer: string := "A"
  const MultipleChoice: string := "multiple_choice"

  function FallbackWith(i: nat, options: seq<string>): Question {
    Question(
      Some("q" + NatToString(i)), Some(MultipleChoice), Some("remember"),
      Some("Sample question " + NatToString(i) + " about the content"),
      Some(options), Some(FallbackAnswer), Some("This is a fallback question."),
      Some(3), Some(DefaultTopicName))
  }

  const DefaultTopicName: string := "General"

  /** Question i of the fallback quiz as the generator writes it: options "Option A" to "Option D". */
  function FallbackQuestionAsWritten(i: nat): (q: Question)
    ensures q.kind == Some(MultipleChoice)
    ensures q.options == Some(["Option A", "Option B", "Option C", "Option D"])
    ensures q.correctAnswer == Some(FallbackAnswer)
    ensures q.id == Some("q" + NatToString(i))
  {
    FallbackWith(i, ["Option A", "Option B", "Option C", "Option D"])
  }

  /**
   Question i of the fallback quiz with its options labelled the way the
   generator asks the model to label them ("A) ...").
   */
  function FallbackQuestion(i: nat): (q: Question)
    ensures q.kind == Some(MultipleChoice) && q.correctAnswer == Some(FallbackAnswer)
    ensures q.options.Some? && |q.options.value| == 4
    ensures q.id == Some("q" + NatToString(i))
  {
    FallbackWith(i, ["A) Option A", "B) Option B", "C) Option C", "D) Option D"])
  }

  const FallbackMetadata: Metadata := Metadata(None, Some(true), Some("AI generation failed"))

  /** Max(0, n) fallback questions q1 to qn, labelled or as the generator writes them. */
  function FallbackQuizOf(n: int, labelled: bool): (q: Quiz)
    ensures q.questions.Some? && |q.questions.value| == Max(0, n)
  {
    var count := Max(0, n);
    Quiz(None, None,
         Some(seq(count, i requires 0 <= i < count =>
                    if labelled then FallbackQuestion(i + 1) else FallbackQuestionAsWritten(i + 1))),
         Some(FallbackMetadata))
  }

  /**
   `_generate_fallback_quiz`: questions q1 to qn, n defaulting to 5, none
   when n is not positive, each with the unlabelled options "Option A" to
   "Option D".
   */
  function FallbackQuiz(numQuestions: Option<int>): (q: Quiz)
    ensures q.questions.Some?
    ensures |q.questions.value| == Max(0, numQuestions.GetOr(FallbackCount))
    ensures forall i :: 0 <= i < |q.questions.value| ==> q.questions.value[i] == FallbackQuestionAsWritten(i + 1)
    ensures q.metadata == Some(FallbackMetadata)
  {
    FallbackQuizOf(numQuestions.GetOr(FallbackCount), false)
  }

  /** The fallback quiz as evidently intended: the same questions with labelled options. */
  function FallbackQuizCorrected(numQuestions: Option<int>): (q: Quiz)
    ensures q.questions.Some?
    ensures |q.questions.value| == Max(0, numQuestions.GetOr(FallbackCount))
    ensures forall i :: 0 <= i < |q.questions.value| ==> q.questions.value[i] == FallbackQuestion(i + 1)
    ensures q.metadata == Some(FallbackMetadata)
  {
    FallbackQuizOf(numQuestions.GetOr(FallbackCount), true)
  }

  /** The fallback questions have pairwise different ids. */
  lemma FallbackIdsDistinct(numQuestions: Option<int>, i: nat, j: nat)
    requires var qs := FallbackQuiz(numQuestions).questions.value; i < j < |qs|
    ensures var qs := FallbackQuiz(numQuestions).questions.value; qs[i].id != qs[j].id
  {
    NatToStringInjective(i + 1, j + 1);
    var a, b := NatToString(i + 1), NatToString(j + 1);
    assert ("q" + a)[1..] == a;
    assert ("q" + b)[1..] == b;
  }

  // ------------------------------------------------------------ brace slice

  function FirstIndex(s: string, c: char): (r: Option<nat>)
    ensures r.None? <==> c !in s
    ensures r.Some? ==> r.value < |s| && s[r.value] == c && c !in s[..r.value]
  {
    if |s| == 0 then None
    else if s[0] == c then Some(0)
    else
      match FirstIndex(s[1..], c)
      case None => None
      case Some(i) =>
        assert s[..i + 1] == [s[0]] + s[1..][..i];
        Some(i + 1)
  }

  function LastIndex(s: string, c: char): (r: Option<nat>)
    ensures r.None? <==> c !in s
    ensures r.Some? ==> r.value < |s| && s[r.value] == c && c !in s[r.value + 1..]
  {
    if |s| == 0 then None
    else if s[|s| - 1] == c then Some(|s| - 1)
    else
      match LastIndex(s[..|s| - 1], c)
      case None => None
      case Some(i) =>
        assert s[i + 1..] == s[..|s| - 1][i + 1..] + [s[|s| - 1]];
        Some(i)
  }

  /** The slice sits at position i, no '{' comes before it and, when non-empty, no '}' after it. */
  ghost predicate BraceFramed(text: string, slice: string, i: int) {
    && OccursAt(text, slice, i)
    && '{' !in text[..i]
    && (|slice| > 0 ==> slice[0] == '{' && slice[|slice| - 1] == '}' && '}' !in text[i + |slice|..])
  }

  /**
   The text `_parse_quiz_response` hands to the JSON decoder: from the
   first '{' to the last '}' inclusive, empty when the last '}' comes
   before the first '{'; `None` when either brace is missing.
   */
  function BraceSlice(text: string): (r: Option<string>)
    ensures r.None? <==> '{' !in text || '}' !in text
    ensures r.Some? ==> exists i :: BraceFramed(text, r.value, i)
  {
    match (FirstIndex(text, '{'), LastIndex(text, '}'))
    case (Some(start), Some(last)) =>
      if start <= last then
        assert BraceFramed(text, text[start..last + 1], start);
        Some(text[start..last + 1])
      else
        assert BraceFramed(text, [], start);
        Some([])
    case _ => None
  }

  /**
   `_parse_quiz_response`: decode the brace slice, or fall back to the
   five-question quiz when there is none or it does not decode. An empty
   slice never decodes: `json.loads("")` raises.
   */
  function ParseQuizResponse(text: string, decode: string -> Option<Quiz>): (q: Quiz)
    ensures BraceSlice(text).None? ==> q == FallbackQuiz(Some(FallbackCount))
    ensures BraceSlice(text) == Some([]) ==> q == FallbackQuiz(Some(FallbackCount))
    ensures BraceSlice(text).Some? && |BraceSlice(text).value| > 0 && decode(BraceSlice(text).value).Some? ==>
              q == decode(BraceSlice(text).value).value
    ensures BraceSlice(text).Some? && decode(BraceSlice(text).value).None? ==> q == FallbackQuiz(Some(FallbackCount))
  {
    match BraceSlice(text)
    case None => FallbackQuiz(Some(FallbackCount))
    case Some(slice) =>
      if |slice| == 0 then FallbackQuiz(Some(FallbackCount))
      else
        match decode(slice)
        case Some(quiz) => quiz
        case None => FallbackQuiz(Some(FallbackCount))
  }

  /** A reply whose last '}' comes before its first '{' falls back, whatever the decoder. */
  lemma ReversedBracesFallBack(text: string, decode: string -> Option<Quiz>, i: nat, j: nat)
    requires j < i < |text| && text[i] == '{' && text[j] == '}'
    requires '{' !in text[..i] && '}' !in text[i..]
    ensures ParseQuizResponse(text, decode) == FallbackQuiz(Some(FallbackCount))
  {
  }

  /** A reply without an opening brace always yields the five fallback questions, whatever the decoder. */
  lemma NoBraceFallsBack(text: string, decode: string -> Option<Quiz>)
    requires '{' !in text
    ensures |ParseQuizResponse(text, decode).questions.value| == FallbackCount
    ensures ParseQuizResponse(text, decode).metadata.value.fallback == Some(true)
  {
  }

  // ---------------------------------------------------------- response time

  /** `avg_response_time`: 0 with no samples, else their mean. */
  function AvgResponseTime(times: seq<real>): (r: real)
    ensures |times| == 0 ==> r == 0.0
    ensures |times| > 0 ==> r * |times| as real == Sum(times)
  {
    if |times| == 0 then 0.0 else Mean(times)
  }

  /** The mean response time lies between any bounds on the samples. */
  lemma AvgResponseTimeBetween(times: seq<real>, lo: real, hi: real)
    requires |times| > 0
    requires forall i :: 0 <= i < |times| ==> lo <= times[i] <= hi
    ensures lo <= AvgResponseTime(times) <= hi
  {
    MeanBounds(times, lo, hi);
  }
}
