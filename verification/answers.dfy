/**
 One submitted answer, as the analytics see it: the record `track_answer`
 receives as `answer_data` and `generate_report` receives in its answer list.
 Optional dictionary keys are `Option`s; the defaults the code applies when a
 key is absent are defined here once.
 */
module Answers {
  import opened Common
  import opened Tally
  import opened Dicts

  datatype Answer = Answer(
    isCorrect: bool,            // `is_correct`; an absent key reads as false
    timeTaken: Option<real>,    // `time_taken`, seconds
    topic: Option<string>,      // `topic`
    bloomLevel: Option<string>, // `bloom_level`
    questionType: Option<string>, // `question_type`
    userAnswer: string)         // `user_answer`; an absent key reads as ""

  const DefaultTopic: string := "General"
  const DefaultBloom: string := "understand"
  const DefaultType: string := "unknown"
  const MultipleChoice: string := "multiple_choice"

  function TopicOf(a: Answer): string { a.topic.GetOr(DefaultTopic) }

  function BloomOf(a: Answer): string { a.bloomLevel.GetOr(DefaultBloom) }

  function TypeOf(a: Answer): string { a.questionType.GetOr(DefaultType) }

  /** The correctness of each answer, in order. */
  function Marks(answers: seq<Answer>): (bs: seq<bool>)
    ensures |bs| == |answers|
    ensures forall i :: 0 <= i < |answers| ==> bs[i] == answers[i].isCorrect
  {
    seq(|answers|, i requires 0 <= i < |answers| => answers[i].isCorrect)
  }

  lemma MarksSlice(answers: seq<Answer>, i: nat, j: nat)
    requires i <= j <= |answers|
    ensures Marks(answers[i..j]) == Marks(answers)[i..j]
  {
  }

  /** `[a['time_taken'] for a in answers if 'time_taken' in a]`. */
  function Times(answers: seq<Answer>): (ts: seq<real>)
    ensures |ts| <= |answers|
  {
    if |answers| == 0 then []
    else
      var a := answers[|answers| - 1];
      Times(answers[..|answers| - 1]) + (if a.timeTaken.Some? then [a.timeTaken.value] else [])
  }

  /** A time is recorded exactly when some answer carries it. */
  lemma {:induction false} TimesMembers(answers: seq<Answer>)
    ensures forall t :: t in Times(answers) <==> exists a :: a in answers && a.timeTaken == Some(t)
  {
    if |answers| > 0 {
      TimesMembers(answers[..|answers| - 1]);
      FrontLast(answers);
    }
  }

  /** The times of a concatenation are the times of each part, in order. */
  lemma {:induction false} TimesAppend(x: seq<Answer>, y: seq<Answer>)
    ensures Times(x + y) == Times(x) + Times(y)
  {
    if |y| == 0 {
      assert x + y == x;
    } else {
      var y0 := y[..|y| - 1];
      TimesAppend(x, y0);
      assert (x + y)[..|x + y| - 1] == x + y0;
    }
  }

  /** The answers to multiple-choice questions, in order. */
  function MultipleChoiceAnswers(answers: seq<Answer>): (mc: seq<Answer>)
    ensures |mc| <= |answers|
  {
    if |answers| == 0 then []
    else
      var a := answers[|answers| - 1];
      MultipleChoiceAnswers(answers[..|answers| - 1]) + (if a.questionType == Some(MultipleChoice) then [a] else [])
  }

  /** An answer is kept exactly when it answers a multiple-choice question. */
  lemma {:induction false} MultipleChoiceMembers(answers: seq<Answer>)
    ensures forall a :: a in MultipleChoiceAnswers(answers) <==> a in answers && a.questionType == Some(MultipleChoice)
  {
    if |answers| > 0 {
      MultipleChoiceMembers(answers[..|answers| - 1]);
      FrontLast(answers);
    }
  }

  /** The multiple-choice answers of a concatenation are those of each part, in order. */
  lemma {:induction false} MultipleChoiceAppend(x: seq<Answer>, y: seq<Answer>)
    ensures MultipleChoiceAnswers(x + y) == MultipleChoiceAnswers(x) + MultipleChoiceAnswers(y)
  {
    if |y| == 0 {
      assert x + y == x;
    } else {
      var y0 := y[..|y| - 1];
      MultipleChoiceAppend(x, y0);
      assert (x + y)[..|x + y| - 1] == x + y0;
    }
  }

  /** (topic, correct) for each answer. */
  function TopicObs(answers: seq<Answer>): (obs: seq<(string, bool)>)
    ensures |obs| == |answers|
    ensures forall i :: 0 <= i < |answers| ==> obs[i] == (TopicOf(answers[i]), answers[i].isCorrect)
  {
    seq(|answers|, i requires 0 <= i < |answers| => (TopicOf(answers[i]), answers[i].isCorrect))
  }

  /** (Bloom level, correct) for each answer. */
  function BloomObs(answers: seq<Answer>): (obs: seq<(string, bool)>)
    ensures |obs| == |answers|
    ensures forall i :: 0 <= i < |answers| ==> obs[i] == (BloomOf(answers[i]), answers[i].isCorrect)
  {
    seq(|answers|, i requires 0 <= i < |answers| => (BloomOf(answers[i]), answers[i].isCorrect))
  }

  /** (question type, correct) for each answer. */
  function TypeObs(answers: seq<Answer>): (obs: seq<(string, bool)>)
    ensures |obs| == |answers|
    ensures forall i :: 0 <= i < |answers| ==> obs[i] == (TypeOf(answers[i]), answers[i].isCorrect)
  {
    seq(|answers|, i requires 0 <= i < |answers| => (TypeOf(answers[i]), answers[i].isCorrect))
  }

  lemma ObsMarksAre(answers: seq<Answer>)
    ensures ObsMarks(TopicObs(answers)) == Marks(answers)
    ensures ObsMarks(BloomObs(answers)) == Marks(answers)
    ensures ObsMarks(TypeObs(answers)) == Marks(answers)
  {
  }

  /** The observed topics are exactly the topics of the answers. */
  lemma TopicKeys(answers: seq<Answer>)
    ensures forall k :: k in Keys(TopicObs(answers)) <==> exists a :: a in answers && TopicOf(a) == k
  {
    forall k ensures k in Keys(TopicObs(answers)) <==> exists a :: a in answers && TopicOf(a) == k {
      if exists a :: a in answers && TopicOf(a) == k {
        var a :| a in answers && TopicOf(a) == k;
        var i :| 0 <= i < |answers| && answers[i] == a;
        assert Keys(TopicObs(answers))[i] == k;
      }
    }
  }

  /** The observed Bloom levels are exactly the levels of the answers. */
  lemma BloomKeys(answers: seq<Answer>)
    ensures forall k :: k in Keys(BloomObs(answers)) <==> exists a :: a in answers && BloomOf(a) == k
  {
    forall k ensures k in Keys(BloomObs(answers)) <==> exists a :: a in answers && BloomOf(a) == k {
      if exists a :: a in answers && BloomOf(a) == k {
        var a :| a in answers && BloomOf(a) == k;
        var i :| 0 <= i < |answers| && answers[i] == a;
        assert Keys(BloomObs(answers))[i] == k;
      }
    }
  }

  /** The observed question types are exactly the types of the answers. */
  lemma TypeKeys(answers: seq<Answer>)
    ensures forall k :: k in Keys(TypeObs(answers)) <==> exists a :: a in answers && TypeOf(a) == k
  {
    forall k ensures k in Keys(TypeObs(answers)) <==> exists a :: a in answers && TypeOf(a) == k {
      if exists a :: a in answers && TypeOf(a) == k {
        var a :| a in answers && TypeOf(a) == k;
        var i :| 0 <= i < |answers| && answers[i] == a;
        assert Keys(TypeObs(answers))[i] == k;
      }
    }
  }
}
