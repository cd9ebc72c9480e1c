/** The quiz session controller: the loaded question set, the answer map, the
    Answering/Reviewing flag and the score, and the three operations that change them. */
module QuizSession {
  import opened Scoring

  /** What the question request delivers: the question set, or a failure (which is only logged). */
  datatype LoadOutcome = Loaded(qs: seq<Question>) | LoadFailed

  /** `idx` is a position among the options of some question of `qs` whose identifier is `key`:
      exactly the selections an option button of the question list can make. */
  ghost predicate ValidChoice(qs: seq<Question>, key: string, idx: int)
  {
    exists j :: 0 <= j < |qs| && qs[j].id == key && 0 <= idx < |qs[j].options|
  }

  /** Every recorded answer is an option position of a question carrying that identifier. */
  ghost predicate AnswersValid(qs: seq<Question>, answers: Answers)
  {
    forall key :: key in answers ==> ValidChoice(qs, key, answers[key])
  }

  class Session {
    var questions: seq<Question>
    var answers: Answers
    /** false while Answering, true once Reviewing; nothing sets it back. */
    var submitted: bool
    var score: int

    /** Once reviewing, the score is the one the scoring rule gives for the frozen answers. */
    ghost predicate Valid()
      reads this
    {
      submitted ==> score == CountCorrect(questions, answers)
    }

    /** A session at mount: no questions yet, nothing answered, answering, score zero. */
    constructor ()
      ensures questions == [] && answers == map[] && !submitted && score == 0
      ensures Valid() && AnswersValid(questions, answers)
    {
      questions := [];
      answers := map[];
      submitted := false;
      score := 0;
    }

    /** The effect of the question request: a delivered set replaces the questions
        wholesale; a failure leaves them as they were (empty at mount). Nothing else
        changes. It happens before any option is shown, so with the answer map still
        empty the session stays consistent. */
    method Load(outcome: LoadOutcome)
      requires Valid()
      modifies this`questions
      ensures questions == (if outcome.Loaded? then outcome.qs else old(questions))
      ensures answers == old(answers) && submitted == old(submitted) && score == old(score)
      ensures outcome.LoadFailed? || old(answers) == map[] ==> Valid()
      ensures old(answers) == map[] ==> AnswersValid(questions, answers)
    {
      if outcome.Loaded? {
        if answers == map[] {
          EmptyAnswersScoreZero(questions);
          EmptyAnswersScoreZero(outcome.qs);
        }
        questions := outcome.qs;
      }
    }

    /** Record option `idx` for question `qId` while answering, overwriting any earlier
        choice for it and keeping every other entry; once reviewing, do nothing. */
    method Select(qId: string, idx: int)
      requires Valid()
      modifies this`answers
      ensures Valid()
      ensures !old(submitted) ==> answers == old(answers)[qId := idx]
      ensures !old(submitted) ==> forall k :: k in old(answers) && k != qId ==> k in answers && answers[k] == old(answers)[k]
      ensures old(submitted) ==> answers == old(answers)
      ensures questions == old(questions) && submitted == old(submitted) && score == old(score)
      ensures old(AnswersValid(questions, answers)) && ValidChoice(questions, qId, idx) ==> AnswersValid(questions, answers)
    {
      if !submitted {
        answers := answers[qId := idx];
      }
    }

    /** Score the attempt and move to Reviewing: one point per question whose recorded
        answer is its correct option, unanswered questions scoring nothing. The question
        set and the answers are left as they are. */
    method Submit()
      requires Valid() && !submitted
      modifies this`score, this`submitted
      ensures Valid() && submitted
      ensures questions == old(questions) && answers == old(answers)
      ensures score == CountCorrect(questions, answers)
      ensures 0 <= score <= |questions|
      ensures score == |HitPositions(questions, answers)|
    {
      var total := 0;
      for i := 0 to |questions|
        invariant total == CountCorrect(questions[..i], answers)
      {
        var q := questions[i];
        assert questions[..i + 1][..i] == questions[..i];
        if q.id in answers && answers[q.id] == q.correctAnswerIndex {
          total := total + 1;
        }
      }
      assert questions[..|questions|] == questions;
      CountCorrectIsHitCount(questions, answers);
      score := total;
      submitted := true;
    }
  }

  /** One question answered with its correct option: score 1, reviewing. */
  method ScenarioAnsweredCorrectly() returns (score: int, reviewing: bool)
    ensures score == 1 && reviewing
  {
    var s := new Session();
    var q1 := Question("q1", "first", ["A", "B"], 0);
    s.Load(Loaded([q1]));
    s.Select("q1", 0);
    s.Submit();
    assert [q1][..0] == [];
    score, reviewing := s.score, s.submitted;
  }

  /** The same question left unanswered: score 0. */
  method ScenarioUnanswered() returns (score: int, reviewing: bool)
    ensures score == 0 && reviewing
  {
    var s := new Session();
    var q1 := Question("q1", "first", ["A", "B"], 0);
    s.Load(Loaded([q1]));
    s.Submit();
    EmptyAnswersScoreZero([q1]);
    score, reviewing := s.score, s.submitted;
  }

  /** Two questions, one answered correctly and one wrongly: score 1 out of 2. */
  method ScenarioOneRightOneWrong() returns (score: int, total: int)
    ensures score == 1 && total == 2
  {
    var s := new Session();
    var q1 := Question("q1", "first", ["A", "B"], 0);
    var q2 := Question("q2", "second", ["A", "B", "C"], 2);
    s.Load(Loaded([q1, q2]));
    s.Select("q1", 0);
    s.Select("q2", 1);
    s.Submit();
    assert [q1, q2][..1] == [q1];
    assert [q1][..0] == [];
    score, total := s.score, |s.questions|;
  }

  /** A selection made after submitting is ignored: the wrong answer and the score stay. */
  method ScenarioSelectAfterSubmit() returns (score: int, recorded: int)
    ensures score == 0 && recorded == 1
  {
    var s := new Session();
    var q1 := Question("q1", "first", ["A", "B"], 0);
    s.Load(Loaded([q1]));
    s.Select("q1", 1);
    s.Submit();
    assert [q1][..0] == [];
    s.Select("q1", 0);
    score, recorded := s.score, s.answers["q1"];
  }
}
