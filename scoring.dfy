/** Questions, the answer map and the scoring rule of one quiz attempt. */
module Scoring {

  /** A multiple-choice question as the question source delivers it. */
  datatype Question = Question(id: string, prompt: string, options: seq<string>, correctAnswerIndex: int)

  /** The answer map: question identifier to the index of the option chosen for it.
      Being a map, it holds at most one answer per identifier. */
  type Answers = map<string, int>

  /** Whether the answer recorded for `q` is its correct option. A question with no
      recorded answer never matches (a missing entry is never equal to an index). */
  function IsHit(q: Question, answers: Answers): (hit: bool)
    ensures q.id !in answers ==> !hit
    ensures hit ==> answers[q.id] == q.correctAnswerIndex
  {
    q.id in answers && answers[q.id] == q.correctAnswerIndex
  }

  /** The score of an attempt: the number of questions whose recorded answer is the
      correct option, accumulated in the order of the question set. */
  function CountCorrect(qs: seq<Question>, answers: Answers): (n: nat)
    ensures n <= |qs|
  {
    if qs == [] then 0
    else CountCorrect(qs[..|qs| - 1], answers) + (if IsHit(qs[|qs| - 1], answers) then 1 else 0)
  }

  /** The positions in `qs` of the questions answered correctly. */
  ghost function HitPositions(qs: seq<Question>, answers: Answers): set<int>
  {
    set i | 0 <= i < |qs| && IsHit(qs[i], answers)
  }

  /** Every question of the set is answered with its correct option. */
  ghost predicate AllCorrect(qs: seq<Question>, answers: Answers)
  {
    forall i :: 0 <= i < |qs| ==> IsHit(qs[i], answers)
  }

  /** No question of the set is answered with its correct option. */
  ghost predicate NoneCorrect(qs: seq<Question>, answers: Answers)
  {
    forall i :: 0 <= i < |qs| ==> !IsHit(qs[i], answers)
  }

  /** The score is exactly the number of correctly answered positions. */
  lemma {:induction false} CountCorrectIsHitCount(qs: seq<Question>, answers: Answers)
    ensures CountCorrect(qs, answers) == |HitPositions(qs, answers)|
  {
    if qs == [] {
      assert HitPositions(qs, answers) == {};
    } else {
      var n := |qs| - 1;
      var front := qs[..n];
      CountCorrectIsHitCount(front, answers);
      var last := if IsHit(qs[n], answers) then {n} else {};
      assert HitPositions(qs, answers) == HitPositions(front, answers) + last;
      assert n !in HitPositions(front, answers);
    }
  }

  /** Full marks exactly when every question is answered correctly. */
  lemma {:induction false} FullScoreIffAllCorrect(qs: seq<Question>, answers: Answers)
    ensures CountCorrect(qs, answers) == |qs| <==> AllCorrect(qs, answers)
  {
    if qs != [] {
      var n := |qs| - 1;
      var front := qs[..n];
      FullScoreIffAllCorrect(front, answers);
      if AllCorrect(qs, answers) {
        assert AllCorrect(front, answers) by {
          forall i | 0 <= i < |front| ensures IsHit(front[i], answers) {
            assert front[i] == qs[i];
          }
        }
      }
      if CountCorrect(qs, answers) == |qs| {
        forall i | 0 <= i < |qs| ensures IsHit(qs[i], answers) {
          if i < n { assert qs[i] == front[i]; }
        }
      }
    }
  }

  /** A score of zero exactly when no question is answered correctly. */
  lemma {:induction false} ZeroScoreIffNoneCorrect(qs: seq<Question>, answers: Answers)
    ensures CountCorrect(qs, answers) == 0 <==> NoneCorrect(qs, answers)
  {
    if qs != [] {
      var n := |qs| - 1;
      var front := qs[..n];
      ZeroScoreIffNoneCorrect(front, answers);
      if NoneCorrect(qs, answers) {
        assert NoneCorrect(front, answers) by {
          forall i | 0 <= i < |front| ensures !IsHit(front[i], answers) {
            assert front[i] == qs[i];
          }
        }
      }
      if CountCorrect(qs, answers) == 0 {
        forall i | 0 <= i < |qs| ensures !IsHit(qs[i], answers) {
          if i < n { assert qs[i] == front[i]; }
        }
      }
    }
  }

  /** Submitting with nothing answered scores zero, whatever the question set. */
  lemma {:induction false} EmptyAnswersScoreZero(qs: seq<Question>)
    ensures CountCorrect(qs, map[]) == 0
  {
    ZeroScoreIffNoneCorrect(qs, map[]);
  }

  /** Answering every question with its own correct option scores the whole set. */
  lemma {:induction false} AllAnswersCorrectScoreFull(qs: seq<Question>, answers: Answers)
    requires forall i :: 0 <= i < |qs| ==> qs[i].id in answers && answers[qs[i].id] == qs[i].correctAnswerIndex
    ensures CountCorrect(qs, answers) == |qs|
  {
    FullScoreIffAllCorrect(qs, answers);
  }

  /** An answer map entry whose key is not the identifier of any question in the set
      does not affect the score. */
  lemma {:induction false} UnaskedKeyIrrelevant(qs: seq<Question>, answers: Answers, key: string, idx: int)
    requires forall i :: 0 <= i < |qs| ==> qs[i].id != key
    ensures CountCorrect(qs, answers[key := idx]) == CountCorrect(qs, answers)
  {
    if qs != [] {
      var n := |qs| - 1;
      var front := qs[..n];
      assert forall i :: 0 <= i < |front| ==> front[i] == qs[i];
      UnaskedKeyIrrelevant(front, answers, key, idx);
    }
  }
}
