/** How each option of a question is annotated on screen, before and after submission,
    and the letter it is labelled with. */
module Review {
  import opened Scoring

  /** The two button styles an option can be drawn with. */
  datatype Mode = Outlined | Contained

  /** The option at `idx` is the one recorded for `q`; with no recorded answer no option is. */
  function IsSelected(answers: Answers, q: Question, idx: int): (selected: bool)
    ensures q.id !in answers ==> !selected
    ensures selected ==> answers[q.id] == idx
  {
    q.id in answers && answers[q.id] == idx
  }

  /** The option at `idx` is shown as the correct one; only in the review phase. */
  function IsCorrect(submitted: bool, q: Question, idx: int): (correct: bool)
    ensures !submitted ==> !correct
    ensures correct ==> idx == q.correctAnswerIndex
  {
    submitted && q.correctAnswerIndex == idx
  }

  /** The option at `idx` is shown as a wrong choice: reviewed, selected and not correct. */
  function IsWrong(submitted: bool, answers: Answers, q: Question, idx: int): (wrong: bool)
    ensures !submitted ==> !wrong
    ensures wrong ==> submitted && IsSelected(answers, q, idx) && !IsCorrect(submitted, q, idx)
  {
    submitted && IsSelected(answers, q, idx) && !IsCorrect(submitted, q, idx)
  }

  /** The button style: outlined, switched to contained by each of the three
      classifications in turn. Being wrong implies being selected, so the style is
      contained exactly when the option is selected or correct. */
  function ButtonMode(submitted: bool, answers: Answers, q: Question, idx: int): (mode: Mode)
    ensures mode == Contained <==> IsSelected(answers, q, idx) || IsCorrect(submitted, q, idx)
    ensures !submitted ==> (mode == Contained <==> IsSelected(answers, q, idx))
  {
    var initial := Outlined;
    var afterSelected := if IsSelected(answers, q, idx) then Contained else initial;
    var afterCorrect := if IsCorrect(submitted, q, idx) then Contained else afterSelected;
    if IsWrong(submitted, answers, q, idx) then Contained else afterCorrect
  }

  /** At most one option of a question is selected at a time. */
  lemma SelectedOptionUnique(answers: Answers, q: Question, i: int, j: int)
    requires IsSelected(answers, q, i) && IsSelected(answers, q, j)
    ensures i == j
  {
  }

  /** In review, a selected option is shown either as correct or as wrong, never both. */
  lemma ReviewedSelectionIsCorrectOrWrong(answers: Answers, q: Question, idx: int)
    requires IsSelected(answers, q, idx)
    ensures IsCorrect(true, q, idx) != IsWrong(true, answers, q, idx)
  {
  }

  /** A question counts towards the score exactly when its correct option is the one
      shown selected, so the review annotations agree with the score. */
  lemma HitIffCorrectOptionSelected(answers: Answers, q: Question)
    ensures IsHit(q, answers) <==> IsSelected(answers, q, q.correctAnswerIndex)
  {
  }

  /** A UTF-16 code unit: what a one-character label in the source's strings is made of. */
  newtype CodeUnit = x: int | 0 <= x < 0x1_0000

  /** The letters of the first twenty-six option labels. */
  const Alphabet: string := "ABCDEFGHIJKLMNOPQRSTUVWXYZ"

  /** The label of the option at position `idx`: the character with code 65 + idx, taken
      as a UTF-16 code unit (so it wraps modulo 2^16). Options 0..25 get 'A'..'Z'. */
  function OptionLabel(idx: nat): (code: CodeUnit)
    ensures idx < 0x1_0000 - 65 ==> code as int == 65 + idx
    ensures idx < |Alphabet| ==> code as int as char == Alphabet[idx]
  {
    ((65 + idx) % 0x1_0000) as CodeUnit
  }

  /** Distinct options get distinct labels as long as the codes do not wrap. */
  lemma OptionLabelInjective(i: nat, j: nat)
    requires i < 0x1_0000 - 65 && j < 0x1_0000 - 65
    requires OptionLabel(i) == OptionLabel(j)
    ensures i == j
  {
  }
}
