/**
 * The module quiz: the fixed question bank, the dialog's answer map and
 * submitted flag, and the scores derived from them.
 */
module Quiz {
  import opened Options

  datatype Question = Question(id: string, options: seq<string>, answer: int)

  /** Level shown after submission. */
  const Avanzado := "Avanzado"
  const Intermedio := "Intermedio"
  const Inicial := "Inicial"

  // ---------------------------------------------------------------------
  // The question bank (prompts and explanations are display text only)
  // ---------------------------------------------------------------------

  function VocabularyQuestions(): seq<Question> {
    [ Question("v1", ["dog", "cat", "cow", "rat"], 1),
      Question("v2", ["green", "blue", "red", "pink"], 2),
      Question("v3", ["family", "friend", "people", "parents"], 0),
      Question("v4", ["six", "seven", "nine", "eleven"], 1),
      Question("v5", ["childs", "childes", "children", "childrens"], 2),
      Question("v6", ["tarde", "mañana (temprano)", "noche", "mediodía"], 1),
      Question("v7", ["apple", "table", "window", "street"], 0),
      Question("v8", ["please", "sorry", "thanks", "hello"], 2),
      Question("v9", ["teacher", "school", "classroom", "student"], 0),
      Question("v10", ["car", "book", "bread", "tree"], 0) ]
  }

  function GrammarQuestions(): seq<Question> {
    [ Question("g1", ["am", "is", "are", "be"], 0),
      Question("g2", ["drink", "drinks", "drank", "is drinking"], 1),
      Question("g3", ["a", "an", "the", "–"], 1),
      Question("g4", ["He", "She", "They", "It"], 2),
      Question("g5", ["don't", "doesn't", "not", "am not"], 0),
      Question("g6", ["am", "is", "are", "be"], 1),
      Question("g7", ["boxs", "boxes", "boxies", "box"], 1),
      Question("g8", ["Reads she a book", "She reads a book", "She a book reads", "A book she reads"], 1),
      Question("g9", ["Do", "Does", "Are", "Is"], 0),
      Question("g10", ["en", "a las", "el/los (día)", "desde"], 2) ]
  }

  function ListeningQuestions(): seq<Question> {
    [ Question("l1", ["turn left", "green", "cat", "happy"], 0),
      Question("l2", ["blue", "fine", "cat", "Monday"], 1),
      Question("l3", ["restaurante", "aeropuerto", "estación de tren", "escuela"], 2),
      Question("l4", ["¿Puedes ir?", "¿Puedes repetir?", "¿Puedes leer?", "¿Puedes ayudar?"], 1),
      Question("l5", ["boil", "drive", "swim", "paint"], 0),
      Question("l6", ["debajo de", "al lado de", "encima de", "dentro de"], 1),
      Question("l7", ["See you", "You're welcome", "Sorry", "Goodbye"], 1),
      Question("l8", ["will", "did", "has", "was"], 0),
      Question("l9", ["acelera", "frena", "sigue", "regresa"], 1),
      Question("l10", ["Hi", "Hello", "Goodbye", "Hey"], 2) ]
  }

  function PronunciationQuestions(): seq<Question> {
    [ Question("p1", ["/s/", "/t/", "/θ/", "/f/"], 2),
      Question("p2", ["ship", "sheep", "food", "pool"], 0),
      Question("p3", ["pre-", "-sent", "ambas", "ninguna"], 0),
      Question("p4", ["cut", "cart", "hat", "cot"], 2),
      Question("p5", ["dogs", "cats", "books", "cups"], 0),
      Question("p6", ["intonación de la frase", "sílabas acentuadas en palabras", "pausas", "velocidad"], 1),
      Question("p7", ["beat", "bit", "beet", "bee"], 1),
      Question("p8", ["solo al inicio", "rótica en casi todas las posiciones", "solo entre vocales", "nunca"], 1),
      Question("p9", ["pin–pen", "good–well", "cat–dog", "big–large"], 0),
      Question("p10", ["/æ/", "/ʌ/", "/ɑː/", "/e/"], 1) ]
  }

  /** `questionsByModule`. */
  function QuestionsByModule(): map<int, seq<Question>> {
    map[1 := VocabularyQuestions(), 2 := GrammarQuestions(),
        3 := ListeningQuestions(), 4 := PronunciationQuestions()]
  }

  /** Every answer index names one of the question's options. */
  predicate AnswersInRange(qs: seq<Question>) {
    forall i :: 0 <= i < |qs| ==> 0 <= qs[i].answer < |qs[i].options|
  }

  predicate DistinctIds(qs: seq<Question>) {
    forall i, j :: 0 <= i < j < |qs| ==> qs[i].id != qs[j].id
  }

  predicate WellFormedModule(qs: seq<Question>) {
    |qs| == 10 && AnswersInRange(qs) && DistinctIds(qs)
  }

  /** The bank holds modules 1 to 4, each with ten well-formed questions. */
  lemma BankWellFormed()
    ensures QuestionsByModule().Keys == {1, 2, 3, 4}
    ensures forall m :: m in QuestionsByModule() ==> WellFormedModule(QuestionsByModule()[m])
  {
    VocabularyWellFormed();
    GrammarWellFormed();
    ListeningWellFormed();
    PronunciationWellFormed();
  }

  lemma VocabularyWellFormed() ensures WellFormedModule(VocabularyQuestions()) { }
  lemma GrammarWellFormed() ensures WellFormedModule(GrammarQuestions()) { }
  lemma ListeningWellFormed() ensures WellFormedModule(ListeningQuestions()) { }
  lemma PronunciationWellFormed() ensures WellFormedModule(PronunciationQuestions()) { }

  /** The questions shown for a module id: none for a missing (or zero) or unknown id. */
  function QuestionsFor(moduleId: Option<int>): (qs: seq<Question>)
    ensures moduleId.None? ==> qs == []
    ensures moduleId.Some? && moduleId.value !in QuestionsByModule() ==> qs == []
    ensures moduleId.Some? && moduleId.value in QuestionsByModule() ==> qs == QuestionsByModule()[moduleId.value]
  {
    if moduleId.None? || moduleId.value == 0 then []
    else if moduleId.value in QuestionsByModule() then QuestionsByModule()[moduleId.value]
    else []
  }

  // ---------------------------------------------------------------------
  // Scoring
  // ---------------------------------------------------------------------

  /** `answers[q.id] === q.answer`: the stored choice is the right option. */
  predicate IsCorrect(q: Question, answers: map<string, int>) {
    q.id in answers && answers[q.id] == q.answer
  }

  /** Positions of the questions answered correctly. */
  function CorrectPositions(qs: seq<Question>, answers: map<string, int>): set<nat> {
    set i: nat | i < |qs| && IsCorrect(qs[i], answers)
  }

  function IdsOf(qs: seq<Question>): set<string> {
    set i | 0 <= i < |qs| :: qs[i].id
  }

  /** The `reduce` over the questions, left to right, adding one per correct answer. */
  function CorrectCount(qs: seq<Question>, answers: map<string, int>): (n: nat)
    ensures n <= |qs|
  {
    if qs == [] then 0
    else CorrectCount(qs[..|qs| - 1], answers) + (if IsCorrect(qs[|qs| - 1], answers) then 1 else 0)
  }

  /** The fold counts exactly the questions whose stored answer is the right one. */
  lemma {:induction false} CorrectCountIsCorrectPositions(qs: seq<Question>, answers: map<string, int>)
    ensures CorrectCount(qs, answers) == |CorrectPositions(qs, answers)|
  {
    if qs != [] {
      var n := |qs| - 1;
      var init := qs[..n];
      CorrectCountIsCorrectPositions(init, answers);
      var before := CorrectPositions(init, answers);
      if IsCorrect(qs[n], answers) {
        assert CorrectPositions(qs, answers) == before + {n};
      } else {
        assert CorrectPositions(qs, answers) == before;
      }
    }
  }

  lemma IdsOfLast(qs: seq<Question>)
    requires qs != [] && DistinctIds(qs)
    ensures IdsOf(qs) == IdsOf(qs[..|qs| - 1]) + {qs[|qs| - 1].id}
    ensures qs[|qs| - 1].id !in IdsOf(qs[..|qs| - 1])
  {
    var n := |qs| - 1;
    forall x | x in IdsOf(qs) ensures x in IdsOf(qs[..n]) + {qs[n].id} {
      var i :| 0 <= i < |qs| && qs[i].id == x;
      if i < n { assert qs[..n][i] == qs[i]; }
    }
    forall x | x in IdsOf(qs[..n]) ensures x in IdsOf(qs) && x != qs[n].id {
      var i :| 0 <= i < n && qs[..n][i].id == x;
      assert qs[i].id == x;
    }
  }

  lemma {:induction false} SubsetCardinality(a: set<string>, b: set<string>)
    requires a <= b
    ensures |a| <= |b|
  {
    if a != {} {
      var x :| x in a;
      SubsetCardinality(a - {x}, b - {x});
    }
  }

  /**
   * With distinct ids every correct answer is a different stored answer, so
   * the count never exceeds the number of answered questions of this quiz.
   */
  lemma {:induction false} CorrectCountAtMostAnswered(qs: seq<Question>, answers: map<string, int>)
    requires DistinctIds(qs)
    ensures CorrectCount(qs, answers) <= |answers.Keys * IdsOf(qs)| <= |answers|
  {
    CorrectCountAtMostAnsweredIds(qs, answers);
    SubsetCardinality(answers.Keys * IdsOf(qs), answers.Keys);
  }

  lemma {:induction false} CorrectCountAtMostAnsweredIds(qs: seq<Question>, answers: map<string, int>)
    requires DistinctIds(qs)
    ensures CorrectCount(qs, answers) <= |answers.Keys * IdsOf(qs)|
  {
    if qs != [] {
      var n := |qs| - 1;
      var init := qs[..n];
      var last := qs[n].id;
      assert DistinctIds(init);
      CorrectCountAtMostAnsweredIds(init, answers);
      IdsOfLast(qs);
      var known := answers.Keys * IdsOf(init);
      assert CorrectCount(qs, answers) == CorrectCount(init, answers) + (if IsCorrect(qs[n], answers) then 1 else 0);
      if last in answers {
        assert answers.Keys * IdsOf(qs) == known + {last};
        assert last !in known;
      } else {
        assert !IsCorrect(qs[n], answers);
        assert answers.Keys * IdsOf(qs) == known;
      }
    }
  }

  /** `score`: zero until the quiz is submitted, then the number of correct answers. */
  function ScoreOf(qs: seq<Question>, answers: map<string, int>, submitted: bool): (s: nat)
    ensures !submitted ==> s == 0
    ensures submitted ==> s == |CorrectPositions(qs, answers)|
    ensures s <= |qs|
  {
    if !submitted then 0
    else
      CorrectCountIsCorrectPositions(qs, answers);
      CorrectCount(qs, answers)
  }

  /** The score as a percentage of the quiz (0 for an empty quiz), exactly. */
  function Percent(part: nat, total: nat): real {
    if total != 0 then (part as real / total as real) * 100.0 else 0.0
  }

  /** `levelLabel`: three bands of the score percentage. */
  function LevelFor(score: nat, total: nat): (level: string)
    ensures level == Avanzado <==> total > 0 && score * 100 >= 85 * total
    ensures level == Intermedio <==> total > 0 && 60 * total <= score * 100 < 85 * total
    ensures level == Inicial <==> total == 0 || score * 100 < 60 * total
  {
    var pct := Percent(score, total);
    assert total > 0 ==> (pct >= 85.0 <==> score * 100 >= 85 * total) && (pct >= 60.0 <==> score * 100 >= 60 * total) by {
      if total > 0 {
        PercentAtLeast(score, total, 85);
        PercentAtLeast(score, total, 60);
      }
    }
    if pct >= 85.0 then Avanzado
    else if pct >= 60.0 then Intermedio
    else Inicial
  }

  lemma PercentAtLeast(part: nat, total: nat, bound: nat)
    requires total > 0
    ensures Percent(part, total) >= bound as real <==> part * 100 >= bound * total
  {
    var t := total as real;
    var q := part as real / t;
    assert q * t == part as real;
    assert (q * 100.0) * t == (part * 100) as real;
  }

  /**
   * `progressPct`: `Math.round` of the answered percentage, 0 for an empty
   * quiz.  Rounding half up is `floor(x + 1/2)`, computed on integers.
   */
  function ProgressPercent(answered: nat, total: nat): (pct: int)
    ensures total == 0 ==> pct == 0
    ensures total > 0 ==> 2 * pct * total - total <= 200 * answered < 2 * pct * total + total
    ensures answered <= total ==> 0 <= pct <= 100
  {
    if total == 0 then 0
    else
      var r := (200 * answered + total) / (2 * total);
      RoundedPercent(answered, total, r);
      r
  }

  lemma RoundedPercent(answered: nat, total: nat, r: int)
    requires total > 0 && r == (200 * answered + total) / (2 * total)
    ensures 2 * r * total - total <= 200 * answered < 2 * r * total + total
    ensures answered <= total ==> 0 <= r <= 100
  {
    var x, d := 200 * answered + total, 2 * total;
    assert d * r <= x < d * r + d;
    assert d * r == 2 * r * total;
    if answered <= total {
      if r > 100 {
        MulMonotone(101, r, d);
        assert false;
      }
      if r < 0 {
        MulMonotone(r, -1, d);
        assert false;
      }
    }
  }

  lemma {:induction false} MulMonotone(a: int, b: int, t: nat)
    requires a <= b
    ensures a * t <= b * t
  {
    if t > 0 {
      MulMonotone(a, b, t - 1);
      assert a * t == a * (t - 1) + a;
      assert b * t == b * (t - 1) + b;
    }
  }

  // ---------------------------------------------------------------------
  // The dialog's state
  // ---------------------------------------------------------------------

  /**
   * One quiz dialog: the section's active module id (the dialog is open
   * while it is set) and the panel's answer map and submitted flag.
   */
  class QuizDialog {
    var activeModuleId: Option<int>
    var answers: map<string, int>
    var submitted: bool

    constructor ()
      ensures activeModuleId == None && answers == map[] && !submitted
      ensures Valid()
    {
      activeModuleId := None;
      answers := map[];
      submitted := false;
    }

    predicate IsOpen()
      reads this
    {
      activeModuleId.Some?
    }

    function Questions(): seq<Question>
      reads this
    {
      QuestionsFor(activeModuleId)
    }

    /**
     * `answeredCount`: no stored choice is null, so every answered question id
     * counts once; with the answers inside the quiz, at most one per question.
     */
    function AnsweredCount(): (n: nat)
      reads this
      ensures n == |answers.Keys|
      ensures AnswersWithinQuiz() ==> n <= |Questions()|
    {
      QuestionsForDistinct(activeModuleId);
      if AnswersWithinQuiz() then
        AnsweredWithinQuizBounds(Questions(), answers, submitted);
        |answers|
      else
        |answers|
    }

    /** The memoised `score`: nothing before submission, at most one point per answer. */
    function Score(): (s: nat)
      reads this
      ensures !submitted ==> s == 0
      ensures s <= |Questions()|
      ensures AnswersWithinQuiz() ==> s <= AnsweredCount()
    {
      QuestionsForDistinct(activeModuleId);
      ScoreWithinAnswers(Questions(), answers, submitted);
      ScoreOf(Questions(), answers, submitted)
    }

    /** `levelLabel`: "Inicial" until submission; a full score on a non-empty quiz is "Avanzado". */
    function Level(): (level: string)
      reads this
      ensures level == Avanzado || level == Intermedio || level == Inicial
      ensures !submitted ==> level == Inicial
      ensures submitted && |Questions()| > 0 && Score() == |Questions()| ==> level == Avanzado
    {
      LevelFor(Score(), |Questions()|)
    }

    /** `progressPct`: 0 for no quiz, within 0..100, and 100 once every question is answered. */
    function Progress(): (pct: int)
      reads this
      ensures |Questions()| == 0 ==> pct == 0
      ensures AnswersWithinQuiz() ==> 0 <= pct <= 100
      ensures |Questions()| > 0 && AnsweredCount() == |Questions()| ==> pct == 100
    {
      QuestionsForDistinct(activeModuleId);
      ProgressWithinBounds(Questions(), answers);
      ProgressPercent(AnsweredCount(), |Questions()|)
    }

    /**
     * The submit button is shown before submission and enabled once the answered
     * count reaches the total; with the answers inside the quiz, that means every
     * question of the quiz has an answer.
     */
    predicate SubmitEnabled(): (enabled: bool)
      reads this
      ensures enabled ==> !submitted
      ensures enabled && AnswersWithinQuiz() ==> answers.Keys == IdsOf(Questions())
    {
      QuestionsForDistinct(activeModuleId);
      AllAnsweredCoversQuiz(Questions(), answers);
      !submitted && AnsweredCount() >= |Questions()|
    }

    /** Only questions of the open quiz have stored answers. */
    predicate AnswersWithinQuiz()
      reads this
    {
      answers.Keys <= IdsOf(Questions())
    }

    /**
     * The dialog's invariant: a closed dialog holds a reset panel (closing
     * always resets it), and every stored answer belongs to the open quiz.
     */
    ghost predicate Valid()
      reads this
    {
      && (!IsOpen() ==> answers == map[] && !submitted)
      && AnswersWithinQuiz()
    }

    /** `openQuiz`: the section opens the dialog on a module; panel state is kept. */
    method OpenQuiz(id: int)
      requires Valid() && !IsOpen()
      modifies this`activeModuleId
      ensures activeModuleId == Some(id) && IsOpen()
      ensures answers == map[] && !submitted && Valid()
    {
      activeModuleId := Some(id);
    }

    /** `onSelect`: one key is overwritten, every other key keeps its value. */
    method OnSelect(qid: string, idx: int)
      requires Valid() && qid in IdsOf(Questions())
      modifies this`answers
      ensures answers == old(answers)[qid := idx]
      ensures answers.Keys == old(answers.Keys) + {qid}
      ensures forall k :: k in old(answers) && k != qid ==> answers[k] == old(answers)[k]
      ensures AnsweredCount() == old(AnsweredCount()) + (if qid in old(answers) then 0 else 1)
      ensures Valid()
    {
      ghost var ids := IdsOf(Questions());
      UpdateKeys(answers, qid, idx);
      answers := answers[qid := idx];
      assert IdsOf(Questions()) == ids;
    }

    method HandleSubmit()
      requires Valid() && IsOpen()
      modifies this`submitted
      ensures submitted && Valid()
    {
      submitted := true;
    }

    /** A press on the submit button: it only reaches `handleSubmit` when enabled. */
    method PressSubmit() returns (accepted: bool)
      requires Valid() && IsOpen()
      modifies this`submitted
      ensures Valid()
      ensures accepted == old(SubmitEnabled())
      ensures submitted == (old(submitted) || accepted)
    {
      accepted := SubmitEnabled();
      if accepted {
        HandleSubmit();
      }
    }

    /** `resetState`: no answers, not submitted. */
    method ResetState()
      modifies this`answers, this`submitted
      ensures answers == map[] && !submitted && Valid()
    {
      answers := map[];
      submitted := false;
    }

    /**
     * `handleClose`: closing resets the panel and the section then clears its
     * active module; `o == true` is passed on and changes nothing.
     */
    method HandleClose(o: bool)
      requires Valid()
      modifies this
      ensures Valid()
      ensures !o ==> answers == map[] && !submitted && activeModuleId == None
      ensures o ==> answers == old(answers) && submitted == old(submitted)
                    && activeModuleId == old(activeModuleId)
      ensures IsOpen() == (o && old(IsOpen()))
    {
      if !o {
        ResetState();
        // onOpenChange(false): the section's closeQuiz
        activeModuleId := None;
      }
    }
  }

  /** Storing a choice adds its key to the answered ids, and counts only when the key is new. */
  lemma UpdateKeys(m: map<string, int>, k: string, v: int)
    ensures m[k := v].Keys == m.Keys + {k}
    ensures |m[k := v]| == |m| + (if k in m then 0 else 1)
  {
    if k in m {
      assert m[k := v].Keys == m.Keys;
    } else {
      assert m[k := v].Keys == m.Keys + {k};
    }
  }

  /**
   * While every stored answer belongs to the quiz, the progress stays within
   * 0..100 and the score within the answered count.
   */
  lemma AnsweredWithinQuizBounds(qs: seq<Question>, answers: map<string, int>, submitted: bool)
    requires DistinctIds(qs) && answers.Keys <= IdsOf(qs)
    ensures |answers| <= |qs|
    ensures 0 <= ProgressPercent(|answers|, |qs|) <= 100
    ensures ScoreOf(qs, answers, submitted) <= |answers|
  {
    IdsOfSize(qs);
    SubsetCardinality(answers.Keys, IdsOf(qs));
    CorrectCountAtMostAnswered(qs, answers);
  }

  lemma {:induction false} IdsOfSize(qs: seq<Question>)
    requires DistinctIds(qs)
    ensures |IdsOf(qs)| == |qs|
  {
    if qs != [] {
      assert DistinctIds(qs[..|qs| - 1]);
      IdsOfSize(qs[..|qs| - 1]);
      IdsOfLast(qs);
    }
  }

  /** Every module's question ids are distinct, and so are those of no module. */
  lemma QuestionsForDistinct(moduleId: Option<int>)
    ensures DistinctIds(QuestionsFor(moduleId))
  {
    BankWellFormed();
  }

  /** Answering all `total` questions shows 100%. */
  lemma FullProgress(total: nat)
    requires total > 0
    ensures ProgressPercent(total, total) == 100
  {
    var r := ProgressPercent(total, total);
    if r < 100 {
      MulMonotone(2 * r + 1, 199, total);
    }
  }

  /** A subset at least as large as its superset is the superset. */
  lemma SubsetOfSameSize(a: set<string>, b: set<string>)
    requires a <= b && |a| >= |b|
    ensures a == b
  {
    if a != b {
      var x :| x in b && x !in a;
      SubsetCardinality(a, b - {x});
    }
  }

  lemma ScoreWithinAnswers(qs: seq<Question>, answers: map<string, int>, submitted: bool)
    requires DistinctIds(qs)
    ensures answers.Keys <= IdsOf(qs) ==> ScoreOf(qs, answers, submitted) <= |answers|
  {
    if answers.Keys <= IdsOf(qs) {
      AnsweredWithinQuizBounds(qs, answers, submitted);
    }
  }

  lemma ProgressWithinBounds(qs: seq<Question>, answers: map<string, int>)
    requires DistinctIds(qs)
    ensures answers.Keys <= IdsOf(qs) ==> 0 <= ProgressPercent(|answers|, |qs|) <= 100
    ensures |qs| > 0 && |answers| == |qs| ==> ProgressPercent(|answers|, |qs|) == 100
  {
    if answers.Keys <= IdsOf(qs) {
      AnsweredWithinQuizBounds(qs, answers, false);
    }
    if |qs| > 0 && |answers| == |qs| {
      FullProgress(|qs|);
    }
  }

  lemma AllAnsweredCoversQuiz(qs: seq<Question>, answers: map<string, int>)
    requires DistinctIds(qs)
    ensures |answers| >= |qs| && answers.Keys <= IdsOf(qs) ==> answers.Keys == IdsOf(qs)
  {
    if |answers| >= |qs| && answers.Keys <= IdsOf(qs) {
      IdsOfSize(qs);
      SubsetOfSameSize(answers.Keys, IdsOf(qs));
    }
  }
}
