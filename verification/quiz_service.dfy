/** `QuizService`: the public question feed, the scoring of a submitted
    quiz with per-answer feedback, and the leaderboard's limit. */
module Quiz {
  import opened Wrappers
  import opened JavaText

  /** The answer key of a question: one of the four option letters. */
  datatype CorrectOption = A | B | C | D {
    /** `Enum.name()`. */
    function Name(): (r: string)
      ensures |r| == 1 && 'A' <= r[0] <= 'D'
    {
      match this
      case A => "A"
      case B => "B"
      case C => "C"
      case D => "D"
    }
  }

  /** A row of `quiz_questions`. */
  datatype QuizQuestion = QuizQuestion(id: string, questionText: string,
                                       optionA: string, optionB: string, optionC: string, optionD: string,
                                       correctOption: CorrectOption, active: bool, createdAt: Instant)

  /** `QuizDto.QuestionPublic`: a question without its answer key. */
  datatype QuestionPublic = QuestionPublic(id: string, questionText: string, options: seq<string>)

  /** `QuizDto.Answer`. */
  datatype Answer = Answer(questionId: string, selected: Option<string>)

  /** `QuizDto.AnswerFeedback`. */
  datatype AnswerFeedback = AnswerFeedback(questionId: string, userAnswer: string,
                                           correctAnswer: string, isCorrect: bool)

  /** `QuizDto.SubmitResponse`. */
  datatype SubmitResponse = SubmitResponse(attemptId: string, userUid: string, score: int, total: int,
                                           feedback: seq<AnswerFeedback>)

  /** A row of `quiz_attempts`. */
  datatype QuizAttempt = QuizAttempt(id: string, userUid: string, userName: string,
                                     score: int, total: int, createdAt: Instant)

  // ---------------------------------------------------------------------
  // Limits
  // ---------------------------------------------------------------------

  /** `Math.min(Math.max(limit, 1), max)`. */
  function SafeLimit(limit: int32, max: int32): (r: int32)
    requires 1 <= max
    ensures 1 <= r <= max
    ensures 1 <= limit <= max ==> r == limit
    ensures limit < 1 ==> r == 1
    ensures max < limit ==> r == max
  {
    var atLeastOne := if limit < 1 then 1 else limit;
    if atLeastOne < max then atLeastOne else max
  }

  /** The public feed asks the question table for between 1 and 25
      questions, and the leaderboard for between 1 and 50 rows, whatever
      limit the client sends; a limit already in range is used as it is. */
  lemma LimitsClamped(limit: int32)
    ensures 1 <= SafeLimit(limit, 25) <= 25 && 1 <= SafeLimit(limit, 50) <= 50
    ensures 1 <= limit <= 25 ==> SafeLimit(limit, 25) == limit
    ensures 1 <= limit <= 50 ==> SafeLimit(limit, 50) == limit
    ensures SafeLimit(limit, 25) <= SafeLimit(limit, 50)
  {
  }

  // ---------------------------------------------------------------------
  // The public feed
  // ---------------------------------------------------------------------

  /** The text of one option of a question. */
  function OptionText(q: QuizQuestion, o: CorrectOption): string {
    match o
    case A => q.optionA
    case B => q.optionB
    case C => q.optionC
    case D => q.optionD
  }

  /** Where an option sits in the public list. */
  function OptionIndex(o: CorrectOption): (i: nat)
    ensures i < 4
  {
    match o
    case A => 0
    case B => 1
    case C => 2
    case D => 3
  }

  /** `getPublicQuestions`' mapping of the drawn questions: id, text and the
      four options in letter order, so that the option a client shows at
      position i is the one whose letter the answer key names; the answer
      key itself is not sent. */
  function PublicQuestions(qs: seq<QuizQuestion>): (r: seq<QuestionPublic>)
    ensures |r| == |qs|
    ensures forall i | 0 <= i < |qs| :: r[i].id == qs[i].id && r[i].questionText == qs[i].questionText
    ensures forall i | 0 <= i < |qs| :: |r[i].options| == 4
    ensures forall i, o | 0 <= i < |qs| :: r[i].options[OptionIndex(o)] == OptionText(qs[i], o)
  {
    seq(|qs|, i requires 0 <= i < |qs| =>
      QuestionPublic(qs[i].id, qs[i].questionText, [qs[i].optionA, qs[i].optionB, qs[i].optionC, qs[i].optionD]))
  }

  // ---------------------------------------------------------------------
  // Scoring
  // ---------------------------------------------------------------------

  /** `normalize`: null becomes the empty string, anything else is trimmed
      and upper-cased. */
  function Normalize(s: Option<string>): (r: string)
    ensures s.None? ==> r == ""
    ensures s.Some? ==> |r| <= |s.value|
    ensures ToUpper(r) == r
    ensures r == [] || (!Trimmable(r[0]) && !Trimmable(r[|r| - 1]))
  {
    match s
    case None => ""
    case Some(v) =>
      var t := Trim(v);
      ToUpperIdempotent(t);
      ToUpperKeepsEnds(t);
      ToUpper(t)
  }

  /** A normalized answer is the upper case of a slice of the answer cut
      at characters at or below U+0020 only. */
  lemma NormalizeIsTrimmedUpper(s: string)
    ensures exists i, j :: TrimsTo(s, i, j) && Normalize(Some(s)) == ToUpper(s[i..j])
  {
    TrimIsSlice(s);
  }

  /** Normalizing a normalized answer changes nothing. */
  lemma NormalizeIdempotent(s: Option<string>)
    ensures Normalize(Some(Normalize(s))) == Normalize(s)
  {
    var r := Normalize(s);
    TrimKeeps(r);
  }

  /** `normalize(selected).equalsIgnoreCase(correct.name())`. */
  predicate IsCorrect(selected: Option<string>, correct: CorrectOption)
    ensures IsCorrect(selected, correct) ==> selected.Some? && |Normalize(selected)| == 1
  {
    EqualsIgnoreCase(Normalize(selected), correct.Name())
  }

  /** An answer is correct exactly when its normalized form is the key's
      letter; so at most one letter accepts a given answer, and the letter
      itself, in either case and padded with blanks, is accepted. */
  lemma IsCorrectIff(selected: Option<string>, correct: CorrectOption)
    ensures IsCorrect(selected, correct) <==> Normalize(selected) == correct.Name()
  {
    var n := correct.Name();
    assert ToUpper(n) == n;
    assert ToUpper(Normalize(selected)) == Normalize(selected);
    EqualsIgnoreCaseOfUpper(Normalize(selected), n);
  }

  lemma CorrectOptionUnique(selected: Option<string>, c1: CorrectOption, c2: CorrectOption)
    requires IsCorrect(selected, c1) && IsCorrect(selected, c2)
    ensures c1 == c2
  {
    IsCorrectIff(selected, c1);
    IsCorrectIff(selected, c2);
  }

  lemma PaddedLowerCaseAccepted(correct: CorrectOption, p: string, q: string)
    requires AllTrimmable(p) && AllTrimmable(q)
    ensures IsCorrect(Some(p + ToLower(correct.Name()) + q), correct)
    ensures !IsCorrect(None, correct) && !IsCorrect(Some(""), correct)
  {
    var n := correct.Name();
    var s := p + ToLower(n) + q;
    TrimPadded(p, ToLower(n), q);
    assert ToUpper(ToLower(n)) == n;
    IsCorrectIff(Some(s), correct);
    IsCorrectIff(None, correct);
    IsCorrectIff(Some(""), correct);
  }

  /** The feedback of one answer: none for an unknown question id. */
  function GradeOne(a: Answer, questions: map<string, QuizQuestion>): (fb: seq<AnswerFeedback>)
    ensures |fb| <= 1
    ensures |fb| == 1 <==> a.questionId in questions
  {
    if a.questionId !in questions then []
    else
      var userAns := Normalize(a.selected);
      var correctAns := questions[a.questionId].correctOption.Name();
      [AnswerFeedback(a.questionId, userAns, correctAns, EqualsIgnoreCase(userAns, correctAns))]
  }

  /** The feedback list of `submit`: one entry per answer whose question
      exists, in answer order. */
  function Grade(answers: seq<Answer>, questions: map<string, QuizQuestion>): (fb: seq<AnswerFeedback>)
    ensures |fb| <= |answers|
  {
    if answers == [] then []
    else Grade(answers[..|answers| - 1], questions) + GradeOne(answers[|answers| - 1], questions)
  }

  /** The number of feedback entries marked correct. */
  function CountCorrect(fb: seq<AnswerFeedback>): (n: nat)
    ensures n <= |fb|
    ensures n == 0 <==> forall i | 0 <= i < |fb| :: !fb[i].isCorrect
    ensures n == |fb| <==> forall i | 0 <= i < |fb| :: fb[i].isCorrect
  {
    if fb == [] then 0
    else CountCorrect(fb[..|fb| - 1]) + (if fb[|fb| - 1].isCorrect then 1 else 0)
  }

  /** Grading a concatenation grades each part in turn: feedback keeps the
      order of the answers. */
  lemma {:induction false} GradeAppend(xs: seq<Answer>, ys: seq<Answer>, questions: map<string, QuizQuestion>)
    ensures Grade(xs + ys, questions) == Grade(xs, questions) + Grade(ys, questions)
    decreases |ys|
  {
    if ys == [] {
      assert xs + ys == xs;
    } else {
      var zs := xs + ys;
      var init := ys[..|ys| - 1];
      var last := ys[|ys| - 1];
      assert zs[..|zs| - 1] == xs + init && zs[|zs| - 1] == last;
      assert Grade(zs, questions) == Grade(xs + init, questions) + GradeOne(last, questions);
      GradeAppend(xs, init, questions);
      assert Grade(ys, questions) == Grade(init, questions) + GradeOne(last, questions);
    }
  }

  /** When every answered question exists, every answer gets an entry. */
  lemma {:induction false} GradeLengthAllKnown(answers: seq<Answer>, questions: map<string, QuizQuestion>)
    requires forall i | 0 <= i < |answers| :: answers[i].questionId in questions
    ensures |Grade(answers, questions)| == |answers|
  {
    if answers != [] {
      GradeLengthAllKnown(answers[..|answers| - 1], questions);
    }
  }

  /** When every answered question exists, entry i is the grading of
      answer i. */
  lemma {:induction false} GradeAllKnown(answers: seq<Answer>, questions: map<string, QuizQuestion>)
    requires forall i | 0 <= i < |answers| :: answers[i].questionId in questions
    ensures |Grade(answers, questions)| == |answers|
    ensures forall i | 0 <= i < |answers| :: Grade(answers, questions)[i] == GradeOne(answers[i], questions)[0]
  {
    GradeLengthAllKnown(answers, questions);
    if answers != [] {
      var init := answers[..|answers| - 1];
      var last := answers[|answers| - 1];
      GradeAllKnown(init, questions);
      var fb := Grade(answers, questions);
      var front := Grade(init, questions);
      var back := GradeOne(last, questions);
      assert fb == front + back;
      forall i | 0 <= i < |answers|
        ensures fb[i] == GradeOne(answers[i], questions)[0]
      {
        if i < |init| {
          assert fb[i] == front[i] && answers[i] == init[i];
          assert GradeOne(answers[i], questions) == GradeOne(init[i], questions);
        } else {
          assert i == |front| && answers[i] == last;
          assert fb[i] == back[0];
        }
      }
    }
  }

  /** Every entry reports the normalized answer and the key's letter, and
      is marked correct exactly when the two are equal. */
  lemma {:induction false} FeedbackConsistent(answers: seq<Answer>, questions: map<string, QuizQuestion>)
    ensures forall f | f in Grade(answers, questions) ::
              |f.correctAnswer| == 1 && 'A' <= f.correctAnswer[0] <= 'D'
              && f.questionId in questions
              && f.correctAnswer == questions[f.questionId].correctOption.Name()
              && (f.isCorrect <==> f.userAnswer == f.correctAnswer)
  {
    if answers != [] {
      var a := answers[|answers| - 1];
      FeedbackConsistent(answers[..|answers| - 1], questions);
      if a.questionId in questions {
        IsCorrectIff(a.selected, questions[a.questionId].correctOption);
      }
    }
  }

  /** The score counts correct answers among the graded ones: it never
      exceeds the feedback size, which never exceeds the number of answers;
      answers to unknown questions count in the total only. */
  lemma {:induction false} ScoreBounds(answers: seq<Answer>, questions: map<string, QuizQuestion>)
    ensures CountCorrect(Grade(answers, questions)) <= |Grade(answers, questions)| <= |answers|
    ensures (forall i | 0 <= i < |answers| :: answers[i].questionId !in questions) ==>
              Grade(answers, questions) == []
  {
    if answers != [] {
      ScoreBounds(answers[..|answers| - 1], questions);
    }
  }

  /** `submit`'s loop: walk the answers, skip unknown questions, grade the
      others, count the correct ones. */
  method ScoreAnswers(answers: seq<Answer>, questions: map<string, QuizQuestion>)
    returns (score: int, total: int, feedback: seq<AnswerFeedback>)
    ensures total == |answers|
    ensures feedback == Grade(answers, questions)
    ensures score == CountCorrect(feedback) && 0 <= score <= |feedback| <= total
  {
    score := 0;
    total := |answers|;
    feedback := [];
    for i := 0 to |answers|
      invariant feedback == Grade(answers[..i], questions)
      invariant score == CountCorrect(feedback)
    {
      var a := answers[i];
      assert answers[..i + 1][..i] == answers[..i];
      if a.questionId !in questions {
        continue;
      }
      var q := questions[a.questionId];
      var userAns := Normalize(a.selected);
      var correctAns := q.correctOption.Name();
      var isCorrect := EqualsIgnoreCase(userAns, correctAns);
      if isCorrect {
        score := score + 1;
      }
      var entry := AnswerFeedback(a.questionId, userAns, correctAns, isCorrect);
      assert [entry] == GradeOne(a, questions);
      feedback := feedback + [entry];
      assert feedback[..|feedback| - 1] == Grade(answers[..i], questions);
    }
    assert answers[..|answers|] == answers;
  }

  // ---------------------------------------------------------------------
  // The user name and the attempt
  // ---------------------------------------------------------------------

  /** What the `users/{uid}` document lookup gives: the document's
      `fullName` (itself possibly null), no document, or a lookup that
      fails with an `InterruptedException` or `ExecutionException`, the two
      exceptions the lookup catches. */
  datatype UserLookup = Document(fullName: Option<string>) | NoDocument | LookupFailed

  /** `getUserNameFromFirestore`: a non-blank full name, else "Anonymous". */
  function DisplayName(lookup: UserLookup): (r: string)
    ensures !IsBlank(r)
    ensures r != "Anonymous" ==> lookup == Document(Some(r))
    ensures lookup.Document? && lookup.fullName.Some? && !IsBlank(lookup.fullName.value) ==>
              r == lookup.fullName.value
  {
    assert !IsWhitespace("Anonymous"[0]);
    match lookup
    case Document(Some(name)) => if !IsBlank(name) then name else "Anonymous"
    case _ => "Anonymous"
  }

  /** `QuizAttemptRepository`: the attempts table. */
  class QuizAttemptRepository {
    var rows: map<string, QuizAttempt>

    ghost predicate Valid()
      reads this
    {
      forall id | id in rows :: rows[id].id == id && 0 <= rows[id].score <= rows[id].total
    }

    constructor()
      ensures Valid() && rows == map[]
    {
      rows := map[];
    }

    /** `save` of a new attempt under the generated id. */
    method Save(attempt: QuizAttempt)
      requires Valid() && attempt.id !in rows && 0 <= attempt.score <= attempt.total
      modifies this
      ensures Valid() && rows == old(rows)[attempt.id := attempt]
    {
      rows := rows[attempt.id := attempt];
    }
  }

  class QuizService {
    const attemptRepo: QuizAttemptRepository

    constructor(attemptRepo: QuizAttemptRepository)
      ensures this.attemptRepo == attemptRepo
    {
      this.attemptRepo := attemptRepo;
    }

    /** `submit`: refuses an unauthenticated caller before reading or saving
      anything; otherwise grades the answers against the question table,
      saves one attempt with the caller's uid and display name, the score
      and the number of answers, and answers with the saved attempt's id
      and the feedback. `auth` is the uid of an authenticated principal. */
    method Submit(auth: Option<string>, answers: seq<Answer>, questions: map<string, QuizQuestion>,
                  lookup: UserLookup, freshId: string, now: Instant)
      returns (r: Result<SubmitResponse, Exception>)
      requires attemptRepo.Valid() && freshId !in attemptRepo.rows
      modifies attemptRepo
      ensures attemptRepo.Valid()
      ensures auth.None? ==> r == Failure(Runtime("Not authenticated")) && attemptRepo.rows == old(attemptRepo.rows)
      ensures auth.Some? ==>
        var feedback := Grade(answers, questions);
        var score := CountCorrect(feedback);
        && r == Success(SubmitResponse(freshId, auth.value, score, |answers|, feedback))
        && attemptRepo.rows == old(attemptRepo.rows)[freshId :=
             QuizAttempt(freshId, auth.value, DisplayName(lookup), score, |answers|, now)]
    {
      if auth.None? {
        return Failure(Runtime("Not authenticated"));
      }
      var uid := auth.value;
      var userName := DisplayName(lookup);
      var score, total, feedback := ScoreAnswers(answers, questions);
      var attempt := QuizAttempt(freshId, uid, userName, score, total, now);
      attemptRepo.Save(attempt);
      return Success(SubmitResponse(attempt.id, uid, score, total, feedback));
    }
  }
}
