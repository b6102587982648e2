/** The exam session of the exam page (prova/script.js): the global `App`
    object and the functions that update it in place — loading, navigation,
    answering, marking, the countdown and submission. */
module Session {
  import opened Exam
  import opened Timer
  import opened Keys

  /** The ids of a list of questions. */
  function Ids(qs: seq<Question>): set<int>
  {
    set q | q in qs :: q.id
  }

  /** The index `showQuestion` settles on: below zero becomes zero, at or past
      the end becomes the last index. With no questions that is -1. */
  function Clamp(idx: int, n: nat): (r: int)
    ensures n > 0 ==> 0 <= r < n
    ensures 0 <= idx < n ==> r == idx
    ensures idx < 0 && n > 0 ==> r == 0
    ensures idx >= n ==> r == n - 1
    ensures n == 0 ==> r == -1
  {
    var i := if idx < 0 then 0 else idx;
    if i >= n then n - 1 else i
  }

  /** The marks after flipping the one of `id`; a missing mark reads as
      `undefined`, whose negation is `true`. */
  function Flipped(m: map<int, bool>, id: int): map<int, bool>
  {
    m[id := !(id in m && m[id])]
  }

  /** Flipping a mark changes that mark alone, and flipping it twice restores
      the marks; a mark that was missing is then present and `false`. */
  lemma FlipTwice(m: map<int, bool>, id: int)
    ensures Flipped(m, id)[id] == !(id in m && m[id])
    ensures forall x :: x != id ==> (x in Flipped(m, id) <==> x in m) && (x in m ==> Flipped(m, id)[x] == m[x])
    ensures Flipped(Flipped(m, id), id) == if id in m then m else m[id := false]
  {
  }

  /** Clearing an answer right after setting it leaves what clearing alone
      leaves; on a question that was blank it restores the dictionary. */
  lemma ClearAfterSet(answers: Answers, id: int, letter: char)
    ensures answers[id := Some(letter)][id := None] == answers[id := None]
    ensures id in answers && answers[id] == None ==> answers[id := Some(letter)][id := None] == answers
  {
  }

  /** How a call into the page script ends: normally, or by throwing. */
  datatype Completion = Normal | TypeError

  /** The global `App` object. `timerRunning` tells whether `timerId` names an
      interval that has not been cleared. */
  class App {
    var questions: seq<Question>
    var answers: Answers
    var marked: map<int, bool>
    var currentIndex: int
    var timeLeft: int
    var timerRunning: bool

    /** The state once an exam is loaded: a question is on screen and every
        question has an answer entry and a mark entry. */
    ghost predicate Valid()
      reads this
    {
      && |questions| > 0
      && 0 <= currentIndex < |questions|
      && forall q :: q in questions ==> q.id in answers && q.id in marked
    }

    /** The object literal the script starts from. */
    constructor ()
      ensures questions == [] && answers == map[] && marked == map[]
      ensures currentIndex == 0 && timeLeft == 0 && !timerRunning
    {
      questions := [];
      answers := map[];
      marked := map[];
      currentIndex := 0;
      timeLeft := 0;
      timerRunning := false;
    }

    /** The first half of `loadExamJSON`: install the questions, give every
        question a `null` answer and a `false` mark, and set the remaining time
        to the exam's limit. */
    method Reset(exam: ExamDef)
      modifies this`questions, this`answers, this`marked, this`timeLeft
      ensures questions == exam.questions && timeLeft == exam.timeLimit
      ensures answers.Keys == Ids(questions) && marked.Keys == Ids(questions)
      ensures forall id :: id in answers ==> answers[id] == None
      ensures forall id :: id in marked ==> !marked[id]
      ensures forall q :: q in questions ==> q.id in answers && answers[q.id] == None && q.id in marked && !marked[q.id]
    {
      questions := exam.questions;
      answers := map[];
      marked := map[];
      var i := 0;
      while i < |questions|
        invariant 0 <= i <= |questions| && questions == exam.questions
        invariant answers.Keys == Ids(questions[..i]) && marked.Keys == Ids(questions[..i])
        invariant forall id :: id in answers ==> answers[id] == None
        invariant forall id :: id in marked ==> !marked[id]
      {
        assert questions[..i + 1] == questions[..i] + [questions[i]];
        answers := answers[questions[i].id := None];
        marked := marked[questions[i].id := false];
        i := i + 1;
      }
      assert questions[..i] == questions;
      timeLeft := exam.timeLimit;
    }

    /** All of `loadExamJSON`: reset, show the first question and start the
        countdown from the exam's limit. */
    method LoadExam(exam: ExamDef)
      requires |exam.questions| > 0
      modifies this
      ensures Valid()
      ensures questions == exam.questions && currentIndex == 0
      ensures answers.Keys == Ids(questions) && marked.Keys == Ids(questions)
      ensures forall id :: id in answers ==> answers[id] == None
      ensures forall id :: id in marked ==> !marked[id]
      ensures forall q :: q in questions ==> q.id in answers && answers[q.id] == None && q.id in marked && !marked[q.id]
      ensures Countdown(timeLeft, timerRunning) == AfterTicks(exam.timeLimit, 0)
    {
      Reset(exam);
      ShowQuestion(0);
      StartTimer(timeLeft);
    }

    /** `showQuestion`: clamp the requested index and make it current. */
    method ShowQuestion(idx: int)
      requires |questions| > 0
      modifies this`currentIndex
      ensures currentIndex == Clamp(idx, |questions|)
      ensures 0 <= currentIndex < |questions|
    {
      var i := idx;
      if i < 0 {
        i := 0;
      }
      if i >= |questions| {
        i := |questions| - 1;
      }
      currentIndex := i;
    }

    /** The "previous" button and the left arrow key. */
    method Previous()
      requires Valid()
      modifies this`currentIndex
      ensures Valid() && currentIndex == Clamp(old(currentIndex) - 1, |questions|)
    {
      ShowQuestion(currentIndex - 1);
    }

    /** The "next" button and the right arrow key. */
    method Next()
      requires Valid()
      modifies this`currentIndex
      ensures Valid() && currentIndex == Clamp(old(currentIndex) + 1, |questions|)
    {
      ShowQuestion(currentIndex + 1);
    }

    /** `setAnswer`: record `letter` for question `qid`, whatever the letter,
        and show the current question again. */
    method SetAnswer(qid: int, letter: char)
      requires Valid()
      modifies this`answers, this`currentIndex
      ensures Valid()
      ensures answers == old(answers)[qid := Some(letter)]
      ensures currentIndex == old(currentIndex)
    {
      answers := answers[qid := Some(letter)];
      ShowQuestion(currentIndex);
    }

    /** `clearAnswer`: the current question's answer becomes `null`. */
    method ClearAnswer()
      requires Valid()
      modifies this`answers, this`currentIndex
      ensures Valid()
      ensures answers == old(answers)[questions[currentIndex].id := None]
      ensures currentIndex == old(currentIndex)
    {
      answers := answers[questions[currentIndex].id := None];
      ShowQuestion(currentIndex);
    }

    /** `toggleMark`: flip the current question's mark. */
    method ToggleMark()
      requires Valid()
      modifies this`marked, this`currentIndex
      ensures Valid()
      ensures marked == Flipped(old(marked), questions[currentIndex].id)
      ensures currentIndex == old(currentIndex)
    {
      var q := questions[currentIndex];
      marked := marked[q.id := !(q.id in marked && marked[q.id])];
      ShowQuestion(currentIndex);
    }

    /** A digit key: keys "1" to "5" answer the current question with the
        letter of the option at that position; other keys change nothing. */
    method PressDigit(key: string)
      requires Valid()
      modifies this`answers, this`currentIndex
      ensures Valid() && currentIndex == old(currentIndex)
      ensures DigitLetter(key).Some? ==> answers == old(answers)[questions[currentIndex].id := DigitLetter(key)]
      ensures DigitLetter(key).None? ==> answers == old(answers)
    {
      if |key| == 1 && '1' <= key[0] <= '5' {
        var idx := (key[0] as int - '0' as int) - 1;
        var q := questions[currentIndex];
        SetAnswer(q.id, (65 + idx) as char);
      }
    }

    /** `startTimer`: clear any running interval, set the remaining time and
        schedule a fresh interval. */
    method StartTimer(seconds: int)
      modifies this`timeLeft, this`timerRunning
      ensures Countdown(timeLeft, timerRunning) == AfterTicks(seconds, 0)
    {
      if timerRunning {
        timerRunning := false;
      }
      timeLeft := seconds;
      timerRunning := true;
    }

    /** One firing of the interval: one second less, and the interval is
        cleared once the time is at or below zero. Only a scheduled interval
        fires. */
    method Tick()
      requires timerRunning
      modifies this`timeLeft, this`timerRunning
      ensures timeLeft == old(timeLeft) - 1
      ensures timerRunning == (timeLeft > 0)
      ensures Countdown(timeLeft, timerRunning) == Fire(old(Countdown(timeLeft, timerRunning)))
    {
      timeLeft := timeLeft - 1;
      if timeLeft <= 0 {
        timerRunning := false;
      }
    }

    /** `calculateResults`: one pass over the questions, counting blank,
        correct and incorrect answers. */
    method CalculateResults() returns (r: Results)
      ensures r == Score(questions, answers)
      ensures r.correct + r.incorrect + r.blank == r.total == |questions|
    {
      var correct, incorrect, blank := 0, 0, 0;
      var i := 0;
      while i < |questions|
        invariant 0 <= i <= |questions|
        invariant correct == CountStatus(questions[..i], answers, Correct)
        invariant incorrect == CountStatus(questions[..i], answers, Incorrect)
        invariant blank == CountStatus(questions[..i], answers, Blank)
      {
        assert questions[..i + 1][..i] == questions[..i];
        var q := questions[i];
        if q.id in answers && answers[q.id] == None {
          blank := blank + 1;
        } else if q.id in answers && answers[q.id] == Some(q.correct) {
          correct := correct + 1;
        } else {
          incorrect := incorrect + 1;
        }
        i := i + 1;
      }
      assert questions[..i] == questions;
      r := Results(correct, incorrect, blank, |questions|, correct);
    }

    /** Submitting as intended: the results are computed and the countdown's
        interval is cleared. Answers, marks and navigation stay open. */
    method Submit() returns (r: Results)
      modifies this`timerRunning
      ensures r == Score(questions, answers)
      ensures !timerRunning
    {
      r := CalculateResults();
      timerRunning := false;
    }

    /** Submitting as the script does it: `showResults` computes the results,
        then throws on the undefined results element before it reaches
        `clearInterval`, so nothing changes and the countdown goes on. */
    method SubmitAsWritten() returns (c: Completion)
      ensures c == TypeError
      ensures timerRunning == old(timerRunning) && timeLeft == old(timeLeft)
    {
      var r := CalculateResults();
      c := TypeError;
    }
  }

  /** An exam like the sample one: ten minutes, five questions with ids 1 to 5
      whose correct letters are B, B, A, A, A. */
  ghost predicate LikeSample(exam: ExamDef)
  {
    && exam.timeLimit == 600
    && |exam.questions| == 5
    && forall i :: 0 <= i < 5 ==> exam.questions[i].id == i + 1 && exam.questions[i].correct == "BBAAA"[i]
  }

  /** The exam the page loads is such an exam. */
  lemma SampleIsLikeSample()
    ensures LikeSample(SampleExam())
  {
  }

  /** In such an exam, answering B, B, A, A, A for ids 1 to 5 answers every question correctly. */
  lemma KeyIsCorrect(exam: ExamDef, a0: Answers)
    requires LikeSample(exam)
    ensures var a := a0[1 := Some('B')][2 := Some('B')][3 := Some('A')][4 := Some('A')][5 := Some('A')];
      forall q :: q in exam.questions ==> q.id in a && a[q.id] == Some(q.correct)
  {
  }

  /** Typing 2, 2, 1, 1, 1 on such an exam, moving to the next question after
      each key, answers ids 1 to 5 with B, B, A, A, A. */
  method TypeSampleKey(app: App)
    requires app.Valid() && app.currentIndex == 0
    requires |app.questions| == 5 && forall i :: 0 <= i < 5 ==> app.questions[i].id == i + 1
    modifies app
    ensures app.Valid() && app.questions == old(app.questions)
    ensures app.answers == old(app.answers)[1 := Some('B')][2 := Some('B')][3 := Some('A')][4 := Some('A')][5 := Some('A')]
  {
    app.PressDigit("2");
    app.Next();
    app.PressDigit("2");
    app.Next();
    app.PressDigit("1");
    app.Next();
    app.PressDigit("1");
    app.Next();
    app.PressDigit("1");
  }

  /** Such an exam answered with the keys above and then submitted with the
      corrected `Submit` (the script's own submission throws): all five are correct. */
  method AnswerAllCorrectly(exam: ExamDef) returns (r: Results)
    requires LikeSample(exam)
    ensures r.correct == 5 && r.score == 5 && r.total == 5
    ensures r.incorrect == 0 && r.blank == 0
  {
    var app := new App();
    app.LoadExam(exam);
    ghost var a0 := app.answers;
    TypeSampleKey(app);
    KeyIsCorrect(exam, a0);
    AllCorrectScore(app.questions, app.answers);
    r := app.Submit();
  }

  /** Such an exam left untouched until its ten minutes run out: the interval
      fires 600 times, stops at zero, and every question is blank. */
  method LetTimeRunOut(exam: ExamDef) returns (r: Results, fired: nat, left: int)
    requires LikeSample(exam)
    ensures fired == 600 && left == 0
    ensures r.blank == 5 && r.correct == 0 && r.incorrect == 0
  {
    var app := new App();
    app.LoadExam(exam);
    ghost var answers0 := app.answers;
    fired := 0;
    while app.timerRunning
      invariant fired <= 600
      invariant Countdown(app.timeLeft, app.timerRunning) == AfterTicks(600, fired)
      invariant app.questions == exam.questions && app.answers == answers0
      decreases 600 - fired
    {
      CountdownReachesZero(600, fired);
      app.Tick();
      fired := fired + 1;
    }
    CountdownReachesZero(600, fired);
    UnansweredIsBlank(app.questions, app.answers);
    r := app.CalculateResults();
    left := app.timeLeft;
  }

  /** Such an exam submitted the way the script does it: the call throws and
      the next firing of the interval still takes a second off the clock. */
  method SubmitKeepsCounting(exam: ExamDef) returns (c: Completion, running: bool, left: int)
    requires LikeSample(exam)
    ensures c == TypeError && running && left == 599
  {
    var app := new App();
    app.LoadExam(exam);
    app.PressDigit("2");
    c := app.SubmitAsWritten();
    app.Tick();
    running, left := app.timerRunning, app.timeLeft;
  }
}
