/** The exam definition and the scorer of the exam page (prova/script.js):
    the records the page keeps, the built-in sample exam, and what
    `calculateResults` computes from the questions and the answers dictionary. */
module Exam {

  /** A value that may be absent; `None` stands for the page's `null` answer. */
  datatype Option<T> = None | Some(value: T)

  /** One multiple-choice question; `correct` is the letter of the right option. */
  datatype Question = Question(id: int, text: string, options: seq<string>, correct: char, explanation: string)

  /** An exam definition: a title, a time limit in seconds and the ordered questions. */
  datatype ExamDef = ExamDef(title: string, timeLimit: int, questions: seq<Question>)

  /** The record `calculateResults` returns. */
  datatype Results = Results(correct: nat, incorrect: nat, blank: nat, total: nat, score: nat)

  /** How the scorer files one question. */
  datatype Status = Blank | Correct | Incorrect

  /** The answers dictionary: question id to chosen letter, or `None` for `null`. */
  type Answers = map<int, Option<char>>

  /** The exam the page loads: five questions, ten minutes. */
  function SampleExam(): ExamDef
  {
    ExamDef("Prova Sigma — Exemplo", 600, [
      Question(1, "Em uma PA: a1=5, r=3. Soma dos 10 primeiros termos?",
        ["155", "185", "205", "225", "245"], 'B', "S_n = n*(2a1+(n-1)r)/2 = 10*(10+27)/2 = 185"),
      Question(2, "Cubo aresta 6 cm: distância entre vértices opostos?",
        ["6√2", "6√3", "12", "12√2", "12√3"], 'B', "Diagonal = a√3 = 6√3"),
      Question(3, "Quantos números de 3 algarismos distintos usando {1,2,3,4,5}?",
        ["60", "75", "100", "125", "150"], 'A', "5*4*3=60"),
      Question(4, "Triângulo retângulo: hipotenusa 13, cateto 5. Área?",
        ["30", "32,5", "60", "65", "78"], 'A', "Outro cateto 12, área=5*12/2=30"),
      Question(5, "log2(x)=3, log2(y)=5. log2(x^2/y)?",
        ["1", "2", "3", "4", "5"], 'A', "2*3-5=1")
    ])
  }

  /** The status of one question. A key missing from the dictionary reads as
      `undefined`, which is neither `null` nor the correct letter, so it is
      filed as incorrect. */
  function Classify(q: Question, answers: Answers): Status
  {
    if q.id in answers && answers[q.id] == None then Blank
    else if q.id in answers && answers[q.id] == Some(q.correct) then Correct
    else Incorrect
  }

  /** How many of `qs` the scorer files under `st`. */
  function CountStatus(qs: seq<Question>, answers: Answers, st: Status): (n: nat)
    ensures n <= |qs|
  {
    if qs == [] then 0
    else CountStatus(qs[..|qs| - 1], answers, st) + (if Classify(qs[|qs| - 1], answers) == st then 1 else 0)
  }

  /** Every question falls under exactly one status. */
  lemma {:induction false} CountsPartition(qs: seq<Question>, answers: Answers)
    ensures CountStatus(qs, answers, Correct) + CountStatus(qs, answers, Incorrect)
            + CountStatus(qs, answers, Blank) == |qs|
  {
    if qs != [] {
      CountsPartition(qs[..|qs| - 1], answers);
    }
  }

  /** A count reaches the number of questions exactly when every question has that status. */
  lemma {:induction false} CountAll(qs: seq<Question>, answers: Answers, st: Status)
    ensures CountStatus(qs, answers, st) == |qs| <==> forall q :: q in qs ==> Classify(q, answers) == st
  {
    if qs != [] {
      var init, last := qs[..|qs| - 1], qs[|qs| - 1];
      assert qs == init + [last];
      CountAll(init, answers, st);
      if Classify(last, answers) != st {
        assert CountStatus(qs, answers, st) <= |init|;
      }
    }
  }

  /** The tallies `calculateResults` returns. */
  function Score(qs: seq<Question>, answers: Answers): (r: Results)
    ensures r.total == |qs|
    ensures r.correct + r.incorrect + r.blank == r.total
    ensures r.score == r.correct
  {
    CountsPartition(qs, answers);
    var correct := CountStatus(qs, answers, Correct);
    Results(correct, CountStatus(qs, answers, Incorrect), CountStatus(qs, answers, Blank), |qs|, correct)
  }

  /** With every answer still `null` (as right after loading), all questions are blank. */
  lemma UnansweredIsBlank(qs: seq<Question>, answers: Answers)
    requires forall q :: q in qs ==> q.id in answers && answers[q.id] == None
    ensures Score(qs, answers).blank == |qs|
    ensures Score(qs, answers).correct == 0 && Score(qs, answers).incorrect == 0
  {
    CountAll(qs, answers, Blank);
  }

  /** With every answer equal to its question's correct letter, the score is the total. */
  lemma AllCorrectScore(qs: seq<Question>, answers: Answers)
    requires forall q :: q in qs ==> q.id in answers && answers[q.id] == Some(q.correct)
    ensures Score(qs, answers).correct == |qs| && Score(qs, answers).score == |qs|
    ensures Score(qs, answers).incorrect == 0 && Score(qs, answers).blank == 0
  {
    CountAll(qs, answers, Correct);
  }

  /** Answering one blank question correctly moves it from blank to correct and
      leaves the other tallies alone, provided question ids are distinct. */
  lemma {:induction false} AnswerOneCorrectly(qs: seq<Question>, answers: Answers, k: nat)
    requires forall i, j :: 0 <= i < j < |qs| ==> qs[i].id != qs[j].id
    requires k < |qs| && qs[k].id in answers && answers[qs[k].id] == None
    ensures var before, after := Score(qs, answers), Score(qs, answers[qs[k].id := Some(qs[k].correct)]);
            after.correct == before.correct + 1 && after.blank + 1 == before.blank &&
            after.incorrect == before.incorrect
  {
    var id := qs[k].id;
    var updated := answers[id := Some(qs[k].correct)];
    var init, last := qs[..|qs| - 1], qs[|qs| - 1];
    if k == |qs| - 1 {
      forall q | q in init
        ensures q.id != id
      {
        var i :| 0 <= i < |init| && init[i] == q;
        assert qs[i] == q;
      }
      SameOutsideId(init, answers, updated, id);
      assert Classify(last, answers) == Blank && Classify(last, updated) == Correct;
    } else {
      AnswerOneCorrectly(init, answers, k);
      assert last.id != id;
    }
  }

  /** Questions whose ids differ from `id` are scored the same under two
      dictionaries that agree everywhere except at `id`. */
  lemma {:induction false} SameOutsideId(qs: seq<Question>, a: Answers, b: Answers, id: int)
    requires forall q :: q in qs ==> q.id != id
    requires forall x :: x != id ==> (x in a <==> x in b) && (x in a ==> a[x] == b[x])
    ensures forall st :: CountStatus(qs, a, st) == CountStatus(qs, b, st)
  {
    if qs != [] {
      assert qs == qs[..|qs| - 1] + [qs[|qs| - 1]];
      SameOutsideId(qs[..|qs| - 1], a, b, id);
    }
  }
}
