/**
  The questionnaire wizard of the home page: ten fixed questions, each with an
  audio clip, a cursor over them, one free-text answer per question, and the
  e-mail body that collects the answers when the respondent finishes.
*/
module Wizard {
  import opened Wrappers
  import opened Decimal

  /** The fixed question texts, in the order they are asked. */
  const Questions: seq<string> := [
    "Qual nosso momento mais engraçado?",
    "O que você aprecia em mim? (sem mentir...)",
    "Se eu ainda escrevesse sobre você, gostaria de ler?",
    "Já sonhou comigo sem querer?",
    "Alguma vez, sem querer, você sorriu ao lembrar de mim?",
    "Se eu pudesse te dar um momento de volta, qual você escolheria?",
    "Se fechasse os olhos agora, conseguiria sentir o calor do meu abraço e meu perfume?",
    "Se o tempo voltasse por um instante, você me abraçaria mais forte?",
    "Se eu dissesse que ainda lembro do som da sua risada e o aperto do seu abraço, acreditaria?",
    "Se tudo que vivemos fosse um livro, qual seria o título do nosso capítulo, minha pequena?"
  ]

  /** The audio clip played with each question, index for index. */
  const AudioUrls: seq<string> := [
    "/audios/audio1.mp3",
    "/audios/audio2.mp3",
    "/audios/audio3.mp3",
    "/audios/audio4.mp3",
    "/audios/audio5.mp3",
    "/audios/audio6.mp3",
    "/audios/audio7.mp3",
    "/audios/audio8.mp3",
    "/audios/audio9.mp3",
    "/audios/audio10.mp3"
  ]

  /** The initial answers, `Array(10).fill("")`. */
  const InitialAnswers: seq<string> := seq(10, _ => "")

  /** The number of questions, and the length of every per-question array. */
  const QuestionCount: nat := 10

  /** A cursor that can index the questions. */
  predicate InBounds(c: int) {
    0 <= c < QuestionCount
  }

  // ---------------------------------------------------------------- cursor

  /** The cursor after `handleNext`: one step forward unless at the last question. */
  function NextCursor(c: int): (r: int)
    ensures InBounds(c) ==> InBounds(r)
    ensures r == c <==> c >= QuestionCount - 1
    ensures r != c ==> r == c + 1
  {
    if c < QuestionCount - 1 then c + 1 else c
  }

  /** The cursor after `handlePrevious`: one step back unless at the first question. */
  function PreviousCursor(c: int): (r: int)
    ensures InBounds(c) ==> InBounds(r)
    ensures r == c <==> c <= 0
    ensures r != c ==> r == c - 1
  {
    if c > 0 then c - 1 else c
  }

  /** The two navigation buttons. */
  datatype Nav = Next | Previous

  function Move(c: int, m: Nav): int {
    match m
    case Next => NextCursor(c)
    case Previous => PreviousCursor(c)
  }

  /** The cursor after pressing the buttons `moves` in order, starting at `c`. */
  function CursorAfter(c: int, moves: seq<Nav>): int
    decreases |moves|
  {
    if moves == [] then c else CursorAfter(Move(c, moves[0]), moves[1..])
  }

  /**
    Whatever buttons are pressed, a cursor that starts in bounds stays in
    bounds, so the question, its audio clip and its answer slot all exist.
  */
  lemma {:induction false} CursorStaysInBounds(c: int, moves: seq<Nav>)
    requires InBounds(c)
    ensures InBounds(CursorAfter(c, moves))
    decreases |moves|
  {
    if moves != [] {
      CursorStaysInBounds(Move(c, moves[0]), moves[1..]);
    }
  }

  /** Pressing Next `k` times moves `k` questions forward, stopping at the last one. */
  lemma {:induction false} NextsStopAtLast(c: int, k: nat)
    requires InBounds(c)
    ensures CursorAfter(c, seq(k, _ => Next)) == if c + k < QuestionCount then c + k else QuestionCount - 1
    decreases k
  {
    var moves := seq(k, _ => Next);
    if k > 0 {
      assert moves[0] == Next;
      assert moves[1..] == seq(k - 1, _ => Next);
      NextsStopAtLast(NextCursor(c), k - 1);
    }
  }

  /** Pressing Previous `k` times moves `k` questions back, stopping at the first one. */
  lemma {:induction false} PreviousesStopAtFirst(c: int, k: nat)
    requires InBounds(c)
    ensures CursorAfter(c, seq(k, _ => Previous)) == if c - k >= 0 then c - k else 0
    decreases k
  {
    var moves := seq(k, _ => Previous);
    if k > 0 {
      assert moves[0] == Previous;
      assert moves[1..] == seq(k - 1, _ => Previous);
      PreviousesStopAtFirst(PreviousCursor(c), k - 1);
    }
  }

  // ------------------------------------------------------- progress, icons

  /** The value of the progress bar, `(currentQuestion + 1) * 10`. */
  function Progress(c: int): (p: int)
    ensures InBounds(c) ==> 10 <= p <= 100
    ensures InBounds(c) ==> (p == 100 <==> c == QuestionCount - 1)
    ensures p % 10 == 0
  {
    (c + 1) * 10
  }

  /** The four decorative icons, in the order the page lists them. */
  datatype Icon = Heart | Star | Sparkles | Music

  const Icons: seq<Icon> := [Heart, Star, Sparkles, Music]

  /** JavaScript's `%`: the remainder takes the sign of the dividend. */
  function JsRemainder(a: int, b: int): (r: int)
    requires b > 0
    ensures a >= 0 ==> 0 <= r < b && r == a % b
    ensures a < 0 ==> -b < r <= 0
    ensures (a - r) % b == 0
  {
    if a >= 0 then
      var k := a / b;
      assert a - a % b == b * k;
      MultipleRemainder(b, k);
      a % b
    else
      var k := (-a) / b;
      assert a + (-a) % b == -(b * k) == b * -k;
      MultipleRemainder(b, -k);
      -((-a) % b)
  }

  /** A multiple of `b` leaves no remainder. */
  lemma MultipleRemainder(b: int, k: int)
    requires b > 0
    ensures (b * k) % b == 0
  {
    var m, q := (b * k) % b, (b * k) / b;
    assert b * (k - q) == m;
    if k - q != 0 {
      NonzeroMultiple(b, k - q);
    }
  }

  lemma NonzeroMultiple(b: int, d: int)
    requires b > 0 && d != 0
    ensures b * d >= b || b * d <= -b
  {
  }

  /**
    `getQuestionIcon(index)`, that is `icons[index % icons.length]`; a negative
    remainder reads past the array (`undefined`, here None).
  */
  function QuestionIcon(index: int): (icon: Option<Icon>)
    ensures index >= 0 ==> icon == Some(Icons[index % 4])
    ensures icon.Some? <==> index >= 0 || index % 4 == 0
    ensures index % 4 == 0 ==> icon == Some(Heart)
  {
    var k := JsRemainder(index, |Icons|);
    if 0 <= k < |Icons| then Some(Icons[k]) else None
  }

  /** The icons repeat every four questions. */
  lemma QuestionIconPeriodic(index: nat)
    ensures QuestionIcon(index + 4) == QuestionIcon(index)
    ensures QuestionIcon(index).Some?
  {
  }

  // ----------------------------------------------------------- e-mail body

  const EmailHeader: string := "Respostas do Questionário:\n\n"

  const NoAnswer: string := "Sem resposta"

  /**
    `answers[i] || "Sem resposta"`: a missing slot and the empty answer are
    both falsy and fall back to the placeholder.
  */
  function AnswerText(answers: seq<string>, i: nat): (t: string)
    ensures t != ""
    ensures i < |answers| && answers[i] != "" ==> t == answers[i]
    ensures i >= |answers| || answers[i] == "" ==> t == NoAnswer
  {
    if i < |answers| && answers[i] != "" then answers[i] else NoAnswer
  }

  /** The two lines written for question `i`. */
  function EmailEntry(questions: seq<string>, answers: seq<string>, i: nat): string
    requires i < |questions|
  {
    (NatToString(i + 1) + ". " + questions[i] + "\n") + ("Resposta: " + AnswerText(answers, i) + "\n\n")
  }

  /** The entries of questions `lo` up to (not including) `hi`, in order. */
  function EmailEntries(questions: seq<string>, answers: seq<string>, lo: nat, hi: nat): string
    requires lo <= hi <= |questions|
    decreases hi - lo
  {
    if lo == hi then "" else EmailEntries(questions, answers, lo, hi - 1) + EmailEntry(questions, answers, hi - 1)
  }

  /** The e-mail body: the header, then one entry per question. */
  function EmailBody(questions: seq<string>, answers: seq<string>): string {
    EmailHeader + EmailEntries(questions, answers, 0, |questions|)
  }

  lemma {:induction false} EmailEntriesSplit(questions: seq<string>, answers: seq<string>, lo: nat, mid: nat, hi: nat)
    requires lo <= mid <= hi <= |questions|
    ensures EmailEntries(questions, answers, lo, hi)
         == EmailEntries(questions, answers, lo, mid) + EmailEntries(questions, answers, mid, hi)
    decreases hi - mid
  {
    if mid < hi {
      EmailEntriesSplit(questions, answers, lo, mid, hi - 1);
    }
  }

  /**
    The exact layout of the body: the header, the entries of the questions
    before `i`, the entry of question `i`, then the entries after it.
  */
  lemma EmailBodyLayout(questions: seq<string>, answers: seq<string>, i: nat)
    requires i < |questions|
    ensures EmailBody(questions, answers)
         == EmailHeader + EmailEntries(questions, answers, 0, i)
          + EmailEntry(questions, answers, i)
          + EmailEntries(questions, answers, i + 1, |questions|)
    ensures EmailEntry(questions, answers, i)
         == (NatToString(i + 1) + ". " + questions[i] + "\n") + ("Resposta: " + AnswerText(answers, i) + "\n\n")
  {
    var n := |questions|;
    var before, entry, after := EmailEntries(questions, answers, 0, i), EmailEntry(questions, answers, i), EmailEntries(questions, answers, i + 1, n);
    EmailEntriesSplit(questions, answers, 0, i, n);
    EmailEntriesSplit(questions, answers, i, i + 1, n);
    assert EmailEntries(questions, answers, i, i + 1) == entry by {
      assert EmailEntries(questions, answers, i, i) == "";
    }
    assert EmailEntries(questions, answers, 0, n) == before + (entry + after);
    ConcatAssociative(EmailHeader, before, entry, after);
  }

  /** Regrouping a four-part concatenation; kept apart so the header literal is not unfolded. */
  lemma ConcatAssociative(a: string, b: string, c: string, d: string)
    ensures a + (b + (c + d)) == a + b + c + d
  {
  }

  lemma {:induction false} EmailEntriesByAnswerText(questions: seq<string>, a: seq<string>, b: seq<string>, lo: nat, hi: nat)
    requires lo <= hi <= |questions|
    requires forall i :: lo <= i < hi ==> AnswerText(a, i) == AnswerText(b, i)
    ensures EmailEntries(questions, a, lo, hi) == EmailEntries(questions, b, lo, hi)
    decreases hi - lo
  {
    if lo < hi {
      EmailEntriesByAnswerText(questions, a, b, lo, hi - 1);
      assert AnswerText(a, hi - 1) == AnswerText(b, hi - 1);
    }
  }

  /**
    The body cannot tell an unanswered question from one answered with the
    placeholder text itself.
  */
  lemma BlankLooksLikePlaceholder(questions: seq<string>, answers: seq<string>, i: nat)
    requires i < |answers|
    ensures EmailBody(questions, answers[i := ""]) == EmailBody(questions, answers[i := NoAnswer])
  {
    var a, b := answers[i := ""], answers[i := NoAnswer];
    forall j | 0 <= j < |questions| ensures AnswerText(a, j) == AnswerText(b, j) {
      if j != i && j < |answers| {
        assert a[j] == answers[j] && b[j] == answers[j];
      }
    }
    EmailEntriesByAnswerText(questions, a, b, 0, |questions|);
  }

  /** The loop of `sendAnswersByEmail` that builds the body with `+=`. */
  method BuildEmailBody(questions: seq<string>, answers: seq<string>) returns (body: string)
    ensures body == EmailBody(questions, answers)
  {
    body := EmailHeader;
    var index := 0;
    while index < |questions|
      invariant 0 <= index <= |questions|
      invariant body == EmailHeader + EmailEntries(questions, answers, 0, index)
    {
      var questionLine := NatToString(index + 1) + ". " + questions[index] + "\n";
      var answerLine := "Resposta: " + (if index < |answers| && answers[index] != "" then answers[index] else NoAnswer) + "\n\n";
      assert questionLine + answerLine == EmailEntry(questions, answers, index);
      body := body + questionLine;
      body := body + answerLine;
      index := index + 1;
    }
  }

  // ---------------------------------------------------------------- state

  /** The component state of the wizard. */
  class Questionnaire {
    const questions: seq<string>
    const audioUrls: seq<string>
    var currentQuestion: int
    var answers: seq<string>
    var showEmailSent: bool

    /** The three per-question arrays have one slot per question and the cursor indexes them. */
    ghost predicate Valid()
      reads this
    {
      && |questions| == QuestionCount
      && |audioUrls| == QuestionCount
      && |answers| == QuestionCount
      && InBounds(currentQuestion)
    }

    /** The first render: question 0, every answer empty, no confirmation shown. */
    constructor ()
      ensures Valid()
      ensures questions == Questions && audioUrls == AudioUrls
      ensures currentQuestion == 0 && answers == InitialAnswers && !showEmailSent
    {
      questions := Questions;
      audioUrls := AudioUrls;
      currentQuestion := 0;
      answers := InitialAnswers;
      showEmailSent := false;
    }

    /** `handleAnswerChange`: a copy of the answers with the current slot replaced. */
    method HandleAnswerChange(answer: string)
      requires Valid()
      modifies this
      ensures Valid()
      ensures currentQuestion == old(currentQuestion) && showEmailSent == old(showEmailSent)
      ensures |answers| == |old(answers)|
      ensures answers[currentQuestion] == answer
      ensures forall j :: 0 <= j < |answers| && j != currentQuestion ==> answers[j] == old(answers)[j]
    {
      var newAnswers := answers;
      newAnswers := newAnswers[currentQuestion := answer];
      answers := newAnswers;
    }

    /**
      `handleNext`: forward one question, or at the last question send the
      answers (the e-mail body is returned) and leave the cursor where it is.
    */
    method HandleNext() returns (email: Option<string>)
      requires Valid()
      modifies this
      ensures Valid()
      ensures currentQuestion == NextCursor(old(currentQuestion))
      ensures answers == old(answers)
      ensures old(currentQuestion) < QuestionCount - 1 ==> email == None && showEmailSent == old(showEmailSent)
      ensures old(currentQuestion) == QuestionCount - 1 ==> email == Some(EmailBody(questions, answers)) && showEmailSent
    {
      if currentQuestion < |questions| - 1 {
        currentQuestion := currentQuestion + 1;
        email := None;
      } else {
        var body := SendAnswersByEmail();
        email := Some(body);
      }
    }

    /** `handlePrevious`: back one question unless at the first. */
    method HandlePrevious()
      requires Valid()
      modifies this
      ensures Valid()
      ensures currentQuestion == PreviousCursor(old(currentQuestion))
      ensures answers == old(answers) && showEmailSent == old(showEmailSent)
    {
      if currentQuestion > 0 {
        currentQuestion := currentQuestion - 1;
      }
    }

    /** `sendAnswersByEmail`: builds the body from every question and shows the confirmation. */
    method SendAnswersByEmail() returns (body: string)
      modifies this`showEmailSent
      ensures body == EmailBody(questions, answers)
      ensures showEmailSent
    {
      body := BuildEmailBody(questions, answers);
      showEmailSent := true;
    }

    /** The value of the progress bar for the current question. */
    function ProgressValue(): (p: int)
      reads this
      requires Valid()
      ensures 10 <= p <= 100
    {
      Progress(currentQuestion)
    }
  }
}
