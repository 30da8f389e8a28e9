/** `format_quiz_as_text` (utils.py:216-254): a Telegram quiz poll written
    back in the plain-text question format the bot reads. */
module Codec {
  import opened Wrappers
  import opened PyText

  /** A poll option: one that has a `text` attribute, or one known only by
      its `str` form. */
  datatype PollOption = TextOption(text: string) | PlainOption(display: string)

  /** `option.text if hasattr(option, 'text') else str(option)` */
  function OptionText(o: PollOption): string {
    match o
    case TextOption(t) => t
    case PlainOption(d) => d
  }

  /** The fields of a Telegram `Poll` the formatter reads. */
  datatype Poll = Poll(question: string, options: seq<PollOption>, correctOptionId: Option<int>)

  /** What the formatter returns once anything raised. */
  const ErrorText := "Error formatting quiz"

  /** `chr(97 + i)` stays below the surrogate range for option positions
      below this bound. */
  const MaxLetters: nat := 0xD800 - 97

  /** `chr(97 + i)` */
  function Letter(i: int): (c: char)
    requires -97 <= i < MaxLetters
    ensures c as int == 97 + i
  {
    (97 + i) as char
  }

  /** `f"{question_num}. "`, or nothing without a number. */
  function Prefix(n: Option<int>): string {
    match n
    case None => ""
    case Some(k) => IntToString(k) + ". "
  }

  /** `f"{chr(97 + i)}) {option_text}\n"` */
  function OptionLine(i: nat, o: PollOption): string
    requires i < MaxLetters
  {
    [Letter(i)] + ") " + OptionText(o) + "\n"
  }

  /** The lines of the first `n` options. */
  function OptionLines(opts: seq<PollOption>, n: nat): string
    requires n <= |opts| <= MaxLetters
  {
    if n == 0 then "" else OptionLines(opts, n - 1) + OptionLine(n - 1, opts[n - 1])
  }

  /** Python accepts `quiz.options[k]` for `-len <= k < len`, and `chr(97 + k)`
      needs `97 + k >= 0`. */
  predicate AnswerIndexValid(k: int, count: nat) {
    -(count as int) <= k < count && -97 <= k
  }

  /** Formatting raises: the correct index is outside what `chr` and list
      indexing accept, or there are more options than letters below the
      surrogate range. */
  predicate FormatFails(quiz: Poll) {
    || |quiz.options| > MaxLetters
    || (quiz.correctOptionId.Some? && !AnswerIndexValid(quiz.correctOptionId.value, |quiz.options|))
  }

  /** The final line: `Answer: {letter}) {text}`, or `Answer: Not provided`. */
  function AnswerLine(quiz: Poll): string
    requires !FormatFails(quiz)
  {
    match quiz.correctOptionId
    case None => "Answer: Not provided"
    case Some(k) =>
      var idx := if k < 0 then |quiz.options| + k else k;
      "Answer: " + [Letter(k)] + ") " + OptionText(quiz.options[idx])
  }

  /** The string `format_quiz_as_text(quiz, question_num)` returns. */
  function QuizText(quiz: Poll, n: Option<int>): string {
    if FormatFails(quiz) then ErrorText
    else Prefix(n) + quiz.question + "\n" + OptionLines(quiz.options, |quiz.options|) + AnswerLine(quiz)
  }

  /** The loop of `format_quiz_as_text`, appending one line per option. */
  method FormatQuizAsText(quiz: Poll, n: Option<int>) returns (text: string)
    ensures text == QuizText(quiz, n)
  {
    if FormatFails(quiz) {
      return ErrorText;
    }
    var head := Prefix(n) + quiz.question + "\n";
    text := head;
    var i := 0;
    while i < |quiz.options|
      invariant i <= |quiz.options|
      invariant text == head + OptionLines(quiz.options, i)
    {
      OptionLinesStep(quiz.options, i);
      AppendAssoc(head, OptionLines(quiz.options, i), OptionLine(i, quiz.options[i]));
      text := text + OptionLine(i, quiz.options[i]);
      i := i + 1;
    }
    text := text + AnswerLine(quiz);
  }

  /** One more option appends that option's line. */
  lemma OptionLinesStep(opts: seq<PollOption>, i: nat)
    requires i < |opts| <= MaxLetters
    ensures OptionLines(opts, i + 1) == OptionLines(opts, i) + OptionLine(i, opts[i])
  {
  }

  /** The option lines hold one line per option, in order. */
  lemma {:induction false} OptionLinesLength(opts: seq<PollOption>, n: nat)
    requires n <= |opts| <= MaxLetters
    ensures |OptionLines(opts, n)| >= 4 * n
    ensures n > 0 ==> OptionLines(opts, n)[..3] == [Letter(0)] + ") "
  {
    if n > 0 {
      OptionLinesLength(opts, n - 1);
      if n == 1 {
        assert OptionLines(opts, n) == OptionLine(0, opts[0]);
      } else {
        var a := OptionLines(opts, n - 1);
        assert OptionLines(opts, n)[..3] == a[..3];
      }
    }
  }

  /** The formatter returns the error text exactly when formatting raises:
      any successful output holds a newline, the error text none. */
  lemma {:induction false} ErrorExactly(quiz: Poll, n: Option<int>)
    ensures QuizText(quiz, n) == ErrorText <==> FormatFails(quiz)
  {
    if !FormatFails(quiz) {
      var r := QuizText(quiz, n);
      var head := Prefix(n) + quiz.question;
      assert r[|head|] == '\n';
      assert '\n' !in ErrorText;
    }
  }

  /** A formatted quiz begins with the numbered stem on a line of its own. */
  lemma {:induction false} StemFirst(quiz: Poll, n: Option<int>)
    requires !FormatFails(quiz)
    ensures StartsWith(QuizText(quiz, n), Prefix(n) + quiz.question + "\n")
  {
    var lines := OptionLines(quiz.options, |quiz.options|);
    var head := Prefix(n) + quiz.question + "\n";
    assert QuizText(quiz, n) == head + (lines + AnswerLine(quiz));
    ConcatEnds(head, lines + AnswerLine(quiz));
  }

  /** With a valid non-negative index, the last line marks the option at that
      index with the index's letter. */
  lemma {:induction false} AnswerMarked(quiz: Poll, n: Option<int>, k: nat)
    requires quiz.correctOptionId == Some(k) && k < |quiz.options| <= MaxLetters
    ensures EndsWith(QuizText(quiz, n), "\n" + ("Answer: " + [Letter(k)] + ") " + OptionText(quiz.options[k])))
  {
    var lines := OptionLines(quiz.options, |quiz.options|);
    var head := Prefix(n) + quiz.question + "\n";
    var tail := "Answer: " + [Letter(k)] + ") " + OptionText(quiz.options[k]);
    assert !FormatFails(quiz);
    assert QuizText(quiz, n) == head + (lines + tail);
    LastLineEnds(quiz.options, |quiz.options|);
    EndsWithNewlineThen(lines, head, tail);
  }

  lemma EndsWithNewlineThen(lines: string, head: string, tail: string)
    requires |lines| > 0 && lines[|lines| - 1] == '\n'
    ensures EndsWith(head + (lines + tail), "\n" + tail)
  {
    var body := lines[..|lines| - 1];
    assert lines == body + "\n";
    assert head + (lines + tail) == (head + body) + ("\n" + tail);
    ConcatEnds(head + body, "\n" + tail);
  }

  /** Every option line ends with a newline. */
  lemma LastLineEnds(opts: seq<PollOption>, n: nat)
    requires 0 < n <= |opts| <= MaxLetters
    ensures |OptionLines(opts, n)| > 0 && OptionLines(opts, n)[|OptionLines(opts, n)| - 1] == '\n'
  {
    var a := OptionLines(opts, n - 1);
    var l := OptionLine(n - 1, opts[n - 1]);
    assert OptionLines(opts, n) == a + l;
    assert l[|l| - 1] == '\n';
  }

  /** Without a correct index the answer line says so. */
  lemma NotProvided(quiz: Poll, n: Option<int>)
    requires quiz.correctOptionId.None? && |quiz.options| <= MaxLetters
    ensures EndsWith(QuizText(quiz, n), "Answer: Not provided")
  {
    var r := QuizText(quiz, n);
    assert r == (Prefix(n) + quiz.question + "\n" + OptionLines(quiz.options, |quiz.options|)) + "Answer: Not provided";
    ConcatEnds(Prefix(n) + quiz.question + "\n" + OptionLines(quiz.options, |quiz.options|), "Answer: Not provided");
  }

  /** The example the bot's help text gives. */
  lemma FranceExample()
    ensures QuizText(Poll("Capital of France?", [TextOption("Paris"), TextOption("Lyon")], Some(0)), None)
            == "Capital of France?\na) Paris\nb) Lyon\nAnswer: a) Paris"
  {
    FranceLines();
    FranceJoin();
  }

  lemma FranceLines()
    ensures OptionLines([TextOption("Paris"), TextOption("Lyon")], 2) == "a) Paris\nb) Lyon\n"
  {
    var opts := [TextOption("Paris"), TextOption("Lyon")];
    OptionLinesStep(opts, 0);
    OptionLinesStep(opts, 1);
    assert OptionLine(0, opts[0]) == "a) Paris\n";
    assert OptionLine(1, opts[1]) == "b) Lyon\n";
  }

  lemma FranceJoin()
    ensures "Capital of France?" + "\n" + "a) Paris\nb) Lyon\n" + "Answer: a) Paris"
            == "Capital of France?\na) Paris\nb) Lyon\nAnswer: a) Paris"
  {
  }

  /** An index past the last option (`c` for two options) makes the
      formatter return the error text. */
  lemma OutOfRangeExample()
    ensures QuizText(Poll("Q?", [TextOption("x"), TextOption("y")], Some(2)), Some(1)) == ErrorText
  {
  }
}
