/** `send_telegram_quizzes` (utils.py:165-214): extracted questions are sent
    one by one as quiz polls numbered from the chat's counter, and the
    counter is written back for the next batch. Whether each `send_poll`
    call raises is given as a sequence of outcomes. */
module Dispatcher {
  import opened Wrappers
  import opened PyText
  import opened Extractor

  /** The arguments of one `bot.send_poll` call that succeeded. The poll
      keeps the number and the stored stem its question text is built from. */
  datatype SentPoll = SentPoll(chatId: int, number: int, stem: string, options: seq<string>, correctOptionId: nat)
  {
    /** The `question` argument: `f"{number}. {unnumbered_question}"`. */
    function Question(): string {
      NumberedQuestion(number, stem)
    }
  }

  /** The leading `\d+\s*[.)]\s*` token of a stem holds: the digits end at
      `d` and the separator is at `e`. */
  predicate HasNumberToken(s: string) {
    var d := SkipDigits(s, 0);
    var e := SkipSpaces(s, d);
    0 < d && e < |s| && (s[e] == '.' || s[e] == ')')
  }

  /** `re.sub(r'^\d+\s*[.)]\s*', '', s)`: without `re.MULTILINE` the anchor
      only matches at the start, so at most one token goes. */
  function StripNumbering(s: string): (r: string)
    ensures EndsWith(s, r)
    ensures HasNumberToken(s) <==> |r| < |s|
    ensures HasNumberToken(s) ==> r == [] || !IsSpace(r[0])
  {
    if HasNumberToken(s) then
      var e := SkipSpaces(s, SkipDigits(s, 0));
      s[SkipSpaces(s, e + 1)..]
    else s
  }

  /** `f"{current_question_num}. {unnumbered_question}"` */
  function NumberedQuestion(num: int, stem: string): string {
    IntToString(num) + ". " + StripNumbering(stem)
  }

  /** What the loop has done after the first `n` questions. */
  datatype Dispatch = Dispatch(sent: nat, errors: nat, failed: seq<string>, polls: seq<SentPoll>, next: int)

  /** The loop of `send_telegram_quizzes` after `n` questions, starting from
      number `start`; `delivered[i]` says whether the `i`-th send succeeds. A
      failed send records the label and leaves the number alone. */
  function Dispatched(qs: seq<Question>, delivered: seq<bool>, chatId: int, start: int, n: nat): Dispatch
    requires n <= |qs| == |delivered|
  {
    if n == 0 then Dispatch(0, 0, [], [], start)
    else
      var d := Dispatched(qs, delivered, chatId, start, n - 1);
      var q := qs[n - 1];
      if delivered[n - 1] then
        Dispatch(d.sent + 1, d.errors, d.failed,
                 d.polls + [SentPoll(chatId, d.next, q.text, q.options, q.correctIndex)], d.next + 1)
      else Dispatch(d.sent, d.errors + 1, d.failed + [q.number], d.polls, d.next)
  }

  /** `quiz_counter.get(chat_id, 1)` */
  function StartNumber(counts: map<int, int>, chatId: int): int {
    if chatId in counts then counts[chatId] else 1
  }

  /** The `quiz_counter` dictionary shared between batches. */
  class QuizCounter {
    var counts: map<int, int>

    constructor(initial: map<int, int>)
      ensures counts == initial
    {
      counts := initial;
    }
  }

  /** `send_telegram_quizzes(bot, questions, chat_id, quiz_counter)`. */
  method SendTelegramQuizzes(questions: seq<Question>, chatId: int, counter: QuizCounter, delivered: seq<bool>)
    returns (sent: nat, errors: nat, failed: seq<string>, polls: seq<SentPoll>)
    requires |delivered| == |questions|
    modifies counter
    ensures var d := Dispatched(questions, delivered, chatId, StartNumber(old(counter.counts), chatId), |questions|);
      sent == d.sent && errors == d.errors && failed == d.failed && polls == d.polls
      && counter.counts == old(counter.counts)[chatId := d.next]
  {
    sent, errors, failed, polls := 0, 0, [], [];
    var start := StartNumber(counter.counts, chatId);
    var current := start;
    var i := 0;
    while i < |questions|
      invariant i <= |questions|
      invariant counter.counts == old(counter.counts)
      invariant Dispatched(questions, delivered, chatId, start, i) == Dispatch(sent, errors, failed, polls, current)
    {
      var q := questions[i];
      if delivered[i] {
        polls := polls + [SentPoll(chatId, current, q.text, q.options, q.correctIndex)];
        sent := sent + 1;
        current := current + 1;
      } else {
        errors := errors + 1;
        failed := failed + [q.number];
      }
      i := i + 1;
    }
    counter.counts := counter.counts[chatId := current];
  }

  /** The labels of the questions whose send failed, in input order. */
  function FailedLabels(qs: seq<Question>, delivered: seq<bool>, n: nat): seq<string>
    requires n <= |qs| == |delivered|
  {
    if n == 0 then [] else FailedLabels(qs, delivered, n - 1) + (if delivered[n - 1] then [] else [qs[n - 1].number])
  }

  /** The number of successful sends among the first `n`. */
  function Successes(delivered: seq<bool>, n: nat): nat
    requires n <= |delivered|
  {
    if n == 0 then 0 else Successes(delivered, n - 1) + (if delivered[n - 1] then 1 else 0)
  }

  /** Every question is either sent or counted as an error, one label is
      recorded per error, one poll per success, and the next number is the
      start plus the successes. */
  lemma {:induction false} DispatchCounts(qs: seq<Question>, delivered: seq<bool>, chatId: int, start: int, n: nat)
    requires n <= |qs| == |delivered|
    ensures var d := Dispatched(qs, delivered, chatId, start, n);
      && d.sent + d.errors == n
      && |d.failed| == d.errors
      && d.sent == |d.polls| == Successes(delivered, n)
      && d.next == start + d.sent
  {
    if n > 0 {
      DispatchCounts(qs, delivered, chatId, start, n - 1);
    }
  }

  /** The failed list holds the labels of the failed questions, in input
      order. */
  lemma {:induction false} DispatchFailed(qs: seq<Question>, delivered: seq<bool>, chatId: int, start: int, n: nat)
    requires n <= |qs| == |delivered|
    ensures Dispatched(qs, delivered, chatId, start, n).failed == FailedLabels(qs, delivered, n)
  {
    if n > 0 {
      DispatchFailed(qs, delivered, chatId, start, n - 1);
    }
  }

  /** The questions whose send succeeds, in input order. */
  function DeliveredQuestions(qs: seq<Question>, delivered: seq<bool>, n: nat): seq<Question>
    requires n <= |qs| == |delivered|
  {
    if n == 0 then [] else DeliveredQuestions(qs, delivered, n - 1) + (if delivered[n - 1] then [qs[n - 1]] else [])
  }

  /** The polls for `qs`, numbered consecutively from `start`. */
  function Renumbered(qs: seq<Question>, chatId: int, start: int): (ps: seq<SentPoll>)
    ensures |ps| == |qs|
  {
    seq(|qs|, j requires 0 <= j < |qs| => SentPoll(chatId, start + j, qs[j].text, qs[j].options, qs[j].correctIndex))
  }

  /** Renumbering one more question appends its poll with the next number. */
  lemma RenumberedSnoc(qs: seq<Question>, q: Question, chatId: int, start: int)
    ensures Renumbered(qs + [q], chatId, start)
            == Renumbered(qs, chatId, start) + [SentPoll(chatId, start + |qs|, q.text, q.options, q.correctIndex)]
  {
    var all := qs + [q];
    var lhs := Renumbered(all, chatId, start);
    var rhs := Renumbered(qs, chatId, start) + [SentPoll(chatId, start + |qs|, q.text, q.options, q.correctIndex)];
    forall j | 0 <= j < |lhs| ensures lhs[j] == rhs[j] {
      if j < |qs| {
        assert all[j] == qs[j];
      }
    }
  }

  /** The polls sent are exactly the delivered questions, in order, numbered
      `start`, `start + 1`, ... with no gap where a send failed. */
  lemma {:induction false} DispatchPolls(qs: seq<Question>, delivered: seq<bool>, chatId: int, start: int, n: nat)
    requires n <= |qs| == |delivered|
    ensures Dispatched(qs, delivered, chatId, start, n).polls == Renumbered(DeliveredQuestions(qs, delivered, n), chatId, start)
  {
    if n > 0 {
      DispatchPolls(qs, delivered, chatId, start, n - 1);
      DispatchCounts(qs, delivered, chatId, start, n - 1);
      var d := Dispatched(qs, delivered, chatId, start, n - 1);
      var prev := DeliveredQuestions(qs, delivered, n - 1);
      var q := qs[n - 1];
      assert d.polls == Renumbered(prev, chatId, start);
      assert |prev| == d.sent && d.next == start + |prev|;
      if delivered[n - 1] {
        assert DeliveredQuestions(qs, delivered, n) == prev + [q];
        assert Dispatched(qs, delivered, chatId, start, n).polls
               == d.polls + [SentPoll(chatId, d.next, q.text, q.options, q.correctIndex)];
        RenumberedSnoc(prev, q, chatId, start);
      } else {
        assert DeliveredQuestions(qs, delivered, n) == prev + [];
        assert Dispatched(qs, delivered, chatId, start, n).polls == d.polls;
      }
    }
  }

  /** When every send succeeds, every question is delivered. */
  lemma {:induction false} AllDelivered(qs: seq<Question>, delivered: seq<bool>, n: nat)
    requires n <= |qs| == |delivered|
    requires forall i :: 0 <= i < n ==> delivered[i]
    ensures DeliveredQuestions(qs, delivered, n) == qs[..n]
  {
    if n > 0 {
      AllDelivered(qs, delivered, n - 1);
      assert qs[..n] == qs[..n - 1] + [qs[n - 1]];
    }
  }

  /** When every send succeeds, poll `j` is question `j` with number
      `start + j`. */
  lemma AllSentNumbered(qs: seq<Question>, delivered: seq<bool>, chatId: int, start: int, j: nat)
    requires |qs| == |delivered|
    requires forall i :: 0 <= i < |qs| ==> delivered[i]
    requires j < |qs|
    ensures j < |Dispatched(qs, delivered, chatId, start, |qs|).polls|
    ensures var p := Dispatched(qs, delivered, chatId, start, |qs|).polls[j];
      p.number == start + j && p.stem == qs[j].text && p.Question() == NumberedQuestion(start + j, qs[j].text)
  {
    AllDeliveredPolls(qs, delivered, chatId, start);
    RenumberedAt(qs, chatId, start, j);
  }

  lemma AllDeliveredPolls(qs: seq<Question>, delivered: seq<bool>, chatId: int, start: int)
    requires |qs| == |delivered|
    requires forall i :: 0 <= i < |qs| ==> delivered[i]
    ensures Dispatched(qs, delivered, chatId, start, |qs|).polls == Renumbered(qs, chatId, start)
  {
    DispatchPolls(qs, delivered, chatId, start, |qs|);
    AllDelivered(qs, delivered, |qs|);
    assert qs[..|qs|] == qs;
  }

  lemma RenumberedAt(qs: seq<Question>, chatId: int, start: int, j: nat)
    requires j < |qs|
    ensures Renumbered(qs, chatId, start)[j] == SentPoll(chatId, start + j, qs[j].text, qs[j].options, qs[j].correctIndex)
  {
  }

  /** A chat whose counter holds 5 and three successful sends: the polls
      are the three questions numbered 5, 6 and 7, and the counter is left
      at 8. */
  lemma CounterExample(qs: seq<Question>, delivered: seq<bool>, counts: map<int, int>, chatId: int)
    requires |qs| == |delivered| == 3 && forall i :: 0 <= i < 3 ==> delivered[i]
    requires chatId in counts && counts[chatId] == 5
    ensures var d := Dispatched(qs, delivered, chatId, StartNumber(counts, chatId), |qs|);
      && d.polls == Renumbered(qs, chatId, 5)
      && counts[chatId := d.next][chatId] == 8
    ensures Renumbered(qs, chatId, 5)[0].number == 5 && Renumbered(qs, chatId, 5)[0].stem == qs[0].text
    ensures Renumbered(qs, chatId, 5)[1].number == 6 && Renumbered(qs, chatId, 5)[1].stem == qs[1].text
    ensures Renumbered(qs, chatId, 5)[2].number == 7 && Renumbered(qs, chatId, 5)[2].stem == qs[2].text
  {
    var start := StartNumber(counts, chatId);
    assert Successes(delivered, 1) == 1;
    assert Successes(delivered, 2) == 2;
    assert Successes(delivered, 3) == 3;
    DispatchCounts(qs, delivered, chatId, start, |qs|);
    AllDeliveredPolls(qs, delivered, chatId, start);
    RenumberedAt(qs, chatId, 5, 0);
    RenumberedAt(qs, chatId, 5, 1);
    RenumberedAt(qs, chatId, 5, 2);
  }

  /** How a single-digit number is written in front of the stem. */
  lemma NumberedDigit(num: nat, stem: string)
    requires num < 10
    ensures NumberedQuestion(num, stem) == [DigitChar(num)] + ". " + StripNumbering(stem)
  {
  }

  /** The first poll of that example reads `5. ` and the stem. */
  lemma FiveExample(stem: string)
    ensures NumberedQuestion(5, stem) == "5. " + StripNumbering(stem)
  {
    NumberedDigit(5, stem);
  }

  /** A failed send does not use up a number: the next success takes it. */
  lemma FailureKeepsNumber(qs: seq<Question>, delivered: seq<bool>, chatId: int)
    requires |qs| == 2 && delivered == [false, true]
    ensures var d := Dispatched(qs, delivered, chatId, 1, 2);
      && d.errors == 1 && d.failed == [qs[0].number]
      && |d.polls| == 1 && d.polls[0].Question() == "1. " + StripNumbering(qs[1].text)
      && d.next == 2
  {
    assert Successes(delivered, 1) == 0;
    assert Successes(delivered, 2) == 1;
    DispatchCounts(qs, delivered, chatId, 1, 2);
    DispatchFailed(qs, delivered, chatId, 1, 2);
    DispatchPolls(qs, delivered, chatId, 1, 2);
    assert DeliveredQuestions(qs, delivered, 1) == [];
    assert DeliveredQuestions(qs, delivered, 2) == [qs[1]];
    assert FailedLabels(qs, delivered, 1) == [qs[0].number];
    RenumberedAt([qs[1]], chatId, 1, 0);
    NumberedDigit(1, qs[1].text);
  }

  /** A stem that carries its own number loses it, so the poll shows only
      the new number. */
  lemma RenumberExample()
    ensures NumberedQuestion(12, "3) What is 2+2?") == "12. What is 2+2?"
  {
    StripExample();
    TwelveText();
  }

  lemma TwelveText()
    ensures IntToString(12) == "12"
  {
  }

  lemma StripExample()
    ensures StripNumbering("3) What is 2+2?") == "What is 2+2?"
  {
    assert "3) What is 2+2?" == ['3'] + ") " + "What is 2+2?";
    StripDigitParen('3', "What is 2+2?");
  }

  /** A one-digit number, `)` and a space go in front of a stem that starts
      with no blank. */
  lemma StripDigitParen(d: char, rest: string)
    requires IsDigit(d) && rest != [] && !IsSpace(rest[0])
    ensures StripNumbering([d] + ") " + rest) == rest
  {
    var s := [d] + ") " + rest;
    assert s[0] == d && s[1] == ')' && s[2] == ' ' && s[3] == rest[0];
    assert SkipDigits(s, 1) == 1;
    assert SkipSpaces(s, 1) == 1;
    assert SkipSpaces(s, 3) == 3;
    assert SkipSpaces(s, 2) == 3;
    assert HasNumberToken(s);
    assert s[3..] == rest;
  }
}
