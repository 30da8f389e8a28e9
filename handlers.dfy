/** The conversation handlers of handlers.py: the module-level dictionaries
    `user_states`, `user_quiz_batches` and `user_last_file_time` (and the
    `extracted_data` entry kept inside `user_states`) become the fields of a
    `Session`; the Telegram calls become the replies each handler returns.
    Whatever the bot learns from outside — the clock, the text read from an
    uploaded file, whether a file could be written, whether each poll could
    be sent — is a parameter. */
module Handlers {
  import opened Wrappers
  import opened PyText
  import opened States
  import opened Extractor
  import opened Codec
  import opened Dispatcher
  import RoundTrip

  // ---------------------------------------------------------------------
  // Output shaping: inline text, a document, or 4000-character parts

  const ChunkSize: nat := 4000

  /** A message the bot sends back: text, or a document with a caption and
      the text the file holds. */
  datatype Reply = Text(text: string) | Document(fileName: string, caption: string, content: string)

  /** `[text[i:i+4000] for i in range(0, len(text), 4000)]` */
  function Chunks(s: string): seq<string>
    decreases |s|
  {
    if s == [] then []
    else if |s| <= ChunkSize then [s]
    else [s[..ChunkSize]] + Chunks(s[ChunkSize..])
  }

  function Concat(parts: seq<string>): string
    decreases |parts|
  {
    if parts == [] then [] else parts[0] + Concat(parts[1..])
  }

  /** The parts put back together give the text; every part is non-empty and
      at most 4000 characters long, every part but the last exactly 4000, and
      there are as many parts as 4000-character blocks the text needs. */
  lemma {:induction false} ChunksRebuild(s: string)
    ensures Concat(Chunks(s)) == s
    ensures forall k :: 0 <= k < |Chunks(s)| ==> 0 < |Chunks(s)[k]| <= ChunkSize
    ensures forall k :: 0 <= k < |Chunks(s)| - 1 ==> |Chunks(s)[k]| == ChunkSize
    ensures |Chunks(s)| == (|s| + ChunkSize - 1) / ChunkSize
    decreases |s|
  {
    if |s| > ChunkSize {
      var rest := s[ChunkSize..];
      ChunksRebuild(rest);
      var parts := Chunks(s);
      assert parts == [s[..ChunkSize]] + Chunks(rest);
      assert parts[1..] == Chunks(rest);
      assert s == s[..ChunkSize] + rest;
      forall k | 0 <= k < |parts| ensures 0 < |parts[k]| <= ChunkSize {
        if k > 0 { assert parts[k] == Chunks(rest)[k - 1]; }
      }
      forall k | 0 <= k < |parts| - 1 ensures |parts[k]| == ChunkSize {
        if k > 0 { assert parts[k] == Chunks(rest)[k - 1]; }
      }
    } else if s != [] {
      assert Concat(Chunks(s)) == s + Concat([]);
    }
  }

  /** `f"Part {i}/{len(parts)}:\n\n"` */
  function PartHeader(i: nat, n: nat): string {
    "Part " + NatToString(i) + "/" + NatToString(n) + ":\n\n"
  }

  function PartReplies(parts: seq<string>): seq<Reply> {
    seq(|parts|, k requires 0 <= k < |parts| => Text(PartHeader(k + 1, |parts|) + parts[k]))
  }

  /** The delivery rule shared by finishing an extraction and showing the
      extracted questions: up to 4000 characters go inline after the summary;
      longer text goes into a document, or, when the file cannot be written,
      into numbered parts after the summary. */
  function Deliver(summary: string, body: string, docName: string, saved: bool): seq<Reply> {
    if |body| > ChunkSize then
      if saved then [Document(docName, summary, body)]
      else [Text(summary)] + PartReplies(Chunks(body))
    else [Text(summary + "\n\n" + body)]
  }

  /** Whatever branch is taken, the whole body reaches the user: inline after
      the summary, as the document's content, or as the parts' bodies, each
      at most 4000 characters, in order. */
  lemma DeliverCarriesBody(summary: string, body: string, docName: string, saved: bool)
    ensures var r := Deliver(summary, body, docName, saved);
      && (|body| <= ChunkSize ==> r == [Text(summary + "\n\n" + body)])
      && (|body| > ChunkSize && saved ==> r == [Document(docName, summary, body)])
      && (|body| > ChunkSize && !saved ==>
            && |r| == 1 + |Chunks(body)| && r[0] == Text(summary)
            && (forall k :: 0 <= k < |Chunks(body)| ==> r[k + 1] == Text(PartHeader(k + 1, |Chunks(body)|) + Chunks(body)[k]))
            && Concat(Chunks(body)) == body
            && (forall k :: 0 <= k < |Chunks(body)| ==> |Chunks(body)[k]| <= ChunkSize))
  {
    ChunksRebuild(body);
  }

  // ---------------------------------------------------------------------
  // The skipped-questions summary (handlers.py:238-244)

  /** `str()` of a skip record: the dict `{'number': ..., 'reason': ...}`. */
  function SkipStr(r: SkipRecord): string {
    "{'number': " + PyRepr(r.number) + ", 'reason': " + PyRepr(ReasonText(r.reason)) + "}"
  }

  function SkipStrs(s: seq<SkipRecord>): (r: seq<string>)
    ensures |r| == |s| && forall k :: 0 <= k < |s| ==> r[k] == SkipStr(s[k])
  {
    seq(|s|, k requires 0 <= k < |s| => SkipStr(s[k]))
  }

  function Min(a: nat, b: nat): nat {
    if a < b then a else b
  }

  /** The skipped part of the result message: nothing without skips,
      otherwise the count, the first five records and how many more there
      are. */
  function SkippedSummary(s: seq<SkipRecord>): string {
    if s == [] then ""
    else
      "\n⚠️ Skipped " + NatToString(|s|) + " questions due to format issues:\n"
      + "Questions " + Join(", ", SkipStrs(s[..Min(5, |s|)]))
      + (if |s| > 5 then " and " + NatToString(|s| - 5) + " more" else "")
  }

  /** The last part of a join is a suffix of it. */
  lemma {:induction false} JoinEndsWithLast(sep: string, parts: seq<string>)
    requires |parts| > 0
    ensures EndsWith(Join(sep, parts), parts[|parts| - 1])
    decreases |parts|
  {
    if |parts| > 1 {
      JoinEndsWithLast(sep, parts[1..]);
      var rest := Join(sep, parts[1..]);
      var j := Join(sep, parts);
      assert j == (parts[0] + sep) + rest;
      assert j[|j| - |rest|..] == rest;
    }
  }

  function SkippedHead(n: nat): string {
    "\n⚠️ Skipped " + NatToString(n) + " questions due to format issues:\n" + "Questions "
  }

  function MoreTail(n: nat): string {
    if n > 5 then " and " + NatToString(n - 5) + " more" else ""
  }

  lemma SkippedSummaryParts(s: seq<SkipRecord>)
    requires s != []
    ensures SkippedSummary(s) == SkippedHead(|s|) + Join(", ", SkipStrs(s[..Min(5, |s|)])) + MoreTail(|s|)
  {
  }

  /** Without skips the summary is empty; otherwise it starts on a new line. */
  lemma SkippedSummaryEmpty(s: seq<SkipRecord>)
    ensures s == [] <==> SkippedSummary(s) == ""
  {
    if s != [] {
      SkippedSummaryParts(s);
      assert SkippedSummary(s)[0] == '\n';
    }
  }

  /** More than five skips: the summary ends with " and N more", N the
      records beyond the first five. */
  lemma SkippedSummaryMore(s: seq<SkipRecord>)
    requires |s| > 5
    ensures EndsWith(SkippedSummary(s), " and " + NatToString(|s| - 5) + " more")
  {
    SkippedSummaryParts(s);
    var r := SkippedSummary(s);
    var tail := MoreTail(|s|);
    var front := SkippedHead(|s|) + Join(", ", SkipStrs(s[..5]));
    assert r == front + tail;
    assert r[|r| - |tail|..] == tail;
  }

  /** At most five skips: the summary ends with the last record itself, so
      there is no " and N more". */
  lemma {:induction false} SkippedSummaryFew(s: seq<SkipRecord>)
    requires 0 < |s| <= 5
    ensures !EndsWith(SkippedSummary(s), " more")
  {
    SkippedSummaryParts(s);
    var parts := SkipStrs(s[..|s|]);
    JoinEndsWithLast(", ", parts);
    var j := Join(", ", parts);
    var last := parts[|parts| - 1];
    assert last[|last| - 1] == '}';
    assert j[|j| - 1] == '}';
    var r := SkippedSummary(s);
    assert r == SkippedHead(|s|) + j;
    assert r[|r| - 1] == '}';
  }

  /** The summary lists the first five records (all of them when there are
      fewer). */
  lemma SkippedSummaryLists(s: seq<SkipRecord>, k: nat)
    requires k < Min(5, |s|)
    ensures Contains(SkippedSummary(s), SkipStr(s[k]))
  {
    SkippedSummaryParts(s);
    var parts := SkipStrs(s[..Min(5, |s|)]);
    JoinContains(", ", parts, k);
    ContainsWithin(SkippedHead(|s|), Join(", ", parts), MoreTail(|s|), parts[k]);
  }

  /** The reply to a file whose questions were sent. */
  function ResultMessage(found: nat, sent: nat, errors: nat, failed: seq<string>, skipped: seq<SkipRecord>): (r: string)
    ensures StartsWith(r, ResultHead(found, sent))
    ensures EndsWith(r, SkippedSummary(skipped))
    ensures errors == 0 ==> r == ResultHead(found, sent) + SkippedSummary(skipped)
  {
    var head := ResultHead(found, sent);
    var tail := SkippedSummary(skipped);
    var middle := FailurePart(errors, failed);
    AppendAssoc(head, middle, tail);
    ConcatEnds(head, middle + tail);
    ConcatEnds(head + middle, tail);
    assert errors == 0 ==> middle == [];
    assert errors == 0 ==> head + middle == head;
    head + middle + tail
  }

  /** The counts of found and sent questions that open the result message. */
  function ResultHead(found: nat, sent: nat): string {
    "✅ Successfully extracted " + NatToString(found) + " questions\n"
    + "- Sent as quizzes: " + NatToString(sent) + "\n"
  }

  /** The failure lines of the result message, present only when a send failed. */
  function FailurePart(errors: nat, failed: seq<string>): string {
    if errors > 0 then
      "- Failed to send: " + NatToString(errors) + "\n"
      + (if failed != [] then "  Failed question numbers: " + Join(", ", failed) + "\n" else "")
    else ""
  }

  /** After a failed send the result message reports the number of failures
      and names every failed question. */
  lemma ResultListsFailures(found: nat, sent: nat, errors: nat, failed: seq<string>, skipped: seq<SkipRecord>, k: nat)
    requires errors > 0 && k < |failed|
    ensures Contains(ResultMessage(found, sent, errors, failed, skipped), "- Failed to send: " + NatToString(errors) + "\n")
    ensures Contains(ResultMessage(found, sent, errors, failed, skipped), failed[k])
  {
    var line := "- Failed to send: " + NatToString(errors) + "\n";
    var caption := "  Failed question numbers: ";
    var joined := Join(", ", failed);
    var middle := FailurePart(errors, failed);
    assert middle == line + (caption + joined + "\n");
    assert OccursAt(line, line, 0);
    ContainsConcat(line, caption + joined + "\n", line);
    JoinContains(", ", failed, k);
    ContainsConcat(caption, joined, failed[k]);
    ContainsConcat(caption + joined, "\n", failed[k]);
    ContainsConcat(line, caption + joined + "\n", failed[k]);
    PartOfResult(found, sent, errors, failed, skipped, line);
    PartOfResult(found, sent, errors, failed, skipped, failed[k]);
  }

  /** Whatever the failure lines contain, the result message contains. */
  lemma PartOfResult(found: nat, sent: nat, errors: nat, failed: seq<string>, skipped: seq<SkipRecord>, p: string)
    requires Contains(FailurePart(errors, failed), p)
    ensures Contains(ResultMessage(found, sent, errors, failed, skipped), p)
  {
    var head := ResultHead(found, sent);
    var middle := FailurePart(errors, failed);
    ContainsConcat(head, middle, p);
    ContainsConcat(head + middle, SkippedSummary(skipped), p);
  }

  // ---------------------------------------------------------------------
  // Receiving a file (handlers.py:157-263)

  /** `file_name.lower()` ends with `.pdf` or `.txt`. Only the ASCII capitals
      lower-case to these letters, so ASCII lower-casing decides the test. */
  predicate AcceptedFileName(name: string) {
    var lower := seq(|name|, i requires 0 <= i < |name| => PyText.Lower(name[i]));
    EndsWith(lower, ".pdf") || EndsWith(lower, ".txt")
  }

  /** How far `handle_file` gets before it sends the questions. */
  datatype FileStage =
    | Ignored
    | RateLimited(wait: int)
    | NoFileName
    | WrongType
    | NoText
    | NoQuestions
    | Extracted(ex: Extraction)

  /** The checks of `handle_file` in their order: the user's state, the rate
      limit, the file name, the text, the extraction. */
  function Stage(states: map<int, UserState>, last: map<int, int>, minInterval: int,
                 userId: int, now: int, fileName: Option<string>, fileText: string): (st: FileStage)
    ensures st.Ignored? <==> userId !in states || states[userId] != WaitingForFile
    ensures st.RateLimited? <==> !st.Ignored? && userId in last && now - last[userId] < minInterval
    ensures st.RateLimited? ==> st.wait == minInterval - (now - last[userId]) && st.wait > 0
    ensures st.Extracted? ==>
      && fileName.Some? && AcceptedFileName(fileName.value) && Strip(fileText) != []
      && st.ex == Extract(fileText) && st.ex.questions != []
  {
    if userId !in states || states[userId] != WaitingForFile then Ignored
    else if userId in last && now - last[userId] < minInterval then RateLimited(minInterval - (now - last[userId]))
    else if fileName.None? then NoFileName
    else if !AcceptedFileName(fileName.value) then WrongType
    else if Strip(fileText) == [] then NoText
    else
      var ex := Extract(fileText);
      if ex.questions == [] then NoQuestions else Extracted(ex)
  }

  /** A user waiting for a file who sends `quiz.txt` holding one well-formed
      question gets through every check before the send: the file reaches
      the call at handlers.py:225. */
  lemma SampleFileExtracted(userId: int, now: int, minInterval: int)
    ensures Stage(map[userId := WaitingForFile], map[], minInterval, userId, now, Some("quiz.txt"),
                  "1. What is 2+2?\na) 3\nb) 4\nAnswer: b")
            == Extracted(Extraction([Question("1", "What is 2+2?", ["3", "4"], 1)], []))
  {
    var text := "1. What is 2+2?\na) 3\nb) 4\nAnswer: b";
    RoundTrip.SampleAccepted();
    SampleTextNotBlank();
    TxtAccepted();
    StageReachesExtraction(map[userId := WaitingForFile], map[], minInterval, userId, now, "quiz.txt", text,
                           Extraction([Question("1", "What is 2+2?", ["3", "4"], 1)], []));
  }

  /** A waiting user, not rate limited, whose accepted file holds text with
      at least one question reaches the extraction. */
  lemma StageReachesExtraction(states: map<int, UserState>, last: map<int, int>, minInterval: int,
                               userId: int, now: int, name: string, text: string, ex: Extraction)
    requires userId in states && states[userId] == WaitingForFile
    requires userId !in last || now - last[userId] >= minInterval
    requires AcceptedFileName(name) && Strip(text) != [] && Extract(text) == ex && ex.questions != []
    ensures Stage(states, last, minInterval, userId, now, Some(name), text) == Extracted(ex)
  {
  }

  lemma SampleTextNotBlank()
    ensures Strip("1. What is 2+2?\na) 3\nb) 4\nAnswer: b") != []
  {
    var text := "1. What is 2+2?\na) 3\nb) 4\nAnswer: b";
    assert !IsSpace(text[0]);
  }

  /** The name `quiz.txt` passes the file-type test. */
  lemma TxtAccepted()
    ensures AcceptedFileName("quiz.txt")
  {
    var name := "quiz.txt";
    var lower := seq(|name|, i requires 0 <= i < |name| => PyText.Lower(name[i]));
    assert lower == name;
  }

  /** The reply `handle_file` sends when anything raises. */
  const FileError := "❌ Error processing the file"

  const FormatReminder := "Make sure the format is:\n1. Question text?\na) First option\nb) Second option\nc) Third option\nd) Fourth option\nAnswer: c) correct answer"

  function WaitReply(wait: int): string {
    "⏳ Please wait " + IntToString(wait) + " seconds"
  }

  const WrongTypeReply := "❌ Please send only PDF or text files"
  const NoTextReply := "❌ No text found in the file"
  const NoQuestionsReply := "❌ No questions found\n\n" + FormatReminder

  /** The replies of the stages that stop before sending. `None.lower()`
      raises, which lands in the handler's `except`. */
  function StageReplies(st: FileStage): seq<string> {
    match st
    case Ignored => []
    case RateLimited(w) => [WaitReply(w)]
    case NoFileName => [FileError]
    case WrongType => [WrongTypeReply]
    case NoText => [NoTextReply]
    case NoQuestions => [NoQuestionsReply]
    case Extracted(_) => []
  }

  /** The outcome of the k-th poll send, as a sequence for `n` sends. */
  function Outcomes(sendOk: nat -> bool, n: nat): (r: seq<bool>)
    ensures |r| == n
  {
    seq(n, k requires 0 <= k < n => sendOk(k))
  }

  // ---------------------------------------------------------------------
  // Finishing a forwarded batch (handlers.py:307-365)

  /** `enumerate(quizzes, 1)` through the formatter. The formatter catches
      everything itself, so no quiz is ever skipped here. */
  function FinishTexts(quizzes: seq<Poll>): (r: seq<string>)
    ensures |r| == |quizzes|
  {
    seq(|quizzes|, k requires 0 <= k < |quizzes| => QuizText(quizzes[k], Some(k + 1)))
  }

  lemma FinishTextsAll(quizzes: seq<Poll>, texts: seq<string>)
    requires |texts| == |quizzes|
    requires forall k :: 0 <= k < |quizzes| ==> texts[k] == QuizText(quizzes[k], Some(k + 1))
    ensures FinishTexts(quizzes) == texts
  {
  }

  lemma BatchStep(quizzes: seq<Poll>, formatted: seq<string>, t: string)
    requires |formatted| < |quizzes|
    requires forall k :: 0 <= k < |formatted| ==> formatted[k] == QuizText(quizzes[k], Some(k + 1))
    requires t == QuizText(quizzes[|formatted|], Some(|formatted| + 1))
    ensures forall k :: 0 <= k < |formatted| + 1 ==> (formatted + [t])[k] == QuizText(quizzes[k], Some(k + 1))
  {
  }

  /** The formatting loop of `finish_extraction_callback`. */
  method FormatBatch(quizzes: seq<Poll>) returns (formatted: seq<string>)
    ensures formatted == FinishTexts(quizzes)
  {
    formatted := [];
    var i := 0;
    while i < |quizzes|
      invariant i <= |quizzes|
      invariant |formatted| == i
      invariant forall k :: 0 <= k < i ==> formatted[k] == QuizText(quizzes[k], Some(k + 1))
    {
      var t := FormatQuizAsText(quizzes[i], Some(i + 1));
      BatchStep(quizzes, formatted, t);
      formatted := formatted + [t];
      i := i + 1;
    }
    FinishTextsAll(quizzes, formatted);
  }

  function FinishSummary(formatted: nat, forwarded: nat): string {
    "✅ Extracted " + NatToString(formatted) + " quizzes out of " + NatToString(forwarded) + " forwarded"
  }

  function FinishReplies(quizzes: seq<Poll>, saved: bool): seq<Reply> {
    var texts := FinishTexts(quizzes);
    Deliver(FinishSummary(|texts|, |quizzes|), Join("\n\n", texts), "extracted_quizzes.txt", saved)
  }

  /** Finish numbers the quizzes from 1 in batch order: the k-th text is the
      formatter's output for the k-th quiz with number k + 1, and every quiz
      the formatter accepts starts with that number and its question. */
  lemma FinishNumbersFromOne(quizzes: seq<Poll>, k: nat)
    requires k < |quizzes|
    ensures FinishTexts(quizzes)[k] == QuizText(quizzes[k], Some(k + 1))
    ensures !FormatFails(quizzes[k]) ==>
      StartsWith(FinishTexts(quizzes)[k], NatToString(k + 1) + ". " + quizzes[k].question + "\n")
  {
    if !FormatFails(quizzes[k]) {
      StemFirst(quizzes[k], Some(k + 1));
    }
  }

  // ---------------------------------------------------------------------
  // Showing the extracted questions (handlers.py:367-423)

  /** The poll a stored question describes: its text, its option texts and
      its correct index. */
  function AsPoll(q: Question): Poll {
    Poll(q.text, seq(|q.options|, j requires 0 <= j < |q.options| => TextOption(q.options[j])), Some(q.correctIndex))
  }

  /** An extracted question can only fail to format when it has more options
      than there are letters below the surrogate range. */
  lemma ValidQuestionFormats(q: Question)
    requires ValidQuestion(q)
    ensures FormatFails(AsPoll(q)) <==> |q.options| > MaxLetters
  {
  }

  /** The nested loop of `show_questions_callback` for question `i`; `None`
      where it raises. */
  method ShowQuestionText(i: nat, q: Question) returns (text: Option<string>)
    ensures text.None? <==> FormatFails(AsPoll(q))
    ensures text.Some? ==> text.value == QuizText(AsPoll(q), Some(i))
  {
    if |q.options| > MaxLetters || q.correctIndex >= |q.options| {
      return None;
    }
    var head := NatToString(i) + ". " + q.text + "\n";
    var t := AppendOptionLines(head, q);
    var answer := "Answer: " + [Letter(q.correctIndex)] + ") " + q.options[q.correctIndex];
    ShownTextIs(q, i, head, t, answer);
    text := Some(t + answer);
  }

  /** The inner loop of `show_questions_callback`: one line per option. */
  method AppendOptionLines(head: string, q: Question) returns (t: string)
    requires |q.options| <= MaxLetters
    ensures t == head + OptionLines(AsPoll(q).options, |q.options|)
  {
    ghost var poll := AsPoll(q);
    t := head;
    var j := 0;
    while j < |q.options|
      invariant j <= |q.options|
      invariant t == head + OptionLines(poll.options, j)
    {
      var line := [Letter(j)] + ") " + q.options[j] + "\n";
      AsPollLine(q, j);
      AppendAssoc(head, OptionLines(poll.options, j), line);
      t := t + line;
      j := j + 1;
    }
  }

  /** Option `j` of the poll is printed as the question's option text. */
  lemma AsPollLine(q: Question, j: nat)
    requires j < |q.options| <= MaxLetters
    ensures OptionLines(AsPoll(q).options, j + 1) == OptionLines(AsPoll(q).options, j) + ([Letter(j)] + ") " + q.options[j] + "\n")
  {
    OptionLinesStep(AsPoll(q).options, j);
  }

  /** The answer line names the question's correct option. */
  lemma ShownTextIs(q: Question, i: nat, head: string, t: string, answer: string)
    requires 0 <= q.correctIndex < |q.options| <= MaxLetters
    requires head == NatToString(i) + ". " + q.text + "\n"
    requires t == head + OptionLines(AsPoll(q).options, |q.options|)
    requires answer == "Answer: " + [Letter(q.correctIndex)] + ") " + q.options[q.correctIndex]
    ensures t + answer == QuizText(AsPoll(q), Some(i))
  {
  }

  /** The texts of all shown questions, numbered from 1, or `None` when one
      of them cannot be formatted. */
  function ShownTexts(qs: seq<Question>): (r: Option<seq<string>>)
    ensures r.None? <==> exists k :: 0 <= k < |qs| && FormatFails(AsPoll(qs[k]))
    ensures r.Some? ==> |r.value| == |qs| && forall k :: 0 <= k < |qs| ==> r.value[k] == QuizText(AsPoll(qs[k]), Some(k + 1))
  {
    if exists k :: 0 <= k < |qs| && FormatFails(AsPoll(qs[k])) then None
    else Some(seq(|qs|, k requires 0 <= k < |qs| => QuizText(AsPoll(qs[k]), Some(k + 1))))
  }

  lemma {:induction false} ShownTextsAll(qs: seq<Question>, texts: seq<string>)
    requires |texts| == |qs|
    requires forall k :: 0 <= k < |qs| ==> !FormatFails(AsPoll(qs[k])) && texts[k] == QuizText(AsPoll(qs[k]), Some(k + 1))
    ensures ShownTexts(qs) == Some(texts)
  {
    assert !exists k :: 0 <= k < |qs| && FormatFails(AsPoll(qs[k]));
    var all := seq(|qs|, k requires 0 <= k < |qs| => QuizText(AsPoll(qs[k]), Some(k + 1)));
    assert texts == all;
  }

  lemma ShownStep(qs: seq<Question>, formatted: seq<string>, t: string)
    requires |formatted| < |qs|
    requires forall k :: 0 <= k < |formatted| ==> !FormatFails(AsPoll(qs[k])) && formatted[k] == QuizText(AsPoll(qs[k]), Some(k + 1))
    requires !FormatFails(AsPoll(qs[|formatted|])) && t == QuizText(AsPoll(qs[|formatted|]), Some(|formatted| + 1))
    ensures forall k :: 0 <= k < |formatted| + 1 ==> !FormatFails(AsPoll(qs[k])) && (formatted + [t])[k] == QuizText(AsPoll(qs[k]), Some(k + 1))
  {
  }

  /** The formatting loop of `show_questions_callback`, numbering from 1;
      `None` as soon as one question raises. */
  method FormatShown(qs: seq<Question>) returns (texts: Option<seq<string>>)
    ensures texts == ShownTexts(qs)
  {
    var formatted: seq<string> := [];
    var i := 0;
    while i < |qs|
      invariant i <= |qs|
      invariant |formatted| == i
      invariant forall k :: 0 <= k < i ==> !FormatFails(AsPoll(qs[k])) && formatted[k] == QuizText(AsPoll(qs[k]), Some(k + 1))
    {
      var t := ShowQuestionText(i + 1, qs[i]);
      if t.None? {
        return None;
      }
      ShownStep(qs, formatted, t.value);
      formatted := formatted + [t.value];
      i := i + 1;
    }
    ShownTextsAll(qs, formatted);
    return Some(formatted);
  }

  function ShowSummary(ex: Extraction): string {
    "📊 Showing " + NatToString(|ex.questions|) + " extracted questions"
    + (if ex.skipped != [] then "\n⚠️ " + NatToString(|ex.skipped|) + " questions were skipped due to format issues" else "")
  }

  function ShowReplies(ex: Option<Extraction>, saved: bool): seq<Reply> {
    match ex
    case None => [Text("❌ No extracted questions available")]
    case Some(e) =>
      match ShownTexts(e.questions)
      case None => [Text("❌ Error showing extracted questions")]
      case Some(texts) => Deliver(ShowSummary(e), Join("\n\n", texts), "extracted_questions.txt", saved)
  }

  // ---------------------------------------------------------------------
  // The session

  const CreatePrompt := "📤 Please send me a PDF or text file with questions.\n\nThe file should contain questions in this format:\n1. Question text?\na) First option\nb) Second option\nc) Third option\nd) Fourth option\nAnswer: c) correct answer"
  const ExtractPrompt := "📥 Please forward me Telegram quizzes.\nI'll collect them until you press 'Finish Extraction'."
  const Reminder := "Please use the keyboard buttons to interact with the bot."

  /** `user_quiz_batches.get(user_id, {'quizzes': []})['quizzes']` */
  function BatchOf(batches: map<int, seq<Poll>>, userId: int): seq<Poll> {
    if userId in batches then batches[userId] else []
  }

  function SavedReply(count: nat): string {
    "📥 Quiz saved (" + NatToString(count) + ")\nPress 'Finish Extraction' when done"
  }

  /** The module-level state of handlers.py. `minInterval` is
      `MIN_INTERVAL_BETWEEN_FILES`, in whole seconds. */
  class Session {
    var states: map<int, UserState>
    var batches: map<int, seq<Poll>>
    var lastFileTime: map<int, int>
    var extracted: map<int, Extraction>
    const minInterval: int

    constructor(minInterval: int)
      ensures this.minInterval == minInterval
      ensures states == map[] && batches == map[] && lastFileTime == map[] && extracted == map[]
    {
      this.minInterval := minInterval;
      states := map[];
      batches := map[];
      lastFileTime := map[];
      extracted := map[];
    }

    /** `start_command`: the user's state becomes IDLE. */
    method Start(userId: int)
      modifies this
      ensures states == old(states)[userId := Idle]
      ensures batches == old(batches) && lastFileTime == old(lastFileTime) && extracted == old(extracted)
    {
      states := states[userId := Idle];
    }

    /** `handle_create_quiz_button` */
    method CreateQuizButton(userId: int) returns (reply: string)
      modifies this
      ensures reply == CreatePrompt
      ensures states == old(states)[userId := WaitingForFile]
      ensures batches == old(batches) && lastFileTime == old(lastFileTime) && extracted == old(extracted)
    {
      states := states[userId := WaitingForFile];
      reply := CreatePrompt;
    }

    /** `handle_extract_quizzes_button`: starts collecting with an empty batch. */
    method ExtractQuizzesButton(userId: int) returns (reply: string)
      modifies this
      ensures reply == ExtractPrompt
      ensures states == old(states)[userId := CollectingForwardedQuizzes]
      ensures batches == old(batches)[userId := []]
      ensures lastFileTime == old(lastFileTime) && extracted == old(extracted)
    {
      states := states[userId := CollectingForwardedQuizzes];
      batches := batches[userId := []];
      reply := ExtractPrompt;
    }

    /** `handle_text_message`: the three main-menu buttons, otherwise a
        reminder. `None` stands for the help text, which changes nothing. */
    method TextMessage(userId: int, text: string) returns (reply: Option<string>)
      modifies this
      ensures text == "📝 Create Quiz" ==>
        reply == Some(CreatePrompt) && states == old(states)[userId := WaitingForFile] && batches == old(batches)
      ensures text == "📥 Extract Quizzes from Forwards" ==>
        reply == Some(ExtractPrompt) && states == old(states)[userId := CollectingForwardedQuizzes] &&
        batches == old(batches)[userId := []]
      ensures text == "❓ Help" ==> reply.None? && states == old(states) && batches == old(batches)
      ensures text !in {"📝 Create Quiz", "📥 Extract Quizzes from Forwards", "❓ Help"} ==>
        reply == Some(Reminder) && states == old(states) && batches == old(batches)
      ensures lastFileTime == old(lastFileTime) && extracted == old(extracted)
    {
      if text == "📝 Create Quiz" {
        var r := CreateQuizButton(userId);
        reply := Some(r);
      } else if text == "📥 Extract Quizzes from Forwards" {
        var r := ExtractQuizzesButton(userId);
        reply := Some(r);
      } else if text == "❓ Help" {
        reply := None;
      } else {
        reply := Some(Reminder);
      }
    }

    /** The checks `handle_file` makes before sending, in their order. The
        time is recorded once the rate limit lets the file through, before
        the file name is checked. */
    method Intake(userId: int, now: int, fileName: Option<string>, fileText: string) returns (st: FileStage)
      modifies this
      ensures st == Stage(old(states), old(lastFileTime), minInterval, userId, now, fileName, fileText)
      ensures lastFileTime == (if st.Ignored? || st.RateLimited? then old(lastFileTime) else old(lastFileTime)[userId := now])
      ensures states == old(states) && batches == old(batches) && extracted == old(extracted)
    {
      if userId !in states || states[userId] != WaitingForFile {
        return Ignored;
      }
      if userId in lastFileTime && now - lastFileTime[userId] < minInterval {
        return RateLimited(minInterval - (now - lastFileTime[userId]));
      }
      lastFileTime := lastFileTime[userId := now];
      if fileName.None? {
        return NoFileName;
      }
      if !AcceptedFileName(fileName.value) {
        return WrongType;
      }
      if Strip(fileText) == [] {
        return NoText;
      }
      var questions, skipped := ExtractQuestions(fileText);
      if questions == [] {
        return NoQuestions;
      }
      return Extracted(Extraction(questions, skipped));
    }

    /** `handle_file` with the call at handlers.py:225 given the quiz
        counter `send_telegram_quizzes` needs: the questions are stored,
        sent, reported, and the user moves to EXTRACTING_QUIZZES. */
    method HandleFile(userId: int, chatId: int, now: int, fileName: Option<string>, fileText: string,
                      counter: QuizCounter, sendOk: nat -> bool) returns (replies: seq<string>)
      modifies this, counter
      ensures batches == old(batches)
      ensures var st := Stage(old(states), old(lastFileTime), minInterval, userId, now, fileName, fileText);
        && lastFileTime == (if st.Ignored? || st.RateLimited? then old(lastFileTime) else old(lastFileTime)[userId := now])
        && extracted == (if st.Extracted? then old(extracted)[userId := st.ex] else old(extracted))
        && states == (if st.Extracted? then old(states)[userId := ExtractingQuizzes] else old(states))
        && (!st.Extracted? ==> replies == StageReplies(st) && counter.counts == old(counter.counts))
        && (st.Extracted? ==>
              var d := Dispatched(st.ex.questions, Outcomes(sendOk, |st.ex.questions|), chatId,
                                  StartNumber(old(counter.counts), chatId), |st.ex.questions|);
              && replies == [ResultMessage(|st.ex.questions|, d.sent, d.errors, d.failed, st.ex.skipped)]
              && counter.counts == old(counter.counts)[chatId := d.next])
    {
      var st := Intake(userId, now, fileName, fileText);
      if !st.Extracted? {
        return StageReplies(st);
      }
      var questions := st.ex.questions;
      extracted := extracted[userId := st.ex];
      var sent, errors, failed, polls := SendTelegramQuizzes(questions, chatId, counter, Outcomes(sendOk, |questions|));
      replies := [ResultMessage(|questions|, sent, errors, failed, st.ex.skipped)];
      states := states[userId := ExtractingQuizzes];
    }

    /** `handle_file` as written: the call at handlers.py:225 passes three
        arguments to a function of four, so it raises `TypeError` once the
        questions are stored; the handler replies with its error text and the
        user stays in WAITING_FOR_FILE. */
    method HandleFileAsWritten(userId: int, now: int, fileName: Option<string>, fileText: string) returns (replies: seq<string>)
      modifies this
      ensures var st := Stage(old(states), old(lastFileTime), minInterval, userId, now, fileName, fileText);
        && batches == old(batches) && states == old(states)
        && lastFileTime == (if st.Ignored? || st.RateLimited? then old(lastFileTime) else old(lastFileTime)[userId := now])
        && extracted == (if st.Extracted? then old(extracted)[userId := st.ex] else old(extracted))
        && replies == (if st.Extracted? then [FileError] else StageReplies(st))
    {
      var st := Intake(userId, now, fileName, fileText);
      if !st.Extracted? {
        return StageReplies(st);
      }
      extracted := extracted[userId := st.ex];
      replies := [FileError];
    }

    /** `handle_forwarded_quiz`: only a forwarded quiz from a collecting user
        is stored, and the reply reports the batch's new length. */
    method HandleForwardedQuiz(userId: int, isForwardedQuiz: bool, quiz: Poll) returns (reply: Option<string>)
      modifies this
      ensures states == old(states) && lastFileTime == old(lastFileTime) && extracted == old(extracted)
      ensures if userId in old(states) && old(states)[userId] == CollectingForwardedQuizzes && isForwardedQuiz
              then batches == old(batches)[userId := BatchOf(old(batches), userId) + [quiz]]
                   && reply == Some(SavedReply(|BatchOf(old(batches), userId)| + 1))
              else batches == old(batches) && reply.None?
    {
      if userId !in states || states[userId] != CollectingForwardedQuizzes {
        return None;
      }
      if !isForwardedQuiz {
        return None;
      }
      if userId !in batches {
        batches := batches[userId := []];
      }
      batches := batches[userId := batches[userId] + [quiz]];
      var count := |batches[userId]|;
      reply := Some(SavedReply(count));
    }

    /** `finish_extraction_callback`: with no batch, or an empty one, nothing
        changes; otherwise the batch is popped, every quiz is formatted with
        its position as number, and the user goes back to IDLE. */
    method FinishExtraction(userId: int, saved: bool) returns (replies: seq<Reply>)
      modifies this
      ensures lastFileTime == old(lastFileTime) && extracted == old(extracted)
      ensures if BatchOf(old(batches), userId) == []
              then replies == [Text("❌ No quizzes saved")] && batches == old(batches) && states == old(states)
              else && replies == FinishReplies(old(batches)[userId], saved)
                   && batches == old(batches) - {userId}
                   && states == old(states)[userId := Idle]
    {
      if userId !in batches || batches[userId] == [] {
        return [Text("❌ No quizzes saved")];
      }
      var quizzes := batches[userId];
      batches := batches - {userId};
      var formatted := FormatBatch(quizzes);
      replies := Deliver(FinishSummary(|formatted|, |quizzes|), Join("\n\n", formatted), "extracted_quizzes.txt", saved);
      assert replies == FinishReplies(quizzes, saved);
      states := states[userId := Idle];
    }

    /** `show_questions_callback`: reads the stored extraction and changes
        nothing. */
    method ShowQuestions(userId: int, saved: bool) returns (replies: seq<Reply>)
      ensures replies == ShowReplies(if userId in extracted then Some(extracted[userId]) else None, saved)
    {
      if userId !in extracted {
        return [Text("❌ No extracted questions available")];
      }
      var ex := extracted[userId];
      var texts := FormatShown(ex.questions);
      if texts.None? {
        return [Text("❌ Error showing extracted questions")];
      }
      var formatted := texts.value;
      replies := Deliver(ShowSummary(ex), Join("\n\n", formatted), "extracted_questions.txt", saved);
    }

    /** `cancel_extraction_callback` */
    method CancelExtraction(userId: int) returns (reply: string)
      modifies this
      ensures reply == "❌ Quiz extraction cancelled"
      ensures batches == old(batches) - {userId} && states == old(states)[userId := Idle]
      ensures lastFileTime == old(lastFileTime) && extracted == old(extracted)
    {
      batches := batches - {userId};
      states := states[userId := Idle];
      reply := "❌ Quiz extraction cancelled";
    }

    /** `cancel_processing_callback` */
    method CancelProcessing(userId: int) returns (reply: string)
      modifies this
      ensures reply == "❌ Processing cancelled"
      ensures extracted == old(extracted) - {userId} && states == old(states)[userId := Idle]
      ensures lastFileTime == old(lastFileTime) && batches == old(batches)
    {
      extracted := extracted - {userId};
      states := states[userId := Idle];
      reply := "❌ Processing cancelled";
    }
  }

  /** `handle_direct_quiz`: a quiz sent straight to the bot is answered with
      its formatted text, without a number. The formatter never raises, so
      the handler's own error reply is never sent. */
  function DirectQuizReply(quiz: Poll): (r: string)
    ensures StartsWith(r, "Extracted Quiz:\n\n")
    ensures !FormatFails(quiz) ==> StartsWith(r, "Extracted Quiz:\n\n" + quiz.question + "\n")
    ensures !FormatFails(quiz) ==> EndsWith(r, AnswerLine(quiz))
  {
    var head := "Extracted Quiz:\n\n";
    var t := QuizText(quiz, None);
    assert (head + t)[..|head|] == head;
    if !FormatFails(quiz) then
      StemFirst(quiz, None);
      assert (head + t)[..|head| + |quiz.question| + 1] == head + t[..|quiz.question| + 1];
      var front := Prefix(None) + quiz.question + "\n" + OptionLines(quiz.options, |quiz.options|);
      assert t == front + AnswerLine(quiz);
      AppendAssoc(head, front, AnswerLine(quiz));
      ConcatEnds(head + front, AnswerLine(quiz));
      head + t
    else head + t
  }
}
