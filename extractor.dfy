/** `extract_questions_from_text` (utils.py:70-163): the text is normalised,
    split into question blocks at numbered lines, and each block is matched
    field by field; a block either yields one question or one skip record.
    Each regular expression of the source is written out as a scan over
    positions whose contract says which position the expression's
    backtracking settles on. */
module Extractor {
  import opened Wrappers
  import opened PyText

  /** A question record: `question_num`, `question`, `options`,
      `correct_option_id`. */
  datatype Question = Question(number: string, text: string, options: seq<string>, correctIndex: nat)

  /** Why a block was skipped. */
  datatype SkipReason =
    | NoQuestionPattern
    | EmptyQuestionText
    | DuplicateQuestion
    | NoAnswerLine
    | NoOptionsFound
    | TooFewOptions(found: nat)
    | LetterNotInOptions(letter: char, letters: seq<char>)

  /** A skip record: `number` (the question number, or `Block {i+1}`) and
      `reason`. */
  datatype SkipRecord = SkipRecord(number: string, reason: SkipReason)

  datatype Outcome = Accepted(question: Question) | Skipped(skip: SkipRecord)

  datatype Extraction = Extraction(questions: seq<Question>, skipped: seq<SkipRecord>)

  /** One `letter) text` entry found by the options `findall`. */
  datatype Entry = Entry(letter: char, text: string)

  /** The structural invariant of an accepted question. */
  predicate ValidQuestion(q: Question) {
    q.text != [] && 2 <= |q.options| && q.correctIndex < |q.options|
  }

  /** Python's `str` of a list of one-letter strings, e.g. `['a', 'b']`. */
  function LettersRepr(letters: seq<char>): string {
    "[" + Join(", ", seq(|letters|, i requires 0 <= i < |letters| => "'" + [letters[i]] + "'")) + "]"
  }

  /** The `reason` text of a skip record. */
  function ReasonText(r: SkipReason): string {
    match r
    case NoQuestionPattern => "Could not find question number or text."
    case EmptyQuestionText => "Empty question text."
    case DuplicateQuestion => "Duplicate question."
    case NoAnswerLine => "No answer line found."
    case NoOptionsFound => "No options found."
    case TooFewOptions(n) => "Found only " + NatToString(n) + " options."
    case LetterNotInOptions(c, ls) => "Correct answer letter \"" + [c] + "\" not in options " + LettersRepr(ls) + "."
  }

  // ---------------------------------------------------------------------
  // Normalisation and block splitting (utils.py:81, 89)
  // ---------------------------------------------------------------------

  /** `text.replace('\r\n', '\n').strip()` */
  function Normalize(text: string): (r: string)
    ensures IsTrimmed(r)
    ensures !HasCrLf(text) && IsTrimmed(text) ==> r == text
  {
    var t := ReplaceCrLf(text);
    assert !HasCrLf(text) ==> t == text by {
      if !HasCrLf(text) { ReplaceCrLfIdentity(text); }
    }
    Strip(t)
  }

  /** Normalising twice can remove more than normalising once: the first pass
      turns `\r\r\n` into `\r\n`, which the second pass turns into `\n`. */
  lemma NormalizeNotIdempotent()
    ensures Normalize("a\r\r\nb") == "a\r\nb"
    ensures Normalize(Normalize("a\r\r\nb")) == "a\nb"
  {
    ReplaceCrLfOnce();
    assert IsTrimmed("a\r\nb") && IsTrimmed("a\nb");
  }

  lemma ReplaceCrLfOnce()
    ensures ReplaceCrLf("a\r\r\nb") == "a\r\nb"
    ensures ReplaceCrLf("a\r\nb") == "a\nb"
  {
    assert ReplaceCrLf("b") == "b";
    assert ReplaceCrLf("\r\nb") == "\nb";
    assert ReplaceCrLf("\nb") == "\nb";
    assert ReplaceCrLf("\r\r\nb") == "\r\nb";
  }

  /** The `\n` at position `i` starts a new block:
      `\n(?=\s*(?:Q\s*)?\d+\s*[.\-)])`. */
  predicate IsBlockBreak(s: string, i: nat) {
    && i < |s|
    && s[i] == '\n'
    && var a := SkipSpaces(s, i + 1);
       var b := if a < |s| && s[a] == 'Q' then SkipSpaces(s, a + 1) else a;
       var d := SkipDigits(s, b);
       var e := SkipSpaces(s, d);
       b < d && e < |s| && (s[e] == '.' || s[e] == '-' || s[e] == ')')
  }

  /** `re.split` at block breaks, for the piece that started at `start`, with
      positions before `i` already scanned. */
  function SplitFrom(s: string, start: nat, i: nat): (blocks: seq<string>)
    requires start <= i <= |s|
    ensures |blocks| > 0
    decreases |s| - i
  {
    if i == |s| then [s[start..]]
    else if IsBlockBreak(s, i) then [s[start..i]] + SplitFrom(s, i + 1, i + 1)
    else SplitFrom(s, start, i + 1)
  }

  function SplitBlocks(s: string): (blocks: seq<string>)
    ensures |blocks| > 0
  {
    SplitFrom(s, 0, 0)
  }

  lemma JoinCons(x: string, rest: seq<string>)
    requires rest != []
    ensures Join("\n", [x] + rest) == x + "\n" + Join("\n", rest)
  {
    assert ([x] + rest)[1..] == rest;
  }

  /** Joining the piece before a newline with the pieces after it. */
  lemma JoinAtNewline(s: string, start: nat, i: nat, rest: seq<string>)
    requires start <= i < |s| && s[i] == '\n'
    requires rest != [] && Join("\n", rest) == s[i + 1..]
    ensures Join("\n", [s[start..i]] + rest) == s[start..]
  {
    JoinCons(s[start..i], rest);
    assert s[start..] == s[start..i] + "\n" + s[i + 1..];
  }

  lemma {:induction false} SplitFromJoin(s: string, start: nat, i: nat)
    requires start <= i <= |s|
    ensures Join("\n", SplitFrom(s, start, i)) == s[start..]
    decreases |s| - i
  {
    if i == |s| {
    } else if IsBlockBreak(s, i) {
      SplitFromJoin(s, i + 1, i + 1);
      var rest := SplitFrom(s, i + 1, i + 1);
      assert SplitFrom(s, start, i) == [s[start..i]] + rest;
      JoinAtNewline(s, start, i, rest);
    } else {
      SplitFromJoin(s, start, i + 1);
    }
  }

  /** Splitting drops exactly the newlines it splits at: joining the blocks
      with `\n` gives the text back. */
  lemma SplitBlocksJoin(s: string)
    ensures Join("\n", SplitBlocks(s)) == s
  {
    SplitFromJoin(s, 0, 0);
  }

  lemma {:induction false} SplitFromNoBreak(s: string, start: nat, i: nat)
    requires start <= i <= |s|
    requires forall k :: i <= k < |s| ==> !IsBlockBreak(s, k)
    ensures SplitFrom(s, start, i) == [s[start..]]
    decreases |s| - i
  {
    if i < |s| {
      SplitFromNoBreak(s, start, i + 1);
    }
  }

  /** A text without block breaks is one block. */
  lemma SplitBlocksNoBreak(s: string)
    requires forall k :: 0 <= k < |s| ==> !IsBlockBreak(s, k)
    ensures SplitBlocks(s) == [s]
  {
    SplitFromNoBreak(s, 0, 0);
  }

  // ---------------------------------------------------------------------
  // Number and stem (utils.py:99-106)
  // ---------------------------------------------------------------------

  /** The lookahead `(?=\n\s*[a-zA-Z][.)])` holds at position `q`. */
  predicate OptionAhead(s: string, q: nat) {
    && q < |s|
    && s[q] == '\n'
    && var m := SkipSpaces(s, q + 1);
       m + 1 < |s| && IsLetter(s[m]) && (s[m + 1] == '.' || s[m + 1] == ')')
  }

  /** The first position at or after `i` where an option marker line
      follows. */
  function FirstOptionAhead(s: string, i: nat): (r: Option<nat>)
    requires i <= |s|
    ensures r.Some? ==> i <= r.value < |s| && OptionAhead(s, r.value)
    ensures r.Some? ==> forall q :: i <= q < r.value ==> !OptionAhead(s, q)
    ensures r.None? ==> forall q :: i <= q < |s| ==> !OptionAhead(s, q)
    decreases |s| - i
  {
    if i == |s| then None
    else if OptionAhead(s, i) then Some(i)
    else FirstOptionAhead(s, i + 1)
  }

  datatype Header = Header(number: string, stem: string)

  /** `re.match(r'(?:Q\s*)?(\d+)\s*[.\-)]\s*(.*?)(?=\n\s*[a-zA-Z][.)])', block, re.DOTALL)`.
      The greedy `\s*` after the separator is tried first, so the stem runs
      from the first non-blank character to the first option-marker line;
      only when no such line follows does the engine give back blanks, and
      then the lazy stem matches empty text at a newline inside those
      blanks. */
  function MatchHeader(b: string): (r: Option<Header>)
    ensures r.Some? ==> |r.value.number| > 0 && IsDigits(r.value.number)
    ensures r.Some? ==> exists q :: 0 <= q < |b| && OptionAhead(b, q)
  {
    var start := if 0 < |b| && b[0] == 'Q' then SkipSpaces(b, 1) else 0;
    var d := SkipDigits(b, start);
    var e := SkipSpaces(b, d);
    if d == start || e == |b| || !(b[e] == '.' || b[e] == '-' || b[e] == ')') then None
    else
      var w := SkipSpaces(b, e + 1);
      match FirstOptionAhead(b, w)
      case Some(q) => Some(Header(b[start..d], b[w..q]))
      case None =>
        if FirstOptionAhead(b, e + 1).Some? then Some(Header(b[start..d], "")) else None
  }

  /** `.strip().replace('\n', ' ')`, applied to the stem and to each option. */
  function CleanText(t: string): (r: string)
    ensures '\n' !in r
    ensures IsTrimmed(t) && '\n' !in t ==> r == t
  {
    var s := Strip(t);
    assert IsTrimmed(t) && '\n' !in t ==> NewlinesToSpaces(s) == t by {
      if IsTrimmed(t) && '\n' !in t {
        assert s == t;
        NewlinesToSpacesIdentity(s);
      }
    }
    NewlinesToSpaces(s)
  }

  // ---------------------------------------------------------------------
  // Answer letter (utils.py:117-122)
  // ---------------------------------------------------------------------

  /** The six characters at `p` spell `answer` in any letter case. */
  predicate IsAnswerWordAt(s: string, p: nat) {
    && p + 6 <= |s|
    && Lower(s[p]) == 'a' && Lower(s[p + 1]) == 'n' && Lower(s[p + 2]) == 's'
    && Lower(s[p + 3]) == 'w' && Lower(s[p + 4]) == 'e' && Lower(s[p + 5]) == 'r'
  }

  predicate HasAnswerWord(s: string) {
    exists p :: 0 <= p < |s| && IsAnswerWordAt(s, p)
  }

  /** `Answer\s*:\s*([a-zA-Z])`, case-insensitive, matched at `p`. */
  function AnswerAt(s: string, p: nat): (r: Option<char>)
    ensures r.Some? ==> IsLetter(r.value) && IsAnswerWordAt(s, p)
  {
    if !IsAnswerWordAt(s, p) then None
    else
      var k := SkipSpaces(s, p + 6);
      if k == |s| || s[k] != ':' then None
      else
        var m := SkipSpaces(s, k + 1);
        if m < |s| && IsLetter(s[m]) then Some(s[m]) else None
  }

  /** `re.search` for the answer: the first position at or after `p`
      where it matches. */
  function FindAnswer(s: string, p: nat): (r: Option<char>)
    requires p <= |s|
    ensures r.Some? ==> IsLetter(r.value)
    decreases |s| - p
  {
    if p == |s| then None
    else if AnswerAt(s, p).Some? then AnswerAt(s, p)
    else FindAnswer(s, p + 1)
  }

  /** The search returns the leftmost match at or after `p`, and `None`
      exactly when there is none. */
  lemma {:induction false} FindAnswerLeftmost(s: string, p: nat)
    requires p <= |s|
    ensures var r := FindAnswer(s, p);
      && (r.Some? ==> exists k :: p <= k < |s| && AnswerAt(s, k) == r && forall j :: p <= j < k ==> AnswerAt(s, j).None?)
      && (r.None? ==> forall k :: p <= k < |s| ==> AnswerAt(s, k).None?)
    decreases |s| - p
  {
    if p < |s| {
      if AnswerAt(s, p).None? {
        FindAnswerLeftmost(s, p + 1);
        var r := FindAnswer(s, p + 1);
        assert FindAnswer(s, p) == r;
        if r.Some? {
          var k :| p + 1 <= k < |s| && AnswerAt(s, k) == r && forall j :: p + 1 <= j < k ==> AnswerAt(s, j).None?;
          assert forall j :: p <= j < k ==> AnswerAt(s, j).None?;
        }
      }
    }
  }

  /** A match at `q` with none between `p` and `q` is what the search finds. */
  lemma {:induction false} FindAnswerAt(s: string, p: nat, q: nat)
    requires p <= q < |s|
    requires forall j :: p <= j < q ==> AnswerAt(s, j).None?
    requires AnswerAt(s, q).Some?
    ensures FindAnswer(s, p) == AnswerAt(s, q)
    decreases q - p
  {
    if p < q {
      assert AnswerAt(s, p).None?;
      FindAnswerAt(s, p + 1, q);
    }
  }

  /** `answer_match.group(1).lower()`, or `None` when there is no answer
      line. */
  function AnswerLetter(b: string): (r: Option<char>)
    ensures r.Some? ==> 'a' <= r.value <= 'z'
  {
    match FindAnswer(b, 0)
    case None => None
    case Some(c) => Some(Lower(c))
  }

  // ---------------------------------------------------------------------
  // Options (utils.py:125-141)
  // ---------------------------------------------------------------------

  /** The lookahead `(?=\n\s*Answer\s*:)` (case-sensitive) holds at `r`. */
  predicate AnswerAhead(s: string, r: nat) {
    && r < |s|
    && s[r] == '\n'
    && var k := SkipSpaces(s, r + 1);
       && k + 6 <= |s|
       && s[k..k + 6] == "Answer"
       && var m := SkipSpaces(s, k + 6);
          m < |s| && s[m] == ':'
  }

  function FirstAnswerAhead(s: string, i: nat): (r: Option<nat>)
    requires i <= |s|
    ensures r.Some? ==> i <= r.value < |s| && AnswerAhead(s, r.value)
    ensures r.Some? ==> forall k :: i <= k < r.value ==> !AnswerAhead(s, k)
    ensures r.None? ==> forall k :: i <= k < |s| ==> !AnswerAhead(s, k)
    decreases |s| - i
  {
    if i == |s| then None
    else if AnswerAhead(s, i) then Some(i)
    else FirstAnswerAhead(s, i + 1)
  }

  /** Where the option marker whose newline is at `q` ends. */
  function MarkerEnd(s: string, q: nat): (e: nat)
    requires OptionAhead(s, q)
    ensures q < e <= |s|
  {
    SkipSpaces(s, q + 1) + 2
  }

  /** A match of `((?:\n\s*[a-zA-Z][.)].*?)+)(?=\n\s*Answer\s*:)` can start
      at `p`; it then ends at the first answer lookahead after the first
      marker (a marker and its leading blanks can never hold one). */
  predicate OptionsSpanAt(s: string, p: nat) {
    OptionAhead(s, p) && FirstAnswerAhead(s, MarkerEnd(s, p)).Some?
  }

  /** The least position in `[p, n)` where `f` holds. */
  function FirstWhere(f: nat -> bool, p: nat, n: nat): (r: Option<nat>)
    requires p <= n
    ensures r.Some? ==> p <= r.value < n && f(r.value)
    decreases n - p
  {
    if p == n then None
    else if f(p) then Some(p)
    else FirstWhere(f, p + 1, n)
  }

  /** Nothing before the position found satisfies `f`, and `None` means
      nothing in the range does. */
  lemma {:induction false} FirstWhereLeast(f: nat -> bool, p: nat, n: nat)
    requires p <= n
    ensures FirstWhere(f, p, n).Some? ==> forall k :: p <= k < FirstWhere(f, p, n).value ==> !f(k)
    ensures FirstWhere(f, p, n).None? ==> forall k :: p <= k < n ==> !f(k)
    decreases n - p
  {
    if p < n && !f(p) {
      FirstWhereLeast(f, p + 1, n);
    }
  }

  /** `re.search` for the options span: the leftmost start at or after `p`,
      paired with the end of the match. */
  function FindOptionsSpan(s: string, p: nat): (r: Option<(nat, nat)>)
    requires p <= |s|
    ensures r.Some? ==> p <= r.value.0 && OptionsSpanAt(s, r.value.0)
    ensures r.Some? ==> r.value.1 == FirstAnswerAhead(s, MarkerEnd(s, r.value.0)).value
    decreases |s| - p
  {
    if p == |s| then None
    else if OptionsSpanAt(s, p) then Some((p, FirstAnswerAhead(s, MarkerEnd(s, p)).value))
    else FindOptionsSpan(s, p + 1)
  }

  /** The search starts where `OptionsSpanAt` first holds. */
  lemma {:induction false} FindOptionsSpanStart(s: string, p: nat)
    requires p <= |s|
    ensures FindOptionsSpan(s, p).None? <==> FirstWhere((k: nat) => OptionsSpanAt(s, k), p, |s|).None?
    ensures FindOptionsSpan(s, p).Some? ==> FindOptionsSpan(s, p).value.0 == FirstWhere((k: nat) => OptionsSpanAt(s, k), p, |s|).value
    decreases |s| - p
  {
    if p < |s| && !OptionsSpanAt(s, p) {
      FindOptionsSpanStart(s, p + 1);
    }
  }

  /** The span found is the leftmost one, and `None` means there is none. */
  lemma FindOptionsSpanLeftmost(s: string, p: nat)
    requires p <= |s|
    ensures FindOptionsSpan(s, p).Some? ==> forall k :: p <= k < FindOptionsSpan(s, p).value.0 ==> !OptionsSpanAt(s, k)
    ensures FindOptionsSpan(s, p).None? ==> forall k :: p <= k < |s| ==> !OptionsSpanAt(s, k)
  {
    var f := (k: nat) => OptionsSpanAt(s, k);
    FindOptionsSpanStart(s, p);
    FirstWhereLeast(f, p, |s|);
    assert forall k :: f(k) == OptionsSpanAt(s, k);
  }

  /** The lookahead `(?=\n\s*[a-zA-Z][.)]|$)` holds at `y` (`$` also matches
      just before a final newline). */
  predicate EntryEnd(s: string, y: nat) {
    y == |s| || (y + 1 == |s| && s[y] == '\n') || OptionAhead(s, y)
  }

  function FirstEntryEnd(s: string, i: nat): (y: nat)
    requires i <= |s|
    ensures i <= y <= |s| && EntryEnd(s, y)
    ensures forall k :: i <= k < y ==> !EntryEnd(s, k)
    decreases |s| - i
  {
    if EntryEnd(s, i) then i else FirstEntryEnd(s, i + 1)
  }

  /** `re.findall(r'\n\s*([a-zA-Z])[.)]\s*(.*?)(?=\n\s*[a-zA-Z][.)]|$)', s, re.DOTALL)`:
      each match scans to the next marker line (the greedy `\s*` may swallow
      a newline, so an option with no text takes the next line as its text),
      and the next match is searched for where the previous one ended. */
  function OptionEntries(s: string): (es: seq<Entry>)
    ensures forall k :: 0 <= k < |es| ==> IsLetter(es[k].letter)
    ensures OptionAhead(s, 0) ==> |es| > 0
    decreases |s|
  {
    if s == [] then []
    else if !OptionAhead(s, 0) then OptionEntries(s[1..])
    else
      var m := SkipSpaces(s, 1);
      var w := SkipSpaces(s, m + 2);
      var y := FirstEntryEnd(s, w);
      [Entry(s[m], s[w..y])] + OptionEntries(s[y..])
  }

  /** The entries of the block's options span, or `None` when there is no
      span. */
  function BlockEntries(b: string): (r: Option<seq<Entry>>)
    ensures r.Some? ==> |r.value| > 0
  {
    match FindOptionsSpan(b, 0)
    case None => None
    case Some(span) =>
      SpanStartsWithOption(b, span.0, span.1);
      Some(OptionEntries(b[span.0..span.1]))
  }

  /** A slice that starts at an option marker line and reaches past the
      marker starts with that marker. */
  lemma SpanStartsWithOption(b: string, p: nat, r: nat)
    requires OptionAhead(b, p) && MarkerEnd(b, p) <= r <= |b|
    ensures OptionAhead(b[p..r], 0)
  {
    var o := b[p..r];
    var m := SkipSpaces(b, p + 1);
    SkipSpacesShift(b, p, r, 1, m);
    assert o[m - p] == b[m] && o[m - p + 1] == b[m + 1];
  }

  /** `SkipSpaces` on a slice agrees with `SkipSpaces` on the whole string as
      long as the blanks end inside the slice. */
  lemma {:induction false} SkipSpacesShift(s: string, lo: nat, hi: nat, i: nat, m: nat)
    requires lo + i <= m < hi <= |s|
    requires m == SkipSpaces(s, lo + i)
    ensures SkipSpaces(s[lo..hi], i) == m - lo
    decreases m - lo - i
  {
    if lo + i < m {
      SkipSpacesShift(s, lo, hi, i + 1, m);
    }
  }

  function LettersOf(es: seq<Entry>): (ls: seq<char>)
    ensures |ls| == |es|
    ensures forall k :: 0 <= k < |es| ==> ls[k] == Lower(es[k].letter)
  {
    seq(|es|, k requires 0 <= k < |es| => Lower(es[k].letter))
  }

  function TextsOf(es: seq<Entry>): (ts: seq<string>)
    ensures |ts| == |es|
    ensures forall k :: 0 <= k < |es| ==> ts[k] == CleanText(es[k].text)
  {
    seq(|es|, k requires 0 <= k < |es| => CleanText(es[k].text))
  }

  /** `list.index`: the first position of `c`, or `None` where Python raises
      `ValueError`. */
  function IndexOf(ls: seq<char>, c: char): (r: Option<nat>)
    ensures r.Some? ==> r.value < |ls| && ls[r.value] == c && forall k :: 0 <= k < r.value ==> ls[k] != c
    ensures r.None? <==> c !in ls
  {
    if ls == [] then None
    else if ls[0] == c then Some(0)
    else match IndexOf(ls[1..], c)
      case None => None
      case Some(k) => Some(k + 1)
  }

  // ---------------------------------------------------------------------
  // One block (utils.py:93-156)
  // ---------------------------------------------------------------------

  /** The stem a block's header yields, cleaned. */
  function HeaderStem(h: Header): string {
    CleanText(h.stem)
  }

  /** The cascade of checks for one stripped, non-empty block; `index` is the
      block's position in the split text and `seen` the stems accepted so
      far. */
  function ParseBlock(b: string, index: nat, seen: set<string>): (r: Outcome)
    ensures r.Accepted? ==> ValidQuestion(r.question) && r.question.text !in seen
  {
    match MatchHeader(b)
    case None => Skipped(SkipRecord("Block " + NatToString(index + 1), NoQuestionPattern))
    case Some(h) =>
      var stem := HeaderStem(h);
      if stem == [] then Skipped(SkipRecord(h.number, EmptyQuestionText))
      else if stem in seen then Skipped(SkipRecord(h.number, DuplicateQuestion))
      else match AnswerLetter(b)
        case None => Skipped(SkipRecord(h.number, NoAnswerLine))
        case Some(letter) =>
          match BlockEntries(b)
          case None => Skipped(SkipRecord(h.number, NoOptionsFound))
          case Some(es) =>
            if |es| < 2 then Skipped(SkipRecord(h.number, TooFewOptions(|es|)))
            else match IndexOf(LettersOf(es), letter)
              case None => Skipped(SkipRecord(h.number, LetterNotInOptions(letter, LettersOf(es))))
              case Some(k) => Accepted(Question(h.number, stem, TextsOf(es), k))
  }

  /** An accepted block's question is its header's number and cleaned stem,
      its cleaned option texts in order, and the index of the first option
      whose letter is the answer letter. */
  lemma ParseBlockAccepted(b: string, index: nat, seen: set<string>)
    ensures var r := ParseBlock(b, index, seen);
      r.Accepted? ==>
        && MatchHeader(b).Some? && AnswerLetter(b).Some? && BlockEntries(b).Some?
        && r.question.number == MatchHeader(b).value.number
        && r.question.text == HeaderStem(MatchHeader(b).value)
        && r.question.options == TextsOf(BlockEntries(b).value)
        && r.question.correctIndex < |BlockEntries(b).value|
        && LettersOf(BlockEntries(b).value)[r.question.correctIndex] == AnswerLetter(b).value
        && forall k :: 0 <= k < r.question.correctIndex ==> LettersOf(BlockEntries(b).value)[k] != AnswerLetter(b).value
  {
    match MatchHeader(b)
    case None =>
    case Some(h) =>
      var stem := HeaderStem(h);
      if stem != [] && stem !in seen {
        match AnswerLetter(b)
        case None =>
        case Some(letter) =>
          match BlockEntries(b)
          case None =>
          case Some(es) =>
            if |es| >= 2 {
              match IndexOf(LettersOf(es), letter)
              case None =>
              case Some(k) =>
                assert ParseBlock(b, index, seen) == Accepted(Question(h.number, stem, TextsOf(es), k));
            }
      }
  }

  // ---------------------------------------------------------------------
  // The whole text (utils.py:81-163)
  // ---------------------------------------------------------------------

  function StemsOf(qs: seq<Question>): set<string> {
    set q | q in qs :: q.text
  }

  lemma StemsOfAppend(qs: seq<Question>, q: Question)
    ensures StemsOf(qs + [q]) == StemsOf(qs) + {q.text}
  {
    assert forall x :: x in qs + [q] <==> x in qs || x == q;
  }

  /** A block parser: the cleaned block, its position and the stems
      accepted so far decide the block's outcome. */
  type BlockParser = (string, nat, set<string>) -> Outcome

  /** The blocks after `block.strip()`. */
  function Cleaned(blocks: seq<string>): (r: seq<string>)
    ensures |r| == |blocks|
  {
    if blocks == [] then [] else [Strip(blocks[0])] + Cleaned(blocks[1..])
  }

  lemma {:induction false} CleanedAt(blocks: seq<string>, k: nat)
    requires k < |blocks|
    ensures Cleaned(blocks)[k] == Strip(blocks[k])
  {
    if k > 0 {
      CleanedAt(blocks[1..], k - 1);
    }
  }

  /** What the cleaned block `i` adds to the result so far: nothing when it
      is empty, otherwise the parser's outcome. */
  function Step(acc: Extraction, b: string, i: nat, parse: BlockParser): Extraction {
    if b == [] then acc
    else match parse(b, i, StemsOf(acc.questions))
      case Accepted(q) => Extraction(acc.questions + [q], acc.skipped)
      case Skipped(k) => Extraction(acc.questions, acc.skipped + [k])
  }

  /** The result after the first `n` cleaned blocks. */
  function ExtractBlocks(blocks: seq<string>, n: nat, parse: BlockParser): Extraction
    requires n <= |blocks|
  {
    if n == 0 then Extraction([], []) else Step(ExtractBlocks(blocks, n - 1, parse), blocks[n - 1], n - 1, parse)
  }

  /** The value `extract_questions_from_text(text)` returns. */
  function Extract(text: string): Extraction {
    var blocks := Cleaned(SplitBlocks(Normalize(text)));
    ExtractBlocks(blocks, |blocks|, ParseBlock)
  }

  /** The number of cleaned blocks among the first `n` that are not empty. */
  function NonBlankCount(blocks: seq<string>, n: nat): nat
    requires n <= |blocks|
  {
    if n == 0 then 0 else NonBlankCount(blocks, n - 1) + (if blocks[n - 1] == [] then 0 else 1)
  }

  predicate DistinctStems(qs: seq<Question>) {
    forall i, j :: 0 <= i < j < |qs| ==> qs[i].text != qs[j].text
  }

  /** The defining equation of the fold at a non-empty prefix. */
  lemma ExtractBlocksStep(blocks: seq<string>, n: nat, parse: BlockParser)
    requires 0 < n <= |blocks|
    ensures ExtractBlocks(blocks, n, parse) == Step(ExtractBlocks(blocks, n - 1, parse), blocks[n - 1], n - 1, parse)
  {
  }

  /** One block adds one entry, or none when it is blank. */
  lemma StepCount(acc: Extraction, b: string, i: nat, parse: BlockParser)
    ensures |Step(acc, b, i, parse).questions| + |Step(acc, b, i, parse).skipped|
            == |acc.questions| + |acc.skipped| + (if b == [] then 0 else 1)
  {
  }

  /** Every non-blank block contributes exactly one entry, to the questions
      or to the skip records, whatever the parser decides. */
  lemma {:induction false} ExtractPartition(blocks: seq<string>, n: nat, parse: BlockParser)
    requires n <= |blocks|
    ensures |ExtractBlocks(blocks, n, parse).questions| + |ExtractBlocks(blocks, n, parse).skipped| == NonBlankCount(blocks, n)
  {
    if n > 0 {
      ExtractPartition(blocks, n - 1, parse);
      ExtractBlocksStep(blocks, n, parse);
      StepCount(ExtractBlocks(blocks, n - 1, parse), blocks[n - 1], n - 1, parse);
    }
  }

  predicate AllValid(qs: seq<Question>) {
    forall k :: 0 <= k < |qs| ==> ValidQuestion(qs[k])
  }

  /** A parser that only accepts valid questions whose stem is new. */
  ghost predicate SoundParser(parse: BlockParser) {
    forall b, i, seen :: parse(b, i, seen).Accepted? ==>
      ValidQuestion(parse(b, i, seen).question) && parse(b, i, seen).question.text !in seen
  }

  lemma ParseBlockSound()
    ensures SoundParser(ParseBlock)
  {
    forall b, i, seen ensures ParseBlock(b, i, seen).Accepted? ==>
      ValidQuestion(ParseBlock(b, i, seen).question) && ParseBlock(b, i, seen).question.text !in seen {
      var r := ParseBlock(b, i, seen);
    }
  }

  /** One block keeps the questions valid and their texts distinct. */
  lemma StepInvariant(acc: Extraction, b: string, i: nat, parse: BlockParser)
    requires SoundParser(parse)
    requires AllValid(acc.questions) && DistinctStems(acc.questions)
    ensures AllValid(Step(acc, b, i, parse).questions) && DistinctStems(Step(acc, b, i, parse).questions)
  {
    if b != [] {
      var r := parse(b, i, StemsOf(acc.questions));
      if r.Accepted? {
        var qs := acc.questions + [r.question];
        assert Step(acc, b, i, parse).questions == qs;
        forall x, y | 0 <= x < y < |qs| ensures qs[x].text != qs[y].text {
          if y == |qs| - 1 {
            assert qs[x] in acc.questions;
          }
        }
      }
    }
  }

  /** With a sound parser every accepted question is valid and no two share
      their text. */
  lemma {:induction false} ExtractInvariant(blocks: seq<string>, n: nat, parse: BlockParser)
    requires SoundParser(parse)
    requires n <= |blocks|
    ensures AllValid(ExtractBlocks(blocks, n, parse).questions)
    ensures DistinctStems(ExtractBlocks(blocks, n, parse).questions)
  {
    if n > 0 {
      ExtractInvariant(blocks, n - 1, parse);
      ExtractBlocksStep(blocks, n, parse);
      StepInvariant(ExtractBlocks(blocks, n - 1, parse), blocks[n - 1], n - 1, parse);
    }
  }

  lemma PrefixTransitive<T>(a: seq<T>, b: seq<T>, c: seq<T>)
    requires a <= b && b <= c
    ensures a <= c
  {
    assert c[..|b|][..|a|] == c[..|a|];
  }

  lemma ExtendsTransitive(a: Extraction, b: Extraction, c: Extraction)
    requires a.questions <= b.questions && a.skipped <= b.skipped
    requires b.questions <= c.questions && b.skipped <= c.skipped
    ensures a.questions <= c.questions && a.skipped <= c.skipped
  {
    PrefixTransitive(a.questions, b.questions, c.questions);
    PrefixTransitive(a.skipped, b.skipped, c.skipped);
  }

  /** One block only appends. */
  lemma StepExtends(acc: Extraction, b: string, i: nat, parse: BlockParser)
    ensures acc.questions <= Step(acc, b, i, parse).questions
    ensures acc.skipped <= Step(acc, b, i, parse).skipped
  {
  }

  /** One more block only appends. */
  lemma ExtractBlocksExtends(blocks: seq<string>, n: nat, parse: BlockParser)
    requires 0 < n <= |blocks|
    ensures ExtractBlocks(blocks, n - 1, parse).questions <= ExtractBlocks(blocks, n, parse).questions
    ensures ExtractBlocks(blocks, n - 1, parse).skipped <= ExtractBlocks(blocks, n, parse).skipped
  {
    ExtractBlocksStep(blocks, n, parse);
    StepExtends(ExtractBlocks(blocks, n - 1, parse), blocks[n - 1], n - 1, parse);
  }

  /** Later blocks only append: the result for a prefix of the blocks is a
      prefix of the result for all of them, so questions and skip records
      keep document order. */
  lemma {:induction false} ExtractMonotone(blocks: seq<string>, n: nat, m: nat, parse: BlockParser)
    requires n <= m <= |blocks|
    ensures ExtractBlocks(blocks, n, parse).questions <= ExtractBlocks(blocks, m, parse).questions
    ensures ExtractBlocks(blocks, n, parse).skipped <= ExtractBlocks(blocks, m, parse).skipped
    decreases m - n
  {
    if n < m {
      ExtractMonotone(blocks, n + 1, m, parse);
      ExtractBlocksExtends(blocks, n + 1, parse);
      ExtendsTransitive(ExtractBlocks(blocks, n, parse), ExtractBlocks(blocks, n + 1, parse), ExtractBlocks(blocks, m, parse));
    }
  }

  /** A block whose cleaned stem equals an accepted one is skipped as a
      duplicate, whatever follows the stem. */
  lemma DuplicateSkipped(b: string, index: nat, seen: set<string>)
    requires MatchHeader(b).Some? && HeaderStem(MatchHeader(b).value) != []
    requires HeaderStem(MatchHeader(b).value) in seen
    ensures ParseBlock(b, index, seen) == Skipped(SkipRecord(MatchHeader(b).value.number, DuplicateQuestion))
  {
  }

  /** The order in which the checks reject a block: each reason is given
      exactly when every earlier check passed and its own check failed. */
  lemma {:induction false} SkipPrecedence(b: string, index: nat, seen: set<string>)
    ensures var r := ParseBlock(b, index, seen);
      && (r == Skipped(SkipRecord("Block " + NatToString(index + 1), NoQuestionPattern)) <==> MatchHeader(b).None?)
      && (MatchHeader(b).Some? ==>
           var h := MatchHeader(b).value;
           var stem := HeaderStem(h);
           && (r.Skipped? ==> r.skip.number == h.number)
           && (r == Skipped(SkipRecord(h.number, EmptyQuestionText)) <==> stem == [])
           && (r == Skipped(SkipRecord(h.number, DuplicateQuestion)) <==> stem != [] && stem in seen)
           && (r == Skipped(SkipRecord(h.number, NoAnswerLine)) <==>
                 stem != [] && stem !in seen && AnswerLetter(b).None?)
           && (r == Skipped(SkipRecord(h.number, NoOptionsFound)) <==>
                 stem != [] && stem !in seen && AnswerLetter(b).Some? && BlockEntries(b).None?)
           && (r.Skipped? && r.skip.reason.TooFewOptions? <==>
                 stem != [] && stem !in seen && AnswerLetter(b).Some? && BlockEntries(b).Some?
                 && |BlockEntries(b).value| < 2))
  {
    var pb := ParseBlock(b, index, seen);
    match MatchHeader(b)
    case None =>
      assert pb == Skipped(SkipRecord("Block " + NatToString(index + 1), NoQuestionPattern));
    case Some(h) =>
      assert h.number != "Block " + NatToString(index + 1) by {
        assert IsDigits(h.number);
        assert !IsDigit(("Block " + NatToString(index + 1))[0]);
      }
      var stem := HeaderStem(h);
      if stem == [] {
        assert pb == Skipped(SkipRecord(h.number, EmptyQuestionText));
      } else if stem in seen {
        assert pb == Skipped(SkipRecord(h.number, DuplicateQuestion));
      } else {
        match AnswerLetter(b)
        case None =>
          assert pb == Skipped(SkipRecord(h.number, NoAnswerLine));
        case Some(letter) =>
          match BlockEntries(b)
          case None =>
            assert pb == Skipped(SkipRecord(h.number, NoOptionsFound));
          case Some(es) =>
            if |es| < 2 {
              assert pb == Skipped(SkipRecord(h.number, TooFewOptions(|es|)));
            } else {
              assert pb.Accepted? || pb.skip.reason.LetterNotInOptions?;
            }
      }
  }

  /** The last check: a block that passed all others is skipped, naming its
      letters, exactly when the answer letter is not one of them. */
  lemma LetterMissingExactly(b: string, index: nat, seen: set<string>)
    ensures var r := ParseBlock(b, index, seen);
      (r.Skipped? && r.skip.reason.LetterNotInOptions?) <==>
        && MatchHeader(b).Some?
        && HeaderStem(MatchHeader(b).value) != [] && HeaderStem(MatchHeader(b).value) !in seen
        && AnswerLetter(b).Some? && BlockEntries(b).Some? && |BlockEntries(b).value| >= 2
        && AnswerLetter(b).value !in LettersOf(BlockEntries(b).value)
  {
    var pb := ParseBlock(b, index, seen);
    match MatchHeader(b)
    case None =>
    case Some(h) =>
      var stem := HeaderStem(h);
      if stem != [] && stem !in seen {
        match AnswerLetter(b)
        case None =>
        case Some(letter) =>
          match BlockEntries(b)
          case None =>
          case Some(es) =>
            if |es| >= 2 {
              if letter in LettersOf(es) {
                assert IndexOf(LettersOf(es), letter).Some?;
                assert pb.Accepted?;
              } else {
                assert pb == Skipped(SkipRecord(h.number, LetterNotInOptions(letter, LettersOf(es))));
              }
            }
      }
  }

  /** The loop's three updates, each as the fold's next step. */
  lemma BlankStep(blocks: seq<string>, i: nat, parse: BlockParser, questions: seq<Question>, skipped: seq<SkipRecord>)
    requires i < |blocks| && blocks[i] == []
    requires Extraction(questions, skipped) == ExtractBlocks(blocks, i, parse)
    ensures Extraction(questions, skipped) == ExtractBlocks(blocks, i + 1, parse)
  {
    ExtractBlocksStep(blocks, i + 1, parse);
  }

  lemma AcceptedStep(blocks: seq<string>, i: nat, parse: BlockParser, questions: seq<Question>, skipped: seq<SkipRecord>, q: Question)
    requires i < |blocks| && blocks[i] != []
    requires Extraction(questions, skipped) == ExtractBlocks(blocks, i, parse)
    requires parse(blocks[i], i, StemsOf(questions)) == Accepted(q)
    ensures Extraction(questions + [q], skipped) == ExtractBlocks(blocks, i + 1, parse)
  {
    ExtractBlocksStep(blocks, i + 1, parse);
  }

  lemma SkippedStep(blocks: seq<string>, i: nat, parse: BlockParser, questions: seq<Question>, skipped: seq<SkipRecord>, k: SkipRecord)
    requires i < |blocks| && blocks[i] != []
    requires Extraction(questions, skipped) == ExtractBlocks(blocks, i, parse)
    requires parse(blocks[i], i, StemsOf(questions)) == Skipped(k)
    ensures Extraction(questions, skipped + [k]) == ExtractBlocks(blocks, i + 1, parse)
  {
    ExtractBlocksStep(blocks, i + 1, parse);
  }

  /** What the loop's result satisfies once it equals the fold. */
  lemma ExtractFacts(text: string)
    ensures AllValid(Extract(text).questions) && DistinctStems(Extract(text).questions)
    ensures |Extract(text).questions| + |Extract(text).skipped| == NonBlankCount(Cleaned(SplitBlocks(Normalize(text))), |SplitBlocks(Normalize(text))|)
  {
    var blocks := Cleaned(SplitBlocks(Normalize(text)));
    ParseBlockSound();
    ExtractInvariant(blocks, |blocks|, ParseBlock);
    ExtractPartition(blocks, |blocks|, ParseBlock);
  }

  /** The `for` loop of `extract_questions_from_text` over the split
      blocks, keeping the accepted stems in a set. */
  method ExtractFromBlocks(blocks: seq<string>) returns (questions: seq<Question>, skipped: seq<SkipRecord>)
    ensures Extraction(questions, skipped) == ExtractBlocks(Cleaned(blocks), |blocks|, ParseBlock)
  {
    ghost var cleaned := Cleaned(blocks);
    questions, skipped := [], [];
    var seen: set<string> := {};
    var i := 0;
    while i < |blocks|
      invariant i <= |blocks|
      invariant Extraction(questions, skipped) == ExtractBlocks(cleaned, i, ParseBlock)
      invariant seen == StemsOf(questions)
    {
      var block := Strip(blocks[i]);
      CleanedAt(blocks, i);
      if block == [] {
        BlankStep(cleaned, i, ParseBlock, questions, skipped);
      } else {
        var outcome := ParseBlock(block, i, seen);
        match outcome {
          case Accepted(q) =>
            AcceptedStep(cleaned, i, ParseBlock, questions, skipped, q);
            StemsOfAppend(questions, q);
            questions := questions + [q];
            seen := seen + {q.text};
          case Skipped(k) =>
            SkippedStep(cleaned, i, ParseBlock, questions, skipped, k);
            skipped := skipped + [k];
        }
      }
      i := i + 1;
    }
  }

  /** `extract_questions_from_text`: normalise, split into blocks, parse each
      block. */
  method ExtractQuestions(text: string) returns (questions: seq<Question>, skipped: seq<SkipRecord>)
    ensures Extraction(questions, skipped) == Extract(text)
    ensures AllValid(questions) && DistinctStems(questions)
    ensures |questions| + |skipped| == NonBlankCount(Cleaned(SplitBlocks(Normalize(text))), |SplitBlocks(Normalize(text))|)
  {
    var normalized := Normalize(text);
    var blocks := SplitBlocks(normalized);
    questions, skipped := ExtractFromBlocks(blocks);
    ExtractFacts(text);
  }
}
