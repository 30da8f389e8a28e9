/** The two text formats of utils.py meet: `format_quiz_as_text`
    (utils.py:216-254) writes a poll in the very format that
    `extract_questions_from_text` (utils.py:70-163) reads, and the bot's
    instructions (handlers.py:111-116) ask users for that format. This module
    proves that the extractor gives the formatted question back, and works
    through the sample blocks of the format. */
module RoundTrip {
  import opened Wrappers
  import opened PyText
  import opened Extractor
  import opened Codec

  // ---------------------------------------------------------------------
  // The canonical block
  // ---------------------------------------------------------------------

  /** A field the format carries unchanged: non-empty, without surrounding
      blanks, on one line, and without the word `answer` in any case. */
  predicate PlainLine(s: string) {
    s != [] && IsTrimmed(s) && '\n' !in s && !HasAnswerWord(s)
  }

  /** A stem and option texts the format carries; there are at most as many
      options as lower-case letters. */
  predicate Carried(stem: string, ts: seq<string>) {
    && PlainLine(stem)
    && 2 <= |ts| <= 26
    && forall j :: 0 <= j < |ts| ==> PlainLine(ts[j])
  }

  /** `\n{letter}) {text}` for option `i`. */
  function Piece(ts: seq<string>, i: nat): string
    requires i < |ts| <= 26
  {
    "\n" + [Letter(i)] + ") " + ts[i]
  }

  /** The option lines `i` to `n - 1`, each introduced by its newline. */
  function Marked(ts: seq<string>, i: nat, n: nat): string
    requires i <= n <= |ts| <= 26
    decreases n - i
  {
    if i == n then "" else Piece(ts, i) + Marked(ts, i + 1, n)
  }

  /** The option entries of a canonical block: option `j` under letter `j`. */
  function Entries(ts: seq<string>, i: nat, n: nat): (es: seq<Entry>)
    requires i <= n <= |ts| <= 26
    ensures |es| == n - i
  {
    seq(n - i, j requires 0 <= j < n - i => Entry(Letter(i + j), ts[i + j]))
  }

  /** The head of a block: number, separator and stem. */
  function Head(n: nat, stem: string): string {
    NatToString(n) + ". " + stem
  }

  /** The answer line after its newline. */
  function AnswerTail(c: char, rest: string): string {
    "\nAnswer: " + [c] + rest
  }

  // ---------------------------------------------------------------------
  // Character-level helpers
  // ---------------------------------------------------------------------

  lemma LetterRange(i: nat)
    requires i < 26
    ensures 'a' <= Letter(i) <= 'z'
  {
  }

  lemma LettersDistinct(i: nat, j: nat)
    requires i < 26 && j < 26 && i != j
    ensures Letter(i) != Letter(j)
  {
  }

  /** Where `\s*` stops when the first character is not blank. */
  lemma SkipNone(s: string, i: nat)
    requires i < |s| && !IsSpace(s[i])
    ensures SkipSpaces(s, i) == i
  {
  }

  /** Every character of an `answer` word is a letter. */
  lemma WordLetters(s: string, p: nat, j: nat)
    requires IsAnswerWordAt(s, p) && p <= j < p + 6
    ensures IsLetter(s[j])
  {
    assert 'a' <= Lower(s[j]) <= 'z';
  }

  /** An `answer` word in a concatenation lies in one of the parts when a
      non-letter sits on either side of the seam. */
  lemma NoWordConcat(a: string, b: string)
    requires !HasAnswerWord(a) && !HasAnswerWord(b)
    requires a == [] || b == [] || !IsLetter(a[|a| - 1]) || !IsLetter(b[0])
    ensures !HasAnswerWord(a + b)
  {
    var s := a + b;
    forall p | 0 <= p < |s| ensures !IsAnswerWordAt(s, p) {
      if IsAnswerWordAt(s, p) {
        if p + 6 <= |a| {
          assert IsAnswerWordAt(a, p) by {
            forall j | p <= j < p + 6 ensures s[j] == a[j] { }
          }
        } else if |a| <= p {
          assert IsAnswerWordAt(b, p - |a|) by {
            forall j | p <= j < p + 6 ensures s[j] == b[j - |a|] { }
          }
        } else {
          WordLetters(s, p, |a| - 1);
          WordLetters(s, p, |a|);
        }
      }
    }
  }

  /** A string without letters, or shorter than `answer`, holds no `answer`
      word. */
  lemma NoWordWithoutLetters(s: string)
    requires |s| < 6 || forall j :: 0 <= j < |s| ==> !IsLetter(s[j])
    ensures !HasAnswerWord(s)
  {
    if |s| >= 6 {
      forall p | 0 <= p < |s| ensures !IsAnswerWordAt(s, p) {
        if IsAnswerWordAt(s, p) {
          WordLetters(s, p, p);
        }
      }
    }
  }

  /** A string without `n` or `N` holds no `answer` word. */
  lemma NoWordWithoutN(s: string)
    requires 'n' !in s && 'N' !in s
    ensures !HasAnswerWord(s)
  {
    forall p | 0 <= p < |s| ensures !IsAnswerWordAt(s, p) {
      if p + 6 <= |s| {
        assert s[p + 1] in s;
      }
    }
  }

  /** A `\r\n` in a concatenation lies in one of the parts unless the seam
      splits it. */
  lemma NoCrLfConcat(a: string, b: string)
    requires !HasCrLf(a) && !HasCrLf(b)
    requires a == [] || b == [] || a[|a| - 1] != '\r' || b[0] != '\n'
    ensures !HasCrLf(a + b)
  {
    var s := a + b;
    forall i | 0 <= i < |s| - 1 ensures !(s[i] == '\r' && s[i + 1] == '\n') {
      if i + 1 < |a| {
        assert s[i] == a[i] && s[i + 1] == a[i + 1];
      } else if |a| <= i {
        assert s[i] == b[i - |a|] && s[i + 1] == b[i - |a| + 1];
      }
    }
  }

  /** A string whose only newline is its first character holds no `\r\n`. */
  lemma NoCrLfOneLine(s: string)
    requires forall j :: 0 < j < |s| ==> s[j] != '\n'
    ensures !HasCrLf(s)
  {
  }

  /** Every newline is followed by a letter that can start neither a number,
      nor a `Q`, nor blanks. */
  predicate GoodNewlines(s: string) {
    forall r :: 0 <= r < |s| && s[r] == '\n' ==>
      r + 1 < |s| && (('a' <= s[r + 1] <= 'z') || s[r + 1] == 'A')
  }

  lemma GoodConcat(a: string, b: string)
    requires GoodNewlines(a) && GoodNewlines(b)
    requires a == [] || a[|a| - 1] != '\n'
    ensures GoodNewlines(a + b)
  {
    var s := a + b;
    forall r | 0 <= r < |s| && s[r] == '\n'
      ensures r + 1 < |s| && (('a' <= s[r + 1] <= 'z') || s[r + 1] == 'A')
    {
      if r < |a| {
        assert a[r] == '\n';
      } else {
        assert b[r - |a|] == '\n';
      }
    }
  }

  /** A newline followed by such a letter starts no block. */
  lemma NoBreakAt(s: string, i: nat)
    requires GoodNewlines(s) && i < |s|
    ensures !IsBlockBreak(s, i)
  {
    if s[i] == '\n' {
      SkipNone(s, i + 1);
    }
  }

  // ---------------------------------------------------------------------
  // The option lines
  // ---------------------------------------------------------------------

  lemma {:induction false} MarkedSnoc(ts: seq<string>, i: nat, n: nat)
    requires i < n <= |ts| <= 26
    ensures Marked(ts, i, n) == Marked(ts, i, n - 1) + Piece(ts, n - 1)
    decreases n - i
  {
    if i < n - 1 {
      MarkedSnoc(ts, i + 1, n);
      assert Marked(ts, i, n) == Piece(ts, i) + (Marked(ts, i + 1, n - 1) + Piece(ts, n - 1));
    }
  }

  /** The option lines of `format_quiz_as_text` are the canonical option
      lines followed by the newline before the answer line. */
  lemma {:induction false} LinesMarked(opts: seq<PollOption>, ts: seq<string>, n: nat)
    requires |ts| == |opts| <= 26 && n <= |opts|
    requires forall j :: 0 <= j < |opts| ==> ts[j] == OptionText(opts[j])
    ensures "\n" + OptionLines(opts, n) == Marked(ts, 0, n) + "\n"
  {
    if n > 0 {
      LinesMarked(opts, ts, n - 1);
      MarkedSnoc(ts, 0, n);
      var a := OptionLines(opts, n - 1);
      var m := Marked(ts, 0, n - 1);
      var l := OptionLine(n - 1, opts[n - 1]);
      AppendAssoc("\n", a, l);
      AppendAssoc(m, "\n", l);
      PieceLine(opts, ts, n - 1);
      AppendAssoc(m, Piece(ts, n - 1), "\n");
    }
  }

  /** An option line after its newline is the piece before the next one. */
  lemma PieceLine(opts: seq<PollOption>, ts: seq<string>, i: nat)
    requires |ts| == |opts| <= 26 && i < |opts| && ts[i] == OptionText(opts[i])
    ensures "\n" + OptionLine(i, opts[i]) == Piece(ts, i) + "\n"
  {
  }

  /** Every newline is followed by a lower-case letter. */
  predicate NewlinesLower(s: string) {
    forall r :: 0 <= r < |s| && s[r] == '\n' ==> r + 1 < |s| && 'a' <= s[r + 1] <= 'z'
  }

  lemma {:induction false} MarkedNewlines(ts: seq<string>, i: nat, n: nat)
    requires i <= n <= |ts| <= 26
    requires forall j :: 0 <= j < |ts| ==> PlainLine(ts[j])
    ensures NewlinesLower(Marked(ts, i, n))
    decreases n - i
  {
    if i < n {
      MarkedNewlines(ts, i + 1, n);
      var p := Piece(ts, i);
      var rest := Marked(ts, i + 1, n);
      var s := p + rest;
      LetterRange(i);
      assert p == "\n" + [Letter(i)] + ") " + ts[i];
      assert p[1] == Letter(i) && p[2] == ')' && p[3] == ' ';
      assert |p| > 4;
      forall r | 0 <= r < |s| ensures s[r] == '\n' ==> r + 1 < |s| && 'a' <= s[r + 1] <= 'z' {
        if r >= |p| {
          assert s[r] == rest[r - |p|];
          assert NewlinesLower(rest);
          if s[r] == '\n' {
            assert s[r + 1] == rest[r - |p| + 1];
          }
        } else if r == 0 {
          assert s[1] == p[1];
        } else if r < 4 {
          assert s[r] == p[r];
        } else {
          assert s[r] == ts[i][r - 4];
          assert s[r] in ts[i];
        }
      }
    }
  }

  /** The option lines hold no `answer` word, no `\r\n`, and their newlines
      are good; when there are any, they start with a newline and end with
      the last option's last character. */
  lemma {:induction false} MarkedShape(ts: seq<string>, i: nat, n: nat)
    requires i <= n <= |ts| <= 26
    requires forall j :: 0 <= j < |ts| ==> PlainLine(ts[j])
    ensures var s := Marked(ts, i, n);
      && !HasAnswerWord(s) && !HasCrLf(s) && GoodNewlines(s)
      && (i < n ==> |s| >= 4 && s[0] == '\n' && !IsSpace(s[|s| - 1]))
    decreases n - i
  {
    MarkedNewlines(ts, i, n);
    if i < n {
      MarkedShape(ts, i + 1, n);
      var t := ts[i];
      var lead := "\n" + [Letter(i)] + ") ";
      var p := lead + t;
      var rest := Marked(ts, i + 1, n);
      NoWordWithoutLetters(lead);
      NoWordConcat(lead, t);
      NoWordConcat(p, rest);
      NoCrLfOneLine(p);
      NoCrLfConcat(p, rest);
      if i + 1 < n {
        MarkedSnoc(ts, i, n);
      }
    }
  }

  /** A piece followed by more option lines starts an option marker line
      where the next piece begins. */
  lemma NextPiece(ts: seq<string>, i: nat, n: nat)
    requires i < n <= |ts| <= 26
    requires forall j :: 0 <= j < |ts| ==> PlainLine(ts[j])
    ensures var s := Marked(ts, i, n);
      && |s| >= 4 && s[0] == '\n' && s[1] == Letter(i) && s[2] == ')' && s[3] == ' '
      && OptionAhead(s, 0) && SkipSpaces(s, 3) == 4
  {
    var s := Marked(ts, i, n);
    var t := ts[i];
    LetterRange(i);
    var p := "\n" + [Letter(i)] + ") " + t;
    assert s == p + Marked(ts, i + 1, n);
    assert PlainLine(t);
    assert p[4] == t[0];
    SkipNone(s, 1);
    SkipNone(s, 4);
  }

  /** The text of option `i` runs to the start of the next piece, or to the
      end. */
  lemma {:induction false} PieceEntryEnd(ts: seq<string>, i: nat, n: nat)
    requires i < n <= |ts| <= 26
    requires forall j :: 0 <= j < |ts| ==> PlainLine(ts[j])
    ensures FirstEntryEnd(Marked(ts, i, n), 4) == |Piece(ts, i)|
  {
    var t := ts[i];
    var p := Piece(ts, i);
    var rest := Marked(ts, i + 1, n);
    var s := Marked(ts, i, n);
    assert s == p + rest;
    assert PlainLine(t);
    assert |p| == 4 + |t|;
    forall k | 4 <= k < |p| ensures !EntryEnd(s, k) {
      assert s[k] == p[k] && p[k] == t[k - 4];
      assert t[k - 4] in t;
    }
    assert EntryEnd(s, |p|) by {
      if i + 1 < n {
        NextPiece(ts, i + 1, n);
        SkipNone(s, |p| + 1);
        assert s[|p|] == rest[0] && s[|p| + 1] == rest[1] && s[|p| + 2] == rest[2];
      }
    }
  }

  /** The options `findall` over canonical option lines finds each option
      under its own letter, in order. */
  lemma {:induction false} MarkedEntries(ts: seq<string>, i: nat, n: nat)
    requires i <= n <= |ts| <= 26
    requires forall j :: 0 <= j < |ts| ==> PlainLine(ts[j])
    ensures OptionEntries(Marked(ts, i, n)) == Entries(ts, i, n)
    decreases n - i
  {
    if i < n {
      MarkedEntries(ts, i + 1, n);
      var t := ts[i];
      var p := Piece(ts, i);
      var rest := Marked(ts, i + 1, n);
      var s := Marked(ts, i, n);
      assert s == p + rest;
      assert PlainLine(t);
      NextPiece(ts, i, n);
      SkipNone(s, 1);
      PieceEntryEnd(ts, i, n);
      assert s[4..|p|] == t;
      assert s[|p|..] == rest;
      assert OptionEntries(s) == [Entry(Letter(i), t)] + OptionEntries(rest);
      EntriesCons(ts, i, n);
    }
  }

  lemma EntriesCons(ts: seq<string>, i: nat, n: nat)
    requires i < n <= |ts| <= 26
    ensures Entries(ts, i, n) == [Entry(Letter(i), ts[i])] + Entries(ts, i + 1, n)
  {
    var a := Entries(ts, i, n);
    var rest := Entries(ts, i + 1, n);
    var b := [Entry(Letter(i), ts[i])] + rest;
    forall j | 0 <= j < |a| ensures a[j] == b[j] {
      if j > 0 {
        assert b[j] == rest[j - 1];
      }
    }
  }

  // ---------------------------------------------------------------------
  // A canonical block, piece by piece
  // ---------------------------------------------------------------------

  /** `\d+` stops at the first non-digit. */
  lemma {:induction false} SkipDigitsTo(s: string, i: nat, j: nat)
    requires i <= j < |s| && !IsDigit(s[j])
    requires forall k :: i <= k < j ==> IsDigit(s[k])
    ensures SkipDigits(s, i) == j
    decreases j - i
  {
    if i < j {
      SkipDigitsTo(s, i + 1, j);
    }
  }

  /** An `answer` word needs six letters in a row. */
  lemma WordNeedsLetter(s: string, p: nat, j: nat)
    requires p <= j < p + 6 && j < |s| && !IsLetter(s[j])
    ensures !IsAnswerWordAt(s, p)
  {
    if IsAnswerWordAt(s, p) {
      WordLetters(s, p, j);
    }
  }

  /** The head holds no newline, no `\r\n` and no `answer` word, and it
      starts with a digit and ends with the stem's last character. */
  lemma HeadShape(n: nat, stem: string)
    requires PlainLine(stem)
    ensures var h := Head(n, stem);
      && |h| == |NatToString(n)| + 2 + |stem|
      && '\n' !in h && !HasCrLf(h) && GoodNewlines(h) && !HasAnswerWord(h)
      && IsDigit(h[0]) && !IsSpace(h[|h| - 1])
  {
    var num := NatToString(n);
    var h := Head(n, stem);
    assert forall k :: 0 <= k < |num| ==> IsDigit(num[k]);
    assert '\n' !in num;
    NoWordWithoutLetters(num);
    NoWordWithoutLetters(". ");
    NoWordConcat(num, ". ");
    NoWordConcat(num + ". ", stem);
    assert h == num + ". " + stem;
    assert h[|h| - 1] == stem[|stem| - 1];
    NoCrLfOneLine(h);
  }

  /** The head is followed by the first option marker line. */
  lemma {:induction false} FirstMarker(n: nat, stem: string, ts: seq<string>, tail: string)
    requires Carried(stem, ts)
    ensures var h := Head(n, stem);
      var s := h + Marked(ts, 0, |ts|) + tail;
      OptionAhead(s, |h|) && SkipSpaces(s, |h| + 1) == |h| + 1
  {
    var h := Head(n, stem);
    var b := Marked(ts, 0, |ts|);
    var s := h + b + tail;
    NextPiece(ts, 0, |ts|);
    assert s[|h|] == b[0] && s[|h| + 1] == b[1] && s[|h| + 2] == b[2];
    SkipNone(s, |h| + 1);
  }

  /** A trimmed text without `\r\n` whose newlines start no block is one
      block, so extracting it parses just that block. */
  lemma OneBlock(s: string)
    requires s != [] && IsTrimmed(s) && !HasCrLf(s) && GoodNewlines(s)
    ensures Extract(s) == match ParseBlock(s, 0, {})
                          case Accepted(q) => Extraction([q], [])
                          case Skipped(r) => Extraction([], [r])
  {
    forall i | 0 <= i < |s| ensures !IsBlockBreak(s, i) {
      NoBreakAt(s, i);
    }
    SplitBlocksNoBreak(s);
    assert Normalize(s) == s;
    assert Strip(s) == s;
    assert Cleaned([s]) == [s];
    SingleBlock(s, ParseBlock);
  }

  /** Folding over one non-blank block runs the parser once, on an empty
      set of stems. */
  lemma SingleBlock(b: string, parse: BlockParser)
    requires b != []
    ensures ExtractBlocks([b], 1, parse) == match parse(b, 0, {})
                                            case Accepted(q) => Extraction([q], [])
                                            case Skipped(r) => Extraction([], [r])
  {
    assert StemsOf([]) == {};
  }

  /** The header match on a text that starts with a number, `. ` and a stem
      followed by an option marker line. */
  lemma {:induction false} HeaderAt(s: string, num: string, stem: string, hLen: nat)
    requires |num| > 0 && IsDigits(num) && PlainLine(stem)
    requires hLen == |num| + 2 + |stem| && hLen < |s|
    requires s[..|num|] == num && s[|num|] == '.' && s[|num| + 1] == ' '
    requires s[|num| + 2..hLen] == stem
    requires OptionAhead(s, hLen)
    ensures MatchHeader(s) == Some(Header(num, stem))
  {
    var d := |num|;
    forall k | 0 <= k < d ensures IsDigit(s[k]) {
      assert s[k] == s[..d][k];
    }
    assert s[d + 2] == stem[0];
    SkipDigitsTo(s, 0, d);
    SkipNone(s, d);
    SkipNone(s, d + 2);
    assert SkipSpaces(s, d + 1) == d + 2;
    forall q | d + 2 <= q < hLen ensures !OptionAhead(s, q) {
      assert s[q] == stem[q - d - 2];
      assert stem[q - d - 2] in stem;
    }
    assert s[0..d] == num;
  }

  /** The answer search on a text whose `answer`-free prefix ends in the
      newline of an `Answer: c` line. */
  lemma {:induction false} AnswerAtLine(s: string, x: nat, c: char)
    requires x + 9 < |s| && 'a' <= c <= 'z'
    requires !HasAnswerWord(s[..x])
    requires s[x] == '\n' && s[x + 1..x + 7] == "Answer" && s[x + 7] == ':' && s[x + 8] == ' ' && s[x + 9] == c
    ensures AnswerLetter(s) == Some(c)
  {
    var p := x + 1;
    var pre := s[..x];
    forall j | 0 <= j < p ensures AnswerAt(s, j).None? {
      if j + 6 <= x {
        assert forall k :: j <= k < j + 6 ==> s[k] == pre[k];
        assert !IsAnswerWordAt(pre, j);
      } else {
        WordNeedsLetter(s, j, x);
      }
    }
    var w := s[x + 1..x + 7];
    assert s[p] == w[0] && s[p + 1] == w[1] && s[p + 2] == w[2];
    assert s[p + 3] == w[3] && s[p + 4] == w[4] && s[p + 5] == w[5];
    SkipNone(s, p + 6);
    SkipNone(s, p + 8);
    assert AnswerAt(s, p) == Some(c);
    FindAnswerAt(s, 0, p);
  }

  /** The options span on a text whose first newline opens the option lines
      and whose first `Answer:` line follows them. */
  lemma SpanAt(s: string, hLen: nat, x: nat)
    requires hLen + 3 <= x && x + 8 <= |s|
    requires forall q :: 0 <= q < hLen ==> s[q] != '\n'
    requires OptionAhead(s, hLen) && SkipSpaces(s, hLen + 1) == hLen + 1
    requires NewlinesLower(s[hLen..x])
    requires s[x] == '\n' && s[x + 1..x + 7] == "Answer" && s[x + 7] == ':'
    ensures FindOptionsSpan(s, 0) == Some((hLen, x))
  {
    assert MarkerEnd(s, hLen) == hLen + 3;
    AnswerAfterOptions(s, hLen, x);
    assert OptionsSpanAt(s, hLen);
    FindOptionsSpanLeftmost(s, 0);
  }

  /** The first answer lookahead after the first marker is the `Answer:`
      line: the option lines between them hold none. */
  lemma AnswerAfterOptions(s: string, hLen: nat, x: nat)
    requires hLen + 3 <= x && x + 8 <= |s|
    requires NewlinesLower(s[hLen..x])
    requires s[x] == '\n' && s[x + 1..x + 7] == "Answer" && s[x + 7] == ':'
    ensures FirstAnswerAhead(s, hLen + 3) == Some(x)
  {
    var b := s[hLen..x];
    AnswerAheadAt(s, x);
    forall r | hLen + 3 <= r < x ensures !AnswerAhead(s, r) {
      assert s[r] == b[r - hLen];
      if s[r] == '\n' {
        assert s[r + 1] == b[r - hLen + 1];
        LowerNotAnswer(s, r);
      }
    }
  }

  lemma AnswerAheadAt(s: string, x: nat)
    requires x + 8 <= |s| && s[x] == '\n' && s[x + 1..x + 7] == "Answer" && s[x + 7] == ':'
    ensures AnswerAhead(s, x)
  {
    SkipNone(s, x + 1);
    SkipNone(s, x + 7);
  }

  /** A newline followed by a lower-case letter starts no answer line. */
  lemma LowerNotAnswer(s: string, r: nat)
    requires r + 1 < |s| && 'a' <= s[r + 1] <= 'z'
    ensures !AnswerAhead(s, r)
  {
    SkipNone(s, r + 1);
    if r + 7 <= |s| {
      assert s[r + 1..r + 7][0] == s[r + 1];
    }
  }

  /** Where the parts of a canonical block sit. */
  lemma Layout(n: nat, stem: string, ts: seq<string>, tail: string)
    requires Carried(stem, ts)
    ensures var num := NatToString(n);
      var h := Head(n, stem);
      var b := Marked(ts, 0, |ts|);
      var s := h + b + tail;
      && |h| == |num| + 2 + |stem|
      && s[..|num|] == num && s[|num|] == '.' && s[|num| + 1] == ' '
      && s[|num| + 2..|h|] == stem
      && s[..|h|] == h && s[|h|..|h| + |b|] == b && s[..|h| + |b|] == h + b && s[|h| + |b|..] == tail
  {
    var num := NatToString(n);
    var h := Head(n, stem);
    var b := Marked(ts, 0, |ts|);
    var x := h + b;
    var s := x + tail;
    assert s[..|x|] == x && s[|x|..] == tail;
    assert x[..|h|] == h && x[|h|..] == b;
    assert s[..|h|] == h;
    assert s[|h|..|x|] == b;
    assert h[..|num|] == num && h[|num|] == '.' && h[|num| + 1] == ' ' && h[|num| + 2..] == stem;
    assert s[..|num|] == h[..|num|];
    assert s[|num| + 2..|h|] == h[|num| + 2..];
  }

  // ---------------------------------------------------------------------

  /** What follows the option lines: nothing, or an answer line. */
  predicate TailOk(tail: string) {
    GoodNewlines(tail) && !HasCrLf(tail) && (tail == [] || !IsSpace(tail[|tail| - 1]))
  }

  lemma AnswerTailOk(c: char, rest: string)
    requires 'a' <= c <= 'z' && '\n' !in rest && (rest == [] || !IsSpace(rest[|rest| - 1]))
    ensures TailOk(AnswerTail(c, rest))
  {
    var at := AnswerTail(c, rest);
    assert at == "\nAnswer: " + [c] + rest;
    forall j | 0 < j < |at| ensures at[j] != '\n' {
      if j >= 10 {
        assert at[j] == rest[j - 10];
        assert rest[j - 10] in rest;
      }
    }
    NoCrLfOneLine(at);
    if rest == [] {
      assert at[|at| - 1] == c;
    } else {
      assert at[|at| - 1] == rest[|rest| - 1];
    }
  }

  /** The three parts of a canonical block glue into one block. */
  lemma GlueParts(s: string, h: string, b: string, tail: string)
    requires s == h + b + tail
    requires h != [] && !IsSpace(h[0]) && !IsSpace(h[|h| - 1]) && !HasCrLf(h) && GoodNewlines(h)
    requires b != [] && !IsSpace(b[|b| - 1]) && !HasCrLf(b) && GoodNewlines(b)
    requires TailOk(tail)
    ensures s != [] && IsTrimmed(s) && !HasCrLf(s) && GoodNewlines(s)
  {
    var x := h + b;
    NoCrLfConcat(h, b);
    GoodConcat(h, b);
    assert x[|x| - 1] == b[|b| - 1];
    NoCrLfConcat(x, tail);
    GoodConcat(x, tail);
    assert s[0] == h[0];
    if tail == [] {
      assert s[|s| - 1] == b[|b| - 1];
    } else {
      assert s[|s| - 1] == tail[|tail| - 1];
    }
  }

  lemma AnswerTailChars(c: char, rest: string)
    ensures var at := AnswerTail(c, rest);
      |at| >= 10 && at[0] == '\n' && at[1..7] == "Answer" && at[7] == ':' && at[8] == ' ' && at[9] == c
  {
  }

  lemma HeadLine(n: nat, stem: string)
    requires PlainLine(stem)
    ensures '\n' !in Head(n, stem)
  {
    var num := NatToString(n);
    assert forall k :: 0 <= k < |num| ==> IsDigit(num[k]);
    assert '\n' !in num;
  }

  /** A canonical block is one block. */
  lemma {:induction false} CanonicalOneBlock(n: nat, stem: string, ts: seq<string>, tail: string)
    requires Carried(stem, ts) && TailOk(tail)
    ensures var s := Head(n, stem) + Marked(ts, 0, |ts|) + tail;
      Extract(s) == match ParseBlock(s, 0, {})
                    case Accepted(q) => Extraction([q], [])
                    case Skipped(r) => Extraction([], [r])
  {
    var h := Head(n, stem);
    var b := Marked(ts, 0, |ts|);
    HeadShape(n, stem);
    MarkedShape(ts, 0, |ts|);
    GlueParts(h + b + tail, h, b, tail);
    OneBlock(h + b + tail);
  }

  lemma CanonicalHeader(n: nat, stem: string, ts: seq<string>, tail: string)
    requires Carried(stem, ts)
    ensures MatchHeader(Head(n, stem) + Marked(ts, 0, |ts|) + tail) == Some(Header(NatToString(n), stem))
  {
    var h := Head(n, stem);
    Layout(n, stem, ts, tail);
    FirstMarker(n, stem, ts, tail);
    HeaderAt(h + Marked(ts, 0, |ts|) + tail, NatToString(n), stem, |h|);
  }

  /** The answer line's characters, read in the whole block. */
  lemma TailChars(s: string, x: nat, at: string)
    requires x <= |s| && s[x..] == at && |at| >= 10
    ensures s[x] == at[0] && s[x + 7] == at[7] && s[x + 8] == at[8] && s[x + 9] == at[9]
    ensures x + 9 < |s| && s[x + 1..x + 7] == at[1..7]
  {
  }

  lemma CanonicalAnswer(n: nat, stem: string, ts: seq<string>, c: char, rest: string)
    requires Carried(stem, ts)
    requires 'a' <= c <= 'z' && '\n' !in rest && (rest == [] || !IsSpace(rest[|rest| - 1]))
    ensures AnswerLetter(Head(n, stem) + Marked(ts, 0, |ts|) + AnswerTail(c, rest)) == Some(c)
  {
    PrefixNoWord(n, stem, ts);
    AnswerAfter(Head(n, stem) + Marked(ts, 0, |ts|), c, rest);
  }

  /** Neither the head nor the option lines hold the word `answer`. */
  lemma PrefixNoWord(n: nat, stem: string, ts: seq<string>)
    requires Carried(stem, ts)
    ensures !HasAnswerWord(Head(n, stem) + Marked(ts, 0, |ts|))
  {
    HeadShape(n, stem);
    MarkedShape(ts, 0, |ts|);
    NoWordConcat(Head(n, stem), Marked(ts, 0, |ts|));
  }

  /** An answer line after a text without the word `answer` gives its letter. */
  lemma AnswerAfter(pre: string, c: char, rest: string)
    requires !HasAnswerWord(pre) && 'a' <= c <= 'z'
    ensures AnswerLetter(pre + AnswerTail(c, rest)) == Some(c)
  {
    var at := AnswerTail(c, rest);
    var s := pre + at;
    assert s[..|pre|] == pre && s[|pre|..] == at;
    AnswerTailChars(c, rest);
    TailChars(s, |pre|, at);
    AnswerAtLine(s, |pre|, c);
  }

  /** The first newline of a block comes after its head. */
  lemma HeadNoNewline(s: string, h: string)
    requires |h| <= |s| && s[..|h|] == h && '\n' !in h
    ensures forall q :: 0 <= q < |h| ==> s[q] != '\n'
  {
    forall q | 0 <= q < |h| ensures s[q] != '\n' {
      assert s[q] == h[q];
      assert h[q] in h;
    }
  }

  /** The options span of a head, option lines and answer line. */
  lemma SpanOfParts(s: string, h: string, b: string, at: string)
    requires s == h + b + at && '\n' !in h
    requires |b| >= 4 && b[0] == '\n' && 'a' <= b[1] <= 'z' && b[2] == ')' && NewlinesLower(b)
    requires |at| >= 8 && at[0] == '\n' && at[1..7] == "Answer" && at[7] == ':'
    ensures FindOptionsSpan(s, 0) == Some((|h|, |h| + |b|))
  {
    var x := |h| + |b|;
    assert s[..|h|] == h;
    HeadNoNewline(s, h);
    assert s[|h|] == b[0] && s[|h| + 1] == b[1] && s[|h| + 2] == b[2];
    SkipNone(s, |h| + 1);
    assert s[|h|..x] == b;
    assert s[x..] == at;
    TailChars8(s, x, at);
    SpanAt(s, |h|, x);
  }

  lemma TailChars8(s: string, x: nat, at: string)
    requires x <= |s| && s[x..] == at && |at| >= 8
    ensures x + 8 <= |s| && s[x] == at[0] && s[x + 7] == at[7] && s[x + 1..x + 7] == at[1..7]
  {
  }

  lemma {:induction false} CanonicalSpan(n: nat, stem: string, ts: seq<string>, c: char, rest: string)
    requires Carried(stem, ts)
    ensures var h := Head(n, stem);
      var b := Marked(ts, 0, |ts|);
      FindOptionsSpan(h + b + AnswerTail(c, rest), 0) == Some((|h|, |h| + |b|))
  {
    var h := Head(n, stem);
    var b := Marked(ts, 0, |ts|);
    var at := AnswerTail(c, rest);
    AnswerTailChars(c, rest);
    HeadLine(n, stem);
    MarkedNewlines(ts, 0, |ts|);
    NextPiece(ts, 0, |ts|);
    LetterRange(0);
    SpanOfParts(h + b + at, h, b, at);
  }

  lemma CanonicalEntries(n: nat, stem: string, ts: seq<string>, c: char, rest: string)
    requires Carried(stem, ts)
    requires 'a' <= c <= 'z' && '\n' !in rest && (rest == [] || !IsSpace(rest[|rest| - 1]))
    ensures BlockEntries(Head(n, stem) + Marked(ts, 0, |ts|) + AnswerTail(c, rest)) == Some(Entries(ts, 0, |ts|))
  {
    var h := Head(n, stem);
    var b := Marked(ts, 0, |ts|);
    var at := AnswerTail(c, rest);
    var s := h + b + at;
    CanonicalSpan(n, stem, ts, c, rest);
    NextPiece(ts, 0, |ts|);
    Layout(n, stem, ts, at);
    MarkedEntries(ts, 0, |ts|);
    assert s[|h|..|h| + |b|] == b;
  }

  // ---------------------------------------------------------------------
  // Extracting a canonical block
  // ---------------------------------------------------------------------

  /** A block in the format the bot asks for: `{n}. {stem}`, one
      `{letter}) {text}` line per option, and `Answer: {c}` followed by
      `rest` on the last line. */
  function Canonical(n: nat, stem: string, ts: seq<string>, c: char, rest: string): string
    requires |ts| <= 26
  {
    Head(n, stem) + Marked(ts, 0, |ts|) + AnswerTail(c, rest)
  }

  /** The letters of the first `m` options. */
  function LetterRow(m: nat): (ls: seq<char>)
    requires m <= 26
    ensures |ls| == m
  {
    seq(m, j requires 0 <= j < m => Letter(j))
  }

  /** The letter of the answer line picks the option it names. */
  lemma LetterIndex(m: nat, c: char)
    requires m <= 26 && 'a' <= c <= 'z'
    ensures IndexOf(LetterRow(m), c) == if c as int - 97 < m then Some((c as int - 97) as nat) else None
  {
    var ls := LetterRow(m);
    var k := c as int - 97;
    if k < m {
      assert ls[k] == c;
    } else {
      assert c !in ls;
    }
  }

  /** The option entries of a canonical block give the letters and texts it
      was written from. */
  lemma EntriesRows(ts: seq<string>)
    requires |ts| <= 26 && forall j :: 0 <= j < |ts| ==> PlainLine(ts[j])
    ensures LettersOf(Entries(ts, 0, |ts|)) == LetterRow(|ts|)
    ensures TextsOf(Entries(ts, 0, |ts|)) == ts
  {
    var es := Entries(ts, 0, |ts|);
    forall j | 0 <= j < |ts| ensures LettersOf(es)[j] == LetterRow(|ts|)[j] && TextsOf(es)[j] == ts[j] {
      LetterRange(j);
      assert PlainLine(ts[j]);
    }
  }

  /** The cascade on a block whose header, answer letter and options are
      known. */
  lemma ParseOfParts(b: string, num: string, stem: string, ts: seq<string>, c: char, index: nat, seen: set<string>)
    requires |ts| <= 26 && 'a' <= c <= 'z'
    requires MatchHeader(b) == Some(Header(num, stem)) && stem != [] && CleanText(stem) == stem
    requires AnswerLetter(b) == Some(c) && BlockEntries(b).Some? && |BlockEntries(b).value| >= 2
    requires LettersOf(BlockEntries(b).value) == LetterRow(|ts|) && TextsOf(BlockEntries(b).value) == ts
    ensures ParseBlock(b, index, seen) ==
      if stem in seen then Skipped(SkipRecord(num, DuplicateQuestion))
      else if c as int - 97 < |ts| then Accepted(Question(num, stem, ts, (c as int - 97) as nat))
      else Skipped(SkipRecord(num, LetterNotInOptions(c, LetterRow(|ts|))))
  {
    assert HeaderStem(MatchHeader(b).value) == stem;
    if stem in seen {
      DuplicateSkipped(b, index, seen);
    } else {
      ParseFresh(b, num, stem, ts, c, index, seen);
    }
  }

  /** The last two checks of the cascade on a block with a new stem. */
  lemma ParseFresh(b: string, num: string, stem: string, ts: seq<string>, c: char, index: nat, seen: set<string>)
    requires |ts| <= 26 && 'a' <= c <= 'z'
    requires MatchHeader(b) == Some(Header(num, stem)) && stem != [] && CleanText(stem) == stem && stem !in seen
    requires AnswerLetter(b) == Some(c) && BlockEntries(b).Some? && |BlockEntries(b).value| >= 2
    requires LettersOf(BlockEntries(b).value) == LetterRow(|ts|) && TextsOf(BlockEntries(b).value) == ts
    ensures ParseBlock(b, index, seen) ==
      if c as int - 97 < |ts| then Accepted(Question(num, stem, ts, (c as int - 97) as nat))
      else Skipped(SkipRecord(num, LetterNotInOptions(c, LetterRow(|ts|))))
  {
    ParseLast(b, num, stem, BlockEntries(b).value, c, index, seen);
    LastOutcome(num, stem, BlockEntries(b).value, ts, c);
  }

  /** The last check of the cascade on options lettered `a`, `b`, ... */
  lemma LastOutcome(num: string, stem: string, es: seq<Entry>, ts: seq<string>, c: char)
    requires |ts| <= 26 && 'a' <= c <= 'z'
    requires LettersOf(es) == LetterRow(|ts|) && TextsOf(es) == ts
    ensures (match IndexOf(LettersOf(es), c)
             case Some(k) => Accepted(Question(num, stem, TextsOf(es), k))
             case None => Skipped(SkipRecord(num, LetterNotInOptions(c, LettersOf(es)))))
            == if c as int - 97 < |ts| then Accepted(Question(num, stem, ts, (c as int - 97) as nat))
               else Skipped(SkipRecord(num, LetterNotInOptions(c, LetterRow(|ts|))))
  {
    LetterIndex(|ts|, c);
  }

  lemma {:induction false} ParseLast(b: string, num: string, stem: string, es: seq<Entry>, c: char, index: nat, seen: set<string>)
    requires MatchHeader(b) == Some(Header(num, stem)) && stem != [] && CleanText(stem) == stem && stem !in seen
    requires AnswerLetter(b) == Some(c) && BlockEntries(b) == Some(es) && |es| >= 2
    ensures ParseBlock(b, index, seen) ==
      match IndexOf(LettersOf(es), c)
      case Some(k) => Accepted(Question(num, stem, TextsOf(es), k))
      case None => Skipped(SkipRecord(num, LetterNotInOptions(c, LettersOf(es))))
  {
    assert HeaderStem(Header(num, stem)) == stem;
  }

  /** The cascade on a canonical block: a repeated stem is a duplicate;
      otherwise the block is accepted exactly when its answer letter names
      one of its options, and the question is the number, stem, option
      texts and that option's position. */
  lemma ParseCanonical(n: nat, stem: string, ts: seq<string>, c: char, rest: string, index: nat, seen: set<string>)
    requires Carried(stem, ts) && 'a' <= c <= 'z'
    requires '\n' !in rest && (rest == [] || !IsSpace(rest[|rest| - 1]))
    ensures ParseBlock(Canonical(n, stem, ts, c, rest), index, seen) ==
      if stem in seen then Skipped(SkipRecord(NatToString(n), DuplicateQuestion))
      else if c as int - 97 < |ts| then Accepted(Question(NatToString(n), stem, ts, (c as int - 97) as nat))
      else Skipped(SkipRecord(NatToString(n), LetterNotInOptions(c, LetterRow(|ts|))))
  {
    var s := Canonical(n, stem, ts, c, rest);
    CanonicalHeader(n, stem, ts, AnswerTail(c, rest));
    CanonicalAnswer(n, stem, ts, c, rest);
    CanonicalEntries(n, stem, ts, c, rest);
    EntriesRows(ts);
    ParseOfParts(s, NatToString(n), stem, ts, c, index, seen);
  }

  /** Extracting a canonical block yields its one question, or its one skip
      record when the answer letter names no option. */
  lemma {:induction false} ExtractCanonical(n: nat, stem: string, ts: seq<string>, c: char, rest: string)
    requires Carried(stem, ts) && 'a' <= c <= 'z'
    requires '\n' !in rest && (rest == [] || !IsSpace(rest[|rest| - 1]))
    ensures Extract(Canonical(n, stem, ts, c, rest)) ==
      if c as int - 97 < |ts| then Extraction([Question(NatToString(n), stem, ts, (c as int - 97) as nat)], [])
      else Extraction([], [SkipRecord(NatToString(n), LetterNotInOptions(c, LetterRow(|ts|)))])
  {
    AnswerTailOk(c, rest);
    CanonicalOneBlock(n, stem, ts, AnswerTail(c, rest));
    ParseCanonical(n, stem, ts, c, rest, 0, {});
  }

  // ---------------------------------------------------------------------
  // The round trip
  // ---------------------------------------------------------------------

  /** The option texts of a poll. */
  function OptionTexts(opts: seq<PollOption>): (ts: seq<string>)
    ensures |ts| == |opts|
  {
    seq(|opts|, j requires 0 <= j < |opts| => OptionText(opts[j]))
  }

  lemma Regroup(pre: string, q: string, lines: string, b: string, al: string)
    requires "\n" + lines == b + "\n"
    ensures pre + q + "\n" + lines + al == (pre + q) + b + ("\n" + al)
  {
    calc {
      pre + q + "\n" + lines + al;
      (pre + q) + ("\n" + lines) + al;
      (pre + q) + (b + "\n") + al;
      (pre + q) + b + ("\n" + al);
    }
  }

  /** `format_quiz_as_text` with a number writes the canonical block whose
      answer line names the correct option's letter and repeats its text. */
  lemma {:induction false} QuizTextCanonical(quiz: Poll, n: nat, k: nat)
    requires quiz.correctOptionId == Some(k) && k < |quiz.options| <= 26
    ensures QuizText(quiz, Some(n)) ==
      Canonical(n, quiz.question, OptionTexts(quiz.options), Letter(k), ") " + OptionText(quiz.options[k]))
  {
    var ts := OptionTexts(quiz.options);
    var m := |quiz.options|;
    LinesMarked(quiz.options, ts, m);
    var lines := OptionLines(quiz.options, m);
    var tail := ") " + OptionText(quiz.options[k]);
    var al := AnswerLine(quiz);
    assert !FormatFails(quiz);
    assert al == "Answer: " + [Letter(k)] + tail;
    assert "\n" + al == AnswerTail(Letter(k), tail);
    var pre := NatToString(n) + ". ";
    assert Prefix(Some(n)) == pre;
    assert QuizText(quiz, Some(n)) == pre + quiz.question + "\n" + lines + al;
    Regroup(pre, quiz.question, lines, Marked(ts, 0, m), al);
  }

  /** What follows the answer letter in `format_quiz_as_text`: `) ` and the
      correct option's text, on the same line and ending in a non-space. */
  lemma AnswerRestOk(t: string)
    requires PlainLine(t)
    ensures var rest := ") " + t;
      '\n' !in rest && (rest == [] || !IsSpace(rest[|rest| - 1]))
  {
    var rest := ") " + t;
    assert rest[|rest| - 1] == t[|t| - 1];
    assert forall i :: 0 <= i < |rest| ==> rest[i] == ')' || rest[i] == ' ' || rest[i] in t;
  }

  /** Extracting what `format_quiz_as_text(quiz, n)` writes gives back one
      question: number `str(n)`, the poll's question, its option texts in
      order, and its correct index. */
  lemma RoundTrip(quiz: Poll, n: nat)
    requires Carried(quiz.question, OptionTexts(quiz.options))
    requires quiz.correctOptionId.Some? && 0 <= quiz.correctOptionId.value < |quiz.options|
    ensures Extract(QuizText(quiz, Some(n))) ==
      Extraction([Question(NatToString(n), quiz.question, OptionTexts(quiz.options), quiz.correctOptionId.value as nat)], [])
  {
    var k := quiz.correctOptionId.value as nat;
    var ts := OptionTexts(quiz.options);
    QuizTextCanonical(quiz, n, k);
    LetterRange(k);
    assert PlainLine(ts[k]);
    var rest := ") " + ts[k];
    AnswerRestOk(ts[k]);
    ExtractCanonical(n, quiz.question, ts, Letter(k), rest);
  }

  // ---------------------------------------------------------------------
  // A block without an answer line
  // ---------------------------------------------------------------------

  lemma ParseNoAnswer(b: string, num: string, stem: string, index: nat, seen: set<string>)
    requires MatchHeader(b) == Some(Header(num, stem)) && stem != [] && CleanText(stem) == stem && stem !in seen
    requires AnswerLetter(b) == None
    ensures ParseBlock(b, index, seen) == Skipped(SkipRecord(num, NoAnswerLine))
  {
    assert HeaderStem(Header(num, stem)) == stem;
  }

  /** With no `answer` word anywhere the answer search finds nothing. */
  lemma NoAnswerWithoutWord(s: string)
    requires !HasAnswerWord(s)
    ensures AnswerLetter(s) == None
  {
    forall k | 0 <= k < |s| ensures AnswerAt(s, k).None? {
      assert !IsAnswerWordAt(s, k);
    }
    FindAnswerLeftmost(s, 0);
  }

  /** The head and option lines hold no `answer` word. */
  lemma CanonicalNoWord(n: nat, stem: string, ts: seq<string>)
    requires Carried(stem, ts)
    ensures !HasAnswerWord(Head(n, stem) + Marked(ts, 0, |ts|) + "")
  {
    var h := Head(n, stem);
    var b := Marked(ts, 0, |ts|);
    HeadShape(n, stem);
    MarkedShape(ts, 0, |ts|);
    NoWordConcat(h, b);
    NoWordWithoutLetters("");
    NoWordConcat(h + b, "");
  }

  /** Without an answer line a canonical block is skipped as having none. */
  lemma {:induction false} ExtractWithoutAnswer(n: nat, stem: string, ts: seq<string>)
    requires Carried(stem, ts)
    ensures Extract(Head(n, stem) + Marked(ts, 0, |ts|) + "") == Extraction([], [SkipRecord(NatToString(n), NoAnswerLine)])
  {
    var h := Head(n, stem);
    var b := Marked(ts, 0, |ts|);
    var s := h + b + "";
    CanonicalOneBlock(n, stem, ts, "");
    CanonicalHeader(n, stem, ts, "");
    CanonicalNoWord(n, stem, ts);
    NoAnswerWithoutWord(s);
    ParseNoAnswer(s, NatToString(n), stem, 0, {});
  }

  // ---------------------------------------------------------------------
  // Sample blocks
  // ---------------------------------------------------------------------

  /** The sample question used throughout: its stem and options are all
      carried by the format. */
  lemma SampleCarried()
    ensures Carried("What is 2+2?", ["3", "4"])
  {
    NoWordWithoutN("What is 2+2?");
    NoWordWithoutLetters("3");
    NoWordWithoutLetters("4");
  }

  lemma SampleLines()
    ensures Head(1, "What is 2+2?") == "1. What is 2+2?"
    ensures Marked(["3", "4"], 0, 2) == "\na) 3\nb) 4"
  {
    var ts := ["3", "4"];
    assert NatToString(1) == "1";
    assert Letter(0) == 'a' && Letter(1) == 'b';
    assert Marked(ts, 2, 2) == "";
    assert Marked(ts, 1, 2) == "\nb) 4";
  }

  lemma SampleCanonical()
    ensures Canonical(1, "What is 2+2?", ["3", "4"], 'b', "") == "1. What is 2+2?\na) 3\nb) 4\nAnswer: b"
    ensures Canonical(1, "What is 2+2?", ["3", "4"], 'c', "") == "1. What is 2+2?\na) 3\nb) 4\nAnswer: c"
  {
    SampleLines();
  }

  lemma SampleRow()
    ensures NatToString(1) == "1" && LetterRow(2) == ['a', 'b']
  {
    assert Letter(0) == 'a' && Letter(1) == 'b';
  }

  /** A well-formed block: the answer `b` picks the second option. */
  lemma SampleAccepted()
    ensures Extract("1. What is 2+2?\na) 3\nb) 4\nAnswer: b") ==
            Extraction([Question("1", "What is 2+2?", ["3", "4"], 1)], [])
  {
    SampleCarried();
    SampleCanonical();
    ExtractCanonical(1, "What is 2+2?", ["3", "4"], 'b', "");
    SampleRow();
  }

  lemma SampleNoAnswerText()
    ensures Head(1, "What is 2+2?") + Marked(["3", "4"], 0, 2) + "" == "1. What is 2+2?\na) 3\nb) 4"
  {
    SampleLines();
  }

  /** A block without an answer line is skipped as such. */
  lemma SampleNoAnswer()
    ensures Extract("1. What is 2+2?\na) 3\nb) 4") == Extraction([], [SkipRecord("1", NoAnswerLine)])
  {
    SampleCarried();
    SampleNoAnswerText();
    ExtractWithoutAnswer(1, "What is 2+2?", ["3", "4"]);
    SampleRow();
  }

  /** An answer letter past the options (`c` with options `a` and `b`) skips
      the block and names the letters found. */
  lemma SampleLetterMissing()
    ensures Extract("1. What is 2+2?\na) 3\nb) 4\nAnswer: c") ==
            Extraction([], [SkipRecord("1", LetterNotInOptions('c', ['a', 'b']))])
  {
    SampleCarried();
    SampleCanonical();
    ExtractCanonical(1, "What is 2+2?", ["3", "4"], 'c', "");
    SampleRow();
  }
}
