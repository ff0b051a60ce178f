/** `truncateMessage` of the report pages: how much of a post's message the table
    shows before the "more" link. Lengths are JavaScript's `length`, in UTF-16 code
    units (`Utf16Length`), so an emoji counts two. */
module Truncation {
  import opened Seqs
  import opened Strings

  /** A message of at most this many non-blank lines, none of them long, is shown whole. */
  const MaxLines := 5
  /** How many non-blank lines a cut by lines keeps. */
  const KeptLines := 4
  /** A line longer than this many code units is long; so is a message cut by words. */
  const LongLine := 300
  /** The word loop stops before the text plus the next word would exceed this. */
  const WordBudget := 250

  /** The non-blank lines of a message. */
  function Lines(message: string): seq<string> {
    Filter(Split(message, '\n'), NonBlank)
  }

  predicate HasLongLine(lines: seq<string>) {
    exists i :: 0 <= i < |lines| && Utf16Length(lines[i]) > LongLine
  }

  /** The three outcomes for a non-blank message, in the order the code tries them. */
  predicate ShowsWhole(message: string) {
    !IsBlank(message) && |Lines(message)| <= MaxLines && !HasLongLine(Lines(message))
  }

  predicate CutsLines(message: string) {
    !IsBlank(message) && !ShowsWhole(message) && |Lines(message)| > KeptLines
  }

  predicate CutsWords(message: string) {
    !IsBlank(message) && !ShowsWhole(message) && !CutsLines(message) && Utf16Length(message) > LongLine
  }

  /** The text the word loop has built after taking all of `words`: each word
      appended with a space before it, except while the text is still empty. */
  function Accumulate(words: seq<string>): string
    decreases |words|
  {
    if words == [] then ""
    else
      var acc := Accumulate(words[..|words| - 1]);
      acc + (if acc != "" then " " else "") + words[|words| - 1]
  }

  /** The loop takes word `j` when the text so far plus that word stays within the budget. */
  predicate Fits(words: seq<string>, j: nat)
    requires j < |words|
  {
    Utf16Length(Accumulate(words[..j]) + words[j]) <= WordBudget
  }

  /** The first index from `k` on at which the loop breaks, or the end. */
  function StopFrom(words: seq<string>, k: nat): (r: nat)
    requires k <= |words|
    ensures k <= r <= |words|
    ensures forall j :: k <= j < r ==> Fits(words, j)
    ensures r < |words| ==> !Fits(words, r)
    decreases |words| - k
  {
    if k == |words| || !Fits(words, k) then k else StopFrom(words, k + 1)
  }

  /** What the word loop returns for `words`. */
  function WordTruncate(words: seq<string>): string {
    Accumulate(words[..StopFrom(words, 0)])
  }

  /** An index before which every word fits and at which the loop breaks is the stop. */
  lemma StopIsFirstBreak(words: seq<string>, i: nat)
    requires i <= |words|
    requires forall j :: 0 <= j < i ==> Fits(words, j)
    requires i == |words| || !Fits(words, i)
    ensures StopFrom(words, 0) == i
  {
  }

  /** `truncateMessage`: blank messages show nothing; short messages show whole;
      otherwise the first four non-blank lines, or the leading words within the budget. */
  method TruncateMessage(message: string) returns (text: string, needsMore: bool)
    ensures IsBlank(message) ==> text == "" && !needsMore
    ensures ShowsWhole(message) ==> text == message && !needsMore
    ensures CutsLines(message) ==> text == Join(Lines(message)[..KeptLines], "\n") && needsMore
    ensures CutsWords(message) ==> text == WordTruncate(Split(message, ' ')) && needsMore
    ensures needsMore ==> |text| < |message|
    ensures !needsMore ==> text == message || text == ""
  {
    if IsBlank(message) {
      return "", false;
    }
    var lines := Lines(message);
    if |lines| <= MaxLines {
      if !HasLongLine(lines) {
        return message, false;
      }
    }
    if |lines| > KeptLines {
      CutLinesIsShorter(message);
      return Join(lines[..KeptLines], "\n"), true;
    }
    if Utf16Length(message) > LongLine {
      var words := Split(message, ' ');
      var truncated := "";
      var i := 0;
      while i < |words|
        invariant 0 <= i <= |words|
        invariant truncated == Accumulate(words[..i])
        invariant forall j :: 0 <= j < i ==> Fits(words, j)
      {
        if Utf16Length(truncated + words[i]) > WordBudget {
          break;
        }
        assert words[..i + 1][..i] == words[..i];
        truncated := truncated + (if truncated != "" then " " else "") + words[i];
        i := i + 1;
      }
      StopIsFirstBreak(words, i);
      WordCutIsShorter(message);
      return truncated, true;
    }
    return message, false;
  }

  /** The word loop never returns more than one code unit over its budget: the check
      leaves out the space the loop then puts before the word. */
  lemma WordTruncateBound(words: seq<string>)
    ensures Utf16Length(WordTruncate(words)) <= WordBudget + 1
  {
    var k := StopFrom(words, 0);
    if k > 0 {
      assert Fits(words, k - 1);
      var acc := Accumulate(words[..k - 1]);
      assert words[..k][..k - 1] == words[..k - 1];
      Utf16LengthAppend(acc, words[k - 1]);
      Utf16LengthAppend(acc + (if acc != "" then " " else ""), words[k - 1]);
      Utf16LengthAppend(acc, if acc != "" then " " else "");
    }
  }

  /** The bound is reached: of three words of 125 code units each the loop takes two
      and returns a text of 251. */
  lemma WordTruncateBoundIsTight(w: string)
    requires Utf16Length(w) == 125
    ensures Utf16Length(WordTruncate([w, w, w])) == WordBudget + 1
  {
    var words := [w, w, w];
    assert words[..0] == [] && words[..1] == [w] && words[..2] == [w, w];
    assert [w, w][..1] == [w] && [w][..0] == [];
    assert Accumulate([w]) == w;
    assert Accumulate([w, w]) == w + " " + w;
    assert "" + w == w;
    Utf16LengthAppend(w, w);
    Utf16LengthAppend(w, " ");
    Utf16LengthAppend(w + " ", w);
    Utf16LengthAppend(w + " " + w, w);
    assert Fits(words, 0) && Fits(words, 1) && !Fits(words, 2);
    StopIsFirstBreak(words, 2);
  }

  /** A message of 160 emoji is 160 characters but 320 code units: it is cut by words,
      and its single word is over the budget, so the table shows nothing of it. */
  lemma AstralMessageIsCutToNothing()
    ensures var m := seq(160, _ => '\U{1F600}');
      |m| <= LongLine && CutsWords(m) && WordTruncate(Split(m, ' ')) == ""
  {
    var m := seq(160, _ => '\U{1F600}');
    Utf16LengthOfAstral(m);
    assert !IsSpace(m[0]);
    SplitNoSep(m, '\n');
    SplitNoSep(m, ' ');
    assert Lines(m) == Filter([m], NonBlank) == [m];
    assert Utf16Length(Lines(m)[0]) > LongLine;
    FirstWordTooLong([m]);
  }

  /** A first word longer than the budget leaves nothing. */
  lemma FirstWordTooLong(words: seq<string>)
    requires |words| > 0 && Utf16Length(words[0]) > WordBudget
    ensures WordTruncate(words) == ""
  {
    assert words[..0] == [] && "" + words[0] == words[0];
    assert !Fits(words, 0);
  }

  /** Without empty words (no doubled, leading or trailing spaces) the loop joins
      the words it takes with single spaces. */
  lemma {:induction false} AccumulateIsJoin(words: seq<string>)
    requires forall i :: 0 <= i < |words| ==> words[i] != ""
    ensures Accumulate(words) == Join(words, " ")
    decreases |words|
  {
    if |words| > 1 {
      var init := words[..|words| - 1];
      AccumulateIsJoin(init);
      AccumulateNonEmpty(init);
      JoinSnoc(init, words[|words| - 1], " ");
      assert init + [words[|words| - 1]] == words;
    } else if |words| == 1 {
      assert words[..0] == [];
    }
  }

  lemma AccumulateNonEmpty(words: seq<string>)
    requires words != [] && words[|words| - 1] != ""
    ensures Accumulate(words) != ""
  {
  }

  /** Without empty words the word cut is a prefix of the message. */
  lemma WordTruncateIsPrefix(message: string)
    requires forall i :: 0 <= i < |Split(message, ' ')| ==> Split(message, ' ')[i] != ""
    ensures WordTruncate(Split(message, ' ')) <= message
  {
    var words := Split(message, ' ');
    var k := StopFrom(words, 0);
    AccumulateIsJoin(words[..k]);
    if 0 < k {
      JoinPrefix(words, k, " ");
    }
    JoinSplit(message, ' ');
  }

  /** Joining a non-empty prefix of a list gives a prefix of the joined list. */
  lemma {:induction false} JoinPrefix(xs: seq<string>, k: nat, sep: string)
    requires 0 < k <= |xs|
    ensures Join(xs[..k], sep) <= Join(xs, sep)
    decreases |xs|
  {
    if k < |xs| {
      if k == 1 {
        assert xs[..1] == [xs[0]];
      } else {
        JoinPrefix(xs[1..], k - 1, sep);
        assert xs[..k][1..] == xs[1..][..k - 1];
      }
    } else {
      assert xs[..k] == xs;
    }
  }

  /** Keeping four of five or more non-blank lines always drops something. */
  lemma CutLinesIsShorter(message: string)
    requires |Lines(message)| > KeptLines
    ensures |Join(Lines(message)[..KeptLines], "\n")| < |message|
  {
    var pieces := Split(message, '\n');
    var lines := Lines(message);
    JoinSplit(message, '\n');
    JoinLength(pieces, "\n");
    TotalLengthOfFilter(pieces, NonBlank);
    JoinLength(lines[..KeptLines], "\n");
    TotalLengthSplitAt(lines, KeptLines);
    assert lines[KeptLines..][0] == lines[KeptLines];
    assert |lines[KeptLines]| > 0;
  }

  /** The code's last `return` is dead: a non-blank message neither shown whole nor
      cut by lines is always longer than 300 characters, so it is cut by words. */
  lemma WordCutCoversTheRest(message: string)
    requires !IsBlank(message) && !ShowsWhole(message) && !CutsLines(message)
    ensures CutsWords(message)
  {
    var pieces := Split(message, '\n');
    var lines := Lines(message);
    var i :| 0 <= i < |lines| && Utf16Length(lines[i]) > LongLine;
    FilterMembers(pieces, NonBlank);
    assert lines[i] in lines;
    var j :| 0 <= j < |pieces| && pieces[j] == lines[i];
    SplitPieceUtf16Length(message, '\n');
  }

  /** The loop only drops spaces from the joined words, and a space is one code unit:
      the text is as much shorter in code units as in characters. */
  lemma {:induction false} AccumulateDropsSpaces(words: seq<string>)
    ensures |Accumulate(words)| <= |Join(words, " ")|
    ensures Utf16Length(Join(words, " ")) - Utf16Length(Accumulate(words))
         == |Join(words, " ")| - |Accumulate(words)|
    decreases |words|
  {
    if |words| == 1 {
      assert words[..0] == [];
      assert Accumulate(words) == words[0];
    } else if |words| > 1 {
      var init := words[..|words| - 1];
      var last := words[|words| - 1];
      var acc := Accumulate(init);
      var sp := if acc != "" then " " else "";
      AccumulateDropsSpaces(init);
      JoinSnoc(init, last, " ");
      assert init + [last] == words;
      var joined := Join(init, " ");
      Utf16LengthAppend(acc + sp, last);
      Utf16LengthAppend(acc, sp);
      Utf16LengthAppend(joined + " ", last);
      Utf16LengthAppend(joined, " ");
    }
  }

  /** A message cut by words always loses something: the cut is within 251 code units
      and the message is over 300, and what the loop drops besides the message's tail
      is spaces, which count the same either way. */
  lemma WordCutIsShorter(message: string)
    requires Utf16Length(message) > LongLine
    ensures |WordTruncate(Split(message, ' '))| < |message|
  {
    var words := Split(message, ' ');
    var k := StopFrom(words, 0);
    var text := Accumulate(words[..k]);
    WordTruncateBound(words);
    if k > 0 {
      JoinSplit(message, ' ');
      assert [' '] == " ";
      JoinPrefix(words, k, " ");
      var head := Join(words[..k], " ");
      var tail := message[|head|..];
      assert message == head + tail;
      Utf16LengthAppend(head, tail);
      AccumulateDropsSpaces(words[..k]);
    }
  }
}
