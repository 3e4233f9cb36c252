/** The transcript's word wrap: prose cut into rows that fit the box. */
module Prose {

  predicate Blank(c: char) {
    c == ' ' || c == '\t'
  }

  function NonBlank(s: string): string {
    if s == [] then [] else NonBlank(s[..|s| - 1]) + if Blank(s[|s| - 1]) then [] else [s[|s| - 1]]
  }

  function Join(rows: seq<string>): string {
    if rows == [] then "" else Join(rows[..|rows| - 1]) + rows[|rows| - 1]
  }

  /** Columns a row is counted with: one for a blank, the character's width otherwise. */
  function Columns(s: string, w: char -> nat): nat {
    if s == [] then 0 else Columns(s[..|s| - 1], w) + if Blank(s[|s| - 1]) then 1 else w(s[|s| - 1])
  }

  lemma {:induction false} NonBlankJoin(a: string, b: string)
    ensures NonBlank(a + b) == NonBlank(a) + NonBlank(b)
  {
    if b == [] {
      assert a + b == a;
    } else {
      assert (a + b)[..|a + b| - 1] == a + b[..|b| - 1];
      NonBlankJoin(a, b[..|b| - 1]);
    }
  }

  lemma {:induction false} ColumnsJoin(a: string, b: string, w: char -> nat)
    ensures Columns(a + b, w) == Columns(a, w) + Columns(b, w)
  {
    if b == [] {
      assert a + b == a;
    } else {
      assert (a + b)[..|a + b| - 1] == a + b[..|b| - 1];
      ColumnsJoin(a, b[..|b| - 1], w);
    }
  }

  predicate AllFit(rows: seq<string>, w: char -> nat, width: nat) {
    forall i | 0 <= i < |rows| :: Columns(rows[i], w) <= width
  }

  predicate NoBlanks(s: string) {
    forall i | 0 <= i < |s| :: !Blank(s[i])
  }

  predicate NarrowWord(s: string, w: char -> nat, width: nat) {
    forall i | 0 <= i < |s| && !Blank(s[i]) :: w(s[i]) <= width
  }

  /** The wrapper's state: finished rows, the row in progress, the word in progress. When no character
      of the text is wider than the box (`narrow`), everything fits. */
  ghost predicate Wrapping(narrow: bool, out: seq<string>, cur: string, curW: nat, word: string, wordW: nat,
                           w: char -> nat, width: nat)
  {
    && curW == Columns(cur, w) && wordW == Columns(word, w) && NoBlanks(word)
    && (narrow ==> AllFit(out, w, width) && curW <= width && NarrowWord(word, w, width))
  }

  /** The characters taken in so far. */
  function Taken(out: seq<string>, cur: string, word: string): string {
    NonBlank(Join(out)) + NonBlank(cur) + NonBlank(word)
  }

  /** A finished row moves from progress to the list. */
  lemma PushRow(out: seq<string>, cur: string, word: string, w: char -> nat, width: nat)
    ensures Taken(out + [cur], "", word) == Taken(out, cur, word)
    ensures AllFit(out, w, width) && Columns(cur, w) <= width ==> AllFit(out + [cur], w, width)
  {
    assert (out + [cur])[..|out|] == out;
    NonBlankJoin(Join(out), cur);
  }

  /** A character moves from the word to the row. */
  lemma PushChar(cur: string, c: char, w: char -> nat)
    ensures Columns(cur + [c], w) == Columns(cur, w) + if Blank(c) then 1 else w(c)
    ensures NonBlank(cur + [c]) == NonBlank(cur) + if Blank(c) then [] else [c]
  {
    assert (cur + [c])[..|cur|] == cur;
  }

  // ---------- where the characters go ----------

  predicate AllBlank(s: string) {
    forall i | 0 <= i < |s| :: Blank(s[i])
  }

  /** Rows with the gaps before, between and behind them. */
  function Woven(rows: seq<string>, gaps: seq<string>): string
    requires |gaps| == |rows| + 1
  {
    if rows == [] then gaps[0]
    else Woven(rows[..|rows| - 1], gaps[..|rows|]) + rows[|rows| - 1] + gaps[|rows|]
  }

  /** The text is the rows in order with nothing but blanks around them. */
  ghost predicate Weaves(text: string, rows: seq<string>, gaps: seq<string>) {
    && |gaps| == |rows| + 1 && (forall g | 0 <= g < |gaps| :: AllBlank(gaps[g]))
    && text == Woven(rows, gaps)
  }

  /** The word `s` starts with. */
  function HeadWord(s: string): string {
    if s == "" || Blank(s[0]) then "" else [s[0]] + HeadWord(s[1..])
  }

  /** A row with no room for a blank, or none for the word that follows. */
  predicate RowFull(row: string, rest: string, w: char -> nat, width: nat) {
    Columns(row, w) + 1 > width || Columns(row, w) + Columns(HeadWord(rest), w) > width
  }

  /** Every row is filled before the next one starts; `tail` is the text behind the last. */
  ghost predicate Filled(rows: seq<string>, tail: string, w: char -> nat, width: nat) {
    forall i | 0 <= i < |rows| :: RowFull(rows[i], Join(rows[i + 1..]) + tail, w, width)
  }

  predicate NoIndent(row: string) {
    row != "" ==> !Blank(row[0])
  }

  ghost predicate NoneIndented(rows: seq<string>) {
    forall i | 0 <= i < |rows| :: NoIndent(rows[i])
  }

  lemma {:induction false} HeadGrows(s: string, t: string)
    ensures HeadWord(s) <= HeadWord(s + t)
  {
    if s != "" && !Blank(s[0]) {
      assert (s + t)[1..] == s[1..] + t;
      HeadGrows(s[1..], t);
    }
  }

  lemma {:induction false} HeadOfWord(word: string)
    requires NoBlanks(word)
    ensures HeadWord(word) == word
  {
    if word != "" {
      HeadOfWord(word[1..]);
      assert [word[0]] + word[1..] == word;
    }
  }

  lemma FullStays(row: string, rest: string, more: string, w: char -> nat, width: nat)
    requires RowFull(row, rest, w, width)
    ensures RowFull(row, rest + more, w, width)
  {
    HeadGrows(rest, more);
    var now, then_ := HeadWord(rest), HeadWord(rest + more);
    assert then_ == now + then_[|now|..];
    ColumnsJoin(now, then_[|now|..], w);
  }

  lemma FilledStays(rows: seq<string>, tail: string, more: string, w: char -> nat, width: nat)
    requires Filled(rows, tail, w, width)
    ensures Filled(rows, tail + more, w, width)
  {
    hide RowFull, Join;
    forall i | 0 <= i < |rows|
      ensures RowFull(rows[i], Join(rows[i + 1..]) + (tail + more), w, width)
    {
      FullStays(rows[i], Join(rows[i + 1..]) + tail, more, w, width);
      assert Join(rows[i + 1..]) + tail + more == Join(rows[i + 1..]) + (tail + more);
    }
  }

  lemma JoinLast(rows: seq<string>, row: string)
    ensures Join(rows + [row]) == Join(rows) + row
  {
    assert (rows + [row])[..|rows|] == rows;
  }

  /** A full row joins the filled ones. */
  lemma FilledPush(rows: seq<string>, row: string, tail: string, w: char -> nat, width: nat)
    requires Filled(rows, row + tail, w, width) && RowFull(row, tail, w, width)
    ensures Filled(rows + [row], tail, w, width)
  {
    hide RowFull, Join;
    NoText(w);
    var all := rows + [row];
    forall i | 0 <= i < |all|
      ensures RowFull(all[i], Join(all[i + 1..]) + tail, w, width)
    {
      if i < |rows| {
        assert all[i + 1..] == rows[i + 1..] + [row];
        JoinLast(rows[i + 1..], row);
        assert Join(rows[i + 1..]) + row + tail == Join(rows[i + 1..]) + (row + tail);
      } else {
        assert all[i + 1..] == [] && "" + tail == tail;
      }
    }
  }

  /** Everything about the layout of `text` so far. */
  ghost predicate Laid(text: string, out: seq<string>, gaps: seq<string>, cur: string, word: string, w: char -> nat, width: nat)
  {
    && |gaps| == |out| + 1 && (forall g | 0 <= g < |gaps| :: AllBlank(gaps[g]))
    && text == Woven(out, gaps) + cur + word
    && Filled(out, cur + word, w, width) && NoneIndented(out) && NoIndent(cur) && NoBlanks(word)
  }

  lemma LaidNothing(w: char -> nat, width: nat)
    ensures Laid("", [], [""], "", "", w, width)
  {
  }

  lemma WovenPush(out: seq<string>, gaps: seq<string>, cur: string, gap: string)
    requires |gaps| == |out| + 1
    ensures Woven(out + [cur], gaps + [gap]) == Woven(out, gaps) + cur + gap
  {
    assert (out + [cur])[..|out|] == out && (gaps + [gap])[..|gaps|] == gaps;
  }

  /** A full row is done; `gap` is the blank at which it broke, if it broke at one. */
  lemma LaidRow(text: string, out: seq<string>, gaps: seq<string>, cur: string, word: string, gap: string,
                w: char -> nat, width: nat)
    requires Laid(text, out, gaps, cur, word, w, width) && RowFull(cur, word, w, width)
    requires AllBlank(gap) && (gap != "" ==> word == "")
    ensures Laid(text + gap, out + [cur], gaps + [gap], "", word, w, width)
  {
    hide Filled, RowFull, Woven;
    FilledPush(out, cur, word, w, width);
    WovenPush(out, gaps, cur, gap);
    assert "" + word == word;
    assert text + gap == Woven(out, gaps) + cur + gap + "" + word;
  }

  /** A word, or part of one, joins the row. */
  lemma LaidWord(text: string, out: seq<string>, gaps: seq<string>, cur: string, part: string, word: string,
                 w: char -> nat, width: nat)
    requires Laid(text, out, gaps, cur, part + word, w, width)
    ensures Laid(text, out, gaps, cur + part, word, w, width)
  {
    hide Filled, Woven;
    assert cur + (part + word) == cur + part + word;
    assert Woven(out, gaps) + cur + (part + word) == Woven(out, gaps) + (cur + part) + word;
    forall i | 0 <= i < |part|
      ensures !Blank(part[i])
    {
      assert (part + word)[i] == part[i];
    }
    forall i | 0 <= i < |word|
      ensures !Blank(word[i])
    {
      assert (part + word)[|part| + i] == word[i];
    }
  }

  lemma LaidChar(text: string, out: seq<string>, gaps: seq<string>, cur: string, word: string, c: char,
                 w: char -> nat, width: nat)
    requires Laid(text, out, gaps, cur, word, w, width) && !Blank(c)
    ensures Laid(text + [c], out, gaps, cur, word + [c], w, width)
  {
    hide Filled, Woven;
    FilledStays(out, cur + word, [c], w, width);
    assert cur + word + [c] == cur + (word + [c]);
    assert Woven(out, gaps) + cur + word + [c] == Woven(out, gaps) + cur + (word + [c]);
  }

  /** A blank stays in a row that has begun. */
  lemma LaidBlank(text: string, out: seq<string>, gaps: seq<string>, cur: string, c: char, w: char -> nat, width: nat)
    requires Laid(text, out, gaps, cur, "", w, width) && cur != ""
    ensures Laid(text + [c], out, gaps, cur + [c], "", w, width)
  {
    hide Filled, Woven;
    FilledStays(out, cur + "", [c], w, width);
    assert cur + "" + [c] == cur + [c] + "";
    assert Woven(out, gaps) + cur + "" + [c] == Woven(out, gaps) + (cur + [c]) + "";
  }

  /** A blank in front of a row is dropped. */
  lemma LaidGap(text: string, out: seq<string>, gaps: seq<string>, c: char, w: char -> nat, width: nat)
    requires Laid(text, out, gaps, "", "", w, width) && Blank(c)
    ensures Laid(text + [c], out, gaps[|out| := gaps[|out|] + [c]], "", "", w, width)
  {
    hide Filled;
    var more := gaps[|out| := gaps[|out|] + [c]];
    assert more[..|out|] == gaps[..|out|];
    assert Woven(out, more) == Woven(out, gaps) + [c];
  }

  /** Cut a word that is longer than a row into pieces. */
  method HardWrap(out: seq<string>, word: string, w: char -> nat, width: nat,
                  ghost narrow: bool, ghost text: string, ghost gaps: seq<string>)
    returns (out': seq<string>, piece: string, used: nat, ghost gaps': seq<string>)
    requires NoBlanks(word) && (narrow ==> AllFit(out, w, width) && NarrowWord(word, w, width))
    requires Laid(text, out, gaps, "", word, w, width)
    ensures used == Columns(piece, w) && (narrow ==> AllFit(out', w, width) && used <= width)
    ensures Taken(out', piece, "") == Taken(out, "", word)
    ensures Laid(text, out', gaps', piece, "", w, width)
  {
    hide Columns, NonBlank, Join, AllFit, Taken, Laid, RowFull;
    out', piece, used, gaps' := out, "", 0, gaps;
    NoText(w);
    TakeNone(out, word);
    for i := 0 to |word|
      invariant used == Columns(piece, w) && (narrow ==> AllFit(out', w, width) && used <= width)
      invariant Taken(out', piece, word[i..]) == Taken(out, "", word)
      invariant Laid(text, out', gaps', piece, word[i..], w, width)
    {
      var c := word[i];
      if used + w(c) > width {
        PushRow(out', piece, word[i..], w, width);
        FullAtChar(piece, word[i..], w, width);
        LaidRow(text, out', gaps', piece, word[i..], "", w, width);
        assert text + "" == text;
        out', piece, used, gaps' := out' + [piece], "", 0, gaps' + [""];
      }
      assert word[i..] == [c] + word[i + 1..];
      LaidWord(text, out', gaps', piece, [c], word[i + 1..], w, width);
      TakeChar(out', piece, word[i..]);
      PushChar(piece, c, w);
      assert word[i..][1..] == word[i + 1..];
      piece, used := piece + [c], used + w(c);
    }
    assert word[|word|..] == "";
  }

  lemma FullAtChar(row: string, word: string, w: char -> nat, width: nat)
    requires word != "" && NoBlanks(word) && Columns(row, w) + w(word[0]) > width
    ensures RowFull(row, word, w, width)
  {
    HeadOfWord(word);
    assert word == [word[0]] + word[1..];
    ColumnsJoin([word[0]], word[1..], w);
    PushChar("", word[0], w);
    assert "" + [word[0]] == [word[0]];
  }

  lemma FullAtWord(row: string, word: string, w: char -> nat, width: nat)
    requires NoBlanks(word) && Columns(row, w) + Columns(word, w) > width
    ensures RowFull(row, word, w, width)
  {
    HeadOfWord(word);
  }

  lemma NoText(w: char -> nat)
    ensures Columns("", w) == 0 && NonBlank("") == "" && Join([]) == ""
  {
  }

  lemma TakeNone(out: seq<string>, word: string)
    ensures word[0..] == word && Taken(out, "", word[0..]) == Taken(out, "", word)
  {
    assert word[0..] == word;
  }

  lemma TakeChar(out: seq<string>, cur: string, word: string)
    requires word != ""
    ensures Taken(out, cur + [word[0]], word[1..]) == Taken(out, cur, word)
  {
    NonBlankJoin(cur, [word[0]]);
    NonBlankJoin([word[0]], word[1..]);
    assert [word[0]] + word[1..] == word;
  }

  lemma TakeWord(out: seq<string>, cur: string, word: string)
    ensures Taken(out, cur + word, "") == Taken(out, cur, word)
  {
    NonBlankJoin(cur, word);
  }

  /** Put the word in progress on the row, on the next row, or cut it up. */
  method FlushWord(out: seq<string>, cur: string, curW: nat, word: string, wordW: nat, w: char -> nat, width: nat,
                   ghost narrow: bool, ghost text: string, ghost gaps: seq<string>)
    returns (out': seq<string>, cur': string, curW': nat, ghost gaps': seq<string>)
    requires Wrapping(narrow, out, cur, curW, word, wordW, w, width) && Laid(text, out, gaps, cur, word, w, width)
    ensures Wrapping(narrow, out', cur', curW', "", 0, w, width) && Taken(out', cur', "") == Taken(out, cur, word)
    ensures Laid(text, out', gaps', cur', "", w, width)
  {
    hide Columns, NonBlank, Join, AllFit, Taken, Laid, RowFull;
    out', cur', curW', gaps' := out, cur, curW, gaps;
    NoText(w);
    if word == "" {
      return;
    }
    if curW + wordW <= width {
      ColumnsJoin(cur, word, w);
      TakeWord(out, cur, word);
      assert word + "" == word;
      LaidWord(text, out, gaps, cur, word, "", w, width);
      cur', curW' := cur + word, curW + wordW;
    } else {
      if cur != "" {
        PushRow(out, cur, word, w, width);
        FullAtWord(cur, word, w, width);
        LaidRow(text, out, gaps, cur, word, "", w, width);
        assert text + "" == text;
        out', gaps' := out + [cur], gaps + [""];
      }
      if wordW > width {
        out', cur', curW', gaps' := HardWrap(out', word, w, width, narrow, text, gaps');
      } else {
        TakeWord(out', "", word);
        assert word + "" == word;
        LaidWord(text, out', gaps', "", word, "", w, width);
        assert "" + word == word;
        cur', curW' := word, wordW;
      }
    }
  }

  /** Break on blanks, cut what is longer than a row. The text is the rows in order with nothing but blanks
      between them, no row starts with a blank, each is filled before the next one starts, and every row fits
      unless a character is wider than the box. */
  method WrapVisual(text: string, w: char -> nat, width: nat) returns (rows: seq<string>)
    ensures rows != [] && NonBlank(Join(rows)) == NonBlank(text)
    ensures width == 0 ==> rows == [text]
    ensures width > 0 && NarrowWord(text, w, width) ==> AllFit(rows, w, width)
    ensures exists gaps :: Weaves(text, rows, gaps)
    ensures width > 0 ==> NoneIndented(rows)
    ensures forall i | 0 <= i < |rows| - 1 :: RowFull(rows[i], Join(rows[i + 1..]), w, width)
  {
    hide Columns, NonBlank, Join, AllFit, Taken, Wrapping, Laid, RowFull, Weaves;
    NoText(w);
    if width == 0 {
      OneRow(text, w, width);
      OneRowWeaves(text);
      return [text];
    }
    if text == "" {
      OneRow("", w, width);
      OneRowWeaves("");
      return [""];
    }
    ghost var narrow := NarrowWord(text, w, width);
    var cur, curW: nat, word, wordW: nat := "", 0, "", 0;
    rows := [];
    ghost var gaps := [""];
    StartWrapping(narrow, w, width);
    LaidNothing(w, width);
    for i := 0 to |text|
      invariant Wrapping(narrow, rows, cur, curW, word, wordW, w, width)
      invariant Taken(rows, cur, word) == NonBlank(text[..i])
      invariant Laid(text[..i], rows, gaps, cur, word, w, width)
    {
      var c := text[i];
      PushChar(text[..i], c, w);
      assert text[..i + 1] == text[..i] + [c];
      if Blank(c) {
        rows, cur, curW, gaps := FlushWord(rows, cur, curW, word, wordW, w, width, narrow, text[..i], gaps);
        word, wordW := "", 0;
        if curW + 1 > width {
          BreakAtBlank(narrow, rows, cur, curW, w, width);
          NoRoom(narrow, rows, cur, curW, w, width);
          LaidRow(text[..i], rows, gaps, cur, "", [c], w, width);
          rows, cur, curW, gaps := rows + [cur], "", 0, gaps + [[c]];
        } else if cur != "" {
          KeepBlank(narrow, rows, cur, curW, c, w, width);
          LaidBlank(text[..i], rows, gaps, cur, c, w, width);
          cur, curW := cur + [c], curW + 1;
        } else {
          GapAt(text[..i], rows, gaps, c, w, width);
          gaps := gaps[|rows| := gaps[|rows|] + [c]];
        }
      } else {
        LaidChar(text[..i], rows, gaps, cur, word, c, w, width);
        GrowWord(narrow, rows, cur, curW, word, wordW, c, w, width);
        word, wordW := word + [c], wordW + w(c);
      }
    }
    assert text[..|text|] == text;
    rows, cur, curW, gaps := FlushWord(rows, cur, curW, word, wordW, w, width, narrow, text, gaps);
    LastRowOut(narrow, rows, cur, curW, w, width);
    LaidOut(text, rows, gaps, cur, w, width);
    if cur != "" || rows == [] {
      rows := rows + [cur];
    }
  }

  lemma StartWrapping(narrow: bool, w: char -> nat, width: nat)
    ensures Wrapping(narrow, [], "", 0, "", 0, w, width) && Taken([], "", "") == NonBlank("")
  {
  }

  lemma BreakAtBlank(narrow: bool, out: seq<string>, cur: string, curW: nat, w: char -> nat, width: nat)
    requires Wrapping(narrow, out, cur, curW, "", 0, w, width)
    ensures Wrapping(narrow, out + [cur], "", 0, "", 0, w, width) && Taken(out + [cur], "", "") == Taken(out, cur, "")
  {
    PushRow(out, cur, "", w, width);
  }

  lemma KeepBlank(narrow: bool, out: seq<string>, cur: string, curW: nat, c: char, w: char -> nat, width: nat)
    requires Wrapping(narrow, out, cur, curW, "", 0, w, width) && Blank(c) && curW + 1 <= width
    ensures Wrapping(narrow, out, cur + [c], curW + 1, "", 0, w, width) && Taken(out, cur + [c], "") == Taken(out, cur, "")
  {
    PushChar(cur, c, w);
  }

  lemma GrowWord(narrow: bool, out: seq<string>, cur: string, curW: nat, word: string, wordW: nat, c: char,
                 w: char -> nat, width: nat)
    requires Wrapping(narrow, out, cur, curW, word, wordW, w, width) && !Blank(c) && (narrow ==> w(c) <= width)
    ensures Wrapping(narrow, out, cur, curW, word + [c], wordW + w(c), w, width)
    ensures Taken(out, cur, word + [c]) == Taken(out, cur, word) + [c]
  {
    PushChar(word, c, w);
  }

  lemma LastRowOut(narrow: bool, out: seq<string>, cur: string, curW: nat, w: char -> nat, width: nat)
    requires Wrapping(narrow, out, cur, curW, "", 0, w, width)
    ensures NonBlank(Join(out + [cur])) == Taken(out, cur, "") && (cur == "" ==> NonBlank(Join(out)) == Taken(out, cur, ""))
    ensures narrow ==> AllFit(out, w, width) && AllFit(out + [cur], w, width)
  {
    PushRow(out, cur, "", w, width);
    NoText(w);
  }

  lemma NoRoom(narrow: bool, out: seq<string>, cur: string, curW: nat, w: char -> nat, width: nat)
    requires Wrapping(narrow, out, cur, curW, "", 0, w, width) && curW + 1 > width
    ensures RowFull(cur, "", w, width)
  {
  }

  lemma GapAt(text: string, out: seq<string>, gaps: seq<string>, c: char, w: char -> nat, width: nat)
    requires Laid(text, out, gaps, "", "", w, width) && Blank(c)
    ensures |gaps| == |out| + 1 && Laid(text + [c], out, gaps[|out| := gaps[|out|] + [c]], "", "", w, width)
  {
    LaidGap(text, out, gaps, c, w, width);
  }

  /** The layout of the whole text, with and without a last row in progress. */
  lemma LaidOut(text: string, out: seq<string>, gaps: seq<string>, cur: string, w: char -> nat, width: nat)
    requires Laid(text, out, gaps, cur, "", w, width)
    ensures Weaves(text, out + [cur], gaps + [""]) && (cur == "" ==> Weaves(text, out, gaps))
    ensures NoneIndented(out + [cur]) && NoneIndented(out)
    ensures forall i | 0 <= i < |out| :: RowFull(out[i], Join((out + [cur])[i + 1..]), w, width)
    ensures cur == "" ==> forall i | 0 <= i < |out| :: RowFull(out[i], Join(out[i + 1..]), w, width)
  {
    hide RowFull, Join, Woven;
    WovenPush(out, gaps, cur, "");
    assert Woven(out, gaps) + cur + "" == Woven(out, gaps) + cur;
    forall i | 0 <= i < |out|
      ensures RowFull(out[i], Join((out + [cur])[i + 1..]), w, width)
      ensures cur == "" ==> RowFull(out[i], Join(out[i + 1..]), w, width)
    {
      assert (out + [cur])[i + 1..] == out[i + 1..] + [cur];
      JoinLast(out[i + 1..], cur);
      assert cur + "" == cur;
      assert cur == "" ==> Join(out[i + 1..]) + cur == Join(out[i + 1..]);
    }
  }

  lemma OneRowWeaves(text: string)
    ensures Weaves(text, [text], ["", ""])
  {
    assert [text][..0] == [] && ["", ""][..1] == [""];
    assert Woven([], [""]) == "";
    assert "" + text + "" == text;
  }

  lemma OneRow(s: string, w: char -> nat, width: nat)
    ensures Join([s]) == s && (Columns(s, w) <= width ==> AllFit([s], w, width))
  {
    assert [s][..0] == [] && Join([]) == "";
    assert "" + s == s;
  }
}
