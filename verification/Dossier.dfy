/** One entry of an inspection dossier: a label, a body wrapped to the page,
    and a citation that is never split. */
module Dossier {

  const WIDTH: nat := 100
  const LABEL: nat := 13

  /** Which characters are white space, and how many bytes each takes. */
  datatype Script = Script(space: char -> bool, size: char -> nat) {
    ghost predicate Valid() {
      space(' ') && space('\n') && !space(']') && size(' ') == 1
    }

    function Width(text: string): nat {
      if text == [] then 0 else size(text[0]) + Width(text[1..])
    }

    function TrimEnd(text: string): (r: string)
      ensures r <= text && (r != [] ==> !space(r[|r| - 1]))
      ensures forall i | |r| <= i < |text| :: space(text[i])
    {
      if text != [] && space(text[|text| - 1]) then TrimEnd(text[..|text| - 1]) else text
    }

    /** The first word's length in text that does not begin with white space. */
    function WordEnd(text: string): (n: nat)
      ensures n <= |text| && (forall i | 0 <= i < n :: !space(text[i])) && (n < |text| ==> space(text[n]))
    {
      if text == [] || space(text[0]) then 0 else 1 + WordEnd(text[1..])
    }

    function Words(text: string): seq<string>
      decreases |text|
    {
      if text == [] then []
      else if space(text[0]) then Words(text[1..])
      else [text[..WordEnd(text)]] + Words(text[WordEnd(text)..])
    }
  }

  function Spaces(n: nat): string {
    seq(n, _ => ' ')
  }

  function Join(words: seq<string>, between: string): string {
    if words == [] then ""
    else if |words| == 1 then words[0]
    else Join(words[..|words| - 1], between) + between + words[|words| - 1]
  }

  /** The indented label, padded to its column; a label wider than it keeps one space. */
  function Head(indent: nat, title: string): string {
    var padded := Spaces(indent) + title + Spaces(if |title| < LABEL then LABEL - |title| else 0);
    if padded[|padded| - 1..] == " " then padded else padded + " "
  }

  /** A line as it is built: what it begins with, the body's words on it, and
      the citation at its end, with the gap before it. */
  datatype Row = Row(head: string, words: seq<string>, gap: string, cite: string)

  function Line(row: Row): string {
    row.head + Join(row.words, " ") + row.gap + row.cite
  }

  /** Whether one more word still fits the line. */
  predicate Fits(s: Script, line: string, word: string) {
    s.Width(line) + 1 + s.Width(word) <= WIDTH
  }

  /** The lines of a body: `placed` are the words already on the line that begins with `head`. */
  function Wrapped(s: Script, hang: string, head: string, placed: seq<string>, words: seq<string>): (rows: seq<Row>)
    ensures rows != []
    decreases |words|
  {
    if words == [] then [Row(head, placed, "", "")]
    else if placed == [] || Fits(s, head + Join(placed, " "), words[0]) then
      Wrapped(s, hang, head, placed + [words[0]], words[1..])
    else [Row(head, placed, "", "")] + Wrapped(s, hang, hang, [words[0]], words[1..])
  }

  /** The citation on the last line where it fits, or on a line of its own. */
  function Cited(s: Script, hang: string, rows: seq<Row>, cite: string): (r: seq<Row>)
    requires rows != []
    ensures |rows| <= |r| <= |rows| + 1
  {
    var last := rows[|rows| - 1];
    if cite == "" then rows
    else if s.Width(Line(last)) + 2 + s.Width(cite) > WIDTH + 10 then rows + [Row(hang, [], "", cite)]
    else rows[..|rows| - 1] + [last.(gap := "  ", cite := cite)]
  }

  function Citation(cites: seq<string>): string {
    if cites == [] then "" else "[" + Join(cites, "; ") + "]"
  }

  function Render(s: Script, rows: seq<Row>): string {
    if rows == [] then "" else Render(s, rows[..|rows| - 1]) + s.TrimEnd(Line(rows[|rows| - 1])) + "\n"
  }

  /** The rows of one entry. */
  function Entry(s: Script, indent: nat, title: string, words: seq<string>, cites: seq<string>): seq<Row> {
    var hang := Spaces(indent + LABEL);
    Cited(s, hang, Wrapped(s, hang, Head(indent, title), [], words), Citation(cites))
  }

  /** What a line holds before its citation. */
  function Uncited(row: Row): string {
    row.head + Join(row.words, " ")
  }

  lemma JoinNext(words: seq<string>, word: string)
    ensures Join(words + [word], " ") == (if words == [] then "" else Join(words, " ") + " ") + word
  {
    assert (words + [word])[..|words|] == words;
  }

  lemma RenderNext(s: Script, before: string, rows: seq<Row>, row: Row)
    ensures before + Render(s, rows + [row]) == before + Render(s, rows) + (s.TrimEnd(Line(row)) + "\n")
  {
    assert (rows + [row])[..|rows|] == rows;
  }

  /** One word of the wrap: onto the line, or onto a line of its own. */
  lemma WrapNext(s: Script, hang: string, head: string, placed: seq<string>, words: seq<string>, rows: seq<Row>)
    requires words != []
    ensures rows + Wrapped(s, hang, head, placed, words)
         == if placed == [] || Fits(s, head + Join(placed, " "), words[0]) then
              rows + Wrapped(s, hang, head, placed + [words[0]], words[1..])
            else rows + [Row(head, placed, "", "")] + Wrapped(s, hang, hang, [words[0]], words[1..])
  {
    if !(placed == [] || Fits(s, head + Join(placed, " "), words[0])) {
      var row, rest := [Row(head, placed, "", "")], Wrapped(s, hang, hang, [words[0]], words[1..]);
      assert rows + (row + rest) == rows + row + rest;
    }
  }

  lemma Plain(head: string, words: seq<string>)
    ensures Line(Row(head, words, "", "")) == head + Join(words, " ")
  {
  }

  lemma CitedLast(s: Script, hang: string, rows: seq<Row>, row: Row, cite: string)
    ensures Cited(s, hang, rows + [row], cite)
         == if cite == "" then rows + [row]
            else if s.Width(Line(row)) + 2 + s.Width(cite) > WIDTH + 10 then rows + [row] + [Row(hang, [], "", cite)]
            else rows + [row.(gap := "  ", cite := cite)]
  {
    assert (rows + [row])[..|rows|] == rows;
  }

  /** What the wrap keeps: the lines written, the line being built, and the
      rows that `rest` still makes are the rows of the whole body. */
  ghost predicate Built(s: Script, before: string, hang: string, all: seq<Row>,
                        out: string, line: string, rows: seq<Row>, row: Row, rest: seq<string>) {
    && row.gap == row.cite == "" && line == Uncited(row)
    && out == before + Render(s, rows)
    && rows + Wrapped(s, hang, row.head, row.words, rest) == all
  }

  lemma BuiltBreaks(s: Script, before: string, hang: string, all: seq<Row>,
                    out: string, line: string, rows: seq<Row>, row: Row, rest: seq<string>)
    requires Built(s, before, hang, all, out, line, rows, row, rest)
    requires rest != [] && row.words != [] && !Fits(s, line, rest[0])
    ensures Built(s, before, hang, all, out + (s.TrimEnd(line) + "\n"), hang + rest[0],
                  rows + [row], Row(hang, [rest[0]], "", ""), rest[1..])
  {
    Plain(row.head, row.words);
    WrapNext(s, hang, row.head, row.words, rest, rows);
    RenderNext(s, before, rows, row);
  }

  lemma BuiltJoins(s: Script, before: string, hang: string, all: seq<Row>,
                   out: string, line: string, rows: seq<Row>, row: Row, rest: seq<string>)
    requires Built(s, before, hang, all, out, line, rows, row, rest)
    requires rest != [] && (row.words == [] || Fits(s, line, rest[0]))
    ensures Built(s, before, hang, all, out, (if row.words == [] then line else line + " ") + rest[0],
                  rows, row.(words := row.words + [rest[0]]), rest[1..])
  {
    WrapNext(s, hang, row.head, row.words, rest, rows);
    LineGrows(row.head, row.words, rest[0]);
  }

  lemma LineGrows(head: string, words: seq<string>, word: string)
    ensures head + Join(words + [word], " ")
         == (if words == [] then head + Join(words, " ") else head + Join(words, " ") + " ") + word
  {
    JoinNext(words, word);
    if words == [] {
      assert head + Join(words, " ") == head;
    } else {
      assert head + Join(words, " ") + " " + word == head + (Join(words, " ") + " " + word);
    }
  }

  /** The body, wrapped: what is written already, and the line still being built. */
  method WriteBody(s: Script, before: string, hang: string, title: string, words: seq<string>)
    returns (out: string, line: string)
    ensures var all := Wrapped(s, hang, title, [], words);
            out == before + Render(s, all[..|all| - 1]) && line == Line(all[|all| - 1])
  {
    out, line := before, title;
    var firstWord := true;
    ghost var rows, row := [], Row(title, [], "", "");
    ghost var all := Wrapped(s, hang, title, [], words);
    assert words[0..] == words;
    for i := 0 to |words|
      invariant firstWord <==> row.words == []
      invariant Built(s, before, hang, all, out, line, rows, row, words[i..])
    {
      var word := words[i];
      assert words[i..][0] == word && words[i..][1..] == words[i + 1..];
      if !firstWord && s.Width(line) + 1 + s.Width(word) > WIDTH {
        BuiltBreaks(s, before, hang, all, out, line, rows, row, words[i..]);
        rows, row := rows + [row], Row(hang, [word], "", "");
        out := out + (s.TrimEnd(line) + "\n");
        line := hang;
      } else {
        BuiltJoins(s, before, hang, all, out, line, rows, row, words[i..]);
        row := row.(words := row.words + [word]);
        if !firstWord {
          line := line + " ";
        }
      }
      line := line + word;
      firstWord := false;
    }
    Plain(row.head, row.words);
    assert all == rows + [row] && all[..|all| - 1] == rows;
  }

  lemma LineCited(row: Row, hang: string, cite: string)
    requires row.gap == row.cite == ""
    ensures Line(row.(gap := "  ", cite := cite)) == Line(row) + "  " + cite
    ensures Line(Row(hang, [], "", cite)) == hang + cite
  {
  }

  method WriteEntry(s: Script, before: string, indent: nat, title: string, body: string, cites: seq<string>)
    returns (out: string)
    ensures out == before + Render(s, Entry(s, indent, title, s.Words(body), cites))
  {
    var hang, line := Spaces(indent + LABEL), "";
    out, line := WriteBody(s, before, hang, Head(indent, title), s.Words(body));
    ghost var all := Wrapped(s, hang, Head(indent, title), [], s.Words(body));
    ghost var rows, row := all[..|all| - 1], all[|all| - 1];
    assert all == rows + [row];
    WrapKeepsWords(s, hang, Head(indent, title), [], s.Words(body));
    CitedLast(s, hang, rows, row, Citation(cites));
    LineCited(row, hang, Citation(cites));
    if cites != [] {
      var cite := "[" + Join(cites, "; ") + "]";
      if s.Width(line) + 2 + s.Width(cite) > WIDTH + 10 {
        RenderNext(s, before, rows, row);
        out := out + (s.TrimEnd(line) + "\n");
        rows, row := rows + [row], Row(hang, [], "", cite);
        line := hang + cite;
      } else {
        line := line + "  " + cite;
        row := row.(gap := "  ", cite := cite);
      }
    }
    RenderNext(s, before, rows, row);
    out := out + (s.TrimEnd(line) + "\n");
  }

  // ----- Widths -----

  lemma WidthOfOne(s: Script, c: char)
    ensures s.Width([c]) == s.size(c) && s.Width("") == 0
  {
    assert [c][1..] == [];
  }

  lemma {:induction false} WidthJoined(s: Script, x: string, y: string)
    ensures s.Width(x + y) == s.Width(x) + s.Width(y)
  {
    if x == [] {
      assert x + y == y;
    } else {
      assert (x + y)[1..] == x[1..] + y;
      WidthJoined(s, x[1..], y);
    }
  }

  function BodyWords(rows: seq<Row>): seq<string> {
    if rows == [] then [] else rows[0].words + BodyWords(rows[1..])
  }

  /** A line of two body words or more is no wider than the page, and a line
      ends only where its next word would not have fitted. */
  ghost predicate WellWrapped(s: Script, hang: string, rows: seq<Row>) {
    && (forall i | 0 <= i < |rows| :: |rows[i].words| >= 2 ==> s.Width(Uncited(rows[i])) <= WIDTH)
    && (forall i | 0 < i < |rows| ::
          && rows[i].head == hang && rows[i].words != []
          && s.Width(Uncited(rows[i - 1])) + 1 + s.Width(rows[i].words[0]) > WIDTH)
  }

  lemma {:induction false} WrapKeepsWords(s: Script, hang: string, head: string, placed: seq<string>, words: seq<string>)
    ensures BodyWords(Wrapped(s, hang, head, placed, words)) == placed + words
    ensures var rows := Wrapped(s, hang, head, placed, words);
            && rows[0].head == head && placed <= rows[0].words
            && forall i | 0 <= i < |rows| :: rows[i].gap == rows[i].cite == ""
    decreases |words|
  {
    if words == [] {
      assert placed + words == placed;
    } else if placed == [] || Fits(s, head + Join(placed, " "), words[0]) {
      WrapKeepsWords(s, hang, head, placed + [words[0]], words[1..]);
      assert placed + [words[0]] + words[1..] == placed + words;
    } else {
      var rest := Wrapped(s, hang, hang, [words[0]], words[1..]);
      WrapKeepsWords(s, hang, hang, [words[0]], words[1..]);
      var rows := [Row(head, placed, "", "")] + rest;
      assert rows[1..] == rest && [words[0]] + words[1..] == words;
    }
  }

  lemma {:induction false} WrapFits(s: Script, hang: string, head: string, placed: seq<string>, words: seq<string>)
    requires s.Valid() && (|placed| >= 2 ==> s.Width(head + Join(placed, " ")) <= WIDTH)
    ensures WellWrapped(s, hang, Wrapped(s, hang, head, placed, words))
    decreases |words|
  {
    if words != [] {
      if placed == [] || Fits(s, head + Join(placed, " "), words[0]) {
        if placed != [] {
          JoinNext(placed, words[0]);
          var line := head + Join(placed, " ");
          assert head + Join(placed + [words[0]], " ") == line + (" " + words[0]);
          WidthJoined(s, line, " " + words[0]);
          WidthJoined(s, " ", words[0]);
        }
        WrapFits(s, hang, head, placed + [words[0]], words[1..]);
      } else {
        WrapFits(s, hang, hang, [words[0]], words[1..]);
        WrapKeepsWords(s, hang, hang, [words[0]], words[1..]);
        var row, rest := Row(head, placed, "", ""), Wrapped(s, hang, hang, [words[0]], words[1..]);
        var rows := [row] + rest;
        assert rest[0].words[0] == words[0];
        forall i | 0 < i < |rows|
          ensures rows[i].head == hang && rows[i].words != []
          ensures s.Width(Uncited(rows[i - 1])) + 1 + s.Width(rows[i].words[0]) > WIDTH
        {
          assert rows[i] == rest[i - 1];
        }
      }
    }
  }

  lemma CitedKeepsWords(s: Script, hang: string, rows: seq<Row>, cite: string)
    requires rows != []
    ensures BodyWords(Cited(s, hang, rows, cite)) == BodyWords(rows)
  {
    var n := |rows| - 1;
    assert rows == rows[..n] + [rows[n]];
    BodyWordsJoined(rows[..n], [rows[n]]);
    BodyWordsJoined(rows[..n], [rows[n].(gap := "  ", cite := cite)]);
    BodyWordsJoined(rows, [Row(hang, [], "", cite)]);
  }

  lemma WidthCited(s: Script, line: string, cite: string)
    requires s.Valid()
    ensures s.Width(line + "  " + cite) == s.Width(line) + 2 + s.Width(cite)
  {
    WidthJoined(s, line + "  ", cite);
    WidthJoined(s, line, "  ");
    assert s.Width("  ") == 2 by { WidthJoined(s, " ", " "); assert " " + " " == "  "; }
  }

  lemma {:induction false} BodyWordsJoined(x: seq<Row>, y: seq<Row>)
    ensures BodyWords(x + y) == BodyWords(x) + BodyWords(y)
  {
    if x == [] {
      assert x + y == y;
    } else {
      assert (x + y)[1..] == x[1..] + y;
      BodyWordsJoined(x[1..], y);
    }
  }

  // ----- Labels and citations -----

  /** A label stands after its indent; what comes after it is white space up to
      the column of the body, or one space when it reaches past it. */
  lemma HeadExactly(indent: nat, title: string)
    ensures var head := Head(indent, title);
            && |head| == indent + (if |title| < LABEL then LABEL
                                   else if title[|title| - 1] == ' ' then |title| else |title| + 1)
            && head[indent..indent + |title|] == title
            && forall i | 0 <= i < |head| :: i < indent || i >= indent + |title| ==> head[i] == ' '
  {
    var left, right := Spaces(indent), Spaces(if |title| < LABEL then LABEL - |title| else 0);
    var padded := left + title + right;
    assert padded[|padded| - 1..] == [padded[|padded| - 1]];
  }

  lemma {:induction false} JoinAppends(x: seq<string>, y: seq<string>, between: string)
    requires x != [] && y != []
    ensures Join(x + y, between) == Join(x, between) + between + Join(y, between)
  {
    var front, last := y[..|y| - 1], y[|y| - 1];
    assert (x + y)[..|x + y| - 1] == x + front;
    if front == [] {
      assert x + front == x;
    } else {
      JoinAppends(x, front, between);
      assert Join(x, between) + between + (Join(front, between) + between + last)
          == Join(x, between) + between + Join(front, between) + between + last;
    }
  }

  /** What comes before a word among others, and what after it. */
  function Ended(words: seq<string>, between: string): string {
    if words == [] then "" else Join(words, between) + between
  }

  function Followed(words: seq<string>, between: string): string {
    if words == [] then "" else between + Join(words, between)
  }

  /** Each cite is whole in its citation, in its place among the others, which
      only `; ` parts it from; nothing but the brackets is around them. */
  lemma CitationHolds(before: seq<string>, cite: string, after: seq<string>)
    ensures Citation(before + [cite] + after) == "[" + (Ended(before, "; ") + cite + Followed(after, "; ")) + "]"
    ensures Citation([cite]) == "[" + cite + "]" && Citation([]) == ""
  {
    var cites := before + [cite] + after;
    assert Join([cite], "; ") == cite;
    if before != [] { JoinAppends(before, [cite], "; "); } else { assert before + [cite] == [cite]; }
    if after != [] { JoinAppends(before + [cite], after, "; "); } else { assert cites == before + [cite]; }
    assert Join(cites, "; ") == Ended(before, "; ") + cite + Followed(after, "; ");
  }

  /** A citation has a line of its own just when it does not fit the last line of the body and its margin. */
  lemma CitationPlaced(s: Script, indent: nat, title: string, words: seq<string>, cites: seq<string>)
    ensures var rows := Wrapped(s, Spaces(indent + LABEL), Head(indent, title), [], words);
            var entry := Entry(s, indent, title, words, cites);
            |entry| == |rows| + (if cites != [] && s.Width(Line(rows[|rows| - 1])) + 2 + s.Width(Citation(cites)) > WIDTH + 10
                                 then 1 else 0)
  {
    assert cites != [] ==> Citation(cites)[0] == '[';
  }

  // ----- Words -----

  /** A place no word runs across. */
  predicate Apart(s: Script, x: string, y: string) {
    x == [] || y == [] || s.space(x[|x| - 1]) || s.space(y[0])
  }

  lemma {:induction false} WordsJoined(s: Script, x: string, y: string)
    requires Apart(s, x, y)
    ensures s.Words(x + y) == s.Words(x) + s.Words(y)
    decreases |x|
  {
    if x == [] {
      assert x + y == y;
    } else if s.space(x[0]) {
      assert (x + y)[1..] == x[1..] + y;
      WordsJoined(s, x[1..], y);
    } else {
      WordFirst(s, x, y);
      WordsJoined(s, x[s.WordEnd(x)..], y);
    }
  }

  /** The first word of `x` is the first word of `x + y`. */
  lemma WordFirst(s: Script, x: string, y: string)
    requires Apart(s, x, y) && x != [] && !s.space(x[0])
    ensures var rest := x[s.WordEnd(x)..];
            && Apart(s, rest, y)
            && s.Words(x + y) == [x[..s.WordEnd(x)]] + s.Words(rest + y)
  {
    var n := s.WordEnd(x);
    assert n < |x| || y == [] || s.space(y[0]);
    WordEndJoined(s, x, y);
    assert (x + y)[..n] == x[..n] && (x + y)[n..] == x[n..] + y;
    assert x[n..] != [] ==> x[n..][|x[n..]| - 1] == x[|x| - 1];
  }

  lemma {:induction false} WordEndJoined(s: Script, x: string, y: string)
    requires s.WordEnd(x) < |x| || y == [] || s.space(y[0])
    ensures s.WordEnd(x + y) == s.WordEnd(x)
  {
    if x == [] {
      assert x + y == y;
    } else if !s.space(x[0]) {
      assert (x + y)[1..] == x[1..] + y;
      WordEndJoined(s, x[1..], y);
    }
  }

  predicate IsWord(s: Script, w: string) {
    w != [] && forall i | 0 <= i < |w| :: !s.space(w[i])
  }

  lemma WordsOfWord(s: Script, w: string)
    requires IsWord(s, w)
    ensures s.Words(w) == [w]
  {
    assert s.WordEnd(w) == |w|;
    assert w[..|w|] == w && w[|w|..] == [];
  }

  lemma {:induction false} WordsOfSpace(s: Script, x: string)
    requires forall i | 0 <= i < |x| :: s.space(x[i])
    ensures s.Words(x) == []
  {
    if x != [] {
      WordsOfSpace(s, x[1..]);
    }
  }

  lemma {:induction false} WordsOfTrimmed(s: Script, x: string)
    ensures s.Words(s.TrimEnd(x)) == s.Words(x)
  {
    if x != [] && s.space(x[|x| - 1]) {
      var front, last := x[..|x| - 1], [x[|x| - 1]];
      WordsOfTrimmed(s, front);
      assert front + last == x;
      WordsOfSpace(s, last);
      WordsJoined(s, front, last);
    }
  }

  lemma {:induction false} WordsAreWords(s: Script, x: string)
    ensures forall i | 0 <= i < |s.Words(x)| :: IsWord(s, s.Words(x)[i])
    decreases |x|
  {
    if x != [] {
      if s.space(x[0]) {
        WordsAreWords(s, x[1..]);
      } else {
        WordsAreWords(s, x[s.WordEnd(x)..]);
      }
    }
  }

  lemma {:induction false} WordsOfJoin(s: Script, words: seq<string>)
    requires s.Valid() && forall i | 0 <= i < |words| :: IsWord(s, words[i])
    ensures s.Words(Join(words, " ")) == words
  {
    if |words| == 1 {
      WordsOfWord(s, words[0]);
    } else if |words| > 1 {
      var front, last := words[..|words| - 1], words[|words| - 1];
      WordsOfJoin(s, front);
      WordsOfWord(s, last);
      WordsOfSpace(s, " ");
      WordsJoined(s, Join(front, " "), " ");
      WordsJoined(s, Join(front, " ") + " ", last);
      assert front + [last] == words;
    }
  }

  lemma WordsOfHead(s: Script, indent: nat, title: string)
    requires s.Valid()
    ensures s.Words(Head(indent, title)) == s.Words(title)
    ensures Head(indent, title) != [] && s.space(Head(indent, title)[|Head(indent, title)| - 1])
  {
    var left, right := Spaces(indent), Spaces(if |title| < LABEL then LABEL - |title| else 0);
    WordsAfterSpace(s, left, title);
    WordsBeforeSpace(s, left + title, right);
    WordsBeforeSpace(s, left + title + right, " ");
  }

  lemma WordsAfterSpace(s: Script, x: string, y: string)
    requires forall i | 0 <= i < |x| :: s.space(x[i])
    ensures s.Words(x + y) == s.Words(y)
  {
    WordsOfSpace(s, x);
    WordsJoined(s, x, y);
  }

  lemma WordsBeforeSpace(s: Script, x: string, y: string)
    requires forall i | 0 <= i < |y| :: s.space(y[i])
    ensures s.Words(x + y) == s.Words(x)
  {
    WordsOfSpace(s, y);
    WordsJoined(s, x, y);
  }

  /** A row's head ends in white space, its words are words, and its citation stands clear of them. */
  predicate RowOk(s: Script, row: Row) {
    && row.head != [] && s.space(row.head[|row.head| - 1])
    && (forall i | 0 <= i < |row.words| :: IsWord(s, row.words[i]))
    && (row.gap == "  " || (row.gap == "" && (row.words == [] || row.cite == "")))
  }

  lemma WordsOfUncited(s: Script, row: Row)
    requires s.Valid() && RowOk(s, row)
    ensures s.Words(Uncited(row)) == s.Words(row.head) + row.words
  {
    WordsOfJoin(s, row.words);
    WordsJoined(s, row.head, Join(row.words, " "));
  }

  lemma CiteApart(s: Script, row: Row)
    requires s.Valid() && RowOk(s, row)
    ensures Apart(s, Uncited(row) + row.gap, row.cite)
  {
    if row.gap == "" && row.cite != "" {
      assert Uncited(row) + row.gap == row.head;
    }
  }

  lemma WordsOfLine(s: Script, row: Row)
    requires s.Valid() && RowOk(s, row)
    ensures s.Words(Line(row)) == s.Words(row.head) + row.words + s.Words(row.cite)
  {
    WordsOfUncited(s, row);
    WordsBeforeSpace(s, Uncited(row), row.gap);
    CiteApart(s, row);
    WordsJoined(s, Uncited(row) + row.gap, row.cite);
  }

  function WordsOfRows(s: Script, rows: seq<Row>): seq<string> {
    if rows == [] then []
    else
      var last := rows[|rows| - 1];
      WordsOfRows(s, rows[..|rows| - 1]) + (s.Words(last.head) + last.words + s.Words(last.cite))
  }

  lemma {:induction false} WordsOfRender(s: Script, rows: seq<Row>)
    requires s.Valid() && forall i | 0 <= i < |rows| :: RowOk(s, rows[i])
    ensures s.Words(Render(s, rows)) == WordsOfRows(s, rows)
    ensures rows != [] ==> Render(s, rows) != [] && s.space(Render(s, rows)[|Render(s, rows)| - 1])
  {
    if rows != [] {
      var front, line := rows[..|rows| - 1], Line(rows[|rows| - 1]);
      WordsOfRender(s, front);
      WordsOfLine(s, rows[|rows| - 1]);
      WordsOfTrimmed(s, line);
      WordsOfSpace(s, "\n");
      WordsJoined(s, Render(s, front), s.TrimEnd(line));
      WordsJoined(s, Render(s, front) + s.TrimEnd(line), "\n");
    }
  }

  lemma {:induction false} WordsOfBody(s: Script, hang: string, rows: seq<Row>)
    requires rows != [] && (forall i | 0 <= i < |hang| :: s.space(hang[i]))
    requires (forall i | 0 <= i < |rows| :: rows[i].cite == "") && (forall i | 0 < i < |rows| :: rows[i].head == hang)
    ensures WordsOfRows(s, rows) == s.Words(rows[0].head) + BodyWords(rows)
  {
    var front, last := rows[..|rows| - 1], rows[|rows| - 1];
    if front != [] {
      WordsOfBody(s, hang, front);
      WordsOfSpace(s, hang);
      assert front + [last] == rows;
      BodyWordsJoined(front, [last]);
    }
  }

  lemma WordsOfCited(s: Script, hang: string, rows: seq<Row>, cite: string)
    requires rows != [] && rows[|rows| - 1].cite == "" && (forall i | 0 <= i < |hang| :: s.space(hang[i]))
    ensures WordsOfRows(s, Cited(s, hang, rows, cite)) == WordsOfRows(s, rows) + s.Words(cite)
  {
    var front, last := rows[..|rows| - 1], rows[|rows| - 1];
    if cite != "" {
      WordsOfSpace(s, hang);
      assert (rows + [Row(hang, [], "", cite)])[..|rows|] == rows;
      assert (front + [last.(gap := "  ", cite := cite)])[..|front|] == front;
    }
  }

  ghost predicate AllOk(s: Script, rows: seq<Row>) {
    forall i | 0 <= i < |rows| :: RowOk(s, rows[i])
  }

  lemma {:induction false} WrappedOk(s: Script, hang: string, head: string, placed: seq<string>, words: seq<string>)
    requires head != [] && s.space(head[|head| - 1]) && hang != [] && s.space(hang[|hang| - 1])
    requires (forall i | 0 <= i < |placed| :: IsWord(s, placed[i])) && (forall i | 0 <= i < |words| :: IsWord(s, words[i]))
    ensures AllOk(s, Wrapped(s, hang, head, placed, words))
    decreases |words|
  {
    if words != [] {
      if placed == [] || Fits(s, head + Join(placed, " "), words[0]) {
        WrappedOk(s, hang, head, placed + [words[0]], words[1..]);
      } else {
        WrappedOk(s, hang, hang, [words[0]], words[1..]);
      }
    }
  }

  lemma CitedOk(s: Script, hang: string, rows: seq<Row>, cite: string)
    requires rows != [] && AllOk(s, rows) && hang != [] && s.space(hang[|hang| - 1])
    ensures AllOk(s, Cited(s, hang, rows, cite))
  {
  }

  /** Split at white space, an entry as written gives the label's words, the
      body's in order, and then the citation's. */
  lemma EntryKeepsWords(s: Script, indent: nat, title: string, body: string, cites: seq<string>)
    requires s.Valid()
    ensures s.Words(Render(s, Entry(s, indent, title, s.Words(body), cites)))
         == s.Words(title) + s.Words(body) + s.Words(Citation(cites))
  {
    var hang, head, words, cite := Spaces(indent + LABEL), Head(indent, title), s.Words(body), Citation(cites);
    WordsOfHead(s, indent, title);
    WordsAreWords(s, body);
    LaidOutKeepsWords(s, hang, head, words, cite);
  }

  lemma LaidOutKeepsWords(s: Script, hang: string, head: string, words: seq<string>, cite: string)
    requires s.Valid() && forall i | 0 <= i < |words| :: IsWord(s, words[i])
    requires head != [] && s.space(head[|head| - 1]) && hang != [] && forall i | 0 <= i < |hang| :: s.space(hang[i])
    ensures s.Words(Render(s, Cited(s, hang, Wrapped(s, hang, head, [], words), cite)))
         == s.Words(head) + words + s.Words(cite)
  {
    var rows := Wrapped(s, hang, head, [], words);
    WrappedOk(s, hang, head, [], words);
    WrapKeepsWords(s, hang, head, [], words);
    WrapFits(s, hang, head, [], words);
    assert [] + words == words;
    RenderedWords(s, hang, rows, cite);
  }

  lemma RenderedWords(s: Script, hang: string, rows: seq<Row>, cite: string)
    requires s.Valid() && hang != [] && forall i | 0 <= i < |hang| :: s.space(hang[i])
    requires rows != [] && AllOk(s, rows) && (forall i | 0 < i < |rows| :: rows[i].head == hang)
    requires forall i | 0 <= i < |rows| :: rows[i].cite == ""
    ensures s.Words(Render(s, Cited(s, hang, rows, cite))) == s.Words(rows[0].head) + BodyWords(rows) + s.Words(cite)
  {
    CitedOk(s, hang, rows, cite);
    WordsOfRender(s, Cited(s, hang, rows, cite));
    WordsOfBody(s, hang, rows);
    WordsOfCited(s, hang, rows, cite);
  }

  // ----- Lines -----

  /** The pieces of a text between its line ends. */
  function SplitLines(text: string): (r: seq<string>)
    ensures r != []
  {
    if text == [] then [[]]
    else if text[0] == '\n' then [[]] + SplitLines(text[1..])
    else var r := SplitLines(text[1..]); [[text[0]] + r[0]] + r[1..]
  }

  predicate OneLine(text: string) {
    '\n' !in text
  }

  lemma {:induction false} SplitEnded(x: string)
    ensures SplitLines(x + "\n") == SplitLines(x) + [""]
  {
    if x == [] {
      assert "" + "\n" == "\n" && "\n"[1..] == "";
    } else {
      assert (x + "\n")[1..] == x[1..] + "\n";
      SplitEnded(x[1..]);
    }
  }

  lemma {:induction false} SplitGrows(x: string, w: string)
    requires OneLine(w)
    ensures var r := SplitLines(x);
            SplitLines(x + w) == r[..|r| - 1] + [r[|r| - 1] + w]
  {
    if x == [] {
      assert x + w == w;
      SplitOne(w);
    } else {
      assert (x + w)[1..] == x[1..] + w;
      SplitGrows(x[1..], w);
      GrownHead(SplitLines(x[1..]), x[0], w);
    }
  }

  lemma GrownHead(r: seq<string>, c: char, w: string)
    requires r != []
    ensures var grown := r[..|r| - 1] + [r[|r| - 1] + w];
            && (var q := [[]] + r; [[]] + grown == q[..|q| - 1] + [q[|q| - 1] + w])
            && (var q := [[c] + r[0]] + r[1..]; [[c] + grown[0]] + grown[1..] == q[..|q| - 1] + [q[|q| - 1] + w])
  {
    if |r| == 1 {
      assert [c] + (r[0] + w) == [c] + r[0] + w;
    }
  }

  lemma {:induction false} SplitOne(w: string)
    requires OneLine(w)
    ensures SplitLines(w) == [w]
  {
    if w != [] {
      assert w[0] in w;
      SplitOne(w[1..]);
      assert [w[0]] + w[1..] == w;
    }
  }

  /** Each row as it is written. */
  function Written(s: Script, rows: seq<Row>): (lines: seq<string>)
    ensures |lines| == |rows|
  {
    seq(|rows|, i requires 0 <= i < |rows| => s.TrimEnd(Line(rows[i])))
  }

  lemma LineAdded(x: string, lines: seq<string>, line: string)
    requires SplitLines(x) == lines + [""] && OneLine(line)
    ensures SplitLines(x + line + "\n") == lines + [line] + [""]
  {
    SplitGrows(x, line);
    assert "" + line == line;
    SplitEnded(x + line);
  }

  /** Rows of one line each are the lines of what is written. */
  lemma {:induction false} LinesOfRender(s: Script, rows: seq<Row>)
    requires forall i | 0 <= i < |rows| :: OneLine(Line(rows[i]))
    ensures SplitLines(Render(s, rows)) == Written(s, rows) + [""]
  {
    if rows != [] {
      var front, last := rows[..|rows| - 1], rows[|rows| - 1];
      LinesOfRender(s, front);
      assert Written(s, rows) == Written(s, front) + [s.TrimEnd(Line(last))];
      TrimmedOneLine(s, Line(last));
      LineAdded(Render(s, front), Written(s, front), s.TrimEnd(Line(last)));
    }
  }

  lemma TrimmedOneLine(s: Script, line: string)
    requires OneLine(line)
    ensures OneLine(s.TrimEnd(line))
  {
  }

  predicate OneLineEach(texts: seq<string>) {
    forall i | 0 <= i < |texts| :: OneLine(texts[i])
  }

  lemma {:induction false} JoinOneLine(words: seq<string>, between: string)
    requires OneLineEach(words) && OneLine(between)
    ensures OneLine(Join(words, between))
  {
    if |words| > 1 {
      JoinOneLine(words[..|words| - 1], between);
    }
  }

  lemma RowOneLine(s: Script, row: Row)
    requires s.Valid() && RowOk(s, row) && OneLine(row.head) && OneLine(row.cite)
    ensures OneLine(Line(row))
  {
    JoinOneLine(row.words, " ");
  }

  lemma HeadOneLine(indent: nat, title: string)
    requires OneLine(title)
    ensures OneLine(Head(indent, title))
  {
  }

  lemma CitationOneLine(cites: seq<string>)
    requires OneLineEach(cites)
    ensures OneLine(Citation(cites))
  {
    JoinOneLine(cites, "; ");
  }

  lemma NotTrimmed(s: Script, line: string)
    requires line != [] ==> !s.space(line[|line| - 1])
    ensures s.TrimEnd(line) == line
  {
  }

  lemma {:induction false} JoinEnds(s: Script, words: seq<string>)
    requires words != [] && forall i | 0 <= i < |words| :: IsWord(s, words[i])
    ensures Join(words, " ") != [] && !s.space(Join(words, " ")[|Join(words, " ")| - 1])
  {
    var last := words[|words| - 1];
    assert Join(words, " ")[|Join(words, " ")| - 1] == last[|last| - 1];
  }

  /** What one written line is: a head and the body's words on it, no wider than
      the page if they are two or more; then, after two spaces and within the
      margin, the citation whole; or the citation alone after the hanging indent. */
  ghost predicate LaidOut(s: Script, hang: string, line: string, row: Row) {
    && (|row.words| >= 2 ==> s.Width(Uncited(row)) <= WIDTH)
    && (row.cite == "" && row.words == [] ==> line == s.TrimEnd(row.head))
    && (row.cite == "" && row.words != [] ==> line == Uncited(row))
    && (row.cite != "" ==>
          || (line == Uncited(row) + "  " + row.cite && s.Width(line) <= WIDTH + 10)
          || (line == hang + row.cite && row.words == []))
  }

  lemma UncitedWritten(s: Script, hang: string, row: Row)
    requires s.Valid() && RowOk(s, row) && row.gap == row.cite == "" && (|row.words| >= 2 ==> s.Width(Uncited(row)) <= WIDTH)
    ensures LaidOut(s, hang, s.TrimEnd(Line(row)), row)
  {
    Plain(row.head, row.words);
    if row.words == [] {
      assert Line(row) == row.head;
    } else {
      JoinEnds(s, row.words);
      assert Line(row)[|Line(row)| - 1] == Join(row.words, " ")[|Join(row.words, " ")| - 1];
      NotTrimmed(s, Line(row));
    }
  }

  lemma CitedWritten(s: Script, hang: string, row: Row, cites: seq<string>)
    requires s.Valid() && cites != [] && row.cite == Citation(cites) && (|row.words| >= 2 ==> s.Width(Uncited(row)) <= WIDTH)
    requires (row.gap == "  " && s.Width(Line(row)) <= WIDTH + 10) || row == Row(hang, [], "", row.cite)
    ensures LaidOut(s, hang, s.TrimEnd(Line(row)), row)
  {
    assert row.cite[|row.cite| - 1] == ']' && Line(row)[|Line(row)| - 1] == ']';
    NotTrimmed(s, Line(row));
    if row.gap != "  " {
      assert Line(row) == hang + row.cite;
    }
  }

  /** The rows of an entry that the citation is put to. */
  lemma CitedRows(s: Script, hang: string, rows: seq<Row>, cites: seq<string>, i: nat)
    requires s.Valid() && rows != [] && AllOk(s, rows) && forall j | 0 <= j < |rows| :: rows[j].gap == rows[j].cite == ""
    requires forall j | 0 <= j < |rows| :: |rows[j].words| >= 2 ==> s.Width(Uncited(rows[j])) <= WIDTH
    requires i < |Cited(s, hang, rows, Citation(cites))|
    ensures var row := Cited(s, hang, rows, Citation(cites))[i]; LaidOut(s, hang, s.TrimEnd(Line(row)), row)
  {
    var cite, last := Citation(cites), rows[|rows| - 1];
    var cited := Cited(s, hang, rows, cite);
    LineCited(last, hang, cite);
    WidthCited(s, Line(last), cite);
    if i < |rows| && cited[i] == rows[i] {
      UncitedWritten(s, hang, rows[i]);
    } else {
      CitedWritten(s, hang, cited[i], cites);
    }
  }

  lemma EntryHeads(s: Script, hang: string, head: string, rows: seq<Row>, cite: string)
    requires rows != [] && forall i | 0 <= i < |rows| :: rows[i].head == (if i == 0 then head else hang)
    ensures forall i | 0 <= i < |Cited(s, hang, rows, cite)| ::
              Cited(s, hang, rows, cite)[i].head == (if i == 0 then head else hang)
  {
  }

  /** What holds of every row of an entry. */
  ghost predicate RowsOf(s: Script, hang: string, head: string, cites: seq<string>, rows: seq<Row>) {
    && AllOk(s, rows)
    && (forall i | 0 <= i < |rows| :: rows[i].head == (if i == 0 then head else hang))
    && (forall i | 0 <= i < |rows| :: rows[i].cite == (if i == |rows| - 1 then Citation(cites) else ""))
    && (forall i | 0 <= i < |rows| :: LaidOut(s, hang, s.TrimEnd(Line(rows[i])), rows[i]))
  }

  lemma EntryLines(s: Script, hang: string, head: string, rows: seq<Row>, cites: seq<string>)
    requires s.Valid() && RowsOf(s, hang, head, cites, rows) && OneLine(head) && OneLine(hang) && OneLineEach(cites)
    ensures SplitLines(Render(s, rows)) == Written(s, rows) + [""]
  {
    CitationOneLine(cites);
    forall i | 0 <= i < |rows| ensures OneLine(Line(rows[i])) {
      RowOneLine(s, rows[i]);
    }
    LinesOfRender(s, rows);
  }

  /** What holds of every row of a wrapped body. */
  ghost predicate BodyRows(s: Script, hang: string, head: string, words: seq<string>, rows: seq<Row>) {
    && rows != [] && AllOk(s, rows) && BodyWords(rows) == words
    && (forall i | 0 <= i < |rows| :: rows[i].gap == rows[i].cite == "")
    && (forall i | 0 <= i < |rows| :: rows[i].head == (if i == 0 then head else hang))
    && (forall i | 0 <= i < |rows| :: |rows[i].words| >= 2 ==> s.Width(Uncited(rows[i])) <= WIDTH)
  }

  lemma WrappedRows(s: Script, hang: string, head: string, words: seq<string>)
    requires s.Valid() && forall i | 0 <= i < |words| :: IsWord(s, words[i])
    requires head != [] && s.space(head[|head| - 1]) && hang != [] && s.space(hang[|hang| - 1])
    ensures BodyRows(s, hang, head, words, Wrapped(s, hang, head, [], words))
  {
    WrappedOk(s, hang, head, [], words);
    WrapKeepsWords(s, hang, head, [], words);
    WrapFits(s, hang, head, [], words);
    assert [] + words == words;
  }

  lemma EntryCites(s: Script, hang: string, rows: seq<Row>, cite: string)
    requires rows != [] && forall i | 0 <= i < |rows| :: rows[i].cite == ""
    ensures forall i | 0 <= i < |Cited(s, hang, rows, cite)| ::
              Cited(s, hang, rows, cite)[i].cite == (if i == |Cited(s, hang, rows, cite)| - 1 then cite else "")
  {
  }

  lemma CitedRowsLaidOut(s: Script, hang: string, rows: seq<Row>, cites: seq<string>)
    requires s.Valid() && rows != [] && AllOk(s, rows) && forall j | 0 <= j < |rows| :: rows[j].gap == rows[j].cite == ""
    requires forall j | 0 <= j < |rows| :: |rows[j].words| >= 2 ==> s.Width(Uncited(rows[j])) <= WIDTH
    ensures var cited := Cited(s, hang, rows, Citation(cites));
            forall i | 0 <= i < |cited| :: LaidOut(s, hang, s.TrimEnd(Line(cited[i])), cited[i])
  {
    var cited := Cited(s, hang, rows, Citation(cites));
    forall i | 0 <= i < |cited| ensures LaidOut(s, hang, s.TrimEnd(Line(cited[i])), cited[i]) {
      CitedRows(s, hang, rows, cites, i);
    }
  }

  lemma CitedRowsOf(s: Script, hang: string, head: string, words: seq<string>, rows: seq<Row>, cites: seq<string>)
    requires s.Valid() && BodyRows(s, hang, head, words, rows) && hang != [] && s.space(hang[|hang| - 1])
    ensures RowsOf(s, hang, head, cites, Cited(s, hang, rows, Citation(cites)))
  {
    CitedOk(s, hang, rows, Citation(cites));
    EntryHeads(s, hang, head, rows, Citation(cites));
    EntryCites(s, hang, rows, Citation(cites));
    CitedRowsLaidOut(s, hang, rows, cites);
  }

  lemma EntryRows(s: Script, indent: nat, title: string, words: seq<string>, cites: seq<string>)
    requires s.Valid() && forall i | 0 <= i < |words| :: IsWord(s, words[i])
    ensures RowsOf(s, Spaces(indent + LABEL), Head(indent, title), cites, Entry(s, indent, title, words, cites))
    ensures BodyWords(Entry(s, indent, title, words, cites)) == words
  {
    var hang, head := Spaces(indent + LABEL), Head(indent, title);
    var rows := Wrapped(s, hang, head, [], words);
    WordsOfHead(s, indent, title);
    WrappedRows(s, hang, head, words);
    CitedKeepsWords(s, hang, rows, Citation(cites));
    CitedRowsOf(s, hang, head, words, rows, cites);
  }

  /** An entry as it is written, for a label and citations of one line each:
      its lines are its rows, each laid out as it should be; the body's words are
      on them in order, and the citation is whole at the end of the last alone. */
  lemma EntryAsWritten(s: Script, indent: nat, title: string, body: string, cites: seq<string>)
    requires s.Valid() && OneLine(title) && OneLineEach(cites)
    ensures var hang, rows := Spaces(indent + LABEL), Entry(s, indent, title, s.Words(body), cites);
            var lines := SplitLines(Render(s, rows));
            && |lines| == |rows| + 1 && lines[|rows|] == ""
            && BodyWords(rows) == s.Words(body)
            && (forall i | 0 <= i < |rows| :: rows[i].head == (if i == 0 then Head(indent, title) else hang))
            && (forall i | 0 <= i < |rows| :: rows[i].cite == (if i == |rows| - 1 then Citation(cites) else ""))
            && (forall i | 0 <= i < |rows| :: LaidOut(s, hang, lines[i], rows[i]))
  {
    hide Entry, Head, Citation, LaidOut, SplitLines, Render, Line, BodyWords;
    var words := s.Words(body);
    WordsAreWords(s, body);
    EntryRows(s, indent, title, words, cites);
    HeadOneLine(indent, title);
    EntryLines(s, Spaces(indent + LABEL), Head(indent, title), Entry(s, indent, title, words, cites), cites);
  }
}
