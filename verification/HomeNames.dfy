/** What the rewrite makes of one place in a text, said of the characters there. */
module HomeNames {
  import opened HomeText

  /** A character that a path name goes on with on either side of the home:
      letters, digits, `_`, `-`, the full stop and the separators. */
  predicate Joins(a: Alphabet, c: char) {
    a.alphanumeric(c) || c == '_' || c == '-' || c == '.' || Divides(a, c)
  }

  predicate Divides(a: Alphabet, c: char) {
    c == '/' || c == a.mainSeparator
  }

  /** No longer name ends in what comes next: nothing comes before, or a character no name has. */
  predicate Begins(a: Alphabet, last: string, text: string, at: nat)
    requires at <= |text|
  {
    if at > 0 then !Joins(a, text[at - 1]) else last == "" || !Joins(a, last[|last| - 1])
  }

  /** No longer name goes on at `end`: the text is over, or a separator is
      there, or a character no name has, or a full stop that no name goes on from. */
  predicate Stops(a: Alphabet, text: string, end: nat) {
    || end >= |text|
    || Divides(a, text[end])
    || !Joins(a, text[end])
    || (text[end] == '.' && (end + 1 == |text| || !Joins(a, text[end + 1])))
  }

  lemma JoinsContinues(a: Alphabet, c: char)
    ensures Joins(a, c) == a.Continues(c) && Divides(a, c) == a.Separator(c)
  {
  }

  lemma StopsEndsName(a: Alphabet, text: string, end: nat)
    requires a.Valid() && end <= |text|
    ensures Stops(a, text, end) <==> EndsName(a, text[end..])
  {
    forall i | end <= i < |text| ensures Joins(a, text[i]) == a.Continues(text[i]) && text[i] == text[end..][i - end] {
      JoinsContinues(a, text[i]);
    }
  }

  lemma BeginsOpens(a: Alphabet, last: string, text: string, at: nat)
    requires at <= |text|
    ensures Begins(a, last, text, at) <==> Opens(a, if at == 0 then last else [text[at - 1]])
  {
  }

  /** Where a home stands, said of the characters on both sides of it. */
  lemma StandsWhere(a: Alphabet, home: string, last: string, text: string, at: nat)
    requires a.Valid() && FoundAt(home, text, at)
    ensures Standing(a, home, if at == 0 then last else [text[at - 1]], text[at..], 0)
       <==> Begins(a, last, text, at) && Stops(a, text, at + |home|)
  {
    var prior := if at == 0 then last else [text[at - 1]];
    OccursLater(home, text, at, at);
    StopsEndsName(a, text, at + |home|);
    BeginsOpens(a, last, text, at);
    assert text[at..][|home|..] == text[at + |home|..] && prior + text[at..][..0] == prior;
  }

  /** Separators from `from` up to `to`, and none there. */
  predicate Divided(a: Alphabet, text: string, from: nat, to: nat) {
    && from <= to <= |text|
    && (forall i | from <= i < to :: Divides(a, text[i]))
    && (to < |text| ==> !Divides(a, text[to]))
  }

  /** What is put for a home that ends at `from`: nothing, when separators lead
      from it to a name at `to`, and otherwise a full stop. */
  function Put(a: Alphabet, text: string, from: nat, to: nat): string {
    if from < to < |text| && Joins(a, text[to]) then "" else "."
  }

  lemma TrimmedTo(a: Alphabet, text: string, n: nat)
    requires n <= |text| && (forall i | 0 <= i < n :: a.Separator(text[i])) && (n < |text| ==> !a.Separator(text[n]))
    ensures TrimSeparators(a, text) == text[n..]
  {
  }

  lemma TrimmedAt(a: Alphabet, text: string, from: nat, to: nat)
    requires Divided(a, text, from, to)
    ensures TrimSeparators(a, text[from..]) == text[to..]
  {
    TrimmedTo(a, text[from..], to - from);
    assert text[from..][to - from..] == text[to..];
  }

  lemma ReplacedBy(a: Alphabet, text: string, from: nat, to: nat)
    requires Divided(a, text, from, to)
    ensures Replaced(a, text[from..]) == (Put(a, text, from, to), text[to..])
  {
    TrimmedAt(a, text, from, to);
    hide TrimSeparators;
    assert text[from..] != "" ==> text[from..][0] == text[from];
    assert text[to..] != "" ==> text[to..][0] == text[to];
  }

  lemma Turned(a: Alphabet, home: string, last: string, text: string, at: nat, put: string, to: nat)
    requires Absolute(a, home) && FoundAt(home, text, at) && Divided(a, text, at + |home|, to)
    requires Standing(a, home, if at == 0 then last else [text[at - 1]], text[at..], 0)
    requires Replaced(a, text[at + |home|..]) == (put, text[to..])
    ensures Named(a, home, last, text) == text[..at] + put + Named(a, home, [text[to - 1]], text[to..])
  {
    NamedReplaces(a, home, last, text, at);
  }

  /** A home that stands, with the separators after it, is left out of the text:
      a full stop is put for it, unless a name is under it. What follows is read
      on after those separators. `last` is what came before the text. */
  lemma HomeServed(a: Alphabet, home: string, last: string, text: string, at: nat, to: nat)
    requires a.Valid() && Absolute(a, home) && FoundAt(home, text, at) && Divided(a, text, at + |home|, to)
    requires Begins(a, last, text, at) && Stops(a, text, at + |home|)
    ensures Named(a, home, last, text)
         == text[..at] + Put(a, text, at + |home|, to) + Named(a, home, [text[to - 1]], text[to..])
  {
    hide *;
    StandsWhere(a, home, last, text, at);
    ReplacedBy(a, text, at + |home|, to);
    Turned(a, home, last, text, at, Put(a, text, at + |home|, to), to);
  }

  /** A home that a longer name ends in or goes on from is kept, and what
      follows its first character is read on after it. */
  lemma LongerNameIsLeft(a: Alphabet, home: string, last: string, text: string, at: nat)
    requires a.Valid() && Absolute(a, home) && FoundAt(home, text, at)
    requires !Begins(a, last, text, at) || !Stops(a, text, at + |home|)
    ensures Named(a, home, last, text) == text[..at + 1] + Named(a, home, [text[at]], text[at + 1..])
  {
    StandsWhere(a, home, last, text, at);
    NamedSkips(a, home, last, text, at);
  }

  /** Text the home is nowhere in is served as it is. */
  lemma ElsewhereIsKept(a: Alphabet, home: string, last: string, text: string)
    requires home != "" && forall i: nat :: !OccursAt(home, text, i)
    ensures Named(a, home, last, text) == text
  {
    NamedCopies(a, home, last, text, |text|);
  }
}
