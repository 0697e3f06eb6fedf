/** The rewrite that names the operator's home relative to itself in served text. */
module HomeText {

  /** What the rewrite asks of the platform: its main path separator, and
      which characters are alphanumeric. */
  datatype Alphabet = Alphabet(mainSeparator: char, alphanumeric: char -> bool) {
    predicate Separator(c: char) {
      c == '/' || c == mainSeparator
    }

    predicate Continues(c: char) {
      alphanumeric(c) || c == '_' || c == '-' || c == '.' || Separator(c)
    }

    predicate Valid() {
      mainSeparator != '.'
    }
  }

  /** Whether a name that ends where `after` begins ends there. A full stop
      before a space or the end is punctuation; before a name it is not. */
  predicate EndsName(a: Alphabet, after: string) {
    if after == [] then true
    else if after[0] == '.' then |after| == 1 || !a.Continues(after[1])
    else a.Separator(after[0]) || !a.Continues(after[0])
  }

  /** Nothing, or a character no name continues with, comes before. */
  predicate Opens(a: Alphabet, before: seq<char>) {
    before == [] || !a.Continues(before[|before| - 1])
  }

  predicate OccursAt(home: string, text: string, at: nat) {
    at + |home| <= |text| && text[at..at + |home|] == home
  }

  /** `text` carries `home` at `at`, standing as a path there. `before` is
      what precedes `text`. */
  predicate Standing(a: Alphabet, home: string, before: string, text: string, at: nat) {
    && OccursAt(home, text, at)
    && Opens(a, before + text[..at])
    && EndsName(a, text[at + |home|..])
  }

  ghost predicate Clean(a: Alphabet, home: string, before: string, text: string) {
    forall at: nat :: !Standing(a, home, before, text, at)
  }

  /** The guarantees of a trimmed absolute home. */
  predicate Absolute(a: Alphabet, home: string) {
    && home != [] && a.Separator(home[0]) && !a.Separator(home[|home| - 1])
  }

  function TrimSeparators(a: Alphabet, text: string): (r: string)
    ensures |r| <= |text| && r == text[|text| - |r|..]
    ensures forall i | 0 <= i < |text| - |r| :: a.Separator(text[i])
    ensures r != [] ==> !a.Separator(r[0])
  {
    if text != [] && a.Separator(text[0]) then TrimSeparators(a, text[1..]) else text
  }

  /** What a standing home followed by `after` leaves: the text put in its
      place, and where reading goes on. */
  function Replaced(a: Alphabet, after: string): (r: (string, string))
    ensures |r.1| <= |after| && r.1 == after[|after| - |r.1|..]
  {
    if after != [] && a.Separator(after[0]) then
      var under := TrimSeparators(a, after);
      (if under == [] || !a.Continues(under[0]) then "." else "", under)
    else (".", after)
  }

  /** The reference form: one pass that replaces every home standing in the
      text as given. `last` is the character before `text`, if any. */
  function Named(a: Alphabet, home: string, last: string, text: string): string
    requires home != []
    decreases |text|
  {
    if text == [] then []
    else if Standing(a, home, last, text, 0) then
      var after := text[|home|..];
      var (dot, rest) := Replaced(a, after);
      dot + Named(a, home, [text[|text| - |rest| - 1]], rest)
    else [text[0]] + Named(a, home, [text[0]], text[1..])
  }

  lemma OccursLater(home: string, text: string, from: nat, at: nat)
    requires from <= at && from <= |text|
    ensures OccursAt(home, text, at) == OccursAt(home, text[from..], at - from)
  {
    if at + |home| <= |text| {
      assert text[at..at + |home|] == text[from..][at - from..at - from + |home|];
    }
  }

  /** Where `home` first occurs in `text`. */
  function Find(home: string, text: string): (r: int)
    requires home != []
    ensures r == -1 || (0 <= r && OccursAt(home, text, r))
    ensures forall i: nat | r == -1 || i < r :: !OccursAt(home, text, i)
  {
    if |text| < |home| then -1
    else if OccursAt(home, text, 0) then 0
    else
      var later := Find(home, text[1..]);
      assert forall i: nat | 1 <= i :: OccursAt(home, text, i) == OccursAt(home, text[1..], i - 1) by {
        forall i: nat | 1 <= i ensures OccursAt(home, text, i) == OccursAt(home, text[1..], i - 1) {
          OccursLater(home, text, 1, i);
        }
      }
      if later == -1 then -1 else later + 1
  }

  lemma Associate(x: string, y: string, z: string)
    ensures x + (y + z) == x + y + z
  {
  }

  lemma NamedCopiesOne(a: Alphabet, home: string, last: string, text: string)
    requires home != [] && text != [] && !OccursAt(home, text, 0)
    ensures Named(a, home, last, text) == [text[0]] + Named(a, home, [text[0]], text[1..])
  {
  }

  lemma TakeOneMore(text: string, n: nat)
    requires 0 < n <= |text|
    ensures text[..n] == [text[0]] + text[1..][..n - 1] && text[n..] == text[1..][n - 1..]
    ensures n > 1 ==> text[1..][n - 2] == text[n - 1]
  {
  }

  /** `home` first occurs at `at`. */
  ghost predicate FoundAt(home: string, text: string, at: nat) {
    OccursAt(home, text, at) && forall i: nat | i < at :: !OccursAt(home, text, i)
  }

  /** Text before any occurrence is copied. */
  lemma {:induction false} NamedCopies(a: Alphabet, home: string, last: string, text: string, n: nat)
    requires home != [] && n <= |text|
    requires forall i: nat | i < n :: !OccursAt(home, text, i)
    ensures Named(a, home, last, text)
         == text[..n] + Named(a, home, if n == 0 then last else [text[n - 1]], text[n..])
    decreases n
  {
    if n == 0 {
      assert text[0..] == text;
    } else {
      var rest := text[1..];
      forall i: nat | i < n - 1 ensures !OccursAt(home, rest, i) {
        OccursLater(home, text, 1, i + 1);
      }
      NamedCopiesOne(a, home, last, text);
      NamedCopies(a, home, [text[0]], rest, n - 1);
      TakeOneMore(text, n);
      Associate([text[0]], rest[..n - 1], Named(a, home, [text[n - 1]], text[n..]));
    }
  }

  /** A home cannot begin again one character into itself. */
  lemma NoOverlapByOne(a: Alphabet, home: string, text: string, at: nat)
    requires Absolute(a, home) && OccursAt(home, text, at)
    ensures !OccursAt(home, text, at + 1)
  {
    if OccursAt(home, text, at + 1) {
      forall i | 0 < i < |home| ensures home[i] == home[i - 1] {
        assert home[i] == text[at..at + |home|][i] == text[at + 1..at + 1 + |home|][i - 1];
      }
      AllSame(home, |home| - 1);
      assert false;
    }
  }

  lemma {:induction false} AllSame(home: string, n: nat)
    requires n < |home| && forall i | 0 < i < |home| :: home[i] == home[i - 1]
    ensures home[n] == home[0]
  {
    if n > 0 {
      AllSame(home, n - 1);
    }
  }

  lemma OneMore(text: string, at: nat)
    requires at < |text|
    ensures text[at..][0] == text[at] && text[at..][1..] == text[at + 1..] && text[..at + 1] == text[..at] + [text[at]]
  {
  }

  lemma NamedNotStanding(a: Alphabet, home: string, last: string, text: string)
    requires home != [] && !Standing(a, home, last, text, 0)
    ensures text == [] ==> Named(a, home, last, text) == []
    ensures text != [] ==> Named(a, home, last, text) == [text[0]] + Named(a, home, [text[0]], text[1..])
  {
  }

  /** One turn of the scan over a home that does not stand. */
  lemma NamedSkips(a: Alphabet, home: string, last: string, rest: string, at: nat)
    requires Absolute(a, home) && FoundAt(home, rest, at)
    requires var prior := if at == 0 then last else [rest[at - 1]];
             !Standing(a, home, prior, rest[at..], 0)
    ensures Named(a, home, last, rest) == rest[..at + 1] + Named(a, home, [rest[at]], rest[at + 1..])
    ensures !OccursAt(home, rest[at + 1..], 0)
  {
    NoOverlapByOne(a, home, rest, at);
    OccursLater(home, rest, at + 1, at + 1);
    NamedCopies(a, home, last, rest, at);
    NamedNotStanding(a, home, if at == 0 then last else [rest[at - 1]], rest[at..]);
    OneMore(rest, at);
    Joined(rest[..at], Named(a, home, if at == 0 then last else [rest[at - 1]], rest[at..]),
           [rest[at]], Named(a, home, [rest[at]], rest[at + 1..]));
  }

  lemma SuffixOfSuffix(text: string, from: nat, n: nat)
    requires from + n <= |text|
    ensures text[from..][|text[from..]| - n..] == text[|text| - n..]
  {
  }

  lemma NamedStanding(a: Alphabet, home: string, last: string, text: string)
    requires Absolute(a, home) && Standing(a, home, last, text, 0)
    ensures var (dot, rest) := Replaced(a, text[|home|..]);
            && |rest| < |text| && rest == text[|text| - |rest|..]
            && Named(a, home, last, text) == dot + Named(a, home, [text[|text| - |rest| - 1]], rest)
            && (rest == [] || !a.Separator(rest[0]))
  {
    var after := text[|home|..];
    var (dot, rest) := Replaced(a, after);
    SuffixOfSuffix(text, |home|, |rest|);
  }

  /** One turn of the scan over a home that stands. */
  lemma NamedReplaces(a: Alphabet, home: string, last: string, rest: string, at: nat)
    requires Absolute(a, home) && FoundAt(home, rest, at)
    requires var prior := if at == 0 then last else [rest[at - 1]];
             Standing(a, home, prior, rest[at..], 0)
    ensures var (dot, left) := Replaced(a, rest[at + |home|..]);
            && |left| < |rest|
            && Named(a, home, last, rest)
               == rest[..at] + dot + Named(a, home, [rest[|rest| - |left| - 1]], left)
            && !OccursAt(home, left, 0)
  {
    var prior, found := if at == 0 then last else [rest[at - 1]], rest[at..];
    var (dot, left) := Replaced(a, rest[at + |home|..]);
    assert found[|home|..] == rest[at + |home|..];
    NamedCopies(a, home, last, rest, at);
    NamedStanding(a, home, prior, found);
    assert |left| < |found|;
    SameCharacter(rest, at, |left|);
    StartsPlain(a, home, left);
    Joined(rest[..at], Named(a, home, prior, found), dot, Named(a, home, [rest[|rest| - |left| - 1]], left));
  }

  lemma SameCharacter(rest: string, at: nat, left: nat)
    requires at + left < |rest|
    ensures rest[at..][|rest[at..]| - left - 1] == rest[|rest| - left - 1]
  {
  }

  lemma Joined(x: string, y: string, dot: string, tail: string)
    requires y == dot + tail
    ensures x + y == x + dot + tail
  {
  }

  lemma StartsPlain(a: Alphabet, home: string, text: string)
    requires Absolute(a, home) && (text == [] || !a.Separator(text[0]))
    ensures !OccursAt(home, text, 0)
  {
  }

  /** Whether the home found at `at` stands, by the tests the scan makes on what is left. */
  lemma FoundStands(a: Alphabet, home: string, last: string, rest: string, at: nat)
    requires Absolute(a, home) && OccursAt(home, rest, at)
    requires at == 0 ==> last == []
    ensures Standing(a, home, if at == 0 then last else [rest[at - 1]], rest[at..], 0)
       <==> !(at > 0 && a.Continues(rest[at - 1])) && EndsName(a, rest[at + |home|..])
  {
    OccursLater(home, rest, at, at);
    assert rest[at..][|home|..] == rest[at + |home|..];
    var prior := if at == 0 then last else [rest[at - 1]];
    assert prior + rest[at..][..0] == prior;
  }

  /** What the scan keeps: what is put out, and the rest named after `last`, is the whole text named. */
  ghost predicate Scanned(a: Alphabet, home: string, out: string, last: string, rest: string, whole: string)
    requires home != []
  {
    out + Named(a, home, last, rest) == whole && (last == [] || !OccursAt(home, rest, 0))
  }

  lemma ScannedSkips(a: Alphabet, home: string, out: string, last: string, rest: string, whole: string, at: nat)
    requires Absolute(a, home) && FoundAt(home, rest, at) && Scanned(a, home, out, last, rest, whole)
    requires (at > 0 && a.Continues(rest[at - 1])) || !EndsName(a, rest[at + |home|..])
    ensures Scanned(a, home, out + rest[..at + 1], [rest[at]], rest[at + 1..], whole)
  {
    FoundStands(a, home, last, rest, at);
    NamedSkips(a, home, last, rest, at);
    Associate(out, rest[..at + 1], Named(a, home, [rest[at]], rest[at + 1..]));
  }

  lemma ScannedReplaces(a: Alphabet, home: string, out: string, last: string, rest: string, whole: string, at: nat)
    requires Absolute(a, home) && FoundAt(home, rest, at) && Scanned(a, home, out, last, rest, whole)
    requires !(at > 0 && a.Continues(rest[at - 1])) && EndsName(a, rest[at + |home|..])
    ensures var (dot, left) := Replaced(a, rest[at + |home|..]);
            |left| < |rest| && Scanned(a, home, out + rest[..at] + dot, [rest[|rest| - |left| - 1]], left, whole)
  {
    FoundStands(a, home, last, rest, at);
    NamedReplaces(a, home, last, rest, at);
    var (dot, left) := Replaced(a, rest[at + |home|..]);
    Associate(out, rest[..at] + dot, Named(a, home, [rest[|rest| - |left| - 1]], left));
    Associate(out, rest[..at], dot);
  }

  /** The scan that serves every answer. The home is looked for in what is
      left of the text, and the character before it in what is left alone. */
  method RelativeTo(a: Alphabet, text: string, home: string) returns (out: string)
    requires Absolute(a, home)
    ensures out == Named(a, home, [], text)
  {
    out := [];
    var rest := text;
    ghost var last: string := [];
    var at := Find(home, rest);
    while at != -1
      invariant at == Find(home, rest)
      invariant Scanned(a, home, out, last, rest, Named(a, home, [], text))
      decreases |rest|
    {
      var after := rest[at + |home|..];
      var endsName :=
        if after == [] then true
        else if after[0] == '.' then |after| == 1 || !a.Continues(after[1])
        else a.Separator(after[0]) || !a.Continues(after[0]);
      if (at > 0 && a.Continues(rest[at - 1])) || !endsName {
        ScannedSkips(a, home, out, last, rest, Named(a, home, [], text), at);
        out := out + rest[..at + 1];
        last := [rest[at]];
        rest := rest[at + 1..];
      } else {
        ScannedReplaces(a, home, out, last, rest, Named(a, home, [], text), at);
        var dot, left := ".", after;
        if after != [] && a.Separator(after[0]) {
          left := TrimSeparators(a, after);
          if left != [] && a.Continues(left[0]) {
            dot := "";
          }
        }
        last := [rest[|rest| - |left| - 1]];
        out := out + rest[..at] + dot;
        rest := left;
      }
      at := Find(home, rest);
    }
    NamedCopies(a, home, last, rest, |rest|);
    out := out + rest;
  }
}
