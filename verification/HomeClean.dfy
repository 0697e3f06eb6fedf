/** What served text may still carry of the operator's home, for one form of it. */
module HomeClean {
  import opened HomeText

  /** At `k` a character a name may start with follows one no name continues with. */
  predicate Breaks(a: Alphabet, home: string, k: nat) {
    0 < k < |home| && a.Continues(home[k]) && !a.Separator(home[k]) && !a.Continues(home[k - 1])
  }

  predicate Seamless(a: Alphabet, home: string) {
    forall k | 0 <= k < |home| :: !Breaks(a, home, k)
  }

  /** `h` stands in `s` after no part of `g` that ends where `g` breaks. */
  ghost predicate Unjoined(a: Alphabet, g: string, h: string, last: string, s: string) {
    forall k: nat | Breaks(a, g, k) :: Clean(a, g[..k] + h, last, s)
  }

  /** Where a name ends in rewritten text, it ended in the text as given. */
  lemma EndsBefore(a: Alphabet, h: string, c: char, s: string)
    requires a.Valid() && Absolute(a, h) && EndsName(a, Named(a, h, [c], s))
    ensures EndsName(a, s)
  {
    if s != [] && !Standing(a, h, [c], s, 0) {
      NamedNotStanding(a, h, [c], s);
      EndsCopied(a, h, s);
    }
  }

  lemma EndsCopied(a: Alphabet, h: string, s: string)
    requires a.Valid() && Absolute(a, h) && s != []
    requires EndsName(a, [s[0]] + Named(a, h, [s[0]], s[1..]))
    ensures EndsName(a, s)
  {
    var tail := Named(a, h, [s[0]], s[1..]);
    assert s == [s[0]] + s[1..];
    if s[0] == '.' && |s| > 1 {
      NotAfterDot(a, h, s[1..]);
      NamedNotStanding(a, h, ['.'], s[1..]);
      assert tail[0] == s[1];
    }
  }

  lemma NotAfterDot(a: Alphabet, h: string, s: string)
    ensures !Standing(a, h, ['.'], s, 0)
  {
    assert ['.'] + s[..0] == ['.'];
  }

  /** `h` stands in `s` after `k` characters of `part`, where `part`, read after `c`, breaks. */
  predicate JoinedAt(a: Alphabet, h: string, c: char, part: string, s: string, k: nat) {
    && Breaks(a, [c] + part, k + 1) && part[..k] <= s
    && Standing(a, h, [([c] + part)[k]], s[k..], 0)
  }

  /** A part of a name, matched in rewritten text after `c`, was matched in the
      text as given and ended there if it ends now, or was put together where it breaks. */
  lemma {:induction false} MatchedThrough(a: Alphabet, h: string, c: char, part: string, s: string)
    requires a.Valid() && Absolute(a, h)
    requires part <= Named(a, h, [c], s) && EndsName(a, Named(a, h, [c], s)[|part|..])
    ensures (part <= s && EndsName(a, s[|part|..])) || exists k: nat :: JoinedAt(a, h, c, part, s, k)
    decreases |part|
  {
    var o := Named(a, h, [c], s);
    if part == [] {
      assert o[0..] == o && s[0..] == s;
      EndsBefore(a, h, c, s);
    } else if Standing(a, h, [c], s, 0) {
      StartsAnew(a, h, [c], s);
      JoinedHere(a, h, c, part, s);
    } else {
      NamedNotStanding(a, h, [c], s);
      var tail := Named(a, h, [s[0]], s[1..]);
      PrefixMore(part, s[0], tail);
      PrefixMore(part, s[0], s[1..]);
      assert s == [s[0]] + s[1..];
      MatchedThrough(a, h, s[0], part[1..], s[1..]);
      if exists k: nat :: JoinedAt(a, h, s[0], part[1..], s[1..], k) {
        var k: nat :| JoinedAt(a, h, s[0], part[1..], s[1..], k);
        JoinedNext(a, h, c, part, s, k);
      }
    }
  }

  lemma JoinedHere(a: Alphabet, h: string, c: char, part: string, s: string)
    requires part != [] && Standing(a, h, [c], s, 0) && a.Continues(part[0]) && !a.Separator(part[0])
    ensures JoinedAt(a, h, c, part, s, 0)
  {
    assert [c] + s[..0] == [c];
    assert ([c] + part)[1] == part[0] && s[0..] == s;
  }

  lemma JoinedNext(a: Alphabet, h: string, c: char, part: string, s: string, k: nat)
    requires part != [] && s != [] && part[0] == s[0] && JoinedAt(a, h, s[0], part[1..], s[1..], k)
    ensures JoinedAt(a, h, c, part, s, k + 1)
  {
    assert [s[0]] + part[1..] == part;
    assert forall i | 0 <= i < |part| :: ([c] + part)[i + 1] == part[i];
    assert part[..k + 1] == [s[0]] + part[1..][..k] && s == [s[0]] + s[1..];
    assert s[k + 1..] == s[1..][k..];
  }

  lemma PrefixMore(part: string, c: char, tail: string)
    requires part != []
    ensures part <= [c] + tail <==> part[0] == c && part[1..] <= tail
    ensures part <= [c] + tail ==> ([c] + tail)[|part|..] == tail[|part[1..]|..] && [c] + part[1..] == part
  {
    assert part == [part[0]] + part[1..];
    if part[0] == c && part[1..] <= tail {
      assert forall i | 0 <= i < |part| :: part[i] == ([c] + tail)[i];
    }
    if part <= [c] + tail {
      assert forall i | 0 <= i < |part| - 1 :: part[1..][i] == ([c] + tail)[i + 1];
    }
  }

  /** A replaced home leaves text that starts as a name does, and never as a home does. */
  lemma StartsAnew(a: Alphabet, h: string, last: string, s: string)
    requires a.Valid() && Absolute(a, h) && Standing(a, h, last, s, 0)
    ensures var o := Named(a, h, last, s);
            o != [] ==> a.Continues(o[0]) && !a.Separator(o[0])
    ensures var (dot, rest) := Replaced(a, s[|h|..]);
            |rest| < |s| && rest == s[|s| - |rest|..] && (dot == "" || dot == ".")
            && Named(a, h, last, s) == dot + Named(a, h, [s[|s| - |rest| - 1]], rest)
            && (var n := Named(a, h, [s[|s| - |rest| - 1]], rest); n == [] || !a.Separator(n[0]))
  {
    NamedStanding(a, h, last, s);
    var (dot, rest) := Replaced(a, s[|h|..]);
    if rest != [] {
      StartsPlain(a, h, rest);
    }
  }

  /** What stands in the last part of a text stands in the whole of it, when
      the part is read with the character before it. */
  lemma StandsInWhole(a: Alphabet, g: string, last: string, s: string, from: nat, at: nat)
    requires g != [] && 0 < from <= |s| && Standing(a, g, [s[from - 1]], s[from..], at)
    ensures Standing(a, g, last, s, from + at)
  {
    OccursLater(g, s, from, from + at);
    assert s[from..][at + |g|..] == s[from + at + |g|..];
    assert at > 0 ==> s[..from + at][from + at - 1] == s[from..][..at][at - 1];
  }

  lemma CleanPart(a: Alphabet, g: string, last: string, s: string, from: nat)
    requires g != [] && 0 < from <= |s| && Clean(a, g, last, s)
    ensures Clean(a, g, [s[from - 1]], s[from..])
  {
    var before, part := [s[from - 1]], s[from..];
    forall i: nat ensures !Standing(a, g, before, part, i) {
      if Standing(a, g, before, part, i) { StandsInWhole(a, g, last, s, from, i); }
    }
  }

  /** The character before matters only to a home at the very start. */
  lemma StandsInPart(a: Alphabet, g: string, last: string, front: string, s: string, at: nat)
    requires g != [] && front != [] && at >= |front| && Standing(a, g, last, front + s, at)
    requires at > |front| || (s != [] && s[0] == g[0])
    ensures Standing(a, g, [front[|front| - 1]], s, at - |front|)
  {
    var o, i := front + s, at - |front|;
    assert o[|front|..] == s;
    OccursLater(g, o, |front|, at);
    assert s[i + |g|..] == o[at + |g|..];
    assert i > 0 ==> o[..at][at - 1] == s[..i][i - 1];
  }

  /** Rewriting `h` keeps text clean of `g`, and makes it clean of `h` itself,
      where no part of `g` leads up to an `h`. */
  lemma {:induction false} NamedClean(a: Alphabet, g: string, h: string, last: string, s: string)
    requires a.Valid() && Absolute(a, g) && Absolute(a, h) && |last| <= 1
    requires (g == h || Clean(a, g, last, s)) && Unjoined(a, g, h, last, s)
    ensures Clean(a, g, last, Named(a, h, last, s))
    decreases |s|, 1
  {
    var o := Named(a, h, last, s);
    forall at: nat ensures !Standing(a, g, last, o, at) {
      if Standing(a, g, last, o, at) {
        if Standing(a, h, last, s, 0) {
          CleanReplaced(a, g, h, last, s, at);
        } else {
          CleanCopied(a, g, h, last, s, at);
        }
        assert false;
      }
    }
  }

  /** What is asked of a text is had by its last part. */
  lemma BothParts(a: Alphabet, g: string, h: string, last: string, s: string, from: nat)
    requires g != [] && h != [] && 0 < from <= |s|
    requires (g == h || Clean(a, g, last, s)) && Unjoined(a, g, h, last, s)
    ensures (g == h || Clean(a, g, [s[from - 1]], s[from..])) && Unjoined(a, g, h, [s[from - 1]], s[from..])
  {
    if g != h {
      CleanPart(a, g, last, s, from);
    }
    forall k: nat | Breaks(a, g, k) ensures Clean(a, g[..k] + h, [s[from - 1]], s[from..]) {
      CleanPart(a, g[..k] + h, last, s, from);
    }
  }

  lemma {:induction false} CleanReplaced(a: Alphabet, g: string, h: string, last: string, s: string, at: nat)
    requires a.Valid() && Absolute(a, g) && Absolute(a, h) && |last| <= 1
    requires (g == h || Clean(a, g, last, s)) && Unjoined(a, g, h, last, s)
    requires Standing(a, h, last, s, 0)
    ensures !Standing(a, g, last, Named(a, h, last, s), at)
    decreases |s|, 0
  {
    var dot, from := GoesOn(a, h, last, s);
    BothParts(a, g, h, last, s, from);
    NamedClean(a, g, h, [s[from - 1]], s[from..]);
    CleanAfterDot(a, g, last, [s[from - 1]], dot, Named(a, h, [s[from - 1]], s[from..]), at);
  }

  /** What a standing home leaves, and where the text is read on. */
  lemma GoesOn(a: Alphabet, h: string, last: string, s: string) returns (dot: string, from: nat)
    requires a.Valid() && Absolute(a, h) && Standing(a, h, last, s, 0)
    ensures 0 < from <= |s| && (dot == "" || dot == ".")
    ensures Named(a, h, last, s) == dot + Named(a, h, [s[from - 1]], s[from..])
    ensures var n := Named(a, h, [s[from - 1]], s[from..]); n == [] || !a.Separator(n[0])
  {
    StartsAnew(a, h, last, s);
    dot := Replaced(a, s[|h|..]).0;
    from := |s| - |Replaced(a, s[|h|..]).1|;
  }

  lemma CleanAfterDot(a: Alphabet, g: string, last: string, last': string, dot: string, n: string, at: nat)
    requires a.Valid() && Absolute(a, g) && Clean(a, g, last', n) && (n == [] || !a.Separator(n[0]))
    requires dot == "" || dot == "."
    ensures !Standing(a, g, last, dot + n, at)
  {
    if Standing(a, g, last, dot + n, at) {
      assert (dot + n)[at..at + |g|][0] == g[0];
      if dot == "" {
        assert dot + n == n;
        StandsAfter(a, g, last, last', n, at);
      } else {
        StandsInPart(a, g, last, dot, n, at);
        StandsAfter(a, g, dot, last', n, at - 1);
      }
      assert false;
    }
  }

  lemma StandsAfter(a: Alphabet, g: string, last: string, last': string, s: string, at: nat)
    requires g != [] && at > 0 && Standing(a, g, last, s, at)
    ensures Standing(a, g, last', s, at)
  {
  }

  lemma HeadMatches(a: Alphabet, g: string, last: string, c: char, n: string)
    requires g != []
    ensures Standing(a, g, last, [c] + n, 0)
       <==> g[0] == c && g[1..] <= n && EndsName(a, n[|g| - 1..]) && Opens(a, last)
  {
    assert last + ([c] + n)[..0] == last;
    if |g| <= 1 + |n| {
      assert ([c] + n)[0..|g|] == [c] + n[..|g| - 1] && ([c] + n)[|g|..] == n[|g| - 1..];
      assert g == [g[0]] + g[1..];
    }
  }

  /** A home at the head of rewritten text whose first character was copied was there before. */
  lemma StoodAtHead(a: Alphabet, g: string, h: string, last: string, c: char, t: string)
    requires a.Valid() && Absolute(a, g) && Absolute(a, h) && Unjoined(a, g, h, last, [c] + t)
    requires Standing(a, g, last, [c] + Named(a, h, [c], t), 0)
    ensures Standing(a, g, last, [c] + t, 0)
  {
    HeadMatches(a, g, last, c, Named(a, h, [c], t));
    assert g == [c] + g[1..];
    MatchedThrough(a, h, c, g[1..], t);
    if exists k: nat :: JoinedAt(a, h, c, g[1..], t, k) {
      var k: nat :| JoinedAt(a, h, c, g[1..], t, k);
      JoinedStands(a, g, h, last, c, t, k);
    }
    HeadMatches(a, g, last, c, t);
  }

  lemma JoinedStands(a: Alphabet, g: string, h: string, last: string, c: char, t: string, k: nat)
    requires g != [] && h != [] && g[0] == c && Opens(a, last) && JoinedAt(a, h, c, g[1..], t, k)
    ensures Breaks(a, g, k + 1) && Standing(a, g[..k + 1] + h, last, [c] + t, 0)
  {
    assert [c] + g[1..] == g;
    var front, found := g[1..][..k], t[k..];
    assert g[..k + 1] + h == [c] + (front + h);
    assert t == front + found && found[0..0 + |h|] == h;
    HeadStands(a, front, h, last, c, found);
  }

  lemma HeadStands(a: Alphabet, front: string, h: string, last: string, c: char, found: string)
    requires |h| <= |found| && found[..|h|] == h && EndsName(a, found[|h|..]) && Opens(a, last)
    ensures Standing(a, [c] + (front + h), last, [c] + (front + found), 0)
  {
    var whole, text := [c] + (front + h), [c] + (front + found);
    assert found == h + found[|h|..];
    assert text == whole + found[|h|..];
    assert text[0..0 + |whole|] == whole && text[|whole|..] == found[|h|..];
    assert last + text[..0] == last;
  }

  lemma {:induction false} CleanCopied(a: Alphabet, g: string, h: string, last: string, s: string, at: nat)
    requires a.Valid() && Absolute(a, g) && Absolute(a, h) && |last| <= 1
    requires (g == h || Clean(a, g, last, s)) && Unjoined(a, g, h, last, s)
    requires !Standing(a, h, last, s, 0)
    ensures !Standing(a, g, last, Named(a, h, last, s), at)
    decreases |s|, 0
  {
    if s != [] {
      var n := Named(a, h, [s[0]], s[1..]);
      assert s == [s[0]] + s[1..];
      if Standing(a, g, last, [s[0]] + n, at) {
        if at == 0 {
          StoodAtHead(a, g, h, last, s[0], s[1..]);
        } else {
          BothParts(a, g, h, last, s, 1);
          NamedClean(a, g, h, [s[0]], s[1..]);
          StandsInTail(a, g, last, s[0], n, at);
        }
        assert false;
      }
    }
  }

  lemma StandsInTail(a: Alphabet, g: string, last: string, c: char, n: string, at: nat)
    requires g != [] && at > 0 && Standing(a, g, last, [c] + n, at)
    ensures Standing(a, g, [c], n, at - 1)
  {
    assert at == 1 ==> n[0] == ([c] + n)[at..at + |g|][0];
    StandsInPart(a, g, last, [c], n, at);
  }

  // ----- What one rewrite may serve -----

  lemma SeamlessIsUnjoined(a: Alphabet, g: string, h: string, last: string, s: string)
    requires Seamless(a, g)
    ensures Unjoined(a, g, h, last, s)
  {
  }

  /** Text in which no home stands is served as it is. */
  lemma {:induction false} CleanIsKept(a: Alphabet, home: string, last: string, s: string)
    requires Absolute(a, home) && Clean(a, home, last, s)
    ensures Named(a, home, last, s) == s
    decreases |s|
  {
    if s != [] {
      assert !Standing(a, home, last, s, 0);
      CleanPart(a, home, last, s, 1);
      CleanIsKept(a, home, [s[0]], s[1..]);
    }
  }

  /** `text` with a home and a separator put in wherever it breaks. */
  function Spread(a: Alphabet, home: string, last: string, text: string): string
    decreases |text|
  {
    if text == [] then []
    else (if Breaks(a, last + [text[0]], |last|) then home + "/" else "") + [text[0]] + Spread(a, home, [text[0]], text[1..])
  }

  lemma SpreadHead(a: Alphabet, home: string, last: string, text: string)
    requires |last| <= 1 && text != []
    ensures var c, tail := text[0], Spread(a, home, [text[0]], text[1..]);
            Spread(a, home, last, text) == (if Breaks(a, last + [c], |last|) then home + ("/" + ([c] + tail)) else [c] + tail)
    ensures Breaks(a, last + [text[0]], |last|) ==>
              |last| == 1 && !a.Continues(last[0]) && a.Continues(text[0]) && !a.Separator(text[0])
  {
    var c, tail := text[0], Spread(a, home, [text[0]], text[1..]);
    assert home + "/" + [c] + tail == home + ("/" + ([c] + tail));
    assert "" + [c] + tail == [c] + tail;
  }

  /** Where `home` first breaks. */
  ghost predicate FirstBreak(a: Alphabet, home: string, k: nat) {
    Breaks(a, home, k) && forall i: nat | i < k :: !Breaks(a, home, i)
  }

  /** A home that breaks was put nowhere in spread text by its own characters. */
  lemma {:induction false} NotInSpread(a: Alphabet, home: string, k: nat, j: nat, rest: string)
    requires Absolute(a, home) && FirstBreak(a, home, k) && j < k
    ensures !(home[j + 1..] <= Spread(a, home, [home[j]], rest))
    decreases |rest|
  {
    var out := Spread(a, home, [home[j]], rest);
    if rest != [] && home[j + 1..] <= out {
      var after := Spread(a, home, [rest[0]], rest[1..]);
      SpreadHead(a, home, [home[j]], rest);
      if Breaks(a, [home[j]] + [rest[0]], 1) {
        NoShift(a, home, k, j + 1, "/" + ([rest[0]] + after));
      } else {
        PrefixMore(home[j + 1..], rest[0], after);
        assert home[j + 1..][1..] == home[j + 2..];
        NotInSpread(a, home, k, j + 1, rest[1..]);
      }
      assert false;
    }
  }

  /** A home does not go on from inside itself before it first breaks. */
  lemma NoShift(a: Alphabet, home: string, k: nat, d: nat, more: string)
    requires Absolute(a, home) && FirstBreak(a, home, k) && 0 < d <= k
    ensures !(home[d..] <= home + more)
  {
    assert !Breaks(a, home, k - d) && !a.Separator(home[k]);
    if home[d..] <= home + more {
      forall i | d <= i < |home| ensures home[i] == home[i - d] {
        assert home[i] == home[d..][i - d] == (home + more)[i - d];
      }
    }
  }

  /** The rewrite by a home that breaks may serve any text: `Spread` gives what to serve it from. */
  lemma {:induction false} SpreadIsNamed(a: Alphabet, home: string, k: nat, last: string, text: string)
    requires a.Valid() && Absolute(a, home) && FirstBreak(a, home, k) && |last| <= 1
    ensures Named(a, home, last, Spread(a, home, last, text)) == text
    decreases |text|
  {
    if text != [] {
      SpreadNext(a, home, k, last, text);
      SpreadIsNamed(a, home, k, [text[0]], text[1..]);
      assert [text[0]] + text[1..] == text;
    }
  }

  lemma SpreadNext(a: Alphabet, home: string, k: nat, last: string, text: string)
    requires a.Valid() && Absolute(a, home) && FirstBreak(a, home, k) && |last| <= 1 && text != []
    ensures Named(a, home, last, Spread(a, home, last, text))
         == [text[0]] + Named(a, home, [text[0]], Spread(a, home, [text[0]], text[1..]))
  {
    var tail := Spread(a, home, [text[0]], text[1..]);
    SpreadHead(a, home, last, text);
    if Breaks(a, last + [text[0]], |last|) {
      SpreadReplaced(a, home, last, text[0], tail);
      SpreadCopies(a, home, k, "/", text[0], text[1..]);
    } else {
      SpreadCopies(a, home, k, last, text[0], text[1..]);
    }
  }

  lemma SpreadCopies(a: Alphabet, home: string, k: nat, last: string, c: char, rest: string)
    requires Absolute(a, home) && FirstBreak(a, home, k)
    ensures var tail := Spread(a, home, [c], rest);
            Named(a, home, last, [c] + tail) == [c] + Named(a, home, [c], tail)
  {
    var tail := Spread(a, home, [c], rest);
    if OccursAt(home, [c] + tail, 0) {
      assert home <= [c] + tail by { assert ([c] + tail)[0..0 + |home|] == home; }
      PrefixMore(home, c, tail);
      NotInSpread(a, home, k, 0, rest);
      assert false;
    }
    NamedNotStanding(a, home, last, [c] + tail);
    assert ([c] + tail)[1..] == tail;
  }

  lemma SpreadReplaced(a: Alphabet, home: string, last: string, c: char, tail: string)
    requires a.Valid() && Absolute(a, home) && |last| == 1 && !a.Continues(last[0])
    requires a.Continues(c) && !a.Separator(c)
    ensures Named(a, home, last, home + ("/" + ([c] + tail))) == Named(a, home, "/", [c] + tail)
  {
    var after := "/" + ([c] + tail);
    var found := home + after;
    assert found[0..0 + |home|] == home && found[|home|..] == after && last + found[..0] == last;
    assert after[1..] == [c] + tail && TrimSeparators(a, [c] + tail) == [c] + tail;
    assert Replaced(a, after) == ("", [c] + tail);
    NamedStanding(a, home, last, found);
    assert found[|found| - |[c] + tail| - 1] == '/';
    assert "" + Named(a, home, "/", [c] + tail) == Named(a, home, "/", [c] + tail);
  }

  lemma {:induction false} LeastBreak(a: Alphabet, home: string, k: nat) returns (first: nat)
    requires Breaks(a, home, k)
    ensures FirstBreak(a, home, first)
  {
    if exists i: nat :: i < k && Breaks(a, home, i) {
      var i: nat :| i < k && Breaks(a, home, i);
      first := LeastBreak(a, home, i);
    } else {
      first := k;
    }
  }

  /** A home that breaks serves any text from some other one. */
  lemma ServedFrom(a: Alphabet, home: string, text: string) returns (from: string)
    requires a.Valid() && Absolute(a, home) && (!Seamless(a, home) || Clean(a, home, [], text))
    ensures Named(a, home, [], from) == text
  {
    if Seamless(a, home) {
      CleanIsKept(a, home, [], text);
      from := text;
    } else {
      var k :| 0 <= k < |home| && Breaks(a, home, k);
      var first := LeastBreak(a, home, k);
      SpreadIsNamed(a, home, first, [], text);
      from := Spread(a, home, [], text);
    }
  }

  /** What the rewrite may serve: any text at all when the home breaks
      somewhere, and exactly the texts in which no home stands when it does not. */
  lemma ServedExactly(a: Alphabet, home: string, text: string)
    requires a.Valid() && Absolute(a, home)
    ensures (exists from: string :: Named(a, home, [], from) == text) <==> !Seamless(a, home) || Clean(a, home, [], text)
  {
    if !Seamless(a, home) || Clean(a, home, [], text) {
      var from := ServedFrom(a, home, text);
    } else {
      forall from: string ensures Named(a, home, [], from) != text {
        SeamlessIsUnjoined(a, home, home, [], from);
        NamedClean(a, home, home, [], from);
      }
    }
  }

  lemma StandsAlone(a: Alphabet, home: string)
    ensures Standing(a, home, [], home, 0)
  {
    assert home[0..0 + |home|] == home && home[|home|..] == [];
  }

  /** No home stands in what is served of `text`. */
  ghost predicate ServedClean(a: Alphabet, home: string, text: string)
    requires home != []
  {
    Clean(a, home, [], Named(a, home, [], text))
  }

  /** The rewrite leaves no home standing in any text exactly when the home is
      seamless; a space followed by a letter is enough to break it. */
  lemma CleanExactlyWhenSeamless(a: Alphabet, home: string)
    requires a.Valid() && Absolute(a, home)
    ensures (forall text: string :: ServedClean(a, home, text)) <==> Seamless(a, home)
  {
    if Seamless(a, home) {
      forall text: string ensures ServedClean(a, home, text) {
        SeamlessIsUnjoined(a, home, home, [], text);
        NamedClean(a, home, home, [], text);
      }
    } else {
      var from := ServedFrom(a, home, home);
      StandsAlone(a, home);
      assert !ServedClean(a, home, from);
    }
  }

  /** The rewrite never lengthens a text, and shortens one in which a home stands. */
  lemma {:induction false} NamedShortens(a: Alphabet, home: string, last: string, s: string)
    requires Absolute(a, home)
    ensures |Named(a, home, last, s)| <= |s|
    ensures !Clean(a, home, last, s) ==> |Named(a, home, last, s)| < |s|
    decreases |s|
  {
    if Standing(a, home, last, s, 0) {
      assert |home| >= 2;
      NamedStanding(a, home, last, s);
      var rest := Replaced(a, s[|home|..]).1;
      NamedShortens(a, home, [s[|s| - |rest| - 1]], rest);
    } else if s != [] {
      NamedNotStanding(a, home, last, s);
      NamedShortens(a, home, [s[0]], s[1..]);
      StandsLater(a, home, last, s);
    }
  }

  lemma StandsLater(a: Alphabet, home: string, last: string, s: string)
    requires home != [] && s != [] && !Standing(a, home, last, s, 0)
    ensures !Clean(a, home, last, s) ==> !Clean(a, home, [s[0]], s[1..])
  {
    if !Clean(a, home, last, s) {
      var at: nat :| Standing(a, home, last, s, at);
      assert [s[0]] + s[1..] == s;
      StandsInTail(a, home, last, s[0], s[1..], at);
    }
  }

  ghost predicate TwiceIsOnce(a: Alphabet, home: string, text: string)
    requires home != []
  {
    Named(a, home, [], Named(a, home, [], text)) == Named(a, home, [], text)
  }

  /** Served text is left as it is when served again just when no home stands in it. */
  lemma NamedTwice(a: Alphabet, home: string, text: string)
    requires Absolute(a, home)
    ensures TwiceIsOnce(a, home, text) <==> ServedClean(a, home, text)
  {
    var once := Named(a, home, [], text);
    NamedShortens(a, home, [], once);
    if ServedClean(a, home, text) {
      CleanIsKept(a, home, [], once);
    }
  }

  /** So it is for every text exactly when the home is seamless. */
  lemma NamedTwiceExactly(a: Alphabet, home: string)
    requires a.Valid() && Absolute(a, home)
    ensures (forall text: string :: TwiceIsOnce(a, home, text)) <==> Seamless(a, home)
  {
    CleanExactlyWhenSeamless(a, home);
    forall text: string ensures TwiceIsOnce(a, home, text) <==> ServedClean(a, home, text) {
      NamedTwice(a, home, text);
    }
  }

  lemma SpacedHome(a: Alphabet)
    requires a.mainSeparator == '/' && !a.alphanumeric(' ') && a.alphanumeric('b')
    ensures Absolute(a, "/a b") && !Seamless(a, "/a b") && Standing(a, "/a b", [], "/a b", 0)
  {
    assert Breaks(a, "/a b", 3);
  }

  lemma SpacedHomeReplaced(a: Alphabet)
    requires a.mainSeparator == '/' && !a.alphanumeric(' ') && a.alphanumeric('b')
    ensures Named(a, "/a b", " ", "/a b/b") == "b"
  {
    SpacedHome(a);
    assert "/a b" + ("/" + (['b'] + "")) == "/a b/b";
    SpreadReplaced(a, "/a b", " ", 'b', "");
    NamedNotStanding(a, "/a b", "/", "b");
    NamedNotStanding(a, "/a b", "b", "");
  }

  lemma Cut(x: string, y: string)
    ensures (x + y)[..|x|] == x && (x + y)[|x|..] == y && (x != [] ==> (x + y)[|x| - 1] == x[|x| - 1])
  {
  }

  lemma SpacedHomeOccurs(i: nat)
    requires i < 3
    ensures !OccursAt("/a b", "/a " + "/a b/b", i)
  {
    var text := "/a " + "/a b/b";
    assert text[3] == '/' && text[1] == 'a' && text[2] == ' ';
    assert text[i..i + 4][3 - i] == text[3] && text[i..i + 4][0] == text[i];
  }

  /** A home of two words: rewriting it inside a longer text puts the same home together again. */
  lemma SpacedHomeIsLeft(a: Alphabet)
    requires a.mainSeparator == '/' && !a.alphanumeric(' ') && a.alphanumeric('b')
    ensures Named(a, "/a b", [], "/a " + "/a b/b") == "/a b" && !Clean(a, "/a b", [], "/a b")
  {
    SpacedHome(a);
    SpacedHomeReplaced(a);
    forall i: nat | i < 3 ensures !OccursAt("/a b", "/a " + "/a b/b", i) {
      SpacedHomeOccurs(i);
    }
    Cut("/a ", "/a b/b");
    NamedCopies(a, "/a b", [], "/a " + "/a b/b", 3);
    assert ["/a "[2]] == " ";
    assert "/a b" == "/a " + "b";
  }
}
