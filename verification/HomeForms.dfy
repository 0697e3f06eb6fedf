/** Every form of the home, rewritten one after another. */
module HomeForms {
  import opened HomeText
  import opened HomeClean

  /** The forms applied one after another, as given. */
  function Text(a: Alphabet, forms: seq<string>, text: string): string
    requires forall i | 0 <= i < |forms| :: forms[i] != []
  {
    if forms == [] then text else Text(a, forms[1..], Named(a, forms[0], [], text))
  }

  predicate AllAbsolute(a: Alphabet, forms: seq<string>) {
    forall i | 0 <= i < |forms| :: Absolute(a, forms[i])
  }

  // ----- One form standing within another -----

  /** `g` stands within `x` when a separator follows `x`, and so wherever `x` stands. */
  predicate StandsIn(a: Alphabet, g: string, x: string) {
    exists d | 0 <= d < |x| :: Standing(a, g, [], x + "/", d)
  }

  lemma OccursChars(home: string, text: string, at: nat)
    requires OccursAt(home, text, at)
    ensures forall i | 0 <= i < |home| :: text[at + i] == home[i]
  {
    forall i | 0 <= i < |home| ensures text[at + i] == home[i] {
      assert text[at + i] == text[at..at + |home|][i];
    }
  }

  lemma EndsEither(a: Alphabet, tail: string, after: string)
    requires a.Valid() && EndsName(a, tail + "/") && EndsName(a, after)
    ensures EndsName(a, tail + after)
  {
    if tail == [] {
      assert tail + after == after;
    } else {
      assert (tail + "/")[0] == tail[0] == (tail + after)[0];
      assert |tail| == 1 ==> (tail + "/")[1] == '/';
      assert |tail| > 1 ==> (tail + "/")[1] == tail[1] == (tail + after)[1];
    }
  }

  /** `g` is at `d` in `x` whatever follows it, and `rest` comes after it there. */
  lemma PartedBy(g: string, x: string, more: string, d: nat, rest: string)
    requires d + |g| <= |x| && rest == x[d + |g|..]
    ensures OccursAt(g, x + more, d) <==> OccursAt(g, x, d)
    ensures (x + more)[d + |g|..] == rest + more
  {
    assert (x + more)[d..d + |g|] == x[d..d + |g|];
  }

  lemma PartOccurs(g: string, x: string, y: string, at: nat, d: nat, to: nat, rest: string)
    requires OccursAt(x, y, at) && OccursAt(g, x, d) && to == at + d && rest == x[d + |g|..]
    ensures OccursAt(g, y, to) && y[to + |g|..] == rest + y[at + |x|..]
  {
    var tail := y[at..];
    assert tail == x + y[at + |x|..] by { assert tail[..|x|] == y[at..at + |x|]; }
    PartedBy(g, x, y[at + |x|..], d, rest);
    OccursLater(g, y, at, to);
    assert tail[d + |g|..] == y[to + |g|..];
  }

  lemma OpensAt(a: Alphabet, last: string, y: string, at: nat)
    requires 0 < at <= |y|
    ensures Opens(a, last + y[..at]) <==> !a.Continues(y[at - 1])
  {
    assert (last + y[..at])[|last| + at - 1] == y[at - 1];
  }

  lemma EndsInside(a: Alphabet, g: string, x: string, d: nat)
    requires Absolute(a, g) && OccursAt(g, x + "/", d)
    ensures d + |g| <= |x|
  {
    assert (x + "/")[d + |g| - 1] == (x + "/")[d..d + |g|][|g| - 1];
  }

  lemma StandsWithIt(a: Alphabet, g: string, x: string, d: nat, last: string, y: string, at: nat)
    requires a.Valid() && Absolute(a, g) && x != [] && Standing(a, g, [], x + "/", d) && Standing(a, x, last, y, at)
    ensures Standing(a, g, last, y, at + d)
  {
    EndsInside(a, g, x, d);
    var rest, after, to := x[d + |g|..], y[at + |x|..], at + d;
    PartedBy(g, x, "/", d, rest);
    PartOccurs(g, x, y, at, d, to, rest);
    EndsEither(a, rest, after);
    OpensWithin(a, x, d, last, y, at, to);
  }

  lemma OpensWithin(a: Alphabet, x: string, d: nat, last: string, y: string, at: nat, to: nat)
    requires OccursAt(x, y, at) && d < |x| && to == at + d
    requires Opens(a, last + y[..at]) && Opens(a, [] + (x + "/")[..d])
    ensures Opens(a, last + y[..to])
  {
    if d > 0 {
      OpensAt(a, [], x + "/", d);
      OpensAt(a, last, y, to);
      assert (x + "/")[d - 1] == x[d - 1] == y[at..at + |x|][d - 1] == y[to - 1];
    }
  }

  // ----- Any number of forms -----

  /** A seamless form stays out whatever is rewritten after it. */
  lemma {:induction false} TextKeepsClean(a: Alphabet, g: string, forms: seq<string>, text: string)
    requires a.Valid() && AllAbsolute(a, forms) && Absolute(a, g) && Seamless(a, g) && Clean(a, g, [], text)
    ensures Clean(a, g, [], Text(a, forms, text))
  {
    if forms != [] {
      SeamlessIsUnjoined(a, g, forms[0], [], text);
      NamedClean(a, g, forms[0], [], text);
      TextKeepsClean(a, g, forms[1..], Named(a, forms[0], [], text));
    }
  }

  lemma {:induction false} TextIsClean(a: Alphabet, forms: seq<string>, i: nat, text: string)
    requires a.Valid() && AllAbsolute(a, forms) && i < |forms| && Seamless(a, forms[i])
    ensures Clean(a, forms[i], [], Text(a, forms, text))
  {
    var next := Named(a, forms[0], [], text);
    if i == 0 {
      SeamlessIsUnjoined(a, forms[0], forms[0], [], text);
      NamedClean(a, forms[0], forms[0], [], text);
      TextKeepsClean(a, forms[0], forms[1..], next);
    } else {
      TextIsClean(a, forms[1..], i - 1, next);
    }
  }

  /** Where the form breaks, a seamless form rewritten before it stands in all
      that could join there: what leads up to the break, and any form still to come. */
  predicate GuardedAmong(a: Alphabet, forms: seq<string>, i: nat)
    requires i < |forms|
  {
    forall k, m | 0 <= k < |forms[i]| && Breaks(a, forms[i], k) && i <= m < |forms| ::
      exists j | 0 <= j < i :: Seamless(a, forms[j]) && StandsIn(a, forms[j], forms[i][..k] + forms[m])
  }

  /** The form breaks nowhere, or one that breaks nowhere stands wherever it
      stands, or in every text it would be put together from. */
  predicate KeptOut(a: Alphabet, forms: seq<string>, i: nat)
    requires i < |forms|
  {
    || Seamless(a, forms[i])
    || (exists j | 0 <= j < |forms| :: Seamless(a, forms[j]) && StandsIn(a, forms[j], forms[i]))
    || GuardedAmong(a, forms, i)
  }

  lemma CleanOfLonger(a: Alphabet, g: string, x: string, text: string)
    requires a.Valid() && Absolute(a, g) && StandsIn(a, g, x) && Clean(a, g, [], text)
    ensures Clean(a, x, [], text)
  {
    var d :| 0 <= d < |x| && Standing(a, g, [], x + "/", d);
    forall at: nat ensures !Standing(a, x, [], text, at) {
      if Standing(a, x, [], text, at) {
        StandsWithIt(a, g, x, d, [], text, at);
      }
    }
  }

  lemma {:induction false} TextOn(a: Alphabet, forms: seq<string>, i: nat, text: string)
    requires AllAbsolute(a, forms) && i <= |forms|
    ensures Text(a, forms, text) == Text(a, forms[i..], Text(a, forms[..i], text))
  {
    if i == 0 {
      assert forms[0..] == forms;
    } else {
      assert forms[1..][i - 1..] == forms[i..] && forms[..i][1..] == forms[1..][..i - 1];
      TextOn(a, forms[1..], i - 1, Named(a, forms[0], [], text));
    }
  }

  /** Each seamless one of `guards` stands nowhere in the text. */
  ghost predicate SeamlessOut(a: Alphabet, guards: seq<string>, text: string) {
    forall j | 0 <= j < |guards| && Seamless(a, guards[j]) :: Clean(a, guards[j], [], text)
  }

  /** Where `g` breaks, one of `guards` stands in all that could join there. */
  predicate GuardedBy(a: Alphabet, guards: seq<string>, g: string, forms: seq<string>) {
    forall k, m | 0 <= k < |g| && Breaks(a, g, k) && 0 <= m < |forms| ::
      exists j | 0 <= j < |guards| :: Seamless(a, guards[j]) && StandsIn(a, guards[j], g[..k] + forms[m])
  }

  lemma GuardedIsUnjoined(a: Alphabet, guards: seq<string>, g: string, forms: seq<string>, text: string)
    requires a.Valid() && AllAbsolute(a, guards) && forms != []
    requires GuardedBy(a, guards, g, forms) && SeamlessOut(a, guards, text)
    ensures Unjoined(a, g, forms[0], [], text)
  {
    forall k: nat | Breaks(a, g, k) ensures Clean(a, g[..k] + forms[0], [], text) {
      var j :| 0 <= j < |guards| && Seamless(a, guards[j]) && StandsIn(a, guards[j], g[..k] + forms[0]);
      CleanOfLonger(a, guards[j], g[..k] + forms[0], text);
    }
  }

  lemma GuardsStayOut(a: Alphabet, guards: seq<string>, h: string, text: string)
    requires a.Valid() && AllAbsolute(a, guards) && Absolute(a, h) && SeamlessOut(a, guards, text)
    ensures SeamlessOut(a, guards, Named(a, h, [], text))
  {
    forall j | 0 <= j < |guards| && Seamless(a, guards[j]) ensures Clean(a, guards[j], [], Named(a, h, [], text)) {
      SeamlessIsUnjoined(a, guards[j], h, [], text);
      NamedClean(a, guards[j], h, [], text);
    }
  }

  lemma {:induction false} GuardedStaysOut(a: Alphabet, guards: seq<string>, g: string, forms: seq<string>, text: string)
    requires a.Valid() && AllAbsolute(a, guards) && AllAbsolute(a, forms) && Absolute(a, g)
    requires GuardedBy(a, guards, g, forms) && SeamlessOut(a, guards, text)
    requires Clean(a, g, [], text) || (forms != [] && forms[0] == g)
    ensures Clean(a, g, [], Text(a, forms, text))
    decreases |forms|
  {
    if forms != [] {
      GuardedIsUnjoined(a, guards, g, forms, text);
      NamedClean(a, g, forms[0], [], text);
      GuardsStayOut(a, guards, forms[0], text);
      assert forall m | 0 <= m < |forms[1..]| :: forms[1..][m] == forms[m + 1];
      GuardedStaysOut(a, guards, g, forms[1..], Named(a, forms[0], [], text));
    }
  }

  lemma GuardedIsClean(a: Alphabet, forms: seq<string>, i: nat, text: string)
    requires a.Valid() && AllAbsolute(a, forms) && i < |forms| && GuardedAmong(a, forms, i)
    ensures Clean(a, forms[i], [], Text(a, forms, text))
  {
    var guards, later := forms[..i], forms[i..];
    TextOn(a, forms, i, text);
    forall j | 0 <= j < |guards| && Seamless(a, guards[j]) ensures Clean(a, guards[j], [], Text(a, guards, text)) {
      TextIsClean(a, guards, j, text);
    }
    assert GuardedBy(a, guards, forms[i], later) by { GuardedParts(a, forms, i); }
    GuardedStaysOut(a, guards, forms[i], later, Text(a, guards, text));
  }

  lemma GuardedParts(a: Alphabet, forms: seq<string>, i: nat)
    requires i < |forms| && GuardedAmong(a, forms, i)
    ensures GuardedBy(a, forms[..i], forms[i], forms[i..])
  {
    var g, guards, later := forms[i], forms[..i], forms[i..];
    forall k, m | 0 <= k < |g| && Breaks(a, g, k) && 0 <= m < |later|
      ensures exists j | 0 <= j < |guards| :: Seamless(a, guards[j]) && StandsIn(a, guards[j], g[..k] + later[m])
    {
      var j :| 0 <= j < i && Seamless(a, forms[j]) && StandsIn(a, forms[j], g[..k] + forms[i + m]);
      assert guards[j] == forms[j] && later[m] == forms[i + m];
    }
  }

  /** A form kept out stands in no text as served, whatever the other forms are. */
  lemma FormIsClean(a: Alphabet, forms: seq<string>, i: nat, text: string)
    requires a.Valid() && AllAbsolute(a, forms) && i < |forms| && KeptOut(a, forms, i)
    ensures Clean(a, forms[i], [], Text(a, forms, text))
  {
    if Seamless(a, forms[i]) {
      TextIsClean(a, forms, i, text);
    } else if GuardedAmong(a, forms, i) {
      GuardedIsClean(a, forms, i, text);
    } else {
      var j :| 0 <= j < |forms| && Seamless(a, forms[j]) && StandsIn(a, forms[j], forms[i]);
      TextIsClean(a, forms, j, text);
      CleanOfLonger(a, forms[j], forms[i], Text(a, forms, text));
    }
  }

  ghost predicate AllClean(a: Alphabet, forms: seq<string>, text: string) {
    forall i | 0 <= i < |forms| :: Clean(a, forms[i], [], text)
  }

  lemma {:induction false} TextKept(a: Alphabet, forms: seq<string>, text: string)
    requires AllAbsolute(a, forms) && AllClean(a, forms, text)
    ensures Text(a, forms, text) == text
  {
    if forms != [] {
      assert AllClean(a, forms[1..], text) by { assert forall i | 0 <= i < |forms| - 1 :: forms[1..][i] == forms[i + 1]; }
      CleanIsKept(a, forms[0], [], text);
      TextKept(a, forms[1..], text);
    }
  }

  /** The fold never lengthens a text, and shortens one in which a form stands. */
  lemma {:induction false} TextShortens(a: Alphabet, forms: seq<string>, text: string)
    requires AllAbsolute(a, forms)
    ensures |Text(a, forms, text)| <= |text|
    ensures !AllClean(a, forms, text) ==> |Text(a, forms, text)| < |text|
  {
    if forms != [] {
      NamedShortens(a, forms[0], [], text);
      TextShortens(a, forms[1..], Named(a, forms[0], [], text));
      if Clean(a, forms[0], [], text) {
        CleanIsKept(a, forms[0], [], text);
        assert AllClean(a, forms[1..], text) ==> AllClean(a, forms, text) by {
          assert forall i | 0 < i < |forms| :: forms[i] == forms[1..][i - 1];
        }
      }
    }
  }

  /** A text served again is as it was just when no form stands in it. */
  lemma TextTwice(a: Alphabet, forms: seq<string>, text: string)
    requires AllAbsolute(a, forms)
    ensures Text(a, forms, Text(a, forms, text)) == Text(a, forms, text) <==> AllClean(a, forms, Text(a, forms, text))
  {
    var once := Text(a, forms, text);
    TextShortens(a, forms, once);
    if AllClean(a, forms, once) {
      TextKept(a, forms, once);
    }
  }

  // ----- The two forms of a home -----

  /** Text served of two forms, the first rewritten first. */
  function Both(a: Alphabet, f: string, g: string, text: string): (r: string)
    requires f != [] && g != []
    ensures r == Text(a, [f, g], text)
  {
    var between := Named(a, f, [], text);
    assert [f, g][1..] == [g] && Text(a, [g], between) == Text(a, [g][1..], Named(a, [g][0], [], between));
    Named(a, g, [], between)
  }

  lemma StandsEnded(a: Alphabet, home: string)
    requires home != []
    ensures Standing(a, home, [], home + "/", 0)
  {
    assert (home + "/")[0..0 + |home|] == home && (home + "/")[|home|..] == "/";
  }

  /** A form that stands nowhere within `x` leaves it as it is, a separator after it. */
  lemma NotInIsClean(a: Alphabet, g: string, x: string)
    requires Absolute(a, g) && !StandsIn(a, g, x)
    ensures Clean(a, g, [], x + "/")
  {
    forall d: nat ensures !Standing(a, g, [], x + "/", d) {
      if d >= |x| && Standing(a, g, [], x + "/", d) {
        OccursChars(g, x + "/", d);
      }
    }
  }

  /** The form rewritten first: it stays out of every text exactly when it is
      seamless, or the second is and stands wherever the first does. */
  lemma FirstFormExactly(a: Alphabet, f: string, g: string)
    requires a.Valid() && Absolute(a, f) && Absolute(a, g)
    ensures (forall text: string :: Clean(a, f, [], Both(a, f, g, text)))
       <==> Seamless(a, f) || (Seamless(a, g) && StandsIn(a, g, f))
  {
    if Seamless(a, f) || (Seamless(a, g) && StandsIn(a, g, f)) {
      forall text: string ensures Clean(a, f, [], Both(a, f, g, text)) {
        assert [f, g][0] == f && [f, g][1] == g;
        FormIsClean(a, [f, g], 0, text);
      }
    } else {
      if !StandsIn(a, g, f) {
        NotInIsClean(a, g, f);
      }
      var between := ServedFrom(a, g, f + "/");
      var from := ServedFrom(a, f, between);
      StandsEnded(a, f);
      assert !Clean(a, f, [], Both(a, f, g, from));
    }
  }

  /** Where the second form breaks, the first stands in what leads up to it and itself. */
  predicate Guarded(a: Alphabet, f: string, g: string) {
    forall k | 0 <= k < |g| && Breaks(a, g, k) :: StandsIn(a, f, g[..k] + g)
  }

  lemma SecondKeptOut(a: Alphabet, f: string, g: string)
    requires Seamless(a, g) || (Seamless(a, f) && Guarded(a, f, g))
    ensures KeptOut(a, [f, g], 1)
  {
    var forms := [f, g];
    assert forms[0] == f && forms[1] == g;
  }

  /** The form rewritten last: it stays out of every text exactly when it is
      seamless, or the first is and stands in every text it would be put together from. */
  lemma SecondFormExactly(a: Alphabet, f: string, g: string)
    requires a.Valid() && Absolute(a, f) && Absolute(a, g)
    ensures (forall text: string :: Clean(a, g, [], Both(a, f, g, text)))
       <==> Seamless(a, g) || (Seamless(a, f) && Guarded(a, f, g))
  {
    if Seamless(a, g) || (Seamless(a, f) && Guarded(a, f, g)) {
      forall text: string ensures Clean(a, g, [], Both(a, f, g, text)) {
        SecondKeptOut(a, f, g);
        FormIsClean(a, [f, g], 1, text);
      }
    } else {
      var from := SecondStands(a, f, g);
      assert !Clean(a, g, [], Both(a, f, g, from));
    }
  }

  function Run(n: nat): string {
    seq(n, _ => '/')
  }

  /** A text that `g`, rewritten, puts together again where it breaks. */
  function Seam(f: string, g: string, k: nat): string
    requires k < |g|
  {
    (g[..k] + g) + (Run(|f| + 1) + (g[k..] + "/"))
  }

  lemma {:induction false} TrimRun(a: Alphabet, n: nat, tail: string)
    requires tail != [] && !a.Separator(tail[0])
    ensures TrimSeparators(a, Run(n) + tail) == tail
  {
    if n == 0 {
      assert Run(0) + tail == tail;
    } else {
      assert (Run(n) + tail)[1..] == Run(n - 1) + tail;
      TrimRun(a, n - 1, tail);
    }
  }

  lemma NotBeforeSeam(a: Alphabet, g: string, k: nat, more: string, d: nat)
    requires Absolute(a, g) && Breaks(a, g, k) && d < k
    ensures !OccursAt(g, g[..k] + (g + more), d)
  {
    var text := g[..k] + (g + more);
    assert text[d] == g[d] && text[d + k] == g[d];
    if OccursAt(g, text, d) {
      OccursChars(g, text, d);
    }
  }

  lemma TailIsKept(a: Alphabet, g: string, k: nat, last: string)
    requires Absolute(a, g) && Breaks(a, g, k)
    ensures Named(a, g, last, g[k..] + "/") == g[k..] + "/"
  {
    var tail := g[k..] + "/";
    assert tail[0] == g[k];
    forall i: nat | i < |tail| ensures !OccursAt(g, tail, i) {
      if OccursAt(g, tail, i) {
        OccursChars(g, tail, i);
      }
    }
    NamedCopies(a, g, last, tail, |tail|);
    assert tail[..|tail|] == tail && tail[|tail|..] == [];
  }

  lemma SeamReplaced(a: Alphabet, n: nat, g: string, k: nat, last: string)
    requires a.Valid() && Absolute(a, g) && Breaks(a, g, k) && n > 0 && Opens(a, last)
    ensures Named(a, g, last, g + (Run(n) + (g[k..] + "/"))) == g[k..] + "/"
  {
    var tail := g[k..] + "/";
    var after := Run(n) + tail;
    var found := g + after;
    Cut(g, after);
    assert last + found[..0] == last && found[0..0 + |g|] == g;
    TrimRun(a, n, tail);
    assert Replaced(a, after) == ("", tail);
    NamedStanding(a, g, last, found);
    TailIsKept(a, g, k, [found[|found| - |tail| - 1]]);
  }

  lemma Regrouped(x: string, y: string, z: string)
    ensures (x + y) + z == x + (y + z)
  {
  }

  lemma SeamIsNamed(a: Alphabet, f: string, g: string, k: nat)
    requires a.Valid() && Absolute(a, g) && Breaks(a, g, k)
    ensures Named(a, g, [], Seam(f, g, k)) == g + "/"
  {
    var more := Run(|f| + 1) + (g[k..] + "/");
    Regrouped(g[..k], g, more);
    SeamPutTogether(a, g, k, g[..k], g + more, |f| + 1);
    Regrouped(g[..k], g[k..], "/");
    assert g[..k] + g[k..] == g;
  }

  lemma SeamPutTogether(a: Alphabet, g: string, k: nat, front: string, found: string, n: nat)
    requires a.Valid() && Absolute(a, g) && Breaks(a, g, k) && n > 0
    requires front == g[..k] && found == g + (Run(n) + (g[k..] + "/"))
    ensures Named(a, g, [], front + found) == front + (g[k..] + "/")
  {
    forall d: nat | d < k ensures !OccursAt(g, front + found, d) {
      NotBeforeSeam(a, g, k, Run(n) + (g[k..] + "/"), d);
    }
    Cut(front, found);
    NamedCopies(a, g, [], front + found, k);
    SeamReplaced(a, n, g, k, [g[k - 1]]);
  }

  lemma EndsAtSeparator(a: Alphabet, tail: string, more: string)
    requires a.Valid() && more != [] && more[0] == '/' && EndsName(a, tail + more)
    ensures EndsName(a, tail + "/")
  {
    if tail != [] {
      assert (tail + more)[0] == (tail + "/")[0] == tail[0];
      assert (tail + more)[1] == (tail + "/")[1];
    }
  }

  /** A form found before the run of separators stands there without what follows. */
  lemma SeamFront(a: Alphabet, f: string, x: string, more: string, at: nat)
    requires a.Valid() && Absolute(a, f) && at + |f| <= |x| && more != [] && more[0] == '/'
    requires Standing(a, f, [], x + more, at)
    ensures StandsIn(a, f, x)
  {
    var end := at + |f|;
    assert (x + more)[at..end] == x[at..end] == (x + "/")[at..end];
    assert (x + more)[end..] == x[end..] + more && (x + "/")[end..] == x[end..] + "/";
    assert (x + more)[..at] == x[..at] == (x + "/")[..at];
    EndsAtSeparator(a, x[end..], more);
    assert Standing(a, f, [], x + "/", at);
  }

  /** A form found in the last part of `x`, put again after the run, stands in `x` too. */
  lemma SeamBack(a: Alphabet, f: string, x: string, from: nat, more: string, t: nat)
    requires f != [] && from <= |x| && t > 0
    requires Standing(a, f, [], more + (x[from..] + "/"), |more| + t)
    ensures Standing(a, f, [], x + "/", from + t)
  {
    var tail := x[from..] + "/";
    LastPart(a, f, more, tail, t);
    assert x[..from] + tail == x + "/";
    LastPart(a, f, x[..from], tail, t);
  }

  lemma LastPart(a: Alphabet, f: string, more: string, tail: string, t: nat)
    requires f != [] && t > 0
    ensures Standing(a, f, [], more + tail, |more| + t) <==> Standing(a, f, [], tail, t)
  {
    var y := more + tail;
    assert y[|more|..] == tail;
    OccursLater(f, y, |more|, |more| + t);
    if t + |f| <= |tail| {
      assert y[|more| + t + |f|..] == tail[t + |f|..];
      assert y[|more| + t - 1] == tail[t - 1];
      OpensAt(a, [], y, |more| + t);
      OpensAt(a, [], tail, t);
    }
  }

  /** A form stands in no run longer than itself, and does not reach into one. */
  lemma OutsideRun(a: Alphabet, f: string, x: string, tail: string, at: nat)
    requires a.Valid() && Absolute(a, f) && tail != [] && !a.Separator(tail[0])
    requires Standing(a, f, [], x + (Run(|f| + 1) + tail), at)
    ensures at + |f| <= |x| || at > |x| + |f| + 1
  {
    var y := x + (Run(|f| + 1) + tail);
    OccursChars(f, y, at);
    assert y[at + 0] == f[0] && y[at + (|f| - 1)] == f[|f| - 1];
    assert at > 0 ==> ([] + y[..at])[at - 1] == y[at - 1];
    assert y[|x| + |f| + 1] == tail[0];
  }

  lemma SeamEnd(a: Alphabet, f: string, x: string, from: nat, more: string, t: nat)
    requires Absolute(a, f) && x != [] && from <= |x| && t > 0
    requires Standing(a, f, [], more + (x[from..] + "/"), |more| + t)
    ensures StandsIn(a, f, x)
  {
    SeamBack(a, f, x, from, more, t);
    EndsInside(a, f, x, from + t);
  }

  lemma RunStands(a: Alphabet, f: string, x: string, from: nat, at: nat)
    requires a.Valid() && Absolute(a, f) && from < |x| && !a.Separator(x[from])
    requires Standing(a, f, [], x + (Run(|f| + 1) + (x[from..] + "/")), at)
    ensures StandsIn(a, f, x)
  {
    var run, tail := Run(|f| + 1), x[from..] + "/";
    OutsideRun(a, f, x, tail, at);
    if at + |f| <= |x| {
      SeamFront(a, f, x, run + tail, at);
    } else {
      Regrouped(x, run, tail);
      SeamEnd(a, f, x, from, x + run, at - |x + run|);
    }
  }

  lemma SeamStands(a: Alphabet, f: string, g: string, k: nat, at: nat)
    requires a.Valid() && Absolute(a, f) && Breaks(a, g, k) && Standing(a, f, [], Seam(f, g, k), at)
    ensures StandsIn(a, f, g[..k] + g)
  {
    var x := g[..k] + g;
    assert x[k + k..] == g[k..] && x[k + k] == g[k];
    RunStands(a, f, x, k + k, at);
  }

  lemma SeamIsClean(a: Alphabet, f: string, g: string, k: nat)
    requires a.Valid() && Absolute(a, f) && Breaks(a, g, k) && !StandsIn(a, f, g[..k] + g)
    ensures Clean(a, f, [], Seam(f, g, k))
  {
    forall at: nat ensures !Standing(a, f, [], Seam(f, g, k), at) {
      if Standing(a, f, [], Seam(f, g, k), at) {
        SeamStands(a, f, g, k, at);
      }
    }
  }

  lemma SecondStands(a: Alphabet, f: string, g: string) returns (from: string)
    requires a.Valid() && Absolute(a, f) && Absolute(a, g)
    requires !Seamless(a, g) && !(Seamless(a, f) && Guarded(a, f, g))
    ensures !Clean(a, g, [], Both(a, f, g, from))
  {
    var between: string;
    StandsEnded(a, g);
    if Seamless(a, f) {
      var k :| 0 <= k < |g| && Breaks(a, g, k) && !StandsIn(a, f, g[..k] + g);
      between := Seam(f, g, k);
      SeamIsClean(a, f, g, k);
      SeamIsNamed(a, f, g, k);
    } else {
      between := ServedFrom(a, g, g + "/");
    }
    from := ServedFrom(a, f, between);
  }

  /** Both forms stay out of every text. */
  predicate BothKeptOut(a: Alphabet, f: string, g: string) {
    && (Seamless(a, f) || (Seamless(a, g) && StandsIn(a, g, f)))
    && (Seamless(a, g) || (Seamless(a, f) && Guarded(a, f, g)))
  }

  lemma BothServed(a: Alphabet, f: string, g: string, text: string)
    requires Absolute(a, f) && Absolute(a, g)
    ensures AllClean(a, [f, g], Both(a, f, g, text))
       <==> Clean(a, f, [], Both(a, f, g, text)) && Clean(a, g, [], Both(a, f, g, text))
    ensures AllClean(a, [f, g], Both(a, f, g, text)) <==> Both(a, f, g, Both(a, f, g, text)) == Both(a, f, g, text)
  {
    var forms := [f, g];
    assert forms[0] == f && forms[1] == g;
    assert AllAbsolute(a, forms);
    TextTwice(a, forms, text);
  }

  /** What is served of a home with two forms is clean of both, for every text,
      exactly when each is seamless or kept out by the other; and serving again
      then changes nothing, and otherwise changes some text. */
  lemma TwoFormsExactly(a: Alphabet, f: string, g: string)
    requires a.Valid() && Absolute(a, f) && Absolute(a, g)
    ensures (forall text: string :: AllClean(a, [f, g], Both(a, f, g, text))) <==> BothKeptOut(a, f, g)
    ensures (forall text: string :: Both(a, f, g, Both(a, f, g, text)) == Both(a, f, g, text)) <==> BothKeptOut(a, f, g)
  {
    FirstFormExactly(a, f, g);
    SecondFormExactly(a, f, g);
    forall text: string
      ensures AllClean(a, [f, g], Both(a, f, g, text))
         <==> Clean(a, f, [], Both(a, f, g, text)) && Clean(a, g, [], Both(a, f, g, text))
      ensures AllClean(a, [f, g], Both(a, f, g, text)) <==> Both(a, f, g, Both(a, f, g, text)) == Both(a, f, g, text)
    {
      BothServed(a, f, g, text);
    }
  }

  lemma ServedStanding(a: Alphabet, forms: seq<string>, i: nat) returns (from: string)
    requires a.Valid() && AllAbsolute(a, forms) && i < |forms| <= 2 && !KeptOut(a, forms, i)
    ensures !Clean(a, forms[i], [], Text(a, forms, from))
  {
    if |forms| == 1 {
      CleanExactlyWhenSeamless(a, forms[0]);
      var text: string :| !ServedClean(a, forms[0], text);
      assert forms[1..] == [];
      from := text;
    } else {
      var f, g := forms[0], forms[1];
      assert forms == [f, g];
      if i == 0 {
        FirstFormExactly(a, f, g);
        from :| !Clean(a, f, [], Both(a, f, g, from));
      } else {
        if Seamless(a, g) || (Seamless(a, f) && Guarded(a, f, g)) { SecondKeptOut(a, f, g); }
        SecondFormExactly(a, f, g);
        from :| !Clean(a, g, [], Both(a, f, g, from));
      }
    }
  }

  /** Of one form or two, as a home has: a form stands in no text as served exactly when it is kept out. */
  lemma KeptOutExactly(a: Alphabet, forms: seq<string>, i: nat)
    requires a.Valid() && AllAbsolute(a, forms) && i < |forms| <= 2
    ensures (forall text: string :: Clean(a, forms[i], [], Text(a, forms, text))) <==> KeptOut(a, forms, i)
  {
    if KeptOut(a, forms, i) {
      forall text: string ensures Clean(a, forms[i], [], Text(a, forms, text)) {
        FormIsClean(a, forms, i, text);
      }
    } else {
      var from := ServedStanding(a, forms, i);
      assert !Clean(a, forms[i], [], Text(a, forms, from));
    }
  }
}
