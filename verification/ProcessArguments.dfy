/** The argument buffer of another process, and the operator home read from it. */
module ProcessArguments {
  import opened Wrappers
  import opened NativeBytes

  /** The home a process runs under: set, the default, or not shown by what was read. */
  datatype Home = Set(value: Bytes) | Default | Unknown

  /** What the reader takes from the system's library and headers: the bytes of
      `COMMONMEASURE_HOME=`, the kernel's own keys, and which values are blank. */
  datatype Names = Names(home: Bytes, kernel: seq<Bytes>, blank: Bytes -> bool) {
    predicate Valid() {
      home != [] && forall i | 0 <= i < |kernel| :: kernel[i] != []
    }

    predicate Sets(entry: Bytes) {
      home <= entry
    }

    /** `key=` for one of the kernel's keys; 61 is `=`. */
    predicate Kernel(entry: Bytes) {
      exists i | 0 <= i < |kernel| :: kernel[i] + [61] <= entry
    }

    function Read(entry: Bytes): Home
      requires Sets(entry)
    {
      var value := entry[|home|..];
      if blank(value) then Default else Set(value)
    }
  }

  // ----- Strings split at NULs -----

  /** The stretches between NULs: one more than there are NULs. */
  function Split(bytes: Bytes): (r: seq<Bytes>)
    ensures r != []
  {
    if bytes == [] then [[]]
    else if bytes[0] == 0 then [[]] + Split(bytes[1..])
    else var r := Split(bytes[1..]); [[bytes[0]] + r[0]] + r[1..]
  }

  /** Each string with a NUL after it. */
  function Terminated(strings: seq<Bytes>): Bytes {
    if strings == [] then [] else strings[0] + [0] + Terminated(strings[1..])
  }

  predicate NulFree(strings: seq<Bytes>) {
    forall i | 0 <= i < |strings| :: 0 !in strings[i]
  }

  lemma {:induction false} SplitFirst(first: Bytes, tail: Bytes)
    requires 0 !in first
    ensures Split(first + [0] + tail) == [first] + Split(tail)
  {
    var joined := first + [0] + tail;
    if first == [] {
      assert joined[1..] == tail;
    } else {
      assert joined[0] == first[0] && first[0] in first && joined[1..] == first[1..] + [0] + tail;
      SplitFirst(first[1..], tail);
      assert [first[0]] + first[1..] == first && Split(joined)[1..] == Split(tail);
    }
  }

  lemma Associate<T>(x: seq<T>, y: seq<T>, z: seq<T>)
    ensures x + (y + z) == x + y + z
  {
  }

  lemma {:induction false} SplitTerminated(strings: seq<Bytes>, tail: Bytes)
    requires NulFree(strings)
    ensures Split(Terminated(strings) + tail) == strings + Split(tail)
  {
    if strings == [] {
      assert Terminated(strings) + tail == tail;
    } else {
      var rest := Terminated(strings[1..]) + tail;
      Associate(strings[0] + [0], Terminated(strings[1..]), tail);
      SplitFirst(strings[0], rest);
      SplitTerminated(strings[1..], tail);
      Associate([strings[0]], strings[1..], Split(tail));
      assert [strings[0]] + strings[1..] == strings;
    }
  }

  /** The strings of a `cmdline` or `environ` file. */
  function ProcStrings(bytes: Bytes): seq<Bytes> {
    Split(if bytes != [] && bytes[|bytes| - 1] == 0 then bytes[..|bytes| - 1] else bytes)
  }

  lemma {:induction false} SplitPlain(bytes: Bytes)
    requires 0 !in bytes
    ensures Split(bytes) == [bytes]
  {
    if bytes != [] {
      assert bytes[0] in bytes;
      SplitPlain(bytes[1..]);
      assert [bytes[0]] + bytes[1..] == bytes;
    }
  }

  /** Reading a file of terminated strings gives the strings back. */
  lemma ProcStringsInverts(strings: seq<Bytes>)
    requires NulFree(strings) && strings != []
    ensures ProcStrings(Terminated(strings)) == strings
  {
    var n := |strings| - 1;
    TerminatedLast(strings);
    SplitTerminated(strings[..n], strings[n]);
    SplitPlain(strings[n]);
    assert strings[..n] + [strings[n]] == strings;
  }

  lemma {:induction false} TerminatedLast(strings: seq<Bytes>)
    requires strings != []
    ensures Terminated(strings) == Terminated(strings[..|strings| - 1]) + strings[|strings| - 1] + [0]
  {
    if |strings| > 1 {
      var front := strings[..|strings| - 1];
      TerminatedLast(strings[1..]);
      assert strings[1..][..|strings| - 2] == front[1..];
      Associate(strings[0] + [0], Terminated(front[1..]), strings[|strings| - 1] + [0]);
      Associate(Terminated(front[1..]), strings[|strings| - 1], [0]);
      Associate(Terminated(front), strings[|strings| - 1], [0]);
    }
  }

  // ----- The home reader -----

  /** The first entry that sets the home, as `getenv` finds it. */
  function Setting(names: Names, entries: seq<Bytes>): (r: Option<Bytes>)
    ensures r.Some? ==> r.value in entries && names.Sets(r.value)
    ensures r.None? ==> forall i | 0 <= i < |entries| :: !names.Sets(entries[i])
  {
    if entries == [] then None
    else if names.Sets(entries[0]) then Some(entries[0])
    else Setting(names, entries[1..])
  }

  /** The home as the process itself reads it. */
  function HomeOf(names: Names, environment: seq<Bytes>): Home {
    match Setting(names, environment)
    case Some(entry) => names.Read(entry)
    case None => Default
  }

  /** Entries that show where the environment ends: at least one, the first not
      empty, and none that is not after one that is. */
  predicate ShowsEnd(entries: seq<Bytes>) {
    && entries != [] && entries[0] != []
    && forall i, j | 0 <= i < j < |entries| :: entries[i] == [] ==> entries[j] == []
  }

  /** What the reader makes of the entries it is given. */
  function HomeIn(names: Names, entries: seq<Bytes>): Home {
    if Setting(names, entries).Some? || ShowsEnd(entries) then HomeOf(names, entries) else Unknown
  }

  ghost predicate SomeEmpty(entries: seq<Bytes>, i: nat)
    requires i <= |entries|
  {
    exists j | 0 <= j < i :: entries[j] == []
  }

  /** An entry that is not empty comes after one that is. */
  ghost predicate Resumed(entries: seq<Bytes>, i: nat)
    requires i <= |entries|
  {
    exists k | 0 <= k < i :: entries[k] != [] && SomeEmpty(entries, k)
  }

  lemma ResumedNext(entries: seq<Bytes>, i: nat)
    requires i < |entries|
    ensures SomeEmpty(entries, i + 1) <==> SomeEmpty(entries, i) || entries[i] == []
    ensures Resumed(entries, i + 1) <==> Resumed(entries, i) || (entries[i] != [] && SomeEmpty(entries, i))
  {
  }

  lemma EndShown(entries: seq<Bytes>)
    ensures ShowsEnd(entries) <==> entries != [] && entries[0] != [] && !Resumed(entries, |entries|)
  {
    if !Resumed(entries, |entries|) {
      forall i, j | 0 <= i < j < |entries| && entries[i] == [] ensures entries[j] == [] {
        assert SomeEmpty(entries, j);
      }
    }
  }

  /** The reader's one pass, with its three flags. */
  method ReadHome(names: Names, entries: seq<Bytes>) returns (r: Home)
    requires names.Valid()
    ensures r == HomeIn(names, entries)
  {
    var read, empty, resumed := false, false, false;
    for i := 0 to |entries|
      invariant Setting(names, entries) == Setting(names, entries[i..])
      invariant forall j | 0 <= j < i :: !names.Sets(entries[j])
      invariant read <==> i > 0 && entries[0] != []
      invariant empty <==> SomeEmpty(entries, i)
      invariant resumed <==> Resumed(entries, i)
    {
      var entry := entries[i];
      if names.Sets(entry) {
        assert entries[i..][0] == entry;
        return names.Read(entry);
      }
      ResumedNext(entries, i);
      assert entries[i..][1..] == entries[i + 1..];
      if entry == [] {
        empty := true;
      } else if !empty {
        read := true;
      } else {
        resumed := true;
      }
    }
    EndShown(entries);
    r := if read && !resumed then Default else Unknown;
  }

  // ----- The buffer -----

  /** A native `int`, least byte first, as both of the platform's processors store it. */
  function Native(b: Bytes): int
    requires |b| == 4
  {
    var n := Unsigned(b);
    if n < 0x8000_0000 then n else n - 0x1_0000_0000
  }

  function FirstNul(bytes: Bytes): (r: int)
    ensures r == -1 || (0 <= r < |bytes| && bytes[r] == 0)
    ensures forall i | 0 <= i < |bytes| && (r == -1 || i < r) :: bytes[i] != 0
  {
    if bytes == [] then -1
    else if bytes[0] == 0 then 0
    else
      var later := FirstNul(bytes[1..]);
      assert forall i | 1 <= i < |bytes| :: bytes[i] == bytes[1..][i - 1];
      if later == -1 then -1 else later + 1
  }

  function NextMultipleOf8(n: nat): (r: nat)
    ensures r % 8 == 0 && n <= r < n + 8
  {
    (n + 7) / 8 * 8
  }

  /** Where the kernel's strings are taken to start: the first empty string with one of its keys after it. */
  function KernelStart(names: Names, strings: seq<Bytes>, from: nat): (r: nat)
    requires from <= |strings|
    ensures from <= r <= |strings|
    ensures r < |strings| ==> r + 1 < |strings| && strings[r] == [] && names.Kernel(strings[r + 1])
    ensures forall i | from <= i < r && i + 1 < |strings| :: !(strings[i] == [] && names.Kernel(strings[i + 1]))
    decreases |strings| - from
  {
    if from + 1 >= |strings| then |strings|
    else if strings[from] == [] && names.Kernel(strings[from + 1]) then from
    else KernelStart(names, strings, from + 1)
  }

  function DropEmpties(strings: seq<Bytes>): (r: seq<Bytes>)
    ensures r <= strings && (r == [] || r[|r| - 1] != [])
    ensures forall i | |r| <= i < |strings| :: strings[i] == []
  {
    if strings != [] && strings[|strings| - 1] == [] then DropEmpties(strings[..|strings| - 1]) else strings
  }

  predicate AnySets(names: Names, strings: seq<Bytes>) {
    exists i | 0 <= i < |strings| :: names.Sets(strings[i])
  }

  /** The environment among the strings after the arguments, or none when its end is in doubt. */
  function Environment(names: Names, strings: seq<Bytes>): Option<seq<Bytes>> {
    var end := KernelStart(names, strings, 0);
    if end < |strings| && !AnySets(names, strings[..end]) && AnySets(names, strings[end..]) then None
    else Some(DropEmpties(strings[..end]))
  }

  /** Where the strings start: after the path, its NUL and the padding; none when that is not all NULs. */
  function StringsStart(rest: Bytes): (r: Option<nat>)
    ensures r.Some? ==> r.value <= |rest|
  {
    var pathEnd := FirstNul(rest);
    if pathEnd == -1 then None
    else
      var start := NextMultipleOf8(pathEnd + 1);
      if start > |rest| || exists i | pathEnd <= i < start :: rest[i] != 0 then None else Some(start)
  }

  /** The strings of a well-formed buffer: those its count says are arguments, and the rest. */
  function Strings(buffer: Bytes): Option<(seq<Bytes>, seq<Bytes>)> {
    if |buffer| < 4 || Native(buffer[..4]) < 0 then None
    else
      match StringsStart(buffer[4..])
      case None => None
      case Some(start) =>
        var count, strings := Native(buffer[..4]), Split(buffer[4..][start..]);
        if |strings| < count then None else Some((strings[..count], strings[count..]))
  }

  method ProcArgs(names: Names, buffer: Bytes) returns (r: Option<(seq<Bytes>, Option<seq<Bytes>>)>)
    ensures match Strings(buffer)
            case None => r == None
            case Some((arguments, strings)) => r == Some((arguments, Environment(names, strings)))
  {
    if |buffer| < 4 {
      return None;
    }
    var count := Native(buffer[..4]);
    if count < 0 {
      return None;
    }
    var rest := buffer[4..];
    var start := PastPadding(rest);
    if start.None? {
      return None;
    }
    var strings := Split(rest[start.value..]);
    if |strings| < count {
      return None;
    }
    var environment := ReadEnvironment(names, strings[count..]);
    return Some((strings[..count], environment));
  }

  /** Past the path and its padding, which is all NUL or there are no strings. */
  method PastPadding(rest: Bytes) returns (r: Option<nat>)
    ensures r == StringsStart(rest)
  {
    var pathEnd := FirstNul(rest);
    if pathEnd == -1 {
      return None;
    }
    var start := NextMultipleOf8(pathEnd + 1);
    if start > |rest| {
      return None;
    }
    for i := pathEnd to start
      invariant forall j | pathEnd <= j < i :: rest[j] == 0
    {
      if rest[i] != 0 {
        return None;
      }
    }
    return Some(start);
  }

  /** The environment among the strings after the arguments, or none when its end is in doubt. */
  method ReadEnvironment(names: Names, strings: seq<Bytes>) returns (r: Option<seq<Bytes>>)
    ensures r == Environment(names, strings)
  {
    var environment := strings;
    ghost var all := environment;
    var end := KernelStart(names, environment, 0);
    if end < |environment| {
      if !AnySets(names, environment[..end]) && AnySets(names, environment[end..]) {
        return None;
      }
      environment := environment[..end];
    }
    assert environment == all[..end];
    while environment != [] && environment[|environment| - 1] == []
      invariant DropEmpties(environment) == DropEmpties(all[..end])
      decreases |environment|
    {
      environment := environment[..|environment| - 1];
    }
    return Some(environment);
  }

  /** NULs after a path, up to the next multiple of eight past the first of them. */
  function Padding(path: Bytes): Bytes {
    seq(NextMultipleOf8(|path| + 1) - |path|, _ => 0)
  }

  /** The layout the kernel gives the buffer, up to the end of the arguments. */
  function Encoded(path: Bytes, arguments: seq<Bytes>): Bytes
    requires |arguments| < 0x8000_0000
  {
    Stored(|arguments|, 4) + path + Padding(path) + Terminated(arguments)
  }

  lemma StringsStartAfter(path: Bytes, body: Bytes)
    requires 0 !in path
    ensures var start := NextMultipleOf8(|path| + 1);
            var rest := path + Padding(path) + body;
            StringsStart(rest) == Some(start) && rest[start..] == body
  {
    var start := NextMultipleOf8(|path| + 1);
    var rest := path + Padding(path) + body;
    assert rest[|path|] == 0;
    assert forall i | 0 <= i < |path| :: rest[i] == path[i] && path[i] in path;
    assert FirstNul(rest) == |path|;
  }

  /** Whatever follows them, the arguments read are the arguments written, an
      empty argument zero among them, and nothing else is taken for one. */
  lemma ArgumentsExact(path: Bytes, arguments: seq<Bytes>, tail: Bytes)
    requires 0 !in path && NulFree(arguments) && |arguments| < 0x8000_0000
    ensures Strings(Encoded(path, arguments) + tail) == Some((arguments, Split(tail)))
  {
    var count := Stored(|arguments|, 4);
    var body := Terminated(arguments) + tail;
    var rest := path + Padding(path) + body;
    var buffer := Encoded(path, arguments) + tail;
    assert buffer == count + rest;
    assert buffer[..4] == count && buffer[4..] == rest;
    StringsStartAfter(path, body);
    assert Power256(4) == 0x1_0000_0000;
    UnsignedStored(|arguments|, 4);
    SplitTerminated(arguments, tail);
    Halves(arguments, Split(tail));
  }

  lemma Halves(x: seq<Bytes>, y: seq<Bytes>)
    ensures (x + y)[..|x|] == x && (x + y)[|x|..] == y
  {
  }

  // ----- What is refused -----

  /** Strings with a NUL between each and the next. */
  function Between(strings: seq<Bytes>): Bytes
    requires strings != []
  {
    if |strings| == 1 then strings[0] else strings[0] + [0] + Between(strings[1..])
  }

  lemma {:induction false} SplitBetween(bytes: Bytes)
    ensures Between(Split(bytes)) == bytes && NulFree(Split(bytes))
  {
    if bytes != [] {
      var rest := Split(bytes[1..]);
      SplitBetween(bytes[1..]);
      assert bytes == [bytes[0]] + bytes[1..];
      if bytes[0] == 0 {
        assert ([[]] + rest)[1..] == rest;
        var none: Bytes := [];
        assert none + [0] + Between(rest) == [0] + Between(rest);
      } else {
        BetweenHead(bytes[0], rest);
      }
    }
  }

  lemma BetweenHead(b: Byte, strings: seq<Bytes>)
    requires strings != []
    ensures Between([[b] + strings[0]] + strings[1..]) == [b] + Between(strings)
  {
    var more := [[b] + strings[0]] + strings[1..];
    if |strings| > 1 {
      assert more[1..] == strings[1..];
      assert [b] + strings[0] + [0] + Between(strings[1..]) == [b] + (strings[0] + [0] + Between(strings[1..]));
    }
  }

  lemma FirstNulParts(rest: Bytes)
    requires StringsStart(rest).Some?
    ensures FirstNul(rest) >= 0
    ensures var path, start := rest[..FirstNul(rest)], StringsStart(rest).value;
            0 !in path && rest == path + Padding(path) + rest[start..]
  {
    hide NextMultipleOf8;
    var path, start := rest[..FirstNul(rest)], StringsStart(rest).value;
    assert forall i | 0 <= i < |path| :: path[i] == rest[i];
    assert |path| == FirstNul(rest) && start == NextMultipleOf8(|path| + 1);
    PaddingIs(rest, path, start);
    assert rest == rest[..|path|] + rest[|path|..start] + rest[start..];
  }

  lemma PaddingIs(rest: Bytes, path: Bytes, start: nat)
    requires start == NextMultipleOf8(|path| + 1) && start <= |rest| && forall i | |path| <= i < start :: rest[i] == 0
    ensures rest[|path|..start] == Padding(path)
  {
    hide NextMultipleOf8;
  }

  lemma BufferParts(buffer: Bytes)
    requires |buffer| >= 4 && StringsStart(buffer[4..]).Some?
    ensures FirstNul(buffer[4..]) >= 0
    ensures var rest := buffer[4..];
            var path := rest[..FirstNul(rest)];
            && 0 !in path
            && buffer == Stored(Unsigned(buffer[..4]), 4) + path + Padding(path) + rest[StringsStart(rest).value..]
  {
    hide *;
    var rest := buffer[4..];
    FirstNulParts(rest);
    StoredBack(buffer[..4]);
    var path, body := rest[..FirstNul(rest)], rest[StringsStart(rest).value..];
    assert buffer == buffer[..4] + (path + Padding(path) + body);
    assert buffer == buffer[..4] + path + Padding(path) + body;
  }

  lemma {:induction false} BetweenSplit(strings: seq<Bytes>)
    requires strings != [] && NulFree(strings)
    ensures Split(Between(strings)) == strings
  {
    if |strings| == 1 {
      SplitPlain(strings[0]);
    } else {
      SplitFirst(strings[0], Between(strings[1..]));
      BetweenSplit(strings[1..]);
      assert [strings[0]] + strings[1..] == strings;
    }
  }

  /** A file whose last string is not terminated is read to its end. */
  lemma UnterminatedIsRead(strings: seq<Bytes>)
    requires strings != [] && NulFree(strings) && strings[|strings| - 1] != []
    ensures ProcStrings(Between(strings)) == strings
  {
    BetweenSplit(strings);
    LastOfBetween(strings);
  }

  lemma {:induction false} LastOfBetween(strings: seq<Bytes>)
    requires strings != [] && NulFree(strings) && strings[|strings| - 1] != []
    ensures Between(strings) != [] && Between(strings)[|Between(strings)| - 1] != 0
  {
    if |strings| == 1 {
      assert strings[0][|strings[0]| - 1] in strings[0];
    } else {
      LastOfBetween(strings[1..]);
    }
  }

  /** Whatever is read is what the buffer holds: its count, a path without
      NULs, nothing but NULs up to the next multiple of eight, and then the
      strings, as many as the count of them taken for arguments. */
  lemma StringsSound(buffer: Bytes)
    requires Strings(buffer).Some?
    ensures var (arguments, left) := Strings(buffer).value;
            && |arguments| < 0x8000_0000 && arguments + left != [] && NulFree(arguments + left)
            && exists path: Bytes :: 0 !in path
                 && buffer == Stored(|arguments|, 4) + path + Padding(path) + Between(arguments + left)
  {
    hide Padding, Stored, Unsigned, Split, StringsStart, Between, FirstNul;
    var rest := buffer[4..];
    var body := rest[StringsStart(rest).value..];
    BufferParts(buffer);
    SplitBetween(body);
    var (arguments, left) := Strings(buffer).value;
    assert arguments + left == Split(body);
    UnsignedBound(buffer[..4]);
    assert Power256(4) == 0x1_0000_0000;
    assert |arguments| == Unsigned(buffer[..4]);
  }

  /** And every buffer laid out so is read, unless it holds fewer strings than its count. */
  lemma StringsComplete(path: Bytes, count: nat, body: Bytes)
    requires 0 !in path && count < 0x8000_0000
    ensures Strings(Stored(count, 4) + path + Padding(path) + body)
         == if |Split(body)| < count then None else Some((Split(body)[..count], Split(body)[count..]))
  {
    hide Padding, Stored, Split, FirstNul, StringsStart;
    var rest := path + Padding(path) + body;
    var buffer := Stored(count, 4) + path + Padding(path) + body;
    assert buffer == Stored(count, 4) + rest;
    assert buffer[..4] == Stored(count, 4) && buffer[4..] == rest;
    StringsStartAfter(path, body);
    assert Power256(4) == 0x1_0000_0000;
    UnsignedStored(count, 4);
  }

  /** One of the kernel's strings is a key of its own, `=` and a value. */
  lemma KernelIsKeyed(names: Names, entry: Bytes)
    ensures names.Kernel(entry) <==> exists i, value :: 0 <= i < |names.kernel| && entry == names.kernel[i] + [61] + value
  {
    if names.Kernel(entry) {
      var i :| 0 <= i < |names.kernel| && names.kernel[i] + [61] <= entry;
      assert entry == names.kernel[i] + [61] + entry[|names.kernel[i]| + 1..];
    }
  }

  // ----- The home read from a buffer, against the process's own -----

  /** The home `update` shows for a buffer. */
  function HomeShown(names: Names, buffer: Bytes): Home {
    match Strings(buffer)
    case None => Unknown
    case Some((_, strings)) =>
      match Environment(names, strings)
      case None => Unknown
      case Some(entries) => HomeIn(names, entries)
  }

  lemma {:induction false} SettingJoined(names: Names, x: seq<Bytes>, y: seq<Bytes>)
    ensures Setting(names, x + y) == if Setting(names, x).Some? then Setting(names, x) else Setting(names, y)
  {
    if x == [] {
      assert x + y == y;
    } else {
      assert (x + y)[1..] == x[1..] + y;
      SettingJoined(names, x[1..], y);
    }
  }

  lemma SettingIffAny(names: Names, x: seq<Bytes>)
    ensures Setting(names, x).Some? <==> AnySets(names, x)
  {
  }

  /** Wherever the environment is taken to end among `strings`, a home read
      from it is the first the strings set, or the default when none does. */
  lemma EnvironmentSound(names: Names, strings: seq<Bytes>)
    requires names.Valid()
    ensures match Environment(names, strings)
            case None => true
            case Some(entries) => HomeIn(names, entries) == Unknown || HomeIn(names, entries) == HomeOf(names, strings)
  {
    var end := KernelStart(names, strings, 0);
    var taken := strings[..end];
    SettingDropped(names, taken);
    SettingIffAny(names, taken);
    SettingIffAny(names, strings[end..]);
    assert strings == taken + strings[end..];
    SettingJoined(names, taken, strings[end..]);
  }

  lemma SettingDropped(names: Names, taken: seq<Bytes>)
    requires names.Valid()
    ensures Setting(names, DropEmpties(taken)) == Setting(names, taken)
  {
    var entries := DropEmpties(taken);
    var empties := taken[|entries|..];
    assert taken == entries + empties;
    assert forall i | 0 <= i < |empties| :: empties[i] == [];
    SettingIffAny(names, empties);
    SettingJoined(names, entries, empties);
  }

  /** Nothing is shown that is not so: for any process, whatever its
      environment and whatever follows it, provided what follows sets no home. */
  lemma HomeShownIsSound(names: Names, path: Bytes, arguments: seq<Bytes>, environment: seq<Bytes>, after: seq<Bytes>)
    requires names.Valid() && |arguments| < 0x8000_0000
    requires 0 !in path && NulFree(arguments) && NulFree(environment) && NulFree(after)
    requires !AnySets(names, after)
    ensures var shown := HomeShown(names, Encoded(path, arguments) + Terminated(environment + after));
            shown == Unknown || shown == HomeOf(names, environment)
  {
    var tail := Terminated(environment + after);
    ArgumentsExact(path, arguments, tail);
    SplitTerminated(environment + after, []);
    assert tail + [] == tail;
    var strings := environment + after + [[]];
    assert Split(tail) == strings;
    SettingIffAny(names, after);
    SettingJoined(names, environment, after);
    SettingJoined(names, environment + after, [[]]);
    EnvironmentSound(names, strings);
  }

  /** The kernel's strings as it leaves them: some NULs, then one of its keys. */
  predicate KernelFollows(names: Names, after: seq<Bytes>, gap: nat) {
    && 0 < gap < |after| && names.Kernel(after[gap])
    && forall i | 0 <= i < gap :: after[i] == []
  }

  lemma StringAt(environment: seq<Bytes>, after: seq<Bytes>, i: nat)
    requires i <= |environment| + |after|
    ensures (environment + after + [[]])[i]
         == if i < |environment| then environment[i]
            else if i < |environment| + |after| then after[i - |environment|] else []
  {
  }

  lemma KernelFound(names: Names, environment: seq<Bytes>, after: seq<Bytes>, gap: nat)
    requires names.Valid() && KernelFollows(names, after, gap)
    requires forall i | 0 <= i < |environment| :: environment[i] != []
    ensures KernelStart(names, environment + after + [[]], 0) == |environment| + gap - 1
  {
    var strings := environment + after + [[]];
    var end := KernelStart(names, strings, 0);
    var last := |environment| + gap - 1;
    StringAt(environment, after, last);
    StringAt(environment, after, last + 1);
    assert end <= last;
    assert strings[end] == [] && names.Kernel(strings[end + 1]);
    StringAt(environment, after, end);
    StringAt(environment, after, end + 1);
    assert after[end + 1 - |environment|] != [];
  }

  /** An environment without empty entries, followed as the kernel follows it:
      the home is shown, and is the process's own, unless nothing was set at all. */
  lemma HomeShownExactly(names: Names, path: Bytes, arguments: seq<Bytes>, environment: seq<Bytes>, after: seq<Bytes>,
                         gap: nat)
    requires names.Valid() && |arguments| < 0x8000_0000
    requires 0 !in path && NulFree(arguments) && NulFree(environment) && NulFree(after)
    requires !AnySets(names, after) && KernelFollows(names, after, gap)
    requires forall i | 0 <= i < |environment| :: environment[i] != []
    ensures HomeShown(names, Encoded(path, arguments) + Terminated(environment + after))
         == if environment == [] then Unknown else HomeOf(names, environment)
  {
    var tail := Terminated(environment + after);
    ArgumentsExact(path, arguments, tail);
    SplitTerminated(environment + after, []);
    assert tail + [] == tail;
    var strings := environment + after + [[]];
    assert Split(tail) == strings;
    KernelFound(names, environment, after, gap);
    EnvironmentWhole(names, environment, after, gap);
    if environment == [] { assert Setting(names, environment) == None; }
  }

  lemma EnvironmentWhole(names: Names, environment: seq<Bytes>, after: seq<Bytes>, gap: nat)
    requires names.Valid() && !AnySets(names, after) && KernelFollows(names, after, gap)
    requires forall i | 0 <= i < |environment| :: environment[i] != []
    ensures Environment(names, environment + after + [[]]) == Some(environment)
  {
    var strings := environment + after + [[]];
    KernelFound(names, environment, after, gap);
    var end := |environment| + gap - 1;
    var taken, left := strings[..end], strings[end..];
    assert taken == environment + after[..gap - 1] && left == after[gap - 1..] + [[]];
    forall i | 0 <= i < |left| ensures !names.Sets(left[i]) {
      assert i < |left| - 1 ==> left[i] == after[gap - 1 + i];
    }
    DropsTo(environment, after[..gap - 1]);
  }

  lemma {:induction false} DropsTo(entries: seq<Bytes>, empties: seq<Bytes>)
    requires entries == [] || entries[|entries| - 1] != []
    requires forall i | 0 <= i < |empties| :: empties[i] == []
    ensures DropEmpties(entries + empties) == entries
  {
    if empties == [] {
      assert entries + empties == entries;
    } else {
      assert (entries + empties)[..|entries + empties| - 1] == entries + empties[..|empties| - 1];
      DropsTo(entries, empties[..|empties| - 1]);
    }
  }

  // ----- The value shown -----

  /** No entry begins as the one that sets the home does. */
  predicate Unset(names: Names, entries: seq<Bytes>) {
    forall i | 0 <= i < |entries| :: !(names.home <= entries[i])
  }

  /** What `value` after the variable's name says. */
  function Said(names: Names, value: Bytes): Home {
    if names.blank(value) then Default else Set(value)
  }

  lemma {:induction false} FirstEntryIsSetting(names: Names, before: seq<Bytes>, entry: Bytes, later: seq<Bytes>)
    requires Unset(names, before) && names.home <= entry
    ensures Setting(names, before + [entry] + later) == Some(entry)
  {
    var entries := before + [entry] + later;
    if before == [] {
      assert entries[0] == entry;
    } else {
      assert !names.Sets(before[0]) && entries[0] == before[0];
      assert entries[1..] == before[1..] + [entry] + later;
      FirstEntryIsSetting(names, before[1..], entry, later);
    }
  }

  /** The first entry that begins with the variable's name and `=` gives the
      home: what comes after the `=`, whatever comes before the entry or after it. */
  lemma FirstEntryIsRead(names: Names, before: seq<Bytes>, value: Bytes, later: seq<Bytes>)
    requires Unset(names, before)
    ensures var entries := before + [names.home + value] + later;
            HomeOf(names, entries) == HomeIn(names, entries) == Said(names, value)
  {
    var entry := names.home + value;
    assert names.home <= entry && entry[|names.home|..] == value;
    FirstEntryIsSetting(names, before, entry, later);
  }

  lemma UnsetIsNone(names: Names, entries: seq<Bytes>)
    requires Unset(names, entries)
    ensures Setting(names, entries) == None && HomeOf(names, entries) == Default && !AnySets(names, entries)
  {
    SettingIffAny(names, entries);
  }

  /** Without such an entry the home is the default just when the entries show
      that they are all there are: some, the first not empty, and none that is
      not after one that is. */
  lemma UnsetIsDefault(names: Names, entries: seq<Bytes>)
    requires Unset(names, entries)
    ensures HomeIn(names, entries)
         == if && entries != [] && entries[0] != []
               && (forall i, j | 0 <= i < j < |entries| && entries[i] == [] :: entries[j] == []) then Default else Unknown
  {
    UnsetIsNone(names, entries);
  }

  /** Of a process that sets the home to `value`, that is shown or nothing. */
  lemma ValueShownIsSound(names: Names, path: Bytes, arguments: seq<Bytes>, before: seq<Bytes>, value: Bytes, later: seq<Bytes>,
                          after: seq<Bytes>)
    requires names.Valid() && |arguments| < 0x8000_0000
    requires 0 !in path && NulFree(arguments) && NulFree(before + [names.home + value] + later) && NulFree(after)
    requires Unset(names, before) && Unset(names, after)
    ensures var environment := before + [names.home + value] + later;
            HomeShown(names, Encoded(path, arguments) + Terminated(environment + after)) in {Unknown, Said(names, value)}
  {
    UnsetIsNone(names, after);
    FirstEntryIsRead(names, before, value, later);
    HomeShownIsSound(names, path, arguments, before + [names.home + value] + later, after);
  }

  /** Of a process that sets no home, the default is shown or nothing. */
  lemma DefaultShownIsSound(names: Names, path: Bytes, arguments: seq<Bytes>, environment: seq<Bytes>, after: seq<Bytes>)
    requires names.Valid() && |arguments| < 0x8000_0000
    requires 0 !in path && NulFree(arguments) && NulFree(environment) && NulFree(after)
    requires Unset(names, environment) && Unset(names, after)
    ensures HomeShown(names, Encoded(path, arguments) + Terminated(environment + after)) in {Unknown, Default}
  {
    UnsetIsNone(names, after);
    UnsetIsNone(names, environment);
    HomeShownIsSound(names, path, arguments, environment, after);
  }

  /** Where the kernel's strings follow as the kernel leaves them, and no entry
      is empty, it is shown: the value set, or else the default. */
  lemma ValueShownExactly(names: Names, path: Bytes, arguments: seq<Bytes>, before: seq<Bytes>, value: Bytes, later: seq<Bytes>,
                          after: seq<Bytes>, gap: nat)
    requires names.Valid() && |arguments| < 0x8000_0000
    requires 0 !in path && NulFree(arguments) && NulFree(before + [names.home + value] + later) && NulFree(after)
    requires Unset(names, before) && Unset(names, after) && KernelFollows(names, after, gap)
    requires var environment := before + [names.home + value] + later;
             forall i | 0 <= i < |environment| :: environment[i] != []
    ensures var environment := before + [names.home + value] + later;
            HomeShown(names, Encoded(path, arguments) + Terminated(environment + after)) == Said(names, value)
  {
    UnsetIsNone(names, after);
    FirstEntryIsRead(names, before, value, later);
    HomeShownExactly(names, path, arguments, before + [names.home + value] + later, after, gap);
  }

  lemma DefaultShownExactly(names: Names, path: Bytes, arguments: seq<Bytes>, environment: seq<Bytes>, after: seq<Bytes>,
                            gap: nat)
    requires names.Valid() && |arguments| < 0x8000_0000
    requires 0 !in path && NulFree(arguments) && NulFree(environment) && NulFree(after)
    requires Unset(names, environment) && Unset(names, after) && KernelFollows(names, after, gap)
    requires forall i | 0 <= i < |environment| :: environment[i] != []
    ensures HomeShown(names, Encoded(path, arguments) + Terminated(environment + after))
         == if environment == [] then Unknown else Default
  {
    UnsetIsNone(names, after);
    UnsetIsNone(names, environment);
    HomeShownExactly(names, path, arguments, environment, after, gap);
  }

  /** An empty string at `i`, and one of the kernel's own after it. */
  ghost predicate KernelAt(names: Names, strings: seq<Bytes>, i: nat) {
    i + 1 < |strings| && strings[i] == []
    && exists k, value :: 0 <= k < |names.kernel| && strings[i + 1] == names.kernel[k] + [61] + value
  }

  lemma KernelStartsAt(names: Names, strings: seq<Bytes>, end: nat)
    requires end <= |strings| && (end < |strings| ==> KernelAt(names, strings, end))
    requires forall i: nat | i < end :: !KernelAt(names, strings, i)
    ensures KernelStart(names, strings, 0) == end
  {
    var found := KernelStart(names, strings, 0);
    forall i | 0 <= i < |strings| - 1 ensures names.Kernel(strings[i + 1]) && strings[i] == [] <==> KernelAt(names, strings, i) {
      KernelIsKeyed(names, strings[i + 1]);
    }
  }

  /** The environment is what comes before the first of the kernel's strings,
      the empty ones at its end dropped; it is in doubt only when the home is
      set after that, and not before. */
  lemma EnvironmentExactly(names: Names, strings: seq<Bytes>, end: nat)
    requires end <= |strings| && (end < |strings| ==> KernelAt(names, strings, end))
    requires forall i: nat | i < end :: !KernelAt(names, strings, i)
    ensures if Unset(names, strings[..end]) && !Unset(names, strings[end..]) then Environment(names, strings) == None
            else
              && Environment(names, strings).Some?
              && var read := Environment(names, strings).value;
              && read <= strings[..end] && (read != [] ==> read[|read| - 1] != [])
              && forall i | |read| <= i < end :: strings[i] == []
  {
    KernelStartsAt(names, strings, end);
    SetsAny(names, strings[..end]);
    SetsAny(names, strings[end..]);
  }

  lemma SetsAny(names: Names, entries: seq<Bytes>)
    ensures AnySets(names, entries) <==> !Unset(names, entries)
  {
    if i :| 0 <= i < |entries| && names.home <= entries[i] {
      assert names.Sets(entries[i]);
    }
  }

  // ----- The names on macOS -----

  function Ascii(text: string): (r: Bytes)
    ensures |r| == |text|
  {
    seq(|text|, i requires 0 <= i < |text| => AsciiByte(text[i]))
  }

  function AsciiByte(c: char): Byte {
    (c as int) % 0x100
  }

  const APPLE: seq<string> :=
    [ "pfz", "stack_guard", "malloc_entropy", "ptr_munge", "main_stack", "executable_file", "dyld_file"
    , "executable_cdhash", "executable_boothash", "arm64e_abi", "th_port", "security_config"]

  function MacOs(blank: Bytes -> bool): Names {
    Names(Ascii("COMMONMEASURE_HOME="), seq(|APPLE|, i requires 0 <= i < |APPLE| => Ascii(APPLE[i])), blank)
  }

  lemma AppleKeys(i: nat)
    requires i < |APPLE|
    ensures APPLE[i] != "" && 'a' <= APPLE[i][0] <= 'z'
  {
  }

  lemma KernelKey(blank: Bytes -> bool, i: nat)
    requires i < |APPLE|
    ensures MacOs(blank).kernel[i] != [] && MacOs(blank).kernel[i][0] != AsciiByte('C')
  {
    AppleKeys(i);
  }

  /** None of the kernel's own strings sets the home, so none after an environment can. */
  lemma KernelStringsSetNoHome(blank: Bytes -> bool, entry: Bytes)
    ensures MacOs(blank).Valid()
    ensures MacOs(blank).Kernel(entry) ==> !MacOs(blank).Sets(entry)
  {
    var names := MacOs(blank);
    assert names.home[0] == AsciiByte('C');
    forall i: nat | i < |names.kernel| ensures names.kernel[i] != [] && names.kernel[i][0] != names.home[0] {
      KernelKey(blank, i);
    }
    KernelIsNotHome(names, entry);
  }

  lemma KernelIsNotHome(names: Names, entry: Bytes)
    requires names.Valid() && forall i | 0 <= i < |names.kernel| :: names.kernel[i][0] != names.home[0]
    ensures names.Kernel(entry) ==> !names.Sets(entry)
  {
    if names.Kernel(entry) {
      var i :| 0 <= i < |names.kernel| && names.kernel[i] + [61] <= entry;
      assert entry[0] == (names.kernel[i] + [61])[0];
    }
  }
}
