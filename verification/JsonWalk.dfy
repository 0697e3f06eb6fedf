/** The walk that rewrites every string of a JSON answer, except strings at
    the pointers it is told to keep. */
module JsonWalk {
  import opened Wrappers

  /** `members` in the order the map gives them. */
  datatype Json =
    | Null
    | Bool(b: bool)
    | Number(digits: string)
    | Str(text: string)
    | Arr(items: seq<Json>)
    | Obj(members: seq<Member>)

  datatype Member = Member(key: string, value: Json)

  function Split(text: string): (r: seq<string>)
    ensures r != []
  {
    if text == [] then [[]]
    else if text[0] == '/' then [[]] + Split(text[1..])
    else var r := Split(text[1..]); [[text[0]] + r[0]] + r[1..]
  }

  /** The segments of a pointer: what follows each `/`. */
  function Segments(pointer: string): seq<string> {
    Split(pointer)[1..]
  }

  predicate PointsAt(pointer: string, at: seq<string>) {
    Segments(pointer) == at
  }

  predicate Kept(kept: seq<string>, at: seq<string>) {
    exists i | 0 <= i < |kept| :: PointsAt(kept[i], at)
  }

  predicate HasKey(pairs: seq<Member>, key: string) {
    exists i | 0 <= i < |pairs| :: pairs[i].key == key
  }

  /** Collecting into a map: of two pairs with one key, the later is held. */
  function Collect(pairs: seq<Member>): (r: seq<Member>)
    ensures |r| <= |pairs|
  {
    if pairs == [] then []
    else if HasKey(pairs[1..], pairs[0].key) then Collect(pairs[1..])
    else [pairs[0]] + Collect(pairs[1..])
  }

  function Index(members: seq<Member>, key: string): (r: int)
    ensures r == -1 || (0 <= r < |members| && members[r].key == key)
    ensures r == -1 ==> !HasKey(members, key)
  {
    if members == [] then -1
    else if members[0].key == key then 0
    else
      var later := Index(members[1..], key);
      assert forall i | 1 <= i < |members| :: members[i] == members[1..][i - 1];
      if later == -1 then -1 else later + 1
  }

  function Field(v: Json, key: string): (r: Option<Json>)
    ensures r.Some? ==> r.value < v
  {
    if v.Obj? && Index(v.members, key) >= 0 then
      var i := Index(v.members, key);
      assert v.members[i] in v.members;
      Some(v.members[i].value)
    else None
  }

  /** `v` at `at`, rewritten. An array pushes `*`, an object its member's key as it was. */
  function Walk(t: string -> string, v: Json, at: seq<string>, kept: seq<string>): Json
    decreases v, 1
  {
    match v
    case Str(text) => if Kept(kept, at) then v else Str(t(text))
    case Arr(items) => Arr(seq(|items|, i requires 0 <= i < |items| => Walk(t, items[i], at + ["*"], kept)))
    case Obj(members) => Obj(Collect(WalkMembers(t, members, at, kept)))
    case _ => v
  }

  function WalkMembers(t: string -> string, members: seq<Member>, at: seq<string>, kept: seq<string>)
    : (r: seq<Member>)
    ensures |r| == |members|
    decreases members, 0
  {
    seq(|members|, i requires 0 <= i < |members| =>
      var m := members[i];
      assert m in members;
      Member(t(m.key), Walk(t, m.value, at + [m.key], kept)))
  }

  /** The walk as it runs: one path, pushed before each child and popped after it. */
  class Walker {
    var at: seq<string>

    constructor ()
      ensures at == []
    {
      at := [];
    }

    method Value(t: string -> string, v: Json, kept: seq<string>) returns (r: Json)
      modifies this
      ensures at == old(at) && r == Walk(t, v, at, kept)
      decreases v, 1
    {
      if v.Str? && Kept(kept, at) {
        return v;
      }
      match v {
        case Str(text) => r := Str(t(text));
        case Arr(items) =>
          var out := [];
          for i := 0 to |items|
            invariant at == old(at) && |out| == i
            invariant forall j | 0 <= j < i :: out[j] == Walk(t, items[j], at + ["*"], kept)
          {
            at := at + ["*"];
            var item := Value(t, items[i], kept);
            at := at[..|at| - 1];
            out := out + [item];
          }
          r := Arr(out);
        case Obj(members) =>
          var out := Members(t, members, kept);
          r := Obj(Collect(out));
        case _ => r := v;
      }
    }

    method Members(t: string -> string, members: seq<Member>, kept: seq<string>) returns (out: seq<Member>)
      modifies this
      ensures at == old(at) && out == WalkMembers(t, members, at, kept)
      decreases members, 0
    {
      out := [];
      for i := 0 to |members|
        invariant at == old(at) && |out| == i
        invariant forall j | 0 <= j < i :: out[j] == WalkMembers(t, members, at, kept)[j]
      {
        var m := members[i];
        assert m in members;
        at := at + [m.key];
        var item := Value(t, m.value, kept);
        at := at[..|at| - 1];
        out := out + [Member(t(m.key), item)];
      }
    }
  }

  // ----- What the walk does at every place -----

  function Children(v: Json): nat {
    match v
    case Arr(items) => |items|
    case Obj(members) => |members|
    case _ => 0
  }

  function Child(v: Json, i: nat): (r: Json)
    requires i < Children(v)
    ensures r < v
  {
    match v
    case Arr(items) => items[i]
    case Obj(members) => assert members[i] in members; members[i].value
  }

  function Segment(v: Json, i: nat): string
    requires i < Children(v)
  {
    if v.Arr? then "*" else v.members[i].key
  }

  /** No two keys of one object, at any depth, are rewritten to the same key. */
  predicate KeysApart(t: string -> string, v: Json)
    decreases v
  {
    && (v.Obj? ==> forall i, j | 0 <= i < j < |v.members| :: t(v.members[i].key) != t(v.members[j].key))
    && (forall i | 0 <= i < Children(v) :: KeysApart(t, Child(v, i)))
  }

  /** The same arrays and objects, with as many children each. */
  predicate SameShape(v: Json, w: Json)
    decreases v
  {
    && (v.Arr? <==> w.Arr?) && (v.Obj? <==> w.Obj?) && (v.Str? <==> w.Str?)
    && Children(v) == Children(w)
    && (v.Null? || v.Bool? || v.Number? ==> v == w)
    && forall i | 0 <= i < Children(v) :: SameShape(Child(v, i), Child(w, i))
  }

  predicate KeysDistinct(pairs: seq<Member>) {
    forall i, j | 0 <= i < j < |pairs| :: pairs[i].key != pairs[j].key
  }

  lemma {:induction false} CollectApart(pairs: seq<Member>)
    ensures Collect(pairs) == pairs <==> KeysDistinct(pairs)
    ensures |Collect(pairs)| == |pairs| <==> Collect(pairs) == pairs
  {
    if pairs != [] {
      CollectApart(pairs[1..]);
      DistinctNext(pairs);
      assert pairs == [pairs[0]] + pairs[1..];
    }
  }

  lemma DistinctNext(pairs: seq<Member>)
    requires pairs != []
    ensures KeysDistinct(pairs) <==> !HasKey(pairs[1..], pairs[0].key) && KeysDistinct(pairs[1..])
  {
    var rest := pairs[1..];
    if KeysDistinct(pairs) {
      forall i, j | 0 <= i < j < |rest| ensures rest[i].key != rest[j].key {
        assert pairs[i + 1].key != pairs[j + 1].key;
      }
      forall i | 0 <= i < |rest| ensures rest[i].key != pairs[0].key {
        assert pairs[0].key != pairs[i + 1].key;
      }
    }
    if !HasKey(rest, pairs[0].key) && KeysDistinct(rest) {
      forall i, j | 0 <= i < j < |pairs| ensures pairs[i].key != pairs[j].key {
        assert pairs[j] == rest[j - 1];
        if i > 0 {
          assert pairs[i] == rest[i - 1];
        }
      }
    }
  }

  predicate KeysApartHere(t: string -> string, v: Json) {
    v.Obj? ==> forall i, j | 0 <= i < j < |v.members| :: t(v.members[i].key) != t(v.members[j].key)
  }

  lemma WalkKeepsChildren(t: string -> string, v: Json, at: seq<string>, kept: seq<string>)
    ensures Children(Walk(t, v, at, kept)) == Children(v) <==> KeysApartHere(t, v)
    ensures KeysApartHere(t, v) ==> forall i | 0 <= i < Children(v) ::
              && Child(Walk(t, v, at, kept), i) == Walk(t, Child(v, i), at + [Segment(v, i)], kept)
              && (v.Obj? ==> Walk(t, v, at, kept).members[i].key == t(v.members[i].key))
  {
    if v.Obj? {
      var walked := WalkMembers(t, v.members, at, kept);
      CollectApart(walked);
      assert forall i | 0 <= i < |walked| :: walked[i].key == t(v.members[i].key);
    }
  }

  /** The walk keeps the shape of a value exactly when no two keys of an object fall together. */
  lemma {:induction false} ShapeKeptExactly(t: string -> string, v: Json, at: seq<string>, kept: seq<string>)
    ensures SameShape(v, Walk(t, v, at, kept)) <==> KeysApart(t, v)
    decreases v
  {
    WalkKeepsChildren(t, v, at, kept);
    if KeysApartHere(t, v) {
      forall i | 0 <= i < Children(v)
        ensures SameShape(Child(v, i), Child(Walk(t, v, at, kept), i)) <==> KeysApart(t, Child(v, i))
      {
        ShapeKeptExactly(t, Child(v, i), at + [Segment(v, i)], kept);
      }
    }
  }

  /** The value reached by taking the children `path` numbers. */
  predicate HasPlace(v: Json, path: seq<nat>)
    decreases |path|
  {
    path == [] || (path[0] < Children(v) && HasPlace(Child(v, path[0]), path[1..]))
  }

  function Place(v: Json, path: seq<nat>): Json
    requires HasPlace(v, path)
    decreases |path|
  {
    if path == [] then v else Place(Child(v, path[0]), path[1..])
  }

  /** The pointer to that place, below `at`. */
  function PointerTo(v: Json, path: seq<nat>, at: seq<string>): seq<string>
    requires HasPlace(v, path)
    decreases |path|
  {
    if path == [] then at else PointerTo(Child(v, path[0]), path[1..], at + [Segment(v, path[0])])
  }

  /** A string is rewritten unless kept; a container keeps its size and has its
      keys rewritten, kept or not; anything else stays. */
  predicate Rewritten(t: string -> string, before: Json, after: Json, kept: bool) {
    match before
    case Str(text) => after == Str(if kept then text else t(text))
    case Arr(items) => after.Arr? && |after.items| == |items|
    case Obj(members) =>
      after.Obj? && |after.members| == |members|
      && forall i | 0 <= i < |members| :: after.members[i].key == t(members[i].key)
    case _ => after == before
  }

  /** The walked value has the places of the value, no others, and each holds
      what it held, rewritten unless its pointer is kept. */
  lemma {:induction false} WalkAtEveryPlace(
    t: string -> string, v: Json, at: seq<string>, kept: seq<string>, path: seq<nat>)
    requires KeysApart(t, v)
    ensures HasPlace(Walk(t, v, at, kept), path) <==> HasPlace(v, path)
    ensures HasPlace(v, path) ==>
              Rewritten(t, Place(v, path), Place(Walk(t, v, at, kept), path), Kept(kept, PointerTo(v, path, at)))
    decreases |path|
  {
    WalkKeepsChildren(t, v, at, kept);
    if path != [] && path[0] < Children(v) {
      WalkAtEveryPlace(t, Child(v, path[0]), at + [Segment(v, path[0])], kept, path[1..]);
    }
  }

  /** A walk that starts elsewhere, with pointers that keep the same places, gives the same value. */
  lemma {:induction false} WalkElsewhere(
    t: string -> string, v: Json, at: seq<string>, kept: seq<string>, prefix: seq<string>, kept': seq<string>)
    requires forall rest: seq<string> :: Kept(kept', prefix + rest) == Kept(kept, rest)
    ensures Walk(t, v, prefix + at, kept') == Walk(t, v, at, kept)
    decreases v
  {
    forall i | 0 <= i < Children(v)
      ensures Walk(t, Child(v, i), prefix + at + [Segment(v, i)], kept') == Walk(t, Child(v, i), at + [Segment(v, i)], kept)
    {
      assert prefix + at + [Segment(v, i)] == prefix + (at + [Segment(v, i)]);
      WalkElsewhere(t, Child(v, i), at + [Segment(v, i)], kept, prefix, kept');
    }
    match v
    case Obj(members) =>
      assert WalkMembers(t, members, prefix + at, kept') == WalkMembers(t, members, at, kept) by {
        forall i | 0 <= i < |members|
          ensures WalkMembers(t, members, prefix + at, kept')[i] == WalkMembers(t, members, at, kept)[i]
        {
          assert Child(v, i) == members[i].value;
        }
      }
    case Arr(items) =>
      forall i | 0 <= i < |items|
        ensures Walk(t, items[i], prefix + at + ["*"], kept') == Walk(t, items[i], at + ["*"], kept)
      {
        assert Child(v, i) == items[i];
      }
    case _ =>
  }

  // ----- What the walk keeps of any value -----

  lemma {:induction false} CollectMembers(pairs: seq<Member>)
    ensures KeysDistinct(Collect(pairs))
    ensures forall i | 0 <= i < |Collect(pairs)| :: Collect(pairs)[i] in pairs
  {
    if pairs != [] {
      CollectMembers(pairs[1..]);
      var later := Collect(pairs[1..]);
      if !HasKey(pairs[1..], pairs[0].key) {
        assert Collect(pairs)[1..] == later;
        forall i | 0 <= i < |later| ensures later[i].key != pairs[0].key {
          var j :| 0 <= j < |pairs[1..]| && pairs[1..][j] == later[i];
        }
        DistinctNext(Collect(pairs));
      }
    }
  }

  /** A walked child is a child walked, whatever keys fall together. */
  lemma WalkedChild(t: string -> string, v: Json, at: seq<string>, kept: seq<string>, i: nat) returns (j: nat)
    requires i < Children(Walk(t, v, at, kept))
    ensures var w := Walk(t, v, at, kept);
            && j < Children(v) && (v.Arr? <==> w.Arr?) && (v.Obj? <==> w.Obj?)
            && Child(w, i) == Walk(t, Child(v, j), at + [Segment(v, j)], kept)
            && Segment(w, i) == if v.Arr? then "*" else t(v.members[j].key)
  {
    j := i;
    if v.Obj? {
      var pairs := WalkMembers(t, v.members, at, kept);
      CollectMembers(pairs);
      assert Collect(pairs)[i] in pairs;
      j :| 0 <= j < |pairs| && pairs[j] == Collect(pairs)[i];
    }
  }

  /** A value as a parser gives it: its numbers are numbers, no object has a key
      twice, and it is nested no deeper than `depth`. */
  predicate WellFormed(number: string -> bool, v: Json, depth: nat)
    decreases v
  {
    && (v.Number? ==> number(v.digits))
    && (v.Obj? ==> KeysDistinct(v.members))
    && (v.Arr? || v.Obj? ==> depth > 0)
    && forall i | 0 <= i < Children(v) :: WellFormed(number, Child(v, i), if depth > 0 then depth - 1 else 0)
  }

  /** The walk keeps a value well formed. */
  lemma {:induction false} WalkKeepsWellFormed(
    t: string -> string, v: Json, at: seq<string>, kept: seq<string>, number: string -> bool, depth: nat)
    requires WellFormed(number, v, depth)
    ensures WellFormed(number, Walk(t, v, at, kept), depth)
    decreases v
  {
    var w := Walk(t, v, at, kept);
    forall i | 0 <= i < Children(w) ensures WellFormed(number, Child(w, i), if depth > 0 then depth - 1 else 0) {
      var j := WalkedChild(t, v, at, kept, i);
      WalkKeepsWellFormed(t, Child(v, j), at + [Segment(v, j)], kept, number, if depth > 0 then depth - 1 else 0);
    }
    if v.Obj? {
      CollectMembers(WalkMembers(t, v.members, at, kept));
    }
  }

  /** Every key of `v` has `p`, and every string but those at kept pointers. */
  predicate TextsBut(p: string -> bool, v: Json, at: seq<string>, kept: seq<string>)
    decreases v
  {
    && (v.Str? ==> Kept(kept, at) || p(v.text))
    && (v.Obj? ==> forall i | 0 <= i < |v.members| :: p(v.members[i].key))
    && forall i | 0 <= i < Children(v) :: TextsBut(p, Child(v, i), at + [Segment(v, i)], kept)
  }

  /** `to` is `at` with its keys rewritten. */
  predicate Renamed(t: string -> string, at: seq<string>, to: seq<string>) {
    |at| == |to| && forall i | 0 <= i < |at| :: to[i] == t(at[i]) || to[i] == at[i] == "*"
  }

  predicate LeavesSegments(t: string -> string, kept: seq<string>) {
    forall i | 0 <= i < |kept| :: forall j | 0 <= j < |Segments(kept[i])| :: t(Segments(kept[i])[j]) == Segments(kept[i])[j]
  }

  lemma KeptIsNotRenamed(t: string -> string, at: seq<string>, to: seq<string>, kept: seq<string>)
    requires LeavesSegments(t, kept) && Renamed(t, at, to) && Kept(kept, at)
    ensures to == at
  {
    var i :| 0 <= i < |kept| && PointsAt(kept[i], at);
    assert at == Segments(kept[i]);
  }

  /** What the rewrite gives every text, every key and string of the walked
      value has, its own kept pointers apart, whatever keys fall together. */
  lemma {:induction false} WalkedTexts(
    t: string -> string, p: string -> bool, v: Json, at: seq<string>, to: seq<string>, kept: seq<string>)
    requires (forall s: string :: p(t(s))) && LeavesSegments(t, kept) && Renamed(t, at, to)
    ensures TextsBut(p, Walk(t, v, at, kept), to, kept)
    decreases v
  {
    var w := Walk(t, v, at, kept);
    if v.Str? && Kept(kept, at) {
      KeptIsNotRenamed(t, at, to, kept);
    }
    forall i | 0 <= i < Children(w)
      ensures TextsBut(p, Child(w, i), to + [Segment(w, i)], kept)
      ensures w.Obj? ==> p(w.members[i].key)
    {
      var j := WalkedChild(t, v, at, kept, i);
      WalkedTexts(t, p, Child(v, j), at + [Segment(v, j)], to + [Segment(w, i)], kept);
    }
  }

  predicate SameMember(v: Json, w: Json, i: nat, j: nat)
    requires v.Obj? && w.Obj? && i < |v.members| && j < |w.members|
    decreases v, 0
  {
    v.members[i].key == w.members[j].key && (assert v.members[i] in v.members; Same(v.members[i].value, w.members[j].value))
  }

  predicate HasTwin(v: Json, w: Json, i: nat)
    requires v.Obj? && w.Obj? && i < |v.members|
    decreases v, 1
  {
    exists j | 0 <= j < |w.members| :: SameMember(v, w, i, j)
  }

  predicate IsTwin(v: Json, w: Json, j: nat)
    requires v.Obj? && w.Obj? && j < |w.members|
    decreases v, 1
  {
    exists i | 0 <= i < |v.members| :: SameMember(v, w, i, j)
  }

  /** The same value, but for the order of the members of its objects. */
  predicate Same(v: Json, w: Json)
    decreases v, 2
  {
    if v.Arr? && w.Arr? then
      |v.items| == |w.items| && forall i | 0 <= i < |v.items| :: Same(v.items[i], w.items[i])
    else if v.Obj? && w.Obj? then
      && |v.members| == |w.members|
      && (forall i | 0 <= i < |v.members| :: HasTwin(v, w, i))
      && (forall j | 0 <= j < |w.members| :: IsTwin(v, w, j))
    else v == w
  }

  lemma {:induction false} SameTexts(p: string -> bool, v: Json, w: Json, at: seq<string>, kept: seq<string>)
    requires Same(v, w) && TextsBut(p, v, at, kept)
    ensures TextsBut(p, w, at, kept)
    decreases v
  {
    forall j | 0 <= j < Children(w)
      ensures TextsBut(p, Child(w, j), at + [Segment(w, j)], kept)
      ensures w.Obj? ==> p(w.members[j].key)
    {
      var i: nat := j;
      if w.Obj? {
        assert IsTwin(v, w, j);
        i :| 0 <= i < |v.members| && SameMember(v, w, i, j);
      }
      assert Child(v, i) == (if v.Obj? then v.members[i].value else v.items[i]);
      SameTexts(p, Child(v, i), Child(w, j), at + [Segment(w, j)], kept);
    }
  }
}
