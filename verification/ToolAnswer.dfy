/** A whole answer: the walk of its JSON, and of the payload it carries as text. */
module ToolAnswer {
  import opened Wrappers
  import opened JsonWalk
  import opened HomeText
  import HomeClean
  import HomeForms

  /** A pointer written from its segments, each after a `/`. */
  function Pointer(segments: seq<string>): string {
    if segments == [] then "" else "/" + segments[0] + Pointer(segments[1..])
  }

  const TOOL_PAYLOAD: seq<string> := ["result", "content", "*", "text"]
  const STRUCTURED_PAYLOAD: seq<string> := ["result", "structuredContent"]
  const BLOCK_BLOB: seq<string> := ["result", "content", "*", "resource", "blob"]
  const BLOCK_URI: seq<string> := ["result", "content", "*", "resource", "uri"]

  /** The supplier's own fields in a payload, by segments. */
  const SUPPLIER_FIELDS: seq<seq<string>> :=
    [ ["content"], ["url"], ["next"]
    , ["declarations", "robots", "requested_url"]
    , ["declarations", "robots", "robots_url"]
    , ["declarations", "robots", "final_url"]
    , ["results", "*", "url"], ["results", "*", "title"], ["results", "*", "text"]]

  function Pointers(paths: seq<seq<string>>): (r: seq<string>)
    ensures |r| == |paths|
  {
    seq(|paths|, i requires 0 <= i < |paths| => Pointer(paths[i]))
  }

  /** JSON text and its reader: which numbers it writes, and how deep it reads. */
  datatype Codec = Codec(read: string -> Option<Json>, write: Json -> string, number: string -> bool, depth: nat) {
    predicate Reads(v: Json) {
      WellFormed(number, v, depth)
    }

    predicate ReadsAs(text: string, v: Json) {
      read(text).Some? && Same(v, read(text).value)
    }

    /** What is read is well formed, and what is well formed is read back as it
        was written, but for the order in which an object's members are held. */
    ghost predicate Valid() {
      && (forall text: string :: read(text).Some? ==> Reads(read(text).value))
      && (forall v: Json | Reads(v) :: ReadsAs(write(v), v))
    }
  }

  function WithField(v: Json, key: string, value: Json): Json
    requires Field(v, key).Some?
  {
    var i := Index(v.members, key);
    Obj(v.members[i := Member(key, value)])
  }

  function FieldOf(v: Option<Json>, key: string): Option<Json> {
    if v.Some? then Field(v.value, key) else None
  }

  /** Each pointer below the structured copy, as text put after text. */
  function Prefixed(pointers: seq<string>): (r: seq<string>)
    ensures |r| == |pointers|
  {
    seq(|pointers|, i requires 0 <= i < |pointers| => Pointer(STRUCTURED_PAYLOAD) + pointers[i])
  }

  /** What the walk of the whole answer keeps. */
  function Outside(succeeded: bool, supplier: seq<string>): seq<string> {
    if succeeded then
      [Pointer(TOOL_PAYLOAD), Pointer(BLOCK_BLOB), Pointer(BLOCK_URI)] + Prefixed(supplier)
    else [Pointer(TOOL_PAYLOAD)]
  }

  function Payload(c: Codec, t: string -> string, text: string, kept: seq<string>): string {
    match c.read(text)
    case Some(payload) => c.write(Walk(t, payload, [], kept))
    case None => t(text)
  }

  function WithPayload(c: Codec, t: string -> string, item: Json, kept: seq<string>): Json {
    match Field(item, "text")
    case Some(Str(text)) => WithField(item, "text", Str(Payload(c, t, text, kept)))
    case _ => item
  }

  function WithPayloads(c: Codec, t: string -> string, items: seq<Json>, kept: seq<string>): (r: seq<Json>)
    ensures |r| == |items|
  {
    seq(|items|, i requires 0 <= i < |items| => WithPayload(c, t, items[i], kept))
  }

  function Succeeded(body: Json): bool {
    FieldOf(Field(body, "result"), "isError") == Some(Bool(false))
  }

  function SupplierPointers(succeeded: bool): seq<string> {
    if succeeded then Pointers(SUPPLIER_FIELDS) else []
  }

  /** The body as it is served. */
  function Served(c: Codec, t: string -> string, body: Json): Json {
    var kept := SupplierPointers(Succeeded(body));
    var walked := Walk(t, body, [], Outside(Succeeded(body), kept));
    var result := Field(walked, "result");
    match FieldOf(result, "content")
    case Some(Arr(items)) =>
      WithField(walked, "result", WithField(result.value, "content", Arr(WithPayloads(c, t, items, kept))))
    case _ => walked
  }

  // ----- Pointers -----

  lemma {:induction false} SplitJoined(x: string, y: string)
    requires '/' !in x
    ensures Split(x + "/" + y) == [x] + Split(y)
  {
    var joined := x + "/" + y;
    if x == [] {
      assert joined[1..] == y;
    } else {
      assert joined[0] == x[0] && x[0] in x && joined[1..] == x[1..] + "/" + y;
      SplitJoined(x[1..], y);
      assert [x[0]] + x[1..] == x && Split(joined)[1..] == Split(y);
    }
  }

  lemma {:induction false} SplitPlain(x: string)
    requires '/' !in x
    ensures Split(x) == [x]
  {
    if x != [] {
      assert x[0] in x;
      SplitPlain(x[1..]);
      assert [x[0]] + x[1..] == x;
    }
  }

  /** No separator of any platform. */
  predicate Name(s: string) {
    '/' !in s && '\\' !in s
  }

  predicate Plain(segments: seq<string>) {
    forall i | 0 <= i < |segments| :: Name(segments[i])
  }

  /** Splitting a pointer gives back the segments it was written from. */
  lemma {:induction false} SplitPointer(first: string, segments: seq<string>)
    requires Name(first) && Plain(segments)
    ensures Split(first + Pointer(segments)) == [first] + segments
    decreases |segments|
  {
    if segments == [] {
      assert first + "" == first;
      SplitPlain(first);
    } else {
      var rest := segments[0] + Pointer(segments[1..]);
      assert first + Pointer(segments) == first + "/" + rest;
      SplitJoined(first, rest);
      SplitPointer(segments[0], segments[1..]);
      assert [segments[0]] + segments[1..] == segments;
    }
  }

  lemma PointerSegments(segments: seq<string>)
    requires Plain(segments)
    ensures Segments(Pointer(segments)) == segments
  {
    SplitPointer("", segments);
    assert "" + Pointer(segments) == Pointer(segments);
  }

  lemma {:induction false} PointerJoined(x: seq<string>, y: seq<string>)
    ensures Pointer(x) + Pointer(y) == Pointer(x + y)
  {
    if x == [] {
      assert x + y == y;
    } else {
      assert (x + y)[1..] == x[1..] + y;
      PointerJoined(x[1..], y);
      assert "/" + x[0] + (Pointer(x[1..]) + Pointer(y)) == "/" + x[0] + Pointer(x[1..]) + Pointer(y);
    }
  }

  /** What `Outside` lists, by segments. */
  function OutsidePaths(succeeded: bool, supplier: seq<seq<string>>): seq<seq<string>> {
    if succeeded then
      [TOOL_PAYLOAD, BLOCK_BLOB, BLOCK_URI]
      + seq(|supplier|, i requires 0 <= i < |supplier| => STRUCTURED_PAYLOAD + supplier[i])
    else [TOOL_PAYLOAD]
  }

  lemma OutsideBySegments(succeeded: bool, supplier: seq<seq<string>>)
    ensures Outside(succeeded, Pointers(supplier)) == Pointers(OutsidePaths(succeeded, supplier))
  {
    if succeeded {
      forall i | 0 <= i < |supplier|
        ensures Prefixed(Pointers(supplier))[i] == Pointer(STRUCTURED_PAYLOAD + supplier[i])
      {
        PointerJoined(STRUCTURED_PAYLOAD, supplier[i]);
      }
      assert Prefixed(Pointers(supplier))
          == Pointers(seq(|supplier|, i requires 0 <= i < |supplier| => STRUCTURED_PAYLOAD + supplier[i]));
    }
  }

  predicate AllPlain(paths: seq<seq<string>>) {
    forall i | 0 <= i < |paths| :: Plain(paths[i])
  }

  /** Pointers written from segments keep exactly the places those segments name. */
  lemma KeptBySegments(paths: seq<seq<string>>, at: seq<string>)
    requires AllPlain(paths)
    ensures Kept(Pointers(paths), at) <==> at in paths
  {
    forall i | 0 <= i < |paths| ensures Segments(Pointers(paths)[i]) == paths[i] {
      PointerSegments(paths[i]);
    }
    if at in paths {
      var i :| 0 <= i < |paths| && paths[i] == at;
      assert PointsAt(Pointers(paths)[i], at);
    }
  }

  lemma AnswerPathsPlain()
    ensures Plain(TOOL_PAYLOAD) && Plain(STRUCTURED_PAYLOAD)
  {
  }

  lemma BlockPathsPlain()
    ensures Plain(BLOCK_BLOB) && Plain(BLOCK_URI)
  {
  }

  lemma RobotsPathsPlain()
    ensures Plain(SUPPLIER_FIELDS[3]) && Plain(SUPPLIER_FIELDS[4]) && Plain(SUPPLIER_FIELDS[5])
  {
  }

  lemma SupplierPathsPlain()
    ensures AllPlain(SUPPLIER_FIELDS)
  {
    RobotsPathsPlain();
  }

  lemma OutsidePlain(succeeded: bool)
    ensures AllPlain(OutsidePaths(succeeded, SUPPLIER_FIELDS))
  {
    AnswerPathsPlain();
    BlockPathsPlain();
    SupplierPathsPlain();
  }

  /** Below the structured copy the answer's walk keeps what the payload's own walk keeps. */
  lemma OutsideKeepsCopy(rest: seq<string>)
    ensures Kept(Outside(true, Pointers(SUPPLIER_FIELDS)), STRUCTURED_PAYLOAD + rest) == Kept(Pointers(SUPPLIER_FIELDS), rest)
  {
    OutsideBySegments(true, SUPPLIER_FIELDS);
    OutsidePlain(true);
    SupplierPathsPlain();
    KeptBySegments(OutsidePaths(true, SUPPLIER_FIELDS), STRUCTURED_PAYLOAD + rest);
    KeptBySegments(SUPPLIER_FIELDS, rest);
    CopyPath(SUPPLIER_FIELDS, rest);
  }

  lemma CopyPath(paths: seq<seq<string>>, rest: seq<string>)
    ensures STRUCTURED_PAYLOAD + rest in OutsidePaths(true, paths) <==> rest in paths
  {
    var at, outside := STRUCTURED_PAYLOAD + rest, OutsidePaths(true, paths);
    assert at[1] == "structuredContent" && |"structuredContent"| != |"content"|;
    assert at != TOOL_PAYLOAD && at != BLOCK_BLOB && at != BLOCK_URI;
    assert forall i | 0 <= i < |paths| :: outside[i + 3] == STRUCTURED_PAYLOAD + paths[i];
    forall i | 0 <= i < |paths| ensures at == outside[i + 3] <==> rest == paths[i] {
      assert at[|STRUCTURED_PAYLOAD|..] == rest && (STRUCTURED_PAYLOAD + paths[i])[|STRUCTURED_PAYLOAD|..] == paths[i];
    }
  }

  /** The walk of the answer keeps the payload text. */
  lemma PayloadKept(succeeded: bool, kept: seq<string>)
    ensures Kept(Outside(succeeded, kept), TOOL_PAYLOAD)
  {
    AnswerPathsPlain();
    PointerSegments(TOOL_PAYLOAD);
    assert PointsAt(Outside(succeeded, kept)[0], TOOL_PAYLOAD);
  }

  // ----- Fields -----

  /** One member of `v`, if any, is rewritten to `key`. */
  predicate Alone(t: string -> string, v: Json, key: string) {
    v.Obj? ==> forall i, j | 0 <= i < |v.members| && 0 <= j < |v.members| ::
      t(v.members[i].key) == t(v.members[j].key) == key ==> i == j
  }

  /** Of the members with one key, the last is held once they are collected. */
  lemma {:induction false} CollectHolds(pairs: seq<Member>, i: nat)
    requires i < |pairs| && forall j | i < j < |pairs| :: pairs[j].key != pairs[i].key
    ensures Field(Obj(Collect(pairs)), pairs[i].key) == Some(pairs[i].value)
  {
    var later := Collect(pairs[1..]);
    if i == 0 {
      assert !HasKey(pairs[1..], pairs[0].key);
      assert Collect(pairs) == [pairs[0]] + later;
    } else {
      assert forall j | 0 <= j < |pairs| - 1 :: pairs[1..][j] == pairs[j + 1];
      CollectHolds(pairs[1..], i - 1);
      if !HasKey(pairs[1..], pairs[0].key) {
        assert pairs[1..][i - 1].key != pairs[0].key;
        assert Collect(pairs) == [pairs[0]] + later && Collect(pairs)[1..] == later;
      }
    }
  }

  lemma FieldOfWalk(t: string -> string, v: Json, at: seq<string>, kept: seq<string>, key: string)
    requires Alone(t, v, key) && t(key) == key && Field(v, key).Some?
    ensures Field(Walk(t, v, at, kept), key) == Some(Walk(t, Field(v, key).value, at + [key], kept))
  {
    var i, pairs := Index(v.members, key), WalkMembers(t, v.members, at, kept);
    assert forall j | 0 <= j < |pairs| :: pairs[j].key == t(v.members[j].key);
    CollectHolds(pairs, i);
  }

  lemma FieldOfUpdate(v: Json, key: string, value: Json, other: string)
    requires Field(v, key).Some?
    ensures Field(WithField(v, key, value), other) == if other == key then Some(value) else Field(v, other)
  {
    IndexOfUpdate(v.members, Index(v.members, key), value, other);
  }

  lemma {:induction false} IndexOfUpdate(members: seq<Member>, i: nat, value: Json, key: string)
    requires i < |members|
    ensures Index(members[i := Member(members[i].key, value)], key) == Index(members, key)
  {
    if i > 0 {
      var updated := members[i := Member(members[i].key, value)];
      assert updated[1..] == members[1..][i - 1 := Member(members[1..][i - 1].key, value)];
      IndexOfUpdate(members[1..], i - 1, value, key);
    } else {
      assert members[0 := Member(members[0].key, value)][1..] == members[1..];
    }
  }

  // ----- The two copies of a payload -----

  /** An answer that carries payload `p` as text in item `i` and again as its structured copy. */
  predicate Carries(c: Codec, body: Json, p: Json, i: nat) {
    && Succeeded(body)
    && var result := Field(body, "result");
    && FieldOf(result, "structuredContent") == Some(p)
    && var content := FieldOf(result, "content");
    && content.Some? && content.value.Arr? && i < |content.value.items|
    && var text := Field(content.value.items[i], "text");
    && text.Some? && text.value.Str? && c.read(text.value.text) == Some(p)
  }

  /** And the same, where the two copies need only be the same value. */
  predicate CarriesSame(c: Codec, body: Json, p: Json, i: nat) {
    && Succeeded(body)
    && var result := Field(body, "result");
    && FieldOf(result, "structuredContent") == Some(p)
    && var content := FieldOf(result, "content");
    && content.Some? && content.value.Arr? && i < |content.value.items|
    && var text := Field(content.value.items[i], "text");
    && text.Some? && text.value.Str? && c.ReadsAs(text.value.text, p)
  }

  /** The rewrite leaves every text in which no separator is. */
  ghost predicate LeavesNames(t: string -> string) {
    forall s: string | Name(s) :: t(s) == s
  }

  /** No other key of the answer is rewritten to one the edge gave it on the way to item `i`. */
  predicate NamesAlone(t: string -> string, body: Json, i: nat) {
    && Alone(t, body, "result")
    && var result := Field(body, "result");
    && (result.Some? ==> Alone(t, result.value, "content") && Alone(t, result.value, "structuredContent")
                         && Alone(t, result.value, "isError"))
    && var content := FieldOf(result, "content");
    && (content.Some? && content.value.Arr? && i < |content.value.items| ==> Alone(t, content.value.items[i], "text"))
  }

  lemma WalkedCopy(t: string -> string, p: Json)
    ensures var kept := Pointers(SUPPLIER_FIELDS);
            Walk(t, p, ["result", "structuredContent"], Outside(true, kept)) == Walk(t, p, [], kept)
  {
    var kept := Pointers(SUPPLIER_FIELDS);
    forall rest: seq<string>
      ensures Kept(Outside(true, kept), STRUCTURED_PAYLOAD + rest) == Kept(kept, rest)
    {
      OutsideKeepsCopy(rest);
    }
    WalkElsewhere(t, p, [], kept, STRUCTURED_PAYLOAD, Outside(true, kept));
    assert STRUCTURED_PAYLOAD + [] == ["result", "structuredContent"];
  }

  lemma NamesLeft(t: string -> string)
    requires LeavesNames(t)
    ensures t("result") == "result" && t("content") == "content" && t("text") == "text"
    ensures t("structuredContent") == "structuredContent" && t("isError") == "isError"
  {
    AnswerPathsPlain();
    assert Name(TOOL_PAYLOAD[0]) && Name(TOOL_PAYLOAD[1]) && Name(TOOL_PAYLOAD[3]) && Name(STRUCTURED_PAYLOAD[1]);
    assert Name("isError");
  }

  /** The walk of the answer does not touch the payload text. */
  lemma WalkedItem(t: string -> string, item: Json, succeeded: bool, kept: seq<string>)
    requires Alone(t, item, "text") && LeavesNames(t)
    requires Field(item, "text").Some? && Field(item, "text").value.Str?
    ensures Field(Walk(t, item, ["result", "content", "*"], Outside(succeeded, kept)), "text") == Field(item, "text")
  {
    NamesLeft(t);
    FieldOfWalk(t, item, ["result", "content", "*"], Outside(succeeded, kept), "text");
    PayloadKept(succeeded, kept);
    assert ["result", "content", "*"] + ["text"] == TOOL_PAYLOAD;
  }

  /** The fields of the walked result. */
  lemma WalkedResult(t: string -> string, body: Json, outside: seq<string>, key: string)
    requires t("result") == "result" && t(key) == key && Alone(t, body, "result")
    requires FieldOf(Field(body, "result"), key).Some? && Alone(t, Field(body, "result").value, key)
    ensures FieldOf(Field(Walk(t, body, [], outside), "result"), key)
         == Some(Walk(t, FieldOf(Field(body, "result"), key).value, ["result", key], outside))
  {
    FieldOfWalk(t, body, [], outside, "result");
    assert [] + ["result"] == ["result"] && ["result"] + [key] == ["result", key];
    FieldOfWalk(t, Field(body, "result").value, ["result"], outside, key);
  }

  lemma ServedItem(c: Codec, t: string -> string, item: Json, succeeded: bool, text: string)
    requires Alone(t, item, "text") && LeavesNames(t) && Field(item, "text") == Some(Str(text))
    ensures var kept := SupplierPointers(succeeded);
            var walked := Walk(t, item, ["result", "content", "*"], Outside(succeeded, kept));
            Field(WithPayload(c, t, walked, kept), "text") == Some(Str(Payload(c, t, text, kept)))
  {
    var kept := SupplierPointers(succeeded);
    WalkedItem(t, item, succeeded, kept);
    var walked := Walk(t, item, ["result", "content", "*"], Outside(succeeded, kept));
    FieldOfUpdate(walked, "text", Str(Payload(c, t, text, kept)), "text");
  }

  /** The walk of the whole answer. */
  function Walked(t: string -> string, body: Json): Json {
    Walk(t, body, [], Outside(Succeeded(body), SupplierPointers(Succeeded(body))))
  }

  /** What `Served` leaves of a walked answer whose content is an array. */
  lemma ServedFields(c: Codec, t: string -> string, body: Json, items: seq<Json>, key: string)
    requires FieldOf(Field(Walked(t, body), "result"), "content") == Some(Arr(items))
    ensures FieldOf(Field(Served(c, t, body), "result"), key)
         == if key == "content" then Some(Arr(WithPayloads(c, t, items, SupplierPointers(Succeeded(body)))))
            else FieldOf(Field(Walked(t, body), "result"), key)
  {
    var result := Field(Walked(t, body), "result").value;
    var content := Arr(WithPayloads(c, t, items, SupplierPointers(Succeeded(body))));
    FieldOfUpdate(result, "content", content, key);
    FieldOfUpdate(Walked(t, body), "result", WithField(result, "content", content), "result");
  }

  /** Item `i` of the content carries `text`. */
  predicate HasText(body: Json, i: nat, text: string) {
    var content := FieldOf(Field(body, "result"), "content");
    content.Some? && content.value.Arr? && i < |content.value.items| && Field(content.value.items[i], "text") == Some(Str(text))
  }

  lemma ArrWalked(t: string -> string, content: Json, outside: seq<string>, i: nat)
    requires content.Arr? && i < |content.items|
    ensures var walked := Walk(t, content, ["result", "content"], outside);
            && walked.Arr? && |walked.items| == |content.items|
            && walked.items[i] == Walk(t, content.items[i], ["result", "content", "*"], outside)
  {
    assert ["result", "content"] + ["*"] == ["result", "content", "*"];
  }

  /** An item as it is served. */
  lemma ServedItems(c: Codec, t: string -> string, body: Json, i: nat)
    requires LeavesNames(t) && NamesAlone(t, body, i)
    requires var content := FieldOf(Field(body, "result"), "content");
             content.Some? && content.value.Arr? && i < |content.value.items|
    ensures var kept := SupplierPointers(Succeeded(body));
            var item := FieldOf(Field(body, "result"), "content").value.items[i];
            var content := FieldOf(Field(Served(c, t, body), "result"), "content");
            && content.Some? && content.value.Arr? && i < |content.value.items|
            && content.value.items[i]
               == WithPayload(c, t, Walk(t, item, ["result", "content", "*"], Outside(Succeeded(body), kept)), kept)
  {
    var outside := Outside(Succeeded(body), SupplierPointers(Succeeded(body)));
    var content := FieldOf(Field(body, "result"), "content").value;
    NamesLeft(t);
    hide Walk, Served, LeavesNames, WithPayload, Field, Outside;
    WalkedResult(t, body, outside, "content");
    ArrWalked(t, content, outside, i);
    ServedFields(c, t, body, Walk(t, content, ["result", "content"], outside).items, "content");
  }

  /** The text of an item as it is served. */
  lemma ServedText(c: Codec, t: string -> string, body: Json, i: nat, text: string)
    requires LeavesNames(t) && NamesAlone(t, body, i) && HasText(body, i, text)
    ensures HasText(Served(c, t, body), i, Payload(c, t, text, SupplierPointers(Succeeded(body))))
  {
    hide Walk, Served, LeavesNames, WithPayload, Field, Outside, Payload;
    ServedItems(c, t, body, i);
    ServedItem(c, t, FieldOf(Field(body, "result"), "content").value.items[i], Succeeded(body), text);
  }

  /** Any other field of the result as it is served. */
  lemma ServedField(c: Codec, t: string -> string, body: Json, key: string)
    requires t("result") == "result" && t(key) == key && key != "content"
    requires Alone(t, body, "result") && FieldOf(Field(body, "result"), key).Some? && Alone(t, Field(body, "result").value, key)
    ensures var outside := Outside(Succeeded(body), SupplierPointers(Succeeded(body)));
            FieldOf(Field(Served(c, t, body), "result"), key)
            == Some(Walk(t, FieldOf(Field(body, "result"), key).value, ["result", key], outside))
  {
    WalkedResult(t, body, Outside(Succeeded(body), SupplierPointers(Succeeded(body))), key);
    match FieldOf(Field(Walked(t, body), "result"), "content")
    case Some(Arr(items)) => ServedFields(c, t, body, items, key);
    case _ =>
  }

  /** A payload that was read is read back once walked. */
  lemma PayloadReadBack(c: Codec, t: string -> string, text: string, p: Json, kept: seq<string>)
    requires c.Valid() && c.read(text) == Some(p)
    ensures c.ReadsAs(c.write(Walk(t, p, [], kept)), Walk(t, p, [], kept))
  {
    assert c.read(text).Some? && c.Reads(p);
    WalkKeepsWellFormed(t, p, [], kept, c.number, c.depth);
    assert c.Reads(Walk(t, p, [], kept));
  }

  /** On a successful tool result both served copies of a payload are its own
      walk: the structured copy, and the text that reads back as the same value. */
  lemma ServedCopiesAgree(c: Codec, t: string -> string, body: Json, p: Json, i: nat)
    requires c.Valid() && LeavesNames(t) && NamesAlone(t, body, i) && Carries(c, body, p, i)
    ensures CarriesSame(c, Served(c, t, body), Walk(t, p, [], Pointers(SUPPLIER_FIELDS)), i)
  {
    var kept := Pointers(SUPPLIER_FIELDS);
    var text := Field(FieldOf(Field(body, "result"), "content").value.items[i], "text").value.text;
    assert Payload(c, t, text, kept) == c.write(Walk(t, p, [], kept));
    assert Walk(t, Bool(false), ["result", "isError"], Outside(true, kept)) == Bool(false);
    NamesLeft(t);
    OtherNames();
    hide Walk, Served, LeavesNames, Payload, Field, Outside, Pointers;
    PayloadReadBack(c, t, text, p, kept);
    WalkedCopy(t, p);
    ServedText(c, t, body, i, text);
    ServedField(c, t, body, "structuredContent");
    ServedField(c, t, body, "isError");
  }

  lemma OtherNames()
    ensures "structuredContent" != "content" && "isError" != "content"
  {
    assert |"structuredContent"| != |"content"| && "isError"[0] != "content"[0];
  }

  // ----- What every served text has -----

  lemma PointersLeft(t: string -> string, paths: seq<seq<string>>)
    requires LeavesNames(t) && AllPlain(paths)
    ensures LeavesSegments(t, Pointers(paths))
  {
    forall i | 0 <= i < |paths| ensures Segments(Pointers(paths)[i]) == paths[i] {
      PointerSegments(paths[i]);
    }
  }

  lemma ServedPointersLeft(t: string -> string, succeeded: bool)
    requires LeavesNames(t)
    ensures LeavesSegments(t, SupplierPointers(succeeded))
    ensures LeavesSegments(t, Outside(succeeded, SupplierPointers(succeeded)))
  {
    OutsidePlain(succeeded);
    SupplierPathsPlain();
    PointersLeft(t, SUPPLIER_FIELDS);
    PointersLeft(t, OutsidePaths(succeeded, SUPPLIER_FIELDS));
    OutsideBySegments(succeeded, SUPPLIER_FIELDS);
    assert Outside(succeeded, SupplierPointers(succeeded)) == Outside(succeeded, Pointers(SUPPLIER_FIELDS));
  }

  /** A served payload text: a text rewritten whole, or a value written out
      whose every key has `p`, and every string but the supplier's own, and so
      the value read from it. */
  ghost predicate PayloadTexts(c: Codec, p: string -> bool, kept: seq<string>, text: string) {
    || p(text)
    || ((exists v: Json :: TextsBut(p, v, [], kept) && text == c.write(v))
        && (c.Valid() ==> c.read(text).Some? && TextsBut(p, c.read(text).value, [], kept)))
  }

  lemma PayloadIsWalked(c: Codec, t: string -> string, p: string -> bool, text: string, kept: seq<string>)
    requires (forall s: string :: p(t(s))) && LeavesSegments(t, kept)
    ensures PayloadTexts(c, p, kept, Payload(c, t, text, kept))
  {
    match c.read(text)
    case Some(v) =>
      var walked := Walk(t, v, [], kept);
      WalkedTexts(t, p, v, [], [], kept);
      if c.Valid() {
        PayloadReadBack(c, t, text, v, kept);
        SameTexts(p, walked, c.read(c.write(walked)).value, [], kept);
      }
      assert TextsBut(p, walked, [], kept);
    case None =>
  }

  lemma TextsButField(p: string -> bool, v: Json, at: seq<string>, kept: seq<string>, key: string)
    requires TextsBut(p, v, at, kept) && Field(v, key).Some?
    ensures TextsBut(p, Field(v, key).value, at + [key], kept)
  {
    var i := Index(v.members, key);
    assert Child(v, i) == v.members[i].value && Segment(v, i) == key;
  }

  lemma TextsButUpdate(p: string -> bool, v: Json, at: seq<string>, kept: seq<string>, key: string, value: Json)
    requires TextsBut(p, v, at, kept) && Field(v, key).Some? && TextsBut(p, value, at + [key], kept)
    ensures TextsBut(p, WithField(v, key, value), at, kept)
  {
    var w, k := WithField(v, key, value), Index(v.members, key);
    forall i | 0 <= i < Children(w) ensures TextsBut(p, Child(w, i), at + [Segment(w, i)], kept) && p(w.members[i].key) {
      assert i != k ==> Child(w, i) == Child(v, i) && Segment(w, i) == Segment(v, i);
    }
  }

  lemma ItemTexts(c: Codec, t: string -> string, p: string -> bool, item: Json, succeeded: bool)
    requires LeavesNames(t) && (forall s: string :: p(t(s)))
    requires TextsBut(p, item, ["result", "content", "*"], Outside(succeeded, SupplierPointers(succeeded)))
    ensures var kept := SupplierPointers(succeeded);
            && TextsBut(p, WithPayload(c, t, item, kept), ["result", "content", "*"], Outside(succeeded, kept))
            && var text := Field(WithPayload(c, t, item, kept), "text");
               (text.Some? && text.value.Str? ==> PayloadTexts(c, p, kept, text.value.text))
  {
    var kept := SupplierPointers(succeeded);
    if Field(item, "text").Some? && Field(item, "text").value.Str? {
      var served := Payload(c, t, Field(item, "text").value.text, kept);
      ServedPointersLeft(t, succeeded);
      PayloadIsWalked(c, t, p, Field(item, "text").value.text, kept);
      PayloadKept(succeeded, kept);
      assert ["result", "content", "*"] + ["text"] == TOOL_PAYLOAD;
      TextsButUpdate(p, item, ["result", "content", "*"], Outside(succeeded, kept), "text", Str(served));
      FieldOfUpdate(item, "text", Str(served), "text");
    }
  }

  /** The payload texts of an answer as served. */
  ghost predicate PayloadsHave(c: Codec, p: string -> bool, kept: seq<string>, body: Json) {
    var content := FieldOf(Field(body, "result"), "content");
    content.Some? && content.value.Arr? ==>
      forall i | 0 <= i < |content.value.items| ::
        var text := Field(content.value.items[i], "text");
        text.Some? && text.value.Str? ==> PayloadTexts(c, p, kept, text.value.text)
  }

  lemma ItemsTexts(c: Codec, t: string -> string, p: string -> bool, items: seq<Json>, succeeded: bool)
    requires LeavesNames(t) && (forall s: string :: p(t(s)))
    requires TextsBut(p, Arr(items), ["result", "content"], Outside(succeeded, SupplierPointers(succeeded)))
    ensures var kept, out := SupplierPointers(succeeded), WithPayloads(c, t, items, SupplierPointers(succeeded));
            && TextsBut(p, Arr(out), ["result", "content"], Outside(succeeded, kept))
            && forall i | 0 <= i < |out| ::
                 var text := Field(out[i], "text");
                 text.Some? && text.value.Str? ==> PayloadTexts(c, p, kept, text.value.text)
  {
    var out := WithPayloads(c, t, items, SupplierPointers(succeeded));
    var at := ["result", "content"];
    assert at + ["*"] == ["result", "content", "*"];
    forall i | 0 <= i < |items|
      ensures TextsBut(p, out[i], at + ["*"], Outside(succeeded, SupplierPointers(succeeded)))
      ensures var text := Field(out[i], "text");
              text.Some? && text.value.Str? ==> PayloadTexts(c, p, SupplierPointers(succeeded), text.value.text)
    {
      assert Child(Arr(items), i) == items[i] && Segment(Arr(items), i) == "*";
      ItemTexts(c, t, p, items[i], succeeded);
    }
    assert forall i | 0 <= i < |out| :: Child(Arr(out), i) == out[i] && Segment(Arr(out), i) == "*";
  }

  /** A walked answer in whose content the payload texts are put. */
  lemma ContentTexts(c: Codec, t: string -> string, p: string -> bool, walked: Json, items: seq<Json>, succeeded: bool)
    requires LeavesNames(t) && (forall s: string :: p(t(s)))
    requires TextsBut(p, walked, [], Outside(succeeded, SupplierPointers(succeeded)))
    requires FieldOf(Field(walked, "result"), "content") == Some(Arr(items))
    ensures var kept := SupplierPointers(succeeded);
            var out := WithPayloads(c, t, items, kept);
            && TextsBut(p, WithField(walked, "result", WithField(Field(walked, "result").value, "content", Arr(out))),
                        [], Outside(succeeded, kept))
            && forall i | 0 <= i < |out| ::
                 var text := Field(out[i], "text");
                 text.Some? && text.value.Str? ==> PayloadTexts(c, p, kept, text.value.text)
  {
    var outside, result := Outside(succeeded, SupplierPointers(succeeded)), Field(walked, "result").value;
    var content := Arr(WithPayloads(c, t, items, SupplierPointers(succeeded)));
    assert [] + ["result"] == ["result"] && ["result"] + ["content"] == ["result", "content"];
    TextsButField(p, walked, [], outside, "result");
    TextsButField(p, result, ["result"], outside, "content");
    ItemsTexts(c, t, p, items, succeeded);
    TextsButUpdate(p, result, ["result"], outside, "content", content);
    TextsButUpdate(p, walked, [], outside, "result", WithField(result, "content", content));
  }

  lemma WalkedAnswerTexts(t: string -> string, p: string -> bool, body: Json)
    requires LeavesNames(t) && (forall s: string :: p(t(s)))
    ensures TextsBut(p, Walked(t, body), [], Outside(Succeeded(body), SupplierPointers(Succeeded(body))))
  {
    ServedPointersLeft(t, Succeeded(body));
    WalkedTexts(t, p, body, [], [], Outside(Succeeded(body), SupplierPointers(Succeeded(body))));
  }

  lemma ServedPayloads(c: Codec, t: string -> string, p: string -> bool, body: Json)
    requires LeavesNames(t) && (forall s: string :: p(t(s)))
    ensures PayloadsHave(c, p, SupplierPointers(Succeeded(body)), Served(c, t, body))
  {
    var walked := Walked(t, body);
    match FieldOf(Field(walked, "result"), "content")
    case Some(Arr(items)) =>
      WalkedAnswerTexts(t, p, body);
      ContentTexts(c, t, p, walked, items, Succeeded(body));
      ServedFields(c, t, body, items, "content");
    case _ =>
  }

  /** What the rewrite gives every text, the served answer has everywhere: in
      every key, in every string but those told to be left, and in its payload texts. */
  lemma ServedTexts(c: Codec, t: string -> string, p: string -> bool, body: Json)
    requires LeavesNames(t) && (forall s: string :: p(t(s)))
    ensures var kept := SupplierPointers(Succeeded(body));
            && TextsBut(p, Served(c, t, body), [], Outside(Succeeded(body), kept))
            && PayloadsHave(c, p, kept, Served(c, t, body))
  {
    var walked := Walked(t, body);
    ServedPayloads(c, t, p, body);
    WalkedAnswerTexts(t, p, body);
    match FieldOf(Field(walked, "result"), "content")
    case Some(Arr(items)) => ContentTexts(c, t, p, walked, items, Succeeded(body));
    case _ =>
  }

  // ----- The rewrite of the home -----

  /** `HomeForms.Text` as a function of the text alone. */
  ghost function Rewriting(a: Alphabet, forms: seq<string>): string -> string {
    text => if HomeForms.AllAbsolute(a, forms) then HomeForms.Text(a, forms, text) else text
  }

  /** Text in which no form stands that is kept out. */
  ghost function HomeFree(a: Alphabet, forms: seq<string>): string -> bool {
    text => forall i | 0 <= i < |forms| && HomeForms.KeptOut(a, forms, i) :: Clean(a, forms[i], [], text)
  }

  lemma RewritingIsHomeFree(a: Alphabet, forms: seq<string>)
    requires a.Valid() && HomeForms.AllAbsolute(a, forms)
    ensures forall text: string :: HomeFree(a, forms)(Rewriting(a, forms)(text))
  {
    forall text: string ensures HomeFree(a, forms)(Rewriting(a, forms)(text)) {
      forall i | 0 <= i < |forms| && HomeForms.KeptOut(a, forms, i)
        ensures Clean(a, forms[i], [], Rewriting(a, forms)(text))
      {
        HomeForms.FormIsClean(a, forms, i, text);
      }
    }
  }

  predicate UsualSeparator(a: Alphabet) {
    a.mainSeparator == '/' || a.mainSeparator == '\\'
  }

  /** Every form begins with a separator, so a text without one is left. */
  lemma HomeRewriteLeavesNames(a: Alphabet, forms: seq<string>)
    requires UsualSeparator(a) && HomeForms.AllAbsolute(a, forms)
    ensures LeavesNames(Rewriting(a, forms))
  {
    forall s: string | Name(s) ensures Rewriting(a, forms)(s) == s {
      assert forall i | 0 <= i < |s| :: s[i] in s;
      forall i, at: nat | 0 <= i < |forms| ensures !Standing(a, forms[i], [], s, at) {
        if Standing(a, forms[i], [], s, at) {
          HomeForms.OccursChars(forms[i], s, at);
        }
      }
      assert HomeForms.AllClean(a, forms, s);
      HomeForms.TextKept(a, forms, s);
    }
  }

  /** A whole answer, served with the home rewritten: no key of it, and no
      string but the supplier's own and the payload texts, carries a form of
      the home that is kept out; nor does any payload text, read as the value
      it was written from. A tool error keeps nothing but its payload texts. */
  lemma ServedAnswerIsHomeFree(a: Alphabet, forms: seq<string>, c: Codec, body: Json)
    requires UsualSeparator(a) && HomeForms.AllAbsolute(a, forms)
    ensures var served, kept := Served(c, Rewriting(a, forms), body), SupplierPointers(Succeeded(body));
            && TextsBut(HomeFree(a, forms), served, [], Outside(Succeeded(body), kept))
            && PayloadsHave(c, HomeFree(a, forms), kept, served)
            && (!Succeeded(body) ==> kept == [])
  {
    HomeRewriteLeavesNames(a, forms);
    RewritingIsHomeFree(a, forms);
    ServedTexts(c, Rewriting(a, forms), HomeFree(a, forms), body);
  }

  /** And its two copies of a payload agree. */
  lemma ServedHomeCopiesAgree(a: Alphabet, forms: seq<string>, c: Codec, body: Json, p: Json, i: nat)
    requires UsualSeparator(a) && HomeForms.AllAbsolute(a, forms) && c.Valid()
    requires Carries(c, body, p, i) && NamesAlone(Rewriting(a, forms), body, i)
    ensures CarriesSame(c, Served(c, Rewriting(a, forms), body),
                        Walk(Rewriting(a, forms), p, [], Pointers(SUPPLIER_FIELDS)), i)
  {
    HomeRewriteLeavesNames(a, forms);
    ServedCopiesAgree(c, Rewriting(a, forms), body, p, i);
  }

  ghost function FormFree(a: Alphabet, form: string): string -> bool
    requires form != []
  {
    text => Clean(a, form, [], text)
  }

  ghost predicate AnswerIsFree(a: Alphabet, forms: seq<string>, c: Codec, body: Json, i: nat)
    requires i < |forms| && forms[i] != []
  {
    TextsBut(FormFree(a, forms[i]), Served(c, Rewriting(a, forms), body), [],
             Outside(Succeeded(body), SupplierPointers(Succeeded(body))))
  }

  /** An answer that is one text is rewritten whole. */
  lemma TextServed(c: Codec, t: string -> string, text: string)
    ensures Served(c, t, Str(text)) == Str(t(text))
    ensures !Kept(Outside(false, []), []) && !Succeeded(Str(text))
  {
    AnswerPathsPlain();
    KeptBySegments([TOOL_PAYLOAD], []);
    assert Outside(false, []) == Pointers([TOOL_PAYLOAD]);
  }

  /** A form stays out of every answer served exactly when it is kept out. */
  lemma ServedFreeExactly(a: Alphabet, forms: seq<string>, c: Codec, i: nat)
    requires UsualSeparator(a) && HomeForms.AllAbsolute(a, forms) && i < |forms| <= 2
    ensures (forall body: Json :: AnswerIsFree(a, forms, c, body, i)) <==> HomeForms.KeptOut(a, forms, i)
  {
    var t := Rewriting(a, forms);
    HomeForms.KeptOutExactly(a, forms, i);
    if HomeForms.KeptOut(a, forms, i) {
      HomeRewriteLeavesNames(a, forms);
      forall s: string ensures FormFree(a, forms[i])(t(s)) {
        HomeForms.FormIsClean(a, forms, i, s);
      }
      forall body: Json ensures AnswerIsFree(a, forms, c, body, i) {
        ServedTexts(c, t, FormFree(a, forms[i]), body);
      }
    } else {
      var text: string :| !Clean(a, forms[i], [], HomeForms.Text(a, forms, text));
      TextServed(c, t, text);
      assert !AnswerIsFree(a, forms, c, Str(text), i);
    }
  }
}
