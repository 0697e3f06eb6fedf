/** What becomes of each part of an answer, said of the answer as it came. */
module AnswerContents {
  import opened Wrappers
  import opened JsonWalk
  import opened ToolAnswer

  /** The tool says it did not fail. */
  predicate SaysSuccess(body: Json) {
    FieldOf(Field(body, "result"), "isError") == Some(Bool(false))
  }

  /** A content text that is no JSON is served rewritten, whatever the tool says of itself. */
  lemma UnreadTextIsRewritten(c: Codec, t: string -> string, body: Json, i: nat, text: string)
    requires LeavesNames(t) && NamesAlone(t, body, i) && HasText(body, i, text) && c.read(text).None?
    ensures HasText(Served(c, t, body), i, t(text))
  {
    ServedText(c, t, body, i, text);
  }

  /** A content text that is JSON is served as text that reads back as its value
      walked: but for the supplier's own fields, when the tool did not fail, and whole when it did. */
  lemma ReadTextIsWalked(c: Codec, t: string -> string, body: Json, i: nat, text: string, p: Json) returns (served: string)
    requires c.Valid() && LeavesNames(t) && NamesAlone(t, body, i) && HasText(body, i, text) && c.read(text) == Some(p)
    ensures HasText(Served(c, t, body), i, served)
    ensures c.ReadsAs(served, Walk(t, p, [], if SaysSuccess(body) then Pointers(SUPPLIER_FIELDS) else []))
  {
    var kept := SupplierPointers(Succeeded(body));
    served := Payload(c, t, text, kept);
    ServedText(c, t, body, i, text);
    PayloadReadBack(c, t, text, p, kept);
  }

  /** Nothing is left below `at`: the walk there is the walk of the value alone, whole. */
  lemma NothingKeptBelow(t: string -> string, v: Json, at: seq<string>, outside: seq<string>, paths: seq<seq<string>>)
    requires AllPlain(paths) && outside == Pointers(paths)
    requires forall i | 0 <= i < |paths| :: !(at <= paths[i])
    ensures Walk(t, v, at, outside) == Walk(t, v, [], [])
  {
    forall rest: seq<string> ensures Kept(outside, at + rest) == Kept([], rest) {
      KeptBySegments(paths, at + rest);
      assert at <= at + rest;
    }
    WalkElsewhere(t, v, [], [], at, outside);
    assert at + [] == at;
  }

  lemma ResultPaths(succeeded: bool, i: nat)
    requires i < |OutsidePaths(succeeded, if succeeded then SUPPLIER_FIELDS else [])|
    ensures var path := OutsidePaths(succeeded, if succeeded then SUPPLIER_FIELDS else [])[i];
            |path| >= 2 && path[0] == "result" && (!succeeded ==> path == TOOL_PAYLOAD)
  {
  }

  lemma OutsideAs(body: Json)
    ensures var succeeded := Succeeded(body);
            var paths := OutsidePaths(succeeded, if succeeded then SUPPLIER_FIELDS else []);
            Outside(succeeded, SupplierPointers(succeeded)) == Pointers(paths) && AllPlain(paths)
  {
    OutsideBySegments(Succeeded(body), if Succeeded(body) then SUPPLIER_FIELDS else []);
    OutsidePlain(Succeeded(body));
  }

  /** Beside the result nothing is left: an answer's own error is rewritten whole. */
  lemma OtherFieldIsRewritten(c: Codec, t: string -> string, body: Json, key: string)
    requires key != "result" && t(key) == key && Field(body, key).Some? && Alone(t, body, key)
    ensures Field(Served(c, t, body), key) == Some(Walk(t, Field(body, key).value, [], []))
  {
    var succeeded := Succeeded(body);
    var paths := OutsidePaths(succeeded, if succeeded then SUPPLIER_FIELDS else []);
    var outside := Outside(succeeded, SupplierPointers(succeeded));
    FieldOfWalk(t, body, [], outside, key);
    assert [] + [key] == [key];
    OutsideAs(body);
    forall i | 0 <= i < |paths| ensures !([key] <= paths[i]) {
      ResultPaths(succeeded, i);
    }
    NothingKeptBelow(t, Field(body, key).value, [key], outside, paths);
    ServedBeside(c, t, body, key);
  }

  lemma ServedBeside(c: Codec, t: string -> string, body: Json, key: string)
    requires key != "result"
    ensures Field(Served(c, t, body), key) == Field(Walked(t, body), key)
  {
    match FieldOf(Field(Walked(t, body), "result"), "content")
    case Some(Arr(items)) =>
      var result := Field(Walked(t, body), "result").value;
      var content := Arr(WithPayloads(c, t, items, SupplierPointers(Succeeded(body))));
      FieldOfUpdate(Walked(t, body), "result", WithField(result, "content", content), key);
    case _ =>
  }

  /** The structured copy is its value walked: but for the supplier's own
      fields, when the tool did not fail, and whole when it did. */
  lemma CopyIsWalked(c: Codec, t: string -> string, body: Json, p: Json)
    requires LeavesNames(t) && FieldOf(Field(body, "result"), "structuredContent") == Some(p)
    requires Alone(t, body, "result") && Alone(t, Field(body, "result").value, "structuredContent")
    ensures FieldOf(Field(Served(c, t, body), "result"), "structuredContent")
         == Some(Walk(t, p, [], if SaysSuccess(body) then Pointers(SUPPLIER_FIELDS) else []))
  {
    NamesLeft(t);
    assert |"structuredContent"| != |"content"|;
    ServedField(c, t, body, "structuredContent");
    if SaysSuccess(body) {
      WalkedCopy(t, p);
    } else {
      OutsideAs(body);
      assert OutsidePaths(false, []) == [TOOL_PAYLOAD] && TOOL_PAYLOAD[1] != "structuredContent";
      NothingKeptBelow(t, p, ["result", "structuredContent"], Outside(false, []), [TOOL_PAYLOAD]);
    }
  }

  /** A fetched file's resource block, whose `blob` and `uri` are the supplier's. */
  predicate HasBlock(body: Json, i: nat, key: string, text: string) {
    var content := FieldOf(Field(body, "result"), "content");
    && content.Some? && content.value.Arr? && i < |content.value.items|
    && FieldOf(Field(content.value.items[i], "resource"), key) == Some(Str(text))
  }

  /** They are left as they came when the tool did not fail, and rewritten when it did. */
  lemma BlockIsKept(c: Codec, t: string -> string, body: Json, i: nat, key: string, text: string)
    requires LeavesNames(t) && NamesAlone(t, body, i) && HasBlock(body, i, key, text) && key in {"blob", "uri"}
    requires var item := FieldOf(Field(body, "result"), "content").value.items[i];
             Alone(t, item, "resource") && Alone(t, Field(item, "resource").value, key)
    ensures HasBlock(Served(c, t, body), i, key, if SaysSuccess(body) then text else t(text))
  {
    var item := FieldOf(Field(body, "result"), "content").value.items[i];
    var walked := Walk(t, item, ["result", "content", "*"], Outside(Succeeded(body), SupplierPointers(Succeeded(body))));
    assert SaysSuccess(body) == Succeeded(body);
    hide Walk, Served, LeavesNames, WithPayload, Field, Outside, Succeeded, SaysSuccess;
    ServedItems(c, t, body, i);
    BlockIsWalked(t, item, key, text, Succeeded(body));
    BesideText(c, t, walked, SupplierPointers(Succeeded(body)));
  }

  lemma BesideText(c: Codec, t: string -> string, item: Json, kept: seq<string>)
    ensures Field(WithPayload(c, t, item, kept), "resource") == Field(item, "resource")
  {
    assert "resource" != "text" by { assert |"resource"| != |"text"|; }
    if Field(item, "text").Some? && Field(item, "text").value.Str? {
      FieldOfUpdate(item, "text", Str(Payload(c, t, Field(item, "text").value.text, kept)), "resource");
    }
  }

  lemma TextWalked(t: string -> string, text: string, at: seq<string>, outside: seq<string>)
    ensures Walk(t, Str(text), at, outside) == Str(if Kept(outside, at) then text else t(text))
  {
  }

  lemma BlockNames(t: string -> string, key: string)
    requires LeavesNames(t) && key in {"blob", "uri"}
    ensures t("resource") == "resource" && t(key) == key
  {
    assert Name("resource") && Name(key);
  }

  lemma BlockIsWalked(t: string -> string, item: Json, key: string, text: string, succeeded: bool)
    requires LeavesNames(t) && key in {"blob", "uri"} && FieldOf(Field(item, "resource"), key) == Some(Str(text))
    requires Alone(t, item, "resource") && Alone(t, Field(item, "resource").value, key)
    ensures var walked := Walk(t, item, ["result", "content", "*"], Outside(succeeded, SupplierPointers(succeeded)));
            FieldOf(Field(walked, "resource"), key) == Some(Str(if succeeded then text else t(text)))
  {
    hide Walk, LeavesNames, Field, Outside, Kept, SupplierPointers, Alone;
    var at, outside := ["result", "content", "*"], Outside(succeeded, SupplierPointers(succeeded));
    var resource := Field(item, "resource").value;
    BlockNames(t, key);
    FieldOfWalk(t, item, at, outside, "resource");
    FieldOfWalk(t, resource, at + ["resource"], outside, key);
    assert at + ["resource"] + [key] == ["result", "content", "*", "resource", key];
    BlockPlace(key, succeeded);
    TextWalked(t, text, at + ["resource"] + [key], outside);
  }

  lemma BlockPlace(key: string, succeeded: bool)
    requires key in {"blob", "uri"}
    ensures Kept(Outside(succeeded, SupplierPointers(succeeded)), ["result", "content", "*", "resource", key]) <==> succeeded
  {
    var at := ["result", "content", "*", "resource", key];
    OutsideBySegments(succeeded, if succeeded then SUPPLIER_FIELDS else []);
    OutsidePlain(succeeded);
    var paths := OutsidePaths(succeeded, if succeeded then SUPPLIER_FIELDS else []);
    KeptBySegments(paths, at);
    if succeeded {
      assert at == paths[1] || at == paths[2];
    } else {
      assert |at| != |TOOL_PAYLOAD|;
    }
  }
}
