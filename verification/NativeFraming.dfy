/** The native host's conversation with the browser: framed messages in, one framed reply each out. */
module NativeFraming {
  import opened Wrappers
  import opened NativeBytes

  const NATIVE_MESSAGE_MAX: nat := 8 * 1024 * 1024

  const LENGTH_MAX: nat := 0xFFFF_FFFF

  /** What answers one message, and what answers a length no message may have. */
  datatype Replies = Replies(reply: Bytes -> Bytes, tooLong: nat -> Bytes)

  /** A reply as written. A length that does not fit its four bytes is written as the largest that does. */
  function Framed(body: Bytes): Bytes {
    Stored(if |body| <= LENGTH_MAX then |body| else LENGTH_MAX, 4) + body
  }

  /** The header of `input`, when it holds one. */
  function Header(input: Bytes): (r: Option<nat>)
    ensures r.Some? <==> |input| >= 4
  {
    if |input| < 4 then None else Some(Unsigned(input[..4]))
  }

  predicate Complete(input: Bytes) {
    Header(input).Some? && Header(input).value <= NATIVE_MESSAGE_MAX && 4 + Header(input).value <= |input|
  }

  /** The bodies of the complete messages `input` begins with. */
  function Bodies(input: Bytes): seq<Bytes>
    decreases |input|
  {
    if !Complete(input) then []
    else
      var n := Header(input).value;
      [input[4..4 + n]] + Bodies(input[4 + n..])
  }

  /** What is left after them. */
  function Tail(input: Bytes): (r: Bytes)
    ensures !Complete(r)
    decreases |input|
  {
    if !Complete(input) then input else Tail(input[4 + Header(input).value..])
  }

  predicate TooLong(tail: Bytes) {
    Header(tail).Some? && Header(tail).value > NATIVE_MESSAGE_MAX
  }

  function FramedAll(bodies: seq<Bytes>): Bytes {
    if bodies == [] then [] else Framed(bodies[0]) + FramedAll(bodies[1..])
  }

  function AllReplies(r: Replies, bodies: seq<Bytes>): (all: seq<Bytes>)
    ensures |all| == |bodies| && forall i | 0 <= i < |bodies| :: all[i] == r.reply(bodies[i])
  {
    if bodies == [] then [] else [r.reply(bodies[0])] + AllReplies(r, bodies[1..])
  }

  /** The replies to a whole stream: one a message, and one more when the tail's length is refused. */
  function Written(r: Replies, input: Bytes): seq<Bytes> {
    AllReplies(r, Bodies(input)) + if TooLong(Tail(input)) then [r.tooLong(Header(Tail(input)).value)] else []
  }

  lemma WrittenNext(r: Replies, input: Bytes)
    ensures Complete(input) ==>
              var n := Header(input).value;
              Written(r, input) == [r.reply(input[4..4 + n])] + Written(r, input[4 + n..])
    ensures !Complete(input) ==>
              Written(r, input) == if TooLong(input) then [r.tooLong(Header(input).value)] else []
  {
    if Complete(input) {
      var n := Header(input).value;
      var rest := input[4 + n..];
      assert Bodies(input)[0] == input[4..4 + n] && Bodies(input)[1..] == Bodies(rest);
    }
  }

  /** The bytes written for a whole stream. */
  function Output(r: Replies, input: Bytes): Bytes {
    FramedAll(Written(r, input))
  }

  lemma OutputNext(r: Replies, input: Bytes)
    ensures Complete(input) ==>
              var n := Header(input).value;
              Output(r, input) == Framed(r.reply(input[4..4 + n])) + Output(r, input[4 + n..])
    ensures !Complete(input) ==>
              Output(r, input) == if TooLong(input) then Framed(r.tooLong(Header(input).value)) else []
  {
    WrittenNext(r, input);
    if Complete(input) {
      assert Written(r, input)[1..] == Written(r, input[4 + Header(input).value..]);
    } else if TooLong(input) {
      assert FramedAll([r.tooLong(Header(input).value)][1..]) == [];
    }
  }

  /** The loop of the host over its whole input, every write taken. */
  method NativeHost(r: Replies, input: Bytes) returns (output: Bytes)
    ensures output == Output(r, input)
  {
    output := [];
    var rest := input;
    while |rest| >= 4
      invariant output + Output(r, rest) == Output(r, input)
      decreases |rest|
    {
      OutputNext(r, rest);
      var length := Unsigned(rest[..4]);
      if length > NATIVE_MESSAGE_MAX {
        // The stream cannot be trusted past such a length: this answer is the last.
        output := output + Framed(r.tooLong(length));
        return;
      }
      if |rest| - 4 < length {
        return;
      }
      var frame := Framed(r.reply(rest[4..4 + length]));
      Associate(output, frame, Output(r, rest[4 + length..]));
      output := output + frame;
      rest := rest[4 + length..];
    }
    OutputNext(r, rest);
  }

  lemma Associate(x: Bytes, y: Bytes, z: Bytes)
    ensures x + (y + z) == x + y + z
  {
  }

  // ----- Both directions, frame by frame -----

  /** `bodies` framed and then a tail that is no complete message: exactly those bodies, and that tail. */
  lemma {:induction false} BodiesOfFrames(bodies: seq<Bytes>, tail: Bytes)
    requires !Complete(tail) && forall i | 0 <= i < |bodies| :: |bodies[i]| <= NATIVE_MESSAGE_MAX
    ensures Bodies(FramedAll(bodies) + tail) == bodies && Tail(FramedAll(bodies) + tail) == tail
    decreases |bodies|
  {
    if bodies == [] {
      assert FramedAll(bodies) + tail == tail;
    } else {
      Associate(Framed(bodies[0]), FramedAll(bodies[1..]), tail);
      FirstMessage(bodies[0], FramedAll(bodies[1..]) + tail);
      BodiesOfFrames(bodies[1..], tail);
    }
  }

  lemma FirstMessage(body: Bytes, rest: Bytes)
    requires |body| <= NATIVE_MESSAGE_MAX
    ensures Bodies(Framed(body) + rest) == [body] + Bodies(rest) && Tail(Framed(body) + rest) == Tail(rest)
  {
    FirstFrame(body, rest);
  }

  lemma FirstFrame(body: Bytes, rest: Bytes)
    requires |body| <= LENGTH_MAX
    ensures var input := Framed(body) + rest;
            Header(input) == Some(|body|) && input[4..4 + |body|] == body && input[4 + |body|..] == rest
  {
    var input := Framed(body) + rest;
    assert input == Stored(|body|, 4) + body + rest;
    assert input[..4] == Stored(|body|, 4);
    assert Power256(4) == 0x1_0000_0000;
    UnsignedStored(|body|, 4);
  }

  /** For `n` messages within the limit and an unfinished tail, the host writes
      `n` replies in order, and one more just when the tail's length is over the limit. */
  lemma OneReplyEach(r: Replies, bodies: seq<Bytes>, tail: Bytes)
    requires !Complete(tail) && forall i | 0 <= i < |bodies| :: |bodies[i]| <= NATIVE_MESSAGE_MAX
    ensures var written := Written(r, FramedAll(bodies) + tail);
            && |written| == |bodies| + (if TooLong(tail) then 1 else 0)
            && forall i | 0 <= i < |bodies| :: written[i] == r.reply(bodies[i])
  {
    BodiesOfFrames(bodies, tail);
  }

  /** What the browser reads of what the host writes: any length is taken. */
  function Received(output: Bytes): seq<Bytes>
    decreases |output|
  {
    if |output| < 4 || |output| < 4 + Unsigned(output[..4]) then []
    else
      var n := Unsigned(output[..4]);
      [output[4..4 + n]] + Received(output[4 + n..])
  }

  /** The browser reads back the replies, provided each is short enough for its length to be written. */
  lemma {:induction false} RepliesReadBack(replies: seq<Bytes>)
    requires forall i | 0 <= i < |replies| :: |replies[i]| <= LENGTH_MAX
    ensures Received(FramedAll(replies)) == replies
    decreases |replies|
  {
    if replies != [] {
      FirstFrame(replies[0], FramedAll(replies[1..]));
      RepliesReadBack(replies[1..]);
    }
  }

  /** After the messages within the limit, a length over it is answered with
      what is said of that length, and nothing after it is read. */
  lemma LongLengthIsRefused(r: Replies, bodies: seq<Bytes>, length: nat, rest: Bytes)
    requires 8 * 1024 * 1024 < length <= LENGTH_MAX
    requires forall i | 0 <= i < |bodies| :: |bodies[i]| <= 8 * 1024 * 1024
    ensures Written(r, FramedAll(bodies) + (Stored(length, 4) + rest)) == AllReplies(r, bodies) + [r.tooLong(length)]
  {
    var tail := Stored(length, 4) + rest;
    assert tail[..4] == Stored(length, 4);
    assert Power256(4) == 0x1_0000_0000;
    UnsignedStored(length, 4);
    BodiesOfFrames(bodies, tail);
  }

  /** And an unfinished message is answered by nothing. */
  lemma UnfinishedIsLeft(r: Replies, bodies: seq<Bytes>, tail: Bytes)
    requires forall i | 0 <= i < |bodies| :: |bodies[i]| <= 8 * 1024 * 1024
    requires |tail| < 4 || exists length: nat, rest: Bytes ::
               tail == Stored(length, 4) + rest && |rest| < length <= 8 * 1024 * 1024
    ensures Written(r, FramedAll(bodies) + tail) == AllReplies(r, bodies)
  {
    if |tail| >= 4 {
      var length: nat, rest: Bytes :| tail == Stored(length, 4) + rest && |rest| < length <= 8 * 1024 * 1024;
      assert tail[..4] == Stored(length, 4);
      assert Power256(4) == 0x1_0000_0000;
      UnsignedStored(length, 4);
    }
    BodiesOfFrames(bodies, tail);
  }
}
