/**
 A message's whole way: formatted by the client, rewritten by the gateway, received as bytes, and back.

 The JSON library is a parameter. What is asked of it (`Understands`) is that the receiver reads what the
 sender wrote, that no text is empty, and that a serialised text holds no raw carriage return.
 */
module LspPipeline {
  import opened Sequences
  import opened Unicode
  import opened LspFraming
  import opened LspText
  import opened UriTransformer

  datatype Codec = Codec(stringify: Json -> string, parse: string -> Option<Json>)

  ghost predicate Understands(reader: Codec, writer: Codec) {
    forall v :: UniqueKeys(v) ==>
      && reader.parse(writer.stringify(v)) == Some(v)
      && writer.stringify(v) != "" && '\r' !in writer.stringify(v)
  }

  // ---- The client's two ends (cli/lib/lsp/lsp_message.dart) ----

  function Format(codec: Codec, jsonRpc: Json): string { Frame(codec.stringify(jsonRpc)) }

  function Parse(codec: Codec, raw: string): Option<Json> {
    var separator := IndexOf(raw, SEPARATOR_TEXT);
    if separator == -1 || raw[separator + 4..] == "" then None
    else
      match codec.parse(raw[separator + 4..])
      case Some(Obj(members)) => Some(Obj(members))
      case _ => None
  }

  // ---- The gateway: transformMessage and transformResponseMessage, at their declared type ----

  function TransformMessage(codec: Codec, dir: Direction, root: string, message: string): string {
    var separator := IndexOf(message, SEPARATOR_TEXT);
    if separator == -1 then message
    else
      var content := message[separator + 4..];
      if content == "" then message
      else
        match codec.parse(content)
        case None => message
        case Some(json) => Frame(codec.stringify(Rewrite(dir, root, json)))
  }

  /** A message the gateway can read is rebuilt around the rewritten tree, whatever header it came with. */
  lemma TransformRebuilds(client: Codec, gateway: Codec, dir: Direction, root: string, j: Json)
    requires Understands(gateway, client) && UniqueKeys(j)
    ensures TransformMessage(gateway, dir, root, Format(client, j)) == Format(gateway, Rewrite(dir, root, j))
  {
    FrameSplits(client.stringify(j));
  }

  lemma ParseReadsFormat(reader: Codec, writer: Codec, j: Json)
    requires Understands(reader, writer) && UniqueKeys(j)
    ensures Parse(reader, Format(writer, j)) == if j.Obj? then Some(j) else None
  {
    FrameSplits(writer.stringify(j));
  }

  /** A text the gateway cannot read leaves it unchanged: no separator, nothing after it, or no JSON there. */
  lemma UnreadableIsRelayed(codec: Codec, dir: Direction, root: string, message: string)
    requires var k := IndexOf(message, SEPARATOR_TEXT);
             k == -1 || message[k + 4..] == "" || codec.parse(message[k + 4..]) == None
    ensures TransformMessage(codec, dir, root, message) == message
    ensures Parse(codec, message) == None
  {}

  // ---- End to end ----

  /**
   A request's bytes, cut anyhow, come out of a byte-counting receiver as one intact frame with nothing left
   over exactly when the rewritten text is ASCII; and the frame then spells one text, which parses to the
   rewritten request.
   */
  lemma RequestArrives(client: Codec, gateway: Codec, receiver: Codec, root: string, j: Json, chunks: seq<seq<Byte>>)
    requires Understands(gateway, client) && Understands(receiver, gateway)
    requires UniqueKeys(j) && j.Obj?
    requires Concat(chunks) == Utf8(TransformMessage(gateway, ToContainer, root, Format(client, j)))
    ensures ReceiveAll(chunks) == Decoded([Concat(chunks)], [], false)
            <==> IsAscii(gateway.stringify(Rewrite(ToContainer, root, j)))
    ensures forall text :: Utf8(text) == Concat(chunks) ==>
              Parse(receiver, text) == Some(Rewrite(ToContainer, root, j))
  {
    hide Decode, Utf8, Rewrite, Frame, Parse, TransformMessage;
    var moved := Rewrite(ToContainer, root, j);
    var content := gateway.stringify(moved);
    TransformRebuilds(client, gateway, ToContainer, root, j);
    RewriteKeepsKeysUnique(ToContainer, root, j);
    assert Concat(chunks) == Utf8(Frame(content));
    OneMessageStream(content);
    ChunkInvariance(chunks);
    assert moved.Obj? by { RewriteKeepsObject(ToContainer, root, j); }
    ParseReadsFormat(receiver, gateway, moved);
    forall text | Utf8(text) == Concat(chunks) ensures Parse(receiver, text) == Some(moved) {
      Utf8Injective(text, Frame(content));
    }
  }

  lemma RewriteKeepsObject(dir: Direction, root: string, j: Json)
    requires j.Obj?
    ensures Rewrite(dir, root, j).Obj?
  {}

  // ---- As wired ----

  /** The decoder emits a buffer where the gateway's listener declares a string. */
  datatype Payload = Text(text: string) | Buffer(bytes: seq<Byte>)

  /**
   `transformResponseMessage` applied to whatever arrives: a buffer can be searched, but it has no
   `substring`, so past the search the call throws and the catch returns the payload itself.
   */
  function RelayResponse(codec: Codec, root: string, payload: Payload): Payload {
    match payload
    case Text(s) => Text(TransformMessage(codec, ToClient, root, s))
    case Buffer(_) => payload
  }

  /** `toString()` on what the relay returned; a buffer spells the text it encodes. */
  predicate Delivers(payload: Payload, text: string) {
    match payload
    case Text(s) => text == s
    case Buffer(bytes) => Utf8(text) == bytes
  }

  // ---- Responses: from the container's bytes to the client's tree ----

  /** The bodies of a container that sends these trees. */
  function Bodies(server: Codec, vs: seq<Json>): seq<seq<Byte>> {
    seq(|vs|, i requires 0 <= i < |vs| => Utf8(server.stringify(vs[i])))
  }

  ghost predicate AllMessages(vs: seq<Json>) { forall i :: 0 <= i < |vs| ==> UniqueKeys(vs[i]) && vs[i].Obj? }

  /** What a byte-counting sender puts in front of a text leaves it readable at both of the next stations. */
  lemma AnswerIsRead(server: Codec, gateway: Codec, client: Codec, root: string, v: Json, text: string)
    requires Understands(gateway, server) && Understands(client, server) && Understands(client, gateway)
    requires UniqueKeys(v) && v.Obj? && Utf8(text) == FrameOf(Utf8(server.stringify(v)))
    ensures Parse(client, text) == Some(v)
    ensures Parse(client, TransformMessage(gateway, ToClient, root, text)) == Some(Rewrite(ToClient, root, v))
  {
    hide Utf8, Headed, FrameOf, Rewrite;
    var content := server.stringify(v);
    FrameSpells(content, text);
    HeadedSplits(|Utf8(content)|, content);
    assert Parse(client, text) == Some(v);
    assert TransformMessage(gateway, ToClient, root, text) == Format(gateway, Rewrite(ToClient, root, v));
    RewriteKeepsKeysUnique(ToClient, root, v);
    RewriteKeepsObject(ToClient, root, v);
    hide Parse, TransformMessage;
    ParseReadsFormat(client, gateway, Rewrite(ToClient, root, v));
  }

  /**
   A container that frames its messages by the protocol, its bytes cut anyhow: the decoder emits those messages and
   keeps nothing. As wired, with a buffer for a payload, the client reads each tree with the container's URIs in it;
   at the declared type, with the text for a payload, it would read the rewritten tree.
   */
  lemma ResponsesArrive(
    server: Codec, gateway: Codec, client: Codec, root: string, vs: seq<Json>, chunks: seq<seq<Byte>>)
    requires Understands(gateway, server) && Understands(client, server) && Understands(client, gateway)
    requires AllMessages(vs) && Concat(chunks) == Concat(FramesOf(Bodies(server, vs)))
    ensures ReceiveAll(chunks) == Decoded(FramesOf(Bodies(server, vs)), [], false)
    ensures forall i, read ::
              0 <= i < |vs| && Delivers(RelayResponse(gateway, root, Buffer(ReceiveAll(chunks).frames[i])), read) ==>
                Parse(client, read) == Some(vs[i])
    ensures forall i, text, read ::
              0 <= i < |vs| && Utf8(text) == ReceiveAll(chunks).frames[i]
              && Delivers(RelayResponse(gateway, root, Text(text)), read) ==>
                Parse(client, read) == Some(Rewrite(ToClient, root, vs[i]))
  {
    hide Utf8, FrameOf, Rewrite, Parse, TransformMessage, Understands, ReceiveAll, Concat;
    FramingRoundTrip(Bodies(server, vs), chunks);
    var frames := FramesOf(Bodies(server, vs));
    forall i, read | 0 <= i < |vs| && Delivers(RelayResponse(gateway, root, Buffer(frames[i])), read)
      ensures Parse(client, read) == Some(vs[i])
    {
      AnswerIsRead(server, gateway, client, root, vs[i], read);
    }
    forall i, text, read |
      0 <= i < |vs| && Utf8(text) == frames[i] && Delivers(RelayResponse(gateway, root, Text(text)), read)
      ensures Parse(client, read) == Some(Rewrite(ToClient, root, vs[i]))
    {
      AnswerIsRead(server, gateway, client, root, vs[i], text);
    }
  }

  /**
   What a byte-counting container hears of a request sent through the gateway. The request is among the frames it
   decodes if and only if the rewritten text is ASCII; and then there is no other, and it reads the rewritten tree.
   */
  lemma RequestIsHeardIff(client: Codec, gateway: Codec, server: Codec, root: string, j: Json, sent: seq<seq<Byte>>)
    requires Understands(gateway, client) && Understands(server, gateway) && UniqueKeys(j) && j.Obj?
    requires Concat(sent) == Utf8(TransformMessage(gateway, ToContainer, root, Format(client, j)))
    ensures var ascii := IsAscii(gateway.stringify(Rewrite(ToContainer, root, j)));
            && (Concat(sent) in ReceiveAll(sent).frames <==> ascii)
            && (ascii ==> forall heard :: Utf8(heard) in ReceiveAll(sent).frames ==>
                            Parse(server, heard) == Some(Rewrite(ToContainer, root, j)))
  {
    hide Utf8, Rewrite, Parse, TransformMessage, Understands, Format, ReceiveAll, Decode;
    RequestArrives(client, gateway, server, root, j, sent);
    ChunkInvariance(sent);
    WholeStreamIsOneFrame(Concat(sent));
  }

  /**
   A container that answers a request with the tree it read. If the rewritten request is ASCII the container reads the
   rewritten tree, and its answer comes through whole. At the declared type the client then gets its own tree back if
   and only if nothing of it collides; as wired, if and only if nothing of it was moved.
   */
  lemma EchoRoundTrip(
    client: Codec, gateway: Codec, server: Codec, root: string, j: Json, sent: seq<seq<Byte>>, heard: string, v: Json,
    chunks: seq<seq<Byte>>, text: string)
    requires Understands(gateway, client) && Understands(server, gateway)
    requires Understands(gateway, server) && Understands(client, server) && Understands(client, gateway)
    requires UniqueKeys(j) && j.Obj? && !HasPattern(root) && WORKSPACE != ContainerBase(root)
    requires Concat(sent) == Utf8(TransformMessage(gateway, ToContainer, root, Format(client, j)))
    requires Utf8(heard) in ReceiveAll(sent).frames && Parse(server, heard) == Some(v)
    requires Concat(chunks) == FrameOf(Utf8(server.stringify(v))) == Utf8(text)
    ensures Concat(sent) in ReceiveAll(sent).frames <==> IsAscii(gateway.stringify(Rewrite(ToContainer, root, j)))
    ensures ReceiveAll(chunks) == Decoded([Utf8(text)], [], false)
    ensures IsAscii(gateway.stringify(Rewrite(ToContainer, root, j))) ==>
              && v == Rewrite(ToContainer, root, j)
              && (Parse(client, TransformMessage(gateway, ToClient, root, text)) == Some(j)
                  <==> NoCollision(ToContainer, root, j))
              && forall read :: Delivers(RelayResponse(gateway, root, Buffer(Utf8(text))), read) ==>
                   (Parse(client, read) == Some(j) <==> NothingToMove(ToContainer, root, j))
  {
    hide Utf8, FrameOf, Rewrite, Parse, TransformMessage, Understands, ReceiveAll, Format, Decode;
    RequestIsHeardIff(client, gateway, server, root, j, sent);
    OneFrameStream(server.stringify(v), chunks);
    if IsAscii(gateway.stringify(Rewrite(ToContainer, root, j))) {
      AnswerRoundTrip(client, gateway, server, root, j, text);
    }
  }

  /** The way back of the rewritten tree. */
  lemma AnswerRoundTrip(client: Codec, gateway: Codec, server: Codec, root: string, j: Json, text: string)
    requires Understands(gateway, server) && Understands(client, server) && Understands(client, gateway)
    requires UniqueKeys(j) && j.Obj? && !HasPattern(root) && WORKSPACE != ContainerBase(root)
    requires Utf8(text) == FrameOf(Utf8(server.stringify(Rewrite(ToContainer, root, j))))
    ensures Parse(client, TransformMessage(gateway, ToClient, root, text)) == Some(j)
            <==> NoCollision(ToContainer, root, j)
    ensures forall read :: Delivers(RelayResponse(gateway, root, Buffer(Utf8(text))), read) ==>
              (Parse(client, read) == Some(j) <==> NothingToMove(ToContainer, root, j))
  {
    hide Utf8, FrameOf, Rewrite, Parse, TransformMessage, Understands;
    var moved := Rewrite(ToContainer, root, j);
    RewriteKeepsKeysUnique(ToContainer, root, j);
    RewriteKeepsObject(ToContainer, root, j);
    AnswerIsRead(server, gateway, client, root, moved, text);
    TreeRoundTrip(ToContainer, root, j);
    RewriteIsIdentityIff(ToContainer, root, j);
    forall read | Delivers(RelayResponse(gateway, root, Buffer(Utf8(text))), read)
      ensures Parse(client, read) == Some(moved)
    {
      Utf8Injective(read, text);
    }
  }

  lemma OneFrameStream(content: string, chunks: seq<seq<Byte>>)
    requires Concat(chunks) == FrameOf(Utf8(content))
    ensures ReceiveAll(chunks) == Decoded([FrameOf(Utf8(content))], [], false)
  {
    hide FrameOf, Utf8;
    var bodies := [Utf8(content)];
    assert FramesOf(bodies) == [FrameOf(Utf8(content))];
    assert Concat(FramesOf(bodies)) == FrameOf(Utf8(content));
    FramingRoundTrip(bodies, chunks);
  }
}
