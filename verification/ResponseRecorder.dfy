/** The response recorder: passes everything a handler writes on to the client and keeps a copy of the
    reply as long as it is at most 8192 bytes long. */
module ResponseRecorder {
  newtype byte = b: int | 0 <= b < 256

  const MAX_BODY: nat := 8 * 1024
  const STATUS_OK: nat := 200

  /** What a handler does to its response writer. */
  datatype Action = Header(code: nat) | Chunk(data: seq<byte>)

  /** What reaches the client's response writer. */
  datatype Sent = SentHeader(code: nat) | SentChunk(data: seq<byte>)

  /** The status a client sees: the first header, or 200 if writing comes first or nothing is done. */
  function Status(actions: seq<Action>): nat {
    if actions == [] || actions[0].Chunk? then STATUS_OK else actions[0].code
  }

  /** All chunks, in order. */
  function Payload(actions: seq<Action>): seq<byte> {
    if actions == [] then [] else
      Payload(actions[..|actions| - 1]) + Written(actions[|actions| - 1])
  }

  function Written(a: Action): seq<byte> {
    if a.Chunk? then a.data else []
  }

  /** The client is sent one header, before the first chunk, and then every chunk. */
  function Chunks(actions: seq<Action>): seq<Sent> {
    if actions == [] then [] else
      Chunks(actions[..|actions| - 1]) + (var a := actions[|actions| - 1]; if a.Chunk? then [SentChunk(a.data)] else [])
  }

  function Forwarded(actions: seq<Action>): seq<Sent> {
    if actions == [] then [] else [SentHeader(Status(actions))] + Chunks(actions)
  }

  lemma Associative<T>(a: seq<T>, b: seq<T>, c: seq<T>)
    ensures a + (b + c) == (a + b) + c
  {
  }

  lemma PayloadSnoc(actions: seq<Action>, a: Action)
    ensures Payload(actions + [a]) == Payload(actions) + Written(a)
    ensures Chunks(actions + [a]) == Chunks(actions) + if a.Chunk? then [SentChunk(a.data)] else []
    ensures actions != [] ==> Status(actions + [a]) == Status(actions)
  {
    assert (actions + [a])[..|actions|] == actions;
  }

  lemma ForwardedSnoc(actions: seq<Action>, b: seq<byte>)
    ensures var all := actions + [Chunk(b)];
      Forwarded(all) == [SentHeader(Status(all))] + Chunks(actions) + [SentChunk(b)]
  {
    PayloadSnoc(actions, Chunk(b));
    Associative([SentHeader(Status(actions + [Chunk(b)]))], Chunks(actions), [SentChunk(b)]);
  }

  class Recorder {
    var statusCode: nat
    var wroteHeader: bool
    var body: seq<byte>
    var overflow: bool
    var sent: seq<Sent>
    ghost var actions: seq<Action>  // everything the handler has done so far

    /** Overflow is permanent, yet says exactly that the reply as a whole is too long. */
    ghost predicate Valid()
      reads this
    {
      && wroteHeader == (actions != [])
      && (wroteHeader ==> statusCode == Status(actions))
      && overflow == (|Payload(actions)| > MAX_BODY)
      && body == (if overflow then [] else Payload(actions))
      && sent == Forwarded(actions)
    }

    constructor ()
      ensures Valid() && actions == []
    {
      statusCode, wroteHeader, body, overflow, sent, actions := 0, false, [], false, [], [];
    }

    method WriteHeader(code: nat)
      requires Valid()
      modifies this
      ensures Valid() && actions == old(actions) + [Header(code)]
    {
      PayloadSnoc(actions, Header(code));
      actions := actions + [Header(code)];
      if wroteHeader {
        return;
      }
      statusCode := code;
      wroteHeader := true;
      sent := sent + [SentHeader(code)];
    }

    method Write(b: seq<byte>)
      requires Valid()
      modifies this
      ensures Valid() && actions == old(actions) + [Chunk(b)]
    {
      ImplyHeader(b);
      Keep(b);
      PayloadSnoc(actions, Chunk(b));
      ForwardedSnoc(actions, b);
      actions := actions + [Chunk(b)];
      sent := sent + [SentChunk(b)];
    }

    /** Writing without a header sends 200 first. */
    method ImplyHeader(b: seq<byte>)
      requires wroteHeader == (actions != []) && (wroteHeader ==> statusCode == Status(actions)) && sent == Forwarded(actions)
      modifies this`statusCode, this`wroteHeader, this`sent
      ensures wroteHeader && statusCode == Status(actions + [Chunk(b)])
      ensures sent == [SentHeader(statusCode)] + Chunks(actions)
    {
      if !wroteHeader {
        statusCode := STATUS_OK;
        wroteHeader := true;
        sent := sent + [SentHeader(STATUS_OK)];
      }
    }

    /** Adds to the copy, or gives it up. */
    method Keep(b: seq<byte>)
      requires overflow == (|Payload(actions)| > MAX_BODY) && body == if overflow then [] else Payload(actions)
      modifies this`body, this`overflow
      ensures overflow == (|Payload(actions) + b| > MAX_BODY)
      ensures body == if overflow then [] else Payload(actions) + b
    {
      if !overflow {
        if |body| + |b| <= MAX_BODY {
          body := body + b;
        } else {
          overflow := true;
          body := [];
        }
      }
    }

    /** Runs a handler and settles the status, as the middleware does once the handler returns. */
    method Serve(handler: seq<Action>) returns (status: nat, cacheable: bool)
      requires Valid() && actions == []
      modifies this
      ensures sent == Forwarded(handler)
      ensures status == Status(handler)
      ensures cacheable == Cacheable(handler)
      ensures cacheable ==> body == Payload(handler)
    {
      for i := 0 to |handler|
        invariant Valid() && actions == handler[..i]
      {
        assert handler[..i + 1] == handler[..i] + [handler[i]];
        match handler[i]
        case Header(code) => WriteHeader(code);
        case Chunk(data) => Write(data);
      }
      assert handler[..|handler|] == handler;
      if !wroteHeader {
        statusCode := STATUS_OK;
      }
      status := statusCode;
      cacheable := 200 <= status < 300 && !overflow && |body| <= MAX_BODY;
    }
  }

  /** Replies worth keeping: successful and within the size limit. */
  predicate Cacheable(handler: seq<Action>) {
    200 <= Status(handler) < 300 && |Payload(handler)| <= MAX_BODY
  }

  /** The bytes of a list of sent items. */
  function Received(sent: seq<Sent>): seq<byte> {
    if sent == [] then [] else
      Received(sent[..|sent| - 1]) + (var x := sent[|sent| - 1]; if x.SentChunk? then x.data else [])
  }

  lemma {:induction false} ChunksCarryPayload(prefix: seq<Sent>, actions: seq<Action>)
    ensures Received(prefix + Chunks(actions)) == Received(prefix) + Payload(actions)
  {
    if actions == [] {
      assert prefix + Chunks(actions) == prefix;
    } else {
      var rest, a := actions[..|actions| - 1], actions[|actions| - 1];
      assert actions == rest + [a];
      ChunksCarryPayload(prefix, rest);
      ChunksCarryOneMore(prefix, rest, a);
    }
  }

  lemma ChunksCarryOneMore(prefix: seq<Sent>, rest: seq<Action>, a: Action)
    requires Received(prefix + Chunks(rest)) == Received(prefix) + Payload(rest)
    ensures Received(prefix + Chunks(rest + [a])) == Received(prefix) + Payload(rest + [a])
  {
    PayloadSnoc(rest, a);
    if a.Chunk? {
      Associative(prefix, Chunks(rest), [SentChunk(a.data)]);
      ReceivedSnoc(prefix + Chunks(rest), SentChunk(a.data));
      Associative(Received(prefix), Payload(rest), a.data);
    } else {
      assert Chunks(rest + [a]) == Chunks(rest) && Payload(rest + [a]) == Payload(rest);
    }
  }

  lemma ReceivedSnoc(sent: seq<Sent>, x: Sent)
    ensures Received(sent + [x]) == Received(sent) + if x.SentChunk? then x.data else []
  {
    assert (sent + [x])[..|sent|] == sent;
  }

  /** The client's first item is the header with the recorded status, and the bytes it receives are the
      recorded payload. */
  lemma ClientSeesRecord(handler: seq<Action>)
    requires handler != []
    ensures Forwarded(handler)[0] == SentHeader(Status(handler))
    ensures Received(Forwarded(handler)) == Payload(handler)
  {
    var head := [SentHeader(Status(handler))];
    assert head[..0] == [];
    assert Received(head) == [];
    ChunksCarryPayload(head, handler);
  }

  /** The recorded status is the first header written before any chunk, or 200. */
  lemma StatusIsFirstHeader(code: nat, data: seq<byte>, rest: seq<Action>)
    ensures Status([]) == 200 && Status([Chunk(data)] + rest) == 200 && Status([Header(code)] + rest) == code
  {
  }

  /** The recorded body is the concatenation of the chunks, in order. */
  lemma {:induction false} PayloadConcatenates(a: seq<Action>, b: seq<Action>)
    ensures Payload(a + b) == Payload(a) + Payload(b)
  {
    if b == [] {
      assert a + b == a;
    } else {
      var rest, last := b[..|b| - 1], b[|b| - 1];
      assert a + b == (a + rest) + [last] && b == rest + [last];
      PayloadConcatenates(a, rest);
      PayloadSnoc(a + rest, last);
      PayloadSnoc(rest, last);
      Associative(Payload(a), Payload(rest), Written(last));
    }
  }

  lemma PayloadOfOne(code: nat, data: seq<byte>)
    ensures Payload([]) == [] && Payload([Header(code)]) == [] && Payload([Chunk(data)]) == data
  {
    assert [Header(code)][..0] == [] && [Chunk(data)][..0] == [];
  }

  /** A reply is kept exactly when it is a 2xx one of at most 8192 bytes. */
  lemma KeptIff(handler: seq<Action>)
    ensures Cacheable(handler) <==> 200 <= Status(handler) <= 299 && |Payload(handler)| <= 8192
  {
  }
}
