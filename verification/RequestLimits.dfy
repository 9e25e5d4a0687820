/** Reading a request body under a size limit (control-plane/app/request_limits.py). */
module RequestLimits {
  import opened Sequences

  type Byte = bv8

  /** The Content-Length header: absent, no integer, or an integer. */
  datatype Header = NoHeader | NotAnInteger | Length(n: int)

  /** 400 for an invalid header, 413 for too large a body. */
  datatype Outcome = Body(bytes: seq<Byte>) | BadHeader | TooLarge

  function Joined(chunks: seq<seq<Byte>>): seq<Byte> {
    if chunks == [] then [] else Joined(Init(chunks)) + Last(chunks)
  }

  /** What the declared length alone decides. */
  function Declared(header: Header, limit: nat): Option<Outcome> {
    match header
    case NoHeader => None
    case NotAnInteger => Some(BadHeader)
    case Length(n) => if n < 0 then Some(BadHeader) else if n > limit then Some(TooLarge) else None
  }

  /** The answer to a request, which sees the chunks only as one body. */
  function Answer(header: Header, body: seq<Byte>, limit: nat): Outcome {
    match Declared(header, limit)
    case Some(refusal) => refusal
    case None => if |body| > limit then TooLarge else Body(body)
  }

  lemma {:induction false} JoinedGrows(chunks: seq<seq<Byte>>, i: nat)
    requires i <= |chunks|
    ensures |Joined(chunks[..i])| <= |Joined(chunks)|
  {
    if i < |chunks| {
      JoinedGrows(Init(chunks), i);
      assert Init(chunks)[..i] == chunks[..i];
    } else {
      assert chunks[..i] == chunks;
    }
  }

  /**
   * read_body_with_limit. The buffer takes in the first `taken` chunks and
   * never holds more than the limit; a refusal comes at the first chunk that
   * would not fit, whatever is still to come.
   */
  method ReadBodyWithLimit(header: Header, chunks: seq<seq<Byte>>, limit: nat)
    returns (outcome: Outcome, taken: nat)
    ensures outcome == Answer(header, Joined(chunks), limit)
    ensures taken <= |chunks| && |Joined(chunks[..taken])| <= limit
    ensures Declared(header, limit).Some? ==> taken == 0
    ensures outcome.Body? ==> taken == |chunks|
    ensures Declared(header, limit).None? && outcome.TooLarge? ==>
              taken < |chunks| && |Joined(chunks[..taken + 1])| > limit
  {
    match header {
      case NoHeader =>
      case NotAnInteger => return BadHeader, 0;
      case Length(n) =>
        if n < 0 {
          return BadHeader, 0;
        }
        if n > limit {
          return TooLarge, 0;
        }
    }
    var body: seq<Byte> := [];
    for i := 0 to |chunks|
      invariant body == Joined(chunks[..i])
      invariant |body| <= limit
    {
      InitOfPrefix(chunks, i);
      JoinedGrows(chunks, i + 1);
      if |body| + |chunks[i]| > limit {
        return TooLarge, i;
      }
      body := body + chunks[i];
    }
    assert chunks[..|chunks|] == chunks;
    return Body(body), |chunks|;
  }

  lemma {:induction false} JoinedConcat(a: seq<seq<Byte>>, b: seq<seq<Byte>>)
    ensures Joined(a + b) == Joined(a) + Joined(b)
  {
    if b == [] {
      AppendAssociates(a, b, []);
      AppendAssociates(Joined(a), [], []);
    } else {
      InitOfConcat(a, b);
      JoinedConcat(a, Init(b));
      AppendAssociates(Joined(a), Joined(Init(b)), Last(b));
    }
  }

  lemma JoinedOne(chunk: seq<Byte>)
    ensures Joined([chunk]) == chunk
  {
    assert Init([chunk]) == [];
  }

  lemma JoinedTwo(a: seq<Byte>, b: seq<Byte>)
    ensures Joined([a, b]) == a + b
  {
    hide Joined;
    assert [a, b] == [a] + [b];
    JoinedConcat([a], [b]);
    JoinedOne(a);
    JoinedOne(b);
  }

  lemma JoinedBetween(before: seq<seq<Byte>>, parts: seq<seq<Byte>>, after: seq<seq<Byte>>)
    ensures Joined(before + parts + after) == Joined(before) + Joined(parts) + Joined(after)
  {
    hide Joined;
    JoinedConcat(before + parts, after);
    JoinedConcat(before, parts);
  }

  /** Cutting a chunk in two, anywhere, changes nothing; so no way of chunking the same bytes matters. */
  lemma ChunkingIsIrrelevant(
    header: Header, before: seq<seq<Byte>>, chunk: seq<Byte>, cut: nat, after: seq<seq<Byte>>, limit: nat)
    requires cut <= |chunk|
    ensures Answer(header, Joined(before + [chunk] + after), limit) ==
            Answer(header, Joined(before + [chunk[..cut], chunk[cut..]] + after), limit)
  {
    hide Joined, Answer;
    JoinedBetween(before, [chunk], after);
    JoinedBetween(before, [chunk[..cut], chunk[cut..]], after);
    JoinedOne(chunk);
    JoinedTwo(chunk[..cut], chunk[cut..]);
    assert chunk[..cut] + chunk[cut..] == chunk;
  }

  /**
   * The body is returned exactly when the header, if any, is a length within
   * the limit and so is the true total; an invalid header is refused as such,
   * whatever the body.
   */
  lemma AcceptedExactlyWithinLimit(header: Header, chunks: seq<seq<Byte>>, limit: nat)
    ensures Answer(header, Joined(chunks), limit).Body? <==>
            (header.NoHeader? || (header.Length? && 0 <= header.n <= limit)) && |Joined(chunks)| <= limit
    ensures Answer(header, Joined(chunks), limit).Body? ==> Answer(header, Joined(chunks), limit).bytes == Joined(chunks)
    ensures Answer(header, Joined(chunks), limit).BadHeader? <==> header.NotAnInteger? || (header.Length? && header.n < 0)
  {
  }
}
