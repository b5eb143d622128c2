/** The response-body cap: four loops over chunks, and the reads and discards built on them. */
module BodyCap {
  import opened Options

  newtype Byte = x: int | 0 <= x < 256
  type Bytes = seq<Byte>

  /** An iterator of chunks that ends, or raises, after the last one. */
  datatype Stream = Stream(chunks: seq<Bytes>, breaks: bool)

  function Join(chunks: seq<Bytes>): Bytes {
    if chunks == [] then [] else Join(chunks[..|chunks| - 1]) + chunks[|chunks| - 1]
  }

  function Total(chunks: seq<Bytes>): nat {
    |Join(chunks)|
  }

  lemma JoinNext(chunks: seq<Bytes>, i: nat)
    requires i < |chunks|
    ensures Join(chunks[..i + 1]) == Join(chunks[..i]) + chunks[i]
  {
    assert chunks[..i + 1][..i] == chunks[..i];
  }

  lemma {:induction false} TotalsGrow(chunks: seq<Bytes>, i: nat, j: nat)
    requires i <= j <= |chunks|
    ensures Total(chunks[..i]) <= Total(chunks[..j])
  {
    if i < j {
      TotalsGrow(chunks, i, j - 1);
      JoinNext(chunks, j - 1);
    }
  }

  // ---- where a capped loop stops ----

  /** `taken` chunks were taken: the last is the first whose prefix total exceeds `cap`, or the loop saw them all. */
  predicate StopsAfter(chunks: seq<Bytes>, cap: nat, taken: nat) {
    && taken <= |chunks|
    && (taken > 0 ==> Total(chunks[..taken - 1]) <= cap)
    && (taken < |chunks| ==> Total(chunks[..taken]) > cap)
  }

  /** All the loops that stop so stop at the same chunk. */
  lemma OneStop(chunks: seq<Bytes>, cap: nat, k: nat, l: nat)
    requires StopsAfter(chunks, cap, k) && StopsAfter(chunks, cap, l)
    ensures k == l
  {
    if k < l {
      TotalsGrow(chunks, k, l - 1);
    } else if l < k {
      TotalsGrow(chunks, l, k - 1);
    }
  }

  datatype Drained = Whole(content: Bytes) | Exceeds | Broken

  /** What draining `s` under `cap` comes to, whatever the chunks: a break is met only when the bytes before it fit. */
  function Drain(s: Stream, cap: nat): Drained {
    if Total(s.chunks) > cap then Exceeds else if s.breaks then Broken else Whole(Join(s.chunks))
  }

  /** `_accumulate_capped`. */
  method AccumulateCapped(s: Stream, cap: nat) returns (r: Drained, ghost taken: nat)
    ensures r == Drain(s, cap) && StopsAfter(s.chunks, cap, taken)
  {
    var buf := [];
    for i := 0 to |s.chunks|
      invariant buf == Join(s.chunks[..i]) && |buf| <= cap
    {
      JoinNext(s.chunks, i);
      buf := buf + s.chunks[i];
      if |buf| > cap {
        TotalsGrow(s.chunks, i + 1, |s.chunks|);
        assert s.chunks[..|s.chunks|] == s.chunks;
        return Exceeds, i + 1;
      }
    }
    assert s.chunks[..|s.chunks|] == s.chunks;
    return if s.breaks then Broken else Whole(buf), |s.chunks|;
  }

  /** What asking a stream for its next chunk gives. */
  datatype Pull = Item(chunk: Bytes) | End | TooMuch | Fault

  /** `_CappedSyncStream` and its async mirror, iterated once. */
  class CappedStream {
    const stream: Stream
    const cap: nat
    var taken: nat
    var read: nat

    ghost predicate Valid()
      reads this
    {
      taken <= |stream.chunks| && read == Total(stream.chunks[..taken])
    }

    constructor (stream: Stream, cap: nat)
      ensures Valid() && this.stream == stream && this.cap == cap && taken == 0
    {
      this.stream := stream;
      this.cap := cap;
      taken := 0;
      read := 0;
    }

    method Next() returns (pull: Pull)
      requires Valid() && read <= cap
      modifies this
      ensures Valid()
      ensures if old(taken) == |stream.chunks| then pull == (if stream.breaks then Fault else End) && taken == old(taken)
              else taken == old(taken) + 1
                   && pull == if Total(stream.chunks[..taken]) > cap then TooMuch else Item(stream.chunks[taken - 1])
    {
      if taken == |stream.chunks| {
        return if stream.breaks then Fault else End;
      }
      JoinNext(stream.chunks, taken);
      var chunk := stream.chunks[taken];
      taken := taken + 1;
      read := read + |chunk|;
      if read > cap {
        return TooMuch;
      }
      return Item(chunk);
    }
  }

  /** `response.read()` over a capped stream. */
  method ReadThrough(stream: CappedStream) returns (r: Drained)
    requires stream.Valid() && stream.taken == 0
    modifies stream
    ensures r == Drain(stream.stream, stream.cap)
    ensures StopsAfter(stream.stream.chunks, stream.cap, stream.taken)
  {
    var content, chunks := [], stream.stream.chunks;
    assert chunks[..|chunks|] == chunks;
    while true
      invariant stream.Valid() && stream.read <= stream.cap
      invariant content == Join(chunks[..stream.taken])
      decreases |chunks| - stream.taken
    {
      ghost var before := stream.taken;
      var pull := stream.Next();
      match pull {
        case Item(chunk) =>
          JoinNext(chunks, before);
          content := content + chunk;
        case End => return Whole(content);
        case Fault => return Broken;
        case TooMuch =>
          TotalsGrow(chunks, stream.taken, |chunks|);
          return Exceeds;
      }
    }
  }

  // ---- responses ----

  datatype Request = Request(verb: string, target: int)

  /** A Content-Length header as `int()` reads it. */
  datatype Header = Missing | Garbage | Number(value: int)

  /** What a server answers: `raw` as received, `decoded` as `iter_bytes` chunks it. */
  datatype RawHead = Head(status: int, declared: Header, encoded: bool, raw: Stream, decoded: Stream, next: Option<Request>) {
    /** Decoding a body without content-encoding can only move its chunk boundaries. */
    predicate Valid() {
      !encoded ==> Join(raw.chunks) == Join(decoded.chunks) && raw.breaks == decoded.breaks
    }
  }

  type Head = h: RawHead | h.Valid() witness Head(200, Missing, false, Stream([], false), Stream([], false), None)

  function BodyOf(head: Head): Bytes {
    Join(head.decoded.chunks)
  }

  function ParseContentLength(h: Header): Option<nat> {
    if h.Number? && h.value >= 0 then Some(h.value) else None
  }

  function UpperChar(c: char): char {
    if 'a' <= c <= 'z' then c - 'a' + 'A' else c
  }

  function Upper(s: string): string {
    seq(|s|, i requires 0 <= i < |s| => UpperChar(s[i]))
  }

  predicate HasBody(verb: string, status: int) {
    Upper(verb) != "HEAD" && status !in {204, 304}
  }

  predicate DeclaredOver(head: Head, cap: nat) {
    var length := ParseContentLength(head.declared);
    length.Some? && length.value > cap
  }

  datatype Reason = Declared | Streamed

  datatype Read = Kept(content: Bytes) | TooLarge(reason: Reason, length: Option<nat>) | Lost

  function ReadOf(d: Drained, length: Option<nat>): Read {
    match d
    case Exceeds => TooLarge(Streamed, length)
    case Broken => Lost
    case Whole(content) => Kept(content)
  }

  /** What a capped read of a response comes to, in the order the reads find out. */
  function Verdict(request: Request, head: Head, cap: nat): Read {
    var length := ParseContentLength(head.declared);
    if !HasBody(request.verb, head.status) then if head.decoded.breaks then Lost else Kept(BodyOf(head))
    else if DeclaredOver(head, cap) then TooLarge(Declared, length)
    else
      ReadOf(Drain(if head.encoded then head.decoded else head.raw, cap), length)
  }

  /** "HEAD" in any letter case. */
  predicate IsHead(verb: string) {
    && |verb| == 4
    && verb[0] in {'H', 'h'} && verb[1] in {'E', 'e'} && verb[2] in {'A', 'a'} && verb[3] in {'D', 'd'}
  }

  lemma UpperIsHead(verb: string)
    ensures Upper(verb) == "HEAD" <==> IsHead(verb)
  {
    assert |Upper(verb)| == |verb|;
    assert forall i :: 0 <= i < |verb| ==> Upper(verb)[i] == UpperChar(verb[i]);
    if |verb| == 4 {
      LetterIs(verb[0], 'H');
      LetterIs(verb[1], 'E');
      LetterIs(verb[2], 'A');
      LetterIs(verb[3], 'D');
      assert Upper(verb) == [UpperChar(verb[0]), UpperChar(verb[1]), UpperChar(verb[2]), UpperChar(verb[3])];
    }
  }

  lemma LetterIs(c: char, upper: char)
    requires 'A' <= upper <= 'Z'
    ensures UpperChar(c) == upper <==> c == upper || c == upper - 'A' + 'a'
  {
  }

  /**
    A read refuses a response if and only if its request is no HEAD in any letter case, its
    status is neither 204 nor 304, and it is declared or decodes to more than the cap. One
    that breaks first is lost, and any other is kept byte for byte. The refusal gives the
    declared length, if there is one, and says whether that was the reason.
   */
  lemma ReadsExactly(request: Request, head: Head, cap: nat)
    ensures var r := Verdict(request, head, cap);
            var declared := head.declared.Number? && head.declared.value > cap;
            var bodied := !IsHead(request.verb) && head.status != 204 && head.status != 304;
            var refused := bodied && (declared || |BodyOf(head)| > cap);
            && (r.TooLarge? <==> refused)
            && (r.Lost? <==> !refused && head.decoded.breaks)
            && (r.Kept? <==> !refused && !head.decoded.breaks)
            && (r.Kept? ==> r.content == BodyOf(head))
            && (r.TooLarge? ==>
                  && (r.reason == Declared <==> declared)
                  && r.length == if head.declared.Number? && head.declared.value >= 0 then Some(head.declared.value) else None)
  {
    hide Upper;
    UpperIsHead(request.verb);
  }

  /** Responses to HEAD, and 204 and 304 ones, are never too large (section 6.4.1 of RFC 9110). */
  lemma BodilessNeverTooLarge(request: Request, head: Head, cap: nat)
    requires IsHead(request.verb) || head.status == 204 || head.status == 304
    ensures !Verdict(request, head, cap).TooLarge?
    ensures WithinDeclared(request, head, cap)
  {
    hide Upper;
    UpperIsHead(request.verb);
  }

  /**
    Discarding a response fails if and only if its body breaks within the cap, and it is a HEAD's,
    a 204 or a 304, or not declared to be longer than the cap.
   */
  lemma DiscardsExactly(request: Request, head: Head, cap: nat)
    ensures !Discardable(request, head, cap)
       <==> && head.decoded.breaks && |BodyOf(head)| <= cap
            && (IsHead(request.verb) || head.status == 204 || head.status == 304
                || !(head.declared.Number? && head.declared.value > cap))
  {
    hide Upper;
    UpperIsHead(request.verb);
  }

  /** Where the chunks are cut does not matter. */
  lemma BoundariesIgnored(request: Request, head: Head, other: Head, cap: nat)
    requires head.status == other.status && head.declared == other.declared && head.encoded == other.encoded
    requires Join(head.raw.chunks) == Join(other.raw.chunks) && head.raw.breaks == other.raw.breaks
    requires Join(head.decoded.chunks) == Join(other.decoded.chunks) && head.decoded.breaks == other.decoded.breaks
    ensures Verdict(request, head, cap) == Verdict(request, other, cap)
    ensures Discardable(request, head, cap) == Discardable(request, other, cap)
  {
  }

  class Response {
    const request: Request
    const head: Head
    var history: seq<Response>
    var consumed: bool
    var closed: bool

    /** A streaming response, as `send` opens it. */
    constructor (request: Request, head: Head)
      ensures this.request == request && this.head == head && history == [] && !consumed && !closed
    {
      this.request := request;
      this.head := head;
      history := [];
      consumed := false;
      closed := false;
    }

    /** `_build_buffered_response`: a response with its content in memory holds no connection. */
    constructor Buffered(response: Response)
      ensures request == response.request && head == response.head && history == response.history && consumed && closed
    {
      request := response.request;
      head := response.head;
      history := response.history;
      consumed := true;
      closed := true;
    }

    method Close()
      modifies this`closed
      ensures closed
    {
      closed := true;
    }
  }

  /** A capped read's result: the response that now has the content, or the error. */
  datatype Result = Got(response: Response, content: Bytes) | Err(error: Read)

  ghost predicate Answers(r: Result, response: Response, verdict: Read) {
    && (r.Got? <==> verdict.Kept?)
    && (r.Got? ==> r.content == verdict.content && (r.response != response ==> response.head.encoded))
    && (r.Err? ==> r.error == verdict)
  }

  /** The response has a body, not declared over the cap, to be read chunk by chunk. */
  predicate Accumulates(request: Request, head: Head, cap: nat) {
    HasBody(request.verb, head.status) && !DeclaredOver(head, cap)
  }

  /** How a capped read leaves things: who has the body, and what is closed. */
  ghost predicate Ends(r: Result, response: Response, cap: nat)
    reads response, if r.Got? then {r.response} else {}
  {
    && Answers(r, response, Verdict(response.request, response.head, cap))
    && (r.Got? && r.response == response ==> response.consumed)
    && (r.Got? && r.response != response ==>
          && response.closed && r.response.closed && r.response.consumed
          && r.response.history == response.history && r.response.request == response.request && r.response.head == response.head)
    && (r.Err? && Accumulates(response.request, response.head, cap) && !response.head.encoded ==> response.closed)
  }

  /** The part both reads begin with: all of a read but the accumulation of an encoded body, for which it gives `None`. */
  method ReadUnlessEncoded(response: Response, cap: nat) returns (r: Option<Result>)
    modifies response`consumed, response`closed
    ensures r.Some? ==> Ends(r.value, response, cap) && (r.value.Got? ==> r.value.response == response)
    ensures r.None? <==> Accumulates(response.request, response.head, cap) && response.head.encoded
  {
    if !HasBody(response.request.verb, response.head.status) {
      response.consumed := true;
      return Some(if response.head.decoded.breaks then Err(Lost) else Got(response, BodyOf(response.head)));
    }
    var length := ParseContentLength(response.head.declared);
    if length.Some? && length.value > cap {
      return Some(Err(TooLarge(Declared, length)));
    }
    response.consumed := true;
    if response.head.encoded {
      return None;
    }
    var capped := new CappedStream(response.head.raw, cap);
    var d := ReadThrough(capped);
    if !d.Whole? {
      response.Close();
    }
    return Some(if d.Whole? then Got(response, d.content) else Err(ReadOf(d, length)));
  }

  /** `_read_capped`. An encoded body goes into a new response; on success the old one is closed or wholly read. */
  method ReadCapped(response: Response, cap: nat) returns (r: Result)
    modifies response`consumed, response`closed
    ensures Ends(r, response, cap)
    ensures r.Got? && r.response != response ==> fresh(r.response)
  {
    var early := ReadUnlessEncoded(response, cap);
    if early.Some? {
      return early.value;
    }
    var d, _ := AccumulateCapped(response.head.decoded, cap);
    if !d.Whole? {
      return Err(ReadOf(d, ParseContentLength(response.head.declared)));
    }
    response.Close();
    var buffered := new Response.Buffered(response);
    return Got(buffered, d.content);
  }

  /** The loop `_read_capped_async` runs inline on an encoded body. */
  method ReadInline(s: Stream, cap: nat, length: Option<nat>) returns (r: Read, ghost taken: nat)
    ensures StopsAfter(s.chunks, cap, taken)
    ensures r == ReadOf(Drain(s, cap), length)
  {
    var buf, i := [], 0;
    assert s.chunks[..|s.chunks|] == s.chunks;
    while i < |s.chunks|
      invariant i <= |s.chunks|
      invariant buf == Join(s.chunks[..i]) && |buf| <= cap
    {
      JoinNext(s.chunks, i);
      buf := buf + s.chunks[i];
      i := i + 1;
      if |buf| > cap {
        TotalsGrow(s.chunks, i, |s.chunks|);
        return TooLarge(Streamed, length), i;
      }
    }
    return if s.breaks then Lost else Kept(buf), i;
  }

  /** `_read_capped_async`: as `_read_capped`, an encoded body being accumulated inline. */
  method ReadCappedAsync(response: Response, cap: nat) returns (r: Result)
    modifies response`consumed, response`closed
    ensures Ends(r, response, cap)
    ensures r.Got? && r.response != response ==> fresh(r.response)
  {
    var early := ReadUnlessEncoded(response, cap);
    if early.Some? {
      return early.value;
    }
    var read, _ := ReadInline(response.head.decoded, cap, ParseContentLength(response.head.declared));
    if !read.Kept? {
      return Err(read);
    }
    response.Close();
    var buffered := new Response.Buffered(response);
    return Got(buffered, read.content);
  }

  // ---- discarding ----

  /** `_fits_declared_length`. */
  predicate WithinDeclared(request: Request, head: Head, cap: nat) {
    !HasBody(request.verb, head.status) || !DeclaredOver(head, cap)
  }

  /** Discarding raises only when the stream breaks within a cap it was not declared to exceed. */
  predicate Discardable(request: Request, head: Head, cap: nat) {
    WithinDeclared(request, head, cap) ==> Drain(head.decoded, cap) != Broken
  }

  /** `_discard_within_cap`: nothing is read past a declared length, and otherwise no further than a read would go. */
  method DiscardWithinCap(response: Response, cap: nat) returns (ok: bool, ghost taken: nat)
    modifies response`consumed
    ensures ok == Discardable(response.request, response.head, cap)
    ensures if WithinDeclared(response.request, response.head, cap)
        then StopsAfter(response.head.decoded.chunks, cap, taken) else taken == 0
  {
    var s := response.head.decoded;
    if !WithinDeclared(response.request, response.head, cap) {
      return true, 0;
    }
    response.consumed := true;
    var read := 0;
    assert s.chunks[..|s.chunks|] == s.chunks;
    for i := 0 to |s.chunks|
      invariant read == Total(s.chunks[..i]) <= cap
    {
      JoinNext(s.chunks, i);
      read := read + |s.chunks[i]|;
      if read > cap {
        TotalsGrow(s.chunks, i + 1, |s.chunks|);
        return true, i + 1;
      }
    }
    return !s.breaks, |s.chunks|;
  }
}
