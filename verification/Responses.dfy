/**
 Responses as the text of a frame.  The program writes JSON; all that matters here is that request
 id, outcome and body can be read back from the text, so a plainer encoding stands for it.
 */
module Responses {
  import opened Bytes
  import opened Wrappers

  /** The result, or a number for the error code and what else the error says. */
  datatype Payload = Success(result: Bytes) | Failure(code: byte, details: Bytes)

  /** `id` is the request id as octets. */
  datatype Response = Response(id: Bytes, payload: Payload)

  /** Every octet behind a 1, and a 0 at the end. */
  function Escaped(id: Bytes): Bytes {
    if id == [] then [0] else [1, id[0]] + Escaped(id[1..])
  }

  /** An escaped octet string at the start of `s`, and what follows it. */
  function Unescaped(s: Bytes): Option<(Bytes, Bytes)>
    decreases |s|
  {
    if s == [] then None
    else if s[0] == 0 then Some(([], s[1..]))
    else if s[0] != 1 || |s| < 2 then None
    else match Unescaped(s[2..])
      case None => None
      case Some((id, rest)) => Some(([s[1]] + id, rest))
  }

  function PayloadText(p: Payload): Bytes {
    match p
    case Success(result) => [1] + result
    case Failure(code, details) => [0, code] + details
  }

  function ReadPayload(s: Bytes): Option<Payload> {
    if s == [] then None
    else if s[0] == 1 then Some(Success(s[1..]))
    else if s[0] == 0 && |s| > 1 then Some(Failure(s[1], s[2..]))
    else None
  }

  function Encode(r: Response): Bytes {
    Escaped(r.id) + PayloadText(r.payload)
  }

  function Decode(s: Bytes): Option<Response> {
    match Unescaped(s)
    case None => None
    case Some((id, rest)) =>
      match ReadPayload(rest)
      case None => None
      case Some(payload) => Some(Response(id, payload))
  }

  lemma {:induction false} UnescapeEscaped(id: Bytes, rest: Bytes)
    ensures Unescaped(Escaped(id) + rest) == Some((id, rest))
  {
    var s := Escaped(id) + rest;
    if id == [] {
      assert s[1..] == rest;
    } else {
      assert s[2..] == Escaped(id[1..]) + rest;
      UnescapeEscaped(id[1..], rest);
      assert [id[0]] + id[1..] == id;
    }
  }

  lemma PayloadReadBack(p: Payload)
    ensures ReadPayload(PayloadText(p)) == Some(p)
  {
    match p
    case Success(result) => assert PayloadText(p)[1..] == result;
    case Failure(code, details) => assert PayloadText(p)[2..] == details;
  }

  lemma ReadBack(r: Response)
    ensures Decode(Encode(r)) == Some(r)
  {
    UnescapeEscaped(r.id, PayloadText(r.payload));
    PayloadReadBack(r.payload);
  }
}
