/** `ControlRpcMessage<T>`: a big-endian u64 request id followed by the content, for any
    content type with a (possibly failing) writer and a reader. */
module Rpc {
  import opened Ints
  import opened Wrappers
  import opened Encoding

  datatype ControlRpcMessage<T> = ControlRpcMessage(requestId: u64, content: T)

  /** A content writer: the content's bytes in front of `rest`, or the error the write fails
      with. */
  type Writer<!T> = (T, seq<u8>) -> Result<seq<u8>, IoError>

  function PutRpc<T>(put: Writer<T>, m: ControlRpcMessage<T>, rest: seq<u8>): (r: Result<seq<u8>, IoError>)
    ensures put(m.content, rest).Err? ==> r == Err(put(m.content, rest).error)
    ensures put(m.content, rest).Ok? ==> r == Ok(PutU64(m.requestId, put(m.content, rest).value))
  {
    var body :- put(m.content, rest);
    Ok(PutU64(m.requestId, body))
  }

  function GetRpc<T>(get: seq<u8> -> Decoded<T>, s: seq<u8>): (r: Decoded<ControlRpcMessage<T>>)
    ensures |s| < 8 ==> r == Err(UnexpectedEof)
    ensures |s| >= 8 && get(s[8..]).Err? ==> r == Err(get(s[8..]).error)
    ensures r.Ok? ==> get(s[8..]) == Ok((r.value.0.content, r.value.1))
  {
    var id :- GetU64(s);
    var content :- get(id.1);
    Ok((ControlRpcMessage(id.0, content.0), content.1))
  }

  /** The written length is 8 plus what the content's write produced. */
  lemma RpcWriteLen<T>(put: Writer<T>, m: ControlRpcMessage<T>, rest: seq<u8>)
    requires put(m.content, rest).Ok?
    ensures PutRpc(put, m, rest).Ok?
    ensures |PutRpc(put, m, rest).value| == 8 + |put(m.content, rest).value|
  {
  }

  /** A message decodes to its request id and whatever its content decodes to; in particular
      it round-trips whenever its content does. */
  lemma RpcRoundTrip<T>(put: Writer<T>, get: seq<u8> -> Decoded<T>, m: ControlRpcMessage<T>, rest: seq<u8>, decoded: T)
    requires put(m.content, rest).Ok?
    requires get(put(m.content, rest).value) == Ok((decoded, rest))
    ensures PutRpc(put, m, rest).Ok?
    ensures GetRpc(get, PutRpc(put, m, rest).value) == Ok((ControlRpcMessage(m.requestId, decoded), rest))
  {
    var body := put(m.content, rest).value;
    var r := PutU64(m.requestId, body);
    Pow256Widths();
    assert r[8..] == body;
  }
}
