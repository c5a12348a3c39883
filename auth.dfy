/** Request signatures: a system signature made with the API secret, or a session signature
    made with a secret derived from a signed session token. Each is valid only within a time
    window around `now`, checked before any MAC. HMAC-SHA256 is a function parameter. */
module Auth {
  import opened Ints
  import opened Wrappers
  import opened Encoding
  import opened CommonLib

  /** A 32-byte MAC tag. */
  type Tag = s: seq<u8> | |s| == 32 witness [0, 0, 0, 0, 0, 0, 0, 0, 0, 0, 0, 0, 0, 0, 0, 0,
                                            0, 0, 0, 0, 0, 0, 0, 0, 0, 0, 0, 0, 0, 0, 0, 0]

  /** HMAC-SHA256 from a key's bytes and a message to a tag. `hmac::verify` succeeds
      exactly when the tag it is given is the one `hmac::sign` computes. */
  type Hmac = (seq<u8>, seq<u8>) -> Tag

  /** One minute, for system signatures and session tokens. */
  const MAX_API_TIME_DIFF: u64 := 60_000
  /** Five minutes, for requests signed with a session secret. */
  const MAX_USER_TIME_DIFF: u64 := 300_000

  datatype RequestDetails = RequestDetails(accountId: u64, requestTimestamp: u64, sessionId: Option<u64>)

  datatype Signature =
    | System(signature: Tag)
    | Session(sessionTimestamp: u64, sessionSignature: Tag, sessionSigned: Tag)

  datatype Authorization =
    | SystemLevel(accountId: u64)
    | SessionLevel(accountId: u64, sessionId: u64)

  datatype SignatureError =
    | MissingSessionId
    | SignatureExpired(now: u64, timestamp: u64, fromSystem: bool)
    | InvalidSessionToken
    | InvalidSignature

  /** The data's bytes followed by the big-endian account id and timestamp: what a request
      signature covers. */
  function SignedBytes(data: seq<u8>, accountId: u64, timestamp: u64): (r: seq<u8>)
    ensures |r| == |data| + 16 && r[..|data|] == data
    ensures r[|data|..] == PutU64(accountId, []) + PutU64(timestamp, [])
  {
    data + PutU64(accountId, []) + PutU64(timestamp, [])
  }

  /** The 24 bytes a session token signs: account id, session id, session timestamp. */
  function SessionTokenBytes(accountId: u64, sessionId: u64, sessionTimestamp: u64): (r: seq<u8>)
    ensures |r| == 24
  {
    PutU64(accountId, []) + PutU64(sessionId, []) + PutU64(sessionTimestamp, [])
  }

  function MaxDiff(s: Signature): u64 {
    if s.System? then MAX_API_TIME_DIFF else MAX_USER_TIME_DIFF
  }

  // ---------------------------------------------------------------------------
  // Validation, as a function of the data's bytes
  // ---------------------------------------------------------------------------

  /** `SystemSignature::validate`. */
  function SystemResult(signature: Tag, d: RequestDetails, data: seq<u8>, key: seq<u8>, hmac: Hmac)
    : Result<u64, SignatureError>
  {
    if hmac(key, SignedBytes(data, d.accountId, d.requestTimestamp)) == signature then Ok(d.accountId)
    else Err(InvalidSignature)
  }

  /** `SessionSignature::validate`: the session id must be present, the session token no more
      than a minute off and signed with `key`, and the request signed with the secret derived
      from the token. */
  function SessionResult(s: Signature, d: RequestDetails, now: u64, data: seq<u8>, key: seq<u8>, hmac: Hmac)
    : Result<(u64, u64), SignatureError>
    requires s.Session?
  {
    if d.sessionId.None? then Err(MissingSessionId)
    else if AbsDiff(s.sessionTimestamp, now) > MAX_API_TIME_DIFF then
      Err(SignatureExpired(now, s.sessionTimestamp, false))
    else if hmac(key, SessionTokenBytes(d.accountId, d.sessionId.value, s.sessionTimestamp)) != s.sessionSignature then
      Err(InvalidSessionToken)
    else if hmac(hmac(key, s.sessionSignature), SignedBytes(data, d.accountId, d.requestTimestamp)) != s.sessionSigned then
      Err(InvalidSignature)
    else Ok((d.accountId, d.sessionId.value))
  }

  /** `Signature::validate`: the request timestamp window first, then the signature's own
      checks. */
  function Validated(s: Signature, d: RequestDetails, now: u64, data: seq<u8>, key: seq<u8>, hmac: Hmac)
    : (r: Result<Authorization, SignatureError>)
    ensures AbsDiff(d.requestTimestamp, now) > MaxDiff(s) ==>
      r == Err(SignatureExpired(now, d.requestTimestamp, s.System?))
    ensures r.Ok? ==> AbsDiff(d.requestTimestamp, now) <= MaxDiff(s)
    ensures r.Ok? && s.System? ==> r.value == SystemLevel(d.accountId)
    ensures r.Ok? && s.System? ==> hmac(key, SignedBytes(data, d.accountId, d.requestTimestamp)) == s.signature
    ensures r.Ok? && s.Session? ==> d.sessionId.Some? && r.value == SessionLevel(d.accountId, d.sessionId.value)
    ensures r.Ok? && s.Session? ==> AbsDiff(s.sessionTimestamp, now) <= MAX_API_TIME_DIFF
    ensures r.Ok? && s.Session? ==>
      hmac(key, SessionTokenBytes(d.accountId, d.sessionId.value, s.sessionTimestamp)) == s.sessionSignature &&
      hmac(hmac(key, s.sessionSignature), SignedBytes(data, d.accountId, d.requestTimestamp)) == s.sessionSigned
  {
    if AbsDiff(d.requestTimestamp, now) > MaxDiff(s) then
      Err(SignatureExpired(now, d.requestTimestamp, s.System?))
    else
      match s
      case System(sig) =>
        var account :- SystemResult(sig, d, data, key, hmac);
        Ok(SystemLevel(account))
      case Session(_, _, _) =>
        var ids :- SessionResult(s, d, now, data, key, hmac);
        Ok(SessionLevel(ids.0, ids.1))
  }

  /** The time windows decide before any MAC: an expired request fails the same way whatever
      the key, the data and the MAC. */
  lemma ExpiryBeforeMac(s: Signature, d: RequestDetails, now: u64, data: seq<u8>, data': seq<u8>,
                        key: seq<u8>, key': seq<u8>, hmac: Hmac, hmac': Hmac)
    requires AbsDiff(d.requestTimestamp, now) > MaxDiff(s) ||
      (s.Session? && d.sessionId.Some? && AbsDiff(s.sessionTimestamp, now) > MAX_API_TIME_DIFF)
    ensures Validated(s, d, now, data, key, hmac) == Validated(s, d, now, data', key', hmac')
    ensures Validated(s, d, now, data, key, hmac).Err? &&
      Validated(s, d, now, data, key, hmac).error.SignatureExpired?
  {
  }

  /** A session signature over a request without a session id fails with `MissingSessionId`,
      once the request timestamp is within five minutes. */
  lemma SessionNeedsSessionId(s: Signature, d: RequestDetails, now: u64, data: seq<u8>, key: seq<u8>, hmac: Hmac)
    requires s.Session? && d.sessionId.None? && AbsDiff(d.requestTimestamp, now) <= MAX_USER_TIME_DIFF
    ensures Validated(s, d, now, data, key, hmac) == Err(MissingSessionId)
  {
  }

  // ---------------------------------------------------------------------------
  // Signing
  // ---------------------------------------------------------------------------

  /** `create_signature`: the session token's signature. */
  function CreateSignature(accountId: u64, sessionId: u64, sessionTimestamp: u64, key: seq<u8>, hmac: Hmac): (r: Tag)
    ensures r == hmac(key, ToBE(accountId, 8) + ToBE(sessionId, 8) + ToBE(sessionTimestamp, 8))
  {
    assert PutU64(accountId, []) == ToBE(accountId, 8);
    assert PutU64(sessionId, []) == ToBE(sessionId, 8);
    assert PutU64(sessionTimestamp, []) == ToBE(sessionTimestamp, 8);
    hmac(key, SessionTokenBytes(accountId, sessionId, sessionTimestamp))
  }

  /** `generate_session_secret`: the key a session signs its requests with. */
  function GenerateSessionSecret(token: seq<u8>, key: seq<u8>, hmac: Hmac): Tag {
    hmac(key, token)
  }

  /** A request signed with `generate_signature` under the API secret validates as system
      level for any `now` within a minute of its timestamp. */
  lemma SystemSignatureValidates(d: RequestDetails, now: u64, data: seq<u8>, secret: seq<u8>, hmac: Hmac)
    requires AbsDiff(d.requestTimestamp, now) <= MAX_API_TIME_DIFF
    ensures var sig := System(hmac(secret, SignedBytes(data, d.accountId, d.requestTimestamp)));
      Validated(sig, d, now, data, secret, hmac) == Ok(SystemLevel(d.accountId))
  {
  }

  /** A session token made by `create_signature`, and a request signed with the secret
      `generate_session_secret` derives from it, validate as session level while the token is
      at most a minute and the request at most five minutes away from `now`. */
  lemma SessionSignatureValidates(accountId: u64, sessionId: u64, sessionTimestamp: u64, timestamp: u64,
                                  now: u64, data: seq<u8>, key: seq<u8>, hmac: Hmac)
    requires AbsDiff(sessionTimestamp, now) <= MAX_API_TIME_DIFF
    requires AbsDiff(timestamp, now) <= MAX_USER_TIME_DIFF
    ensures var token := CreateSignature(accountId, sessionId, sessionTimestamp, key, hmac);
      var secret := GenerateSessionSecret(token, key, hmac);
      var sig := Session(sessionTimestamp, token, hmac(secret, SignedBytes(data, accountId, timestamp)));
      Validated(sig, RequestDetails(accountId, timestamp, Some(sessionId)), now, data, key, hmac) ==
        Ok(SessionLevel(accountId, sessionId))
  {
  }

  // ---------------------------------------------------------------------------
  // The data buffer, extended and truncated in place
  // ---------------------------------------------------------------------------

  /** The caller's `Vec<u8>`. */
  class Buffer {
    var bytes: seq<u8>

    constructor(bytes: seq<u8>)
      ensures this.bytes == bytes
    {
      this.bytes := bytes;
    }

    method WriteU64(v: u64)
      modifies this
      ensures bytes == old(bytes) + PutU64(v, [])
    {
      bytes := bytes + PutU64(v, []);
    }

    /** `Vec::truncate`: no effect when the buffer is not longer than `len`. */
    method Truncate(len: nat)
      modifies this
      ensures bytes == if len < |old(bytes)| then old(bytes)[..len] else old(bytes)
    {
      if len < |bytes| {
        bytes := bytes[..len];
      }
    }
  }

  /** Appends account id and timestamp, computes the MAC over the whole buffer, and
      truncates the buffer back to its original length. */
  method MacOverSigned(key: seq<u8>, d: RequestDetails, data: Buffer, hmac: Hmac) returns (tag: Tag)
    modifies data
    ensures data.bytes == old(data.bytes)
    ensures tag == hmac(key, SignedBytes(old(data.bytes), d.accountId, d.requestTimestamp))
  {
    var ogDataLen := |data.bytes|;
    data.WriteU64(d.accountId);
    data.WriteU64(d.requestTimestamp);
    tag := hmac(key, data.bytes);
    data.Truncate(ogDataLen);
    assert data.bytes == old(data.bytes);
  }

  method SystemValidate(signature: Tag, d: RequestDetails, data: Buffer, key: seq<u8>, hmac: Hmac)
    returns (r: Result<u64, SignatureError>)
    modifies data
    ensures data.bytes == old(data.bytes)
    ensures r == SystemResult(signature, d, old(data.bytes), key, hmac)
  {
    var expected := MacOverSigned(key, d, data, hmac);
    if expected != signature {
      return Err(InvalidSignature);
    }
    return Ok(d.accountId);
  }

  method SessionValidate(s: Signature, d: RequestDetails, now: u64, data: Buffer, key: seq<u8>, hmac: Hmac)
    returns (r: Result<(u64, u64), SignatureError>)
    requires s.Session?
    modifies data
    ensures data.bytes == old(data.bytes)
    ensures r == SessionResult(s, d, now, old(data.bytes), key, hmac)
  {
    if d.sessionId.None? {
      return Err(MissingSessionId);
    }
    var sessionId := d.sessionId.value;
    if AbsDiff(s.sessionTimestamp, now) > MAX_API_TIME_DIFF {
      return Err(SignatureExpired(now, s.sessionTimestamp, false));
    }
    var buffer := PutU64(d.accountId, []) + PutU64(sessionId, []) + PutU64(s.sessionTimestamp, []);
    if hmac(key, buffer) != s.sessionSignature {
      return Err(InvalidSessionToken);
    }
    var sharedSecret := hmac(key, s.sessionSignature);
    var sig := MacOverSigned(sharedSecret, d, data, hmac);
    if sig != s.sessionSigned {
      return Err(InvalidSignature);
    }
    return Ok((d.accountId, sessionId));
  }

  /** `Signature::validate`: leaves the buffer as it found it. */
  method Validate(s: Signature, d: RequestDetails, now: u64, data: Buffer, key: seq<u8>, hmac: Hmac)
    returns (r: Result<Authorization, SignatureError>)
    modifies data
    ensures data.bytes == old(data.bytes)
    ensures r == Validated(s, d, now, old(data.bytes), key, hmac)
  {
    var maxDiff := if s.System? then MAX_API_TIME_DIFF else MAX_USER_TIME_DIFF;
    if AbsDiff(d.requestTimestamp, now) > maxDiff {
      return Err(SignatureExpired(now, d.requestTimestamp, s.System?));
    }
    match s {
      case System(sig) =>
        var account := SystemValidate(sig, d, data, key, hmac);
        if account.Err? {
          return Err(account.error);
        }
        return Ok(SystemLevel(account.value));
      case Session(_, _, _) =>
        var ids := SessionValidate(s, d, now, data, key, hmac);
        if ids.Err? {
          return Err(ids.error);
        }
        return Ok(SessionLevel(ids.value.0, ids.value.1));
    }
  }

  /** `generate_signature`: the MAC of the same bytes `validate` checks, with the buffer left
      as it was. */
  method GenerateSignature(accountId: u64, timestamp: u64, data: Buffer, secret: seq<u8>, hmac: Hmac)
    returns (sig: Tag)
    modifies data
    ensures data.bytes == old(data.bytes)
    ensures sig == hmac(secret, SignedBytes(old(data.bytes), accountId, timestamp))
  {
    sig := MacOverSigned(secret, RequestDetails(accountId, timestamp, None), data, hmac);
  }
}
