/** The credential codec of signal/client/client.go: two fields printed with a colon between them, and
    parsed by splitting at colons. */
module CredentialCodec {
  import opened Model
  import opened Strings

  const SEPARATOR := ':'

  datatype Credential = Credential(uFrag: string, pwd: string)

  datatype BodyType = Offer | Answer | Candidate

  /** `Message`: the keys are printed forms of WireGuard keys. */
  datatype Message = Message(key: string, remoteKey: string, typ: BodyType, payload: string)

  function Marshal(key: string, remoteKey: string, c: Credential, t: BodyType): Message {
    Message(key, remoteKey, t, c.uFrag + [SEPARATOR] + c.pwd)
  }

  function UnMarshal(m: Message): Result<Credential> {
    var parts := Split(m.payload, SEPARATOR);
    if |parts| != 2 then Err(Plain) else Ok(Credential(parts[0], parts[1]))
  }

  // ----- the codec -----

  /** Parsing succeeds exactly on payloads with one colon, and gives what is before and what is after it. */
  lemma UnMarshalsExactly(m: Message)
    ensures UnMarshal(m).Ok? <==> Count(m.payload, ':') == 1
    ensures UnMarshal(m).Ok? ==> m.payload == UnMarshal(m).value.uFrag + ":" + UnMarshal(m).value.pwd
    ensures UnMarshal(m).Err? ==> UnMarshal(m) == Err(Plain)
  {
    SplitPieces(m.payload, SEPARATOR);
    var parts := Split(m.payload, SEPARATOR);
    if |parts| == 2 { assert Join(parts, SEPARATOR) == parts[0] + [SEPARATOR] + Join(parts[1..], SEPARATOR); }
  }

  /** Whatever parses is printed back as it was. */
  lemma MarshalAfterUnMarshal(m: Message)
    requires UnMarshal(m).Ok?
    ensures Marshal(m.key, m.remoteKey, UnMarshal(m).value, m.typ) == m
  {
    SplitPieces(m.payload, SEPARATOR);
    var parts := Split(m.payload, SEPARATOR);
    assert Join(parts, SEPARATOR) == parts[0] + [SEPARATOR] + Join(parts[1..], SEPARATOR);
  }

  /** Parsing a printed credential gives it back if and only if neither field contains a colon; if one does,
      parsing fails and does not return another credential. */
  lemma RoundTripExactly(key: string, remoteKey: string, c: Credential, t: BodyType)
    ensures UnMarshal(Marshal(key, remoteKey, c, t)) ==
      (if SEPARATOR !in c.uFrag && SEPARATOR !in c.pwd then Ok(c) else Err(Plain))
  {
    var payload := c.uFrag + [SEPARATOR] + c.pwd;
    if SEPARATOR !in c.uFrag && SEPARATOR !in c.pwd {
      SplitAtFirst(c.uFrag, c.pwd, SEPARATOR);
      SplitWhole(c.pwd, SEPARATOR);
    } else {
      SplitPieces(payload, SEPARATOR);
      CountOfJoined(c.uFrag + [SEPARATOR], c.pwd, SEPARATOR);
      CountOfJoined(c.uFrag, [SEPARATOR], SEPARATOR);
      CountZero(c.uFrag, SEPARATOR);
      CountZero(c.pwd, SEPARATOR);
      assert Count([SEPARATOR], SEPARATOR) == 1;
    }
  }

  /** The characters of ICE user fragments and passwords, section 5.4 of RFC 8839. */
  predicate IceChar(c: char) {
    'A' <= c <= 'Z' || 'a' <= c <= 'z' || '0' <= c <= '9' || c == '+' || c == '/'
  }

  /** Fields of ICE characters always survive. */
  lemma IceFieldsRoundTrip(key: string, remoteKey: string, c: Credential, t: BodyType)
    requires forall x :: x in c.uFrag || x in c.pwd ==> IceChar(x)
    ensures UnMarshal(Marshal(key, remoteKey, c, t)) == Ok(c)
  {
    RoundTripExactly(key, remoteKey, c, t);
  }
}
