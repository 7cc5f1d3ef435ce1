/** The texts that get signed in pairing, and the code both people compare. */
module PairingPayloads {
  import opened Wrappers
  import opened Radix
  import opened DecimalText
  import opened CanonicalJson
  import opened JsonUnambiguous
  import opened TsCanonicalJson
  import opened PairingProtocol

  const ONE: Decimal := Finite(false, "1", 1)

  function FieldsJson(f: Fields): Json {
    Object(map[
      "version" := Number(ONE),
      "invitationId" := String(f.invitationId),
      "relayWebSocketUrl" := String(f.relayWebSocketUrl),
      "routingId" := String(f.routingId),
      "challenge" := String(f.challenge),
      "hostSigningPublicKey" := String(f.hostSigningKey),
      "hostTransportPeerId" := String(f.hostPeer),
      "expiresAt" := String(f.expiresAt)])
  }

  function RequestJson(r: Request): Json {
    Object(map[
      "version" := Number(ONE),
      "type" := String("pair.request"),
      "invitationId" := String(r.invitationId),
      "deviceId" := String(r.deviceId),
      "displayName" := String(r.displayName),
      "signingPublicKey" := String(r.signingKey),
      "approvalPublicKey" := String(r.approvalKey),
      "transportPeerId" := String(r.peer)])
  }

  /** What the transcript hash is taken of. */
  function TranscriptJson(f: Fields, r: Request): Json {
    Object(map["domain" := String("exarch/pairing-transcript/1"), "invitation" := FieldsJson(f),
      "request" := RequestJson(r)])
  }

  /** The signed objects; Elsewhere has no text here. */
  function PayloadJson(p: Payload): Json
    requires !p.Elsewhere?
  {
    match p
    case RequestPayload(f, r) =>
      Object(map["domain" := String("exarch/pairing-request/1"), "invitation" := FieldsJson(f),
        "request" := RequestJson(r)])
    case HostChallenge(transcript, code) =>
      Object(map["domain" := String("exarch/pairing-host-challenge/1"), "transcriptHash" := String(transcript),
        "sas" := String(code)])
    case DeviceConfirmation(transcript) =>
      Object(map["domain" := String("exarch/pairing-device-confirmation/1"), "transcriptHash" := String(transcript)])
    case Completion(deviceId, transcript, token) =>
      Object(map["domain" := String("exarch/pairing-complete/1"), "deviceId" := String(deviceId),
                 "transcriptHash" := String(transcript), "relayAccessToken" := String(token)])
  }

  function Domain(p: Payload): string
    requires !p.Elsewhere?
  {
    match p
    case RequestPayload(_, _) => "exarch/pairing-request/1"
    case HostChallenge(_, _) => "exarch/pairing-host-challenge/1"
    case DeviceConfirmation(_) => "exarch/pairing-device-confirmation/1"
    case Completion(_, _, _) => "exarch/pairing-complete/1"
  }

  lemma {:induction false} FieldsDiffer(f: Fields, g: Fields)
    requires FieldsJson(f) == FieldsJson(g)
    ensures f == g
  {
    var a, b := FieldsJson(f).members, FieldsJson(g).members;
    assert a["invitationId"] == b["invitationId"] && a["relayWebSocketUrl"] == b["relayWebSocketUrl"];
    assert a["routingId"] == b["routingId"] && a["challenge"] == b["challenge"];
    assert a["hostSigningPublicKey"] == b["hostSigningPublicKey"];
    assert a["hostTransportPeerId"] == b["hostTransportPeerId"] && a["expiresAt"] == b["expiresAt"];
  }

  lemma {:induction false} RequestsDiffer(r: Request, q: Request)
    requires RequestJson(r) == RequestJson(q)
    ensures r == q
  {
    var a, b := RequestJson(r).members, RequestJson(q).members;
    assert a["invitationId"] == b["invitationId"] && a["deviceId"] == b["deviceId"]
      && a["displayName"] == b["displayName"];
    assert a["signingPublicKey"] == b["signingPublicKey"] && a["approvalPublicKey"] == b["approvalPublicKey"];
    assert a["transportPeerId"] == b["transportPeerId"];
  }

  lemma {:induction false} DomainsDiffer(p: Payload, q: Payload)
    requires !p.Elsewhere? && !q.Elsewhere? && Domain(p) == Domain(q)
    ensures p.RequestPayload? == q.RequestPayload? && p.HostChallenge? == q.HostChallenge?
    ensures p.DeviceConfirmation? == q.DeviceConfirmation? && p.Completion? == q.Completion?
  {
    assert |"exarch/pairing-request/1"| == 24 && |"exarch/pairing-host-challenge/1"| == 31;
    assert |"exarch/pairing-device-confirmation/1"| == 36 && |"exarch/pairing-complete/1"| == 25;
  }

  lemma {:induction false} PayloadsDiffer(p: Payload, q: Payload)
    requires !p.Elsewhere? && !q.Elsewhere? && PayloadJson(p) == PayloadJson(q)
    ensures p == q
  {
    var a, b := PayloadJson(p).members, PayloadJson(q).members;
    assert a["domain"] == String(Domain(p)) && b["domain"] == String(Domain(q));
    DomainsDiffer(p, q);
    match p
    case RequestPayload(f, r) =>
      assert a["invitation"] == b["invitation"] && a["request"] == b["request"];
      FieldsDiffer(f, q.fields);
      RequestsDiffer(r, q.request);
    case HostChallenge(_, _) => assert a["transcriptHash"] == b["transcriptHash"] && a["sas"] == b["sas"];
    case DeviceConfirmation(_) => assert a["transcriptHash"] == b["transcriptHash"];
    case Completion(_, _, _) =>
      assert a["transcriptHash"] == b["transcriptHash"] && a["deviceId"] == b["deviceId"];
      assert a["relayAccessToken"] == b["relayAccessToken"];
  }

  /** Signed bytes belong to one payload only, of one kind only: signatures over bytes are signatures over payloads. */
  lemma {:induction false} SignedBytesAreUnambiguous(p: Payload, q: Payload)
    requires !p.Elsewhere? && !q.Elsewhere?
    ensures ScriptBytes(PayloadJson(p)) == ScriptBytes(PayloadJson(q)) <==> p == q
  {
    ScriptBytesAreUnambiguous(PayloadJson(p), PayloadJson(q));
    if PayloadJson(p) == PayloadJson(q) { PayloadsDiffer(p, q); }
  }

  /** Before hashing, transcripts of different invitations or requests already differ. */
  lemma {:induction false} TranscriptsAreUnambiguous(f: Fields, r: Request, g: Fields, q: Request)
    ensures ScriptBytes(TranscriptJson(f, r)) == ScriptBytes(TranscriptJson(g, q)) <==> f == g && r == q
  {
    var a, b := TranscriptJson(f, r), TranscriptJson(g, q);
    ScriptBytesAreUnambiguous(a, b);
    if a == b {
      assert a.members["invitation"] == b.members["invitation"] && a.members["request"] == b.members["request"];
      FieldsDiffer(f, g);
      RequestsDiffer(r, q);
    }
  }

  /** There are injective transcript functions: the text before hashing is one. */
  lemma {:induction false} InjectiveExists()
    ensures exists x :: Injective(x)
  {
    var x := Setting(
      "", "", {}, (f: Fields, r: Request) => CanonicalText(TranscriptJson(f, r)), (t: string) => "", (t: string) => 0);
    forall f, g, r, q | x.hash(f, r) == x.hash(g, q) ensures f == g && r == q {
      CanonicalTextIsUnambiguous(TranscriptJson(f, r), TranscriptJson(g, q));
      TranscriptsAreUnambiguous(f, r, g, q);
    }
    assert Injective(x);
  }

  lemma {:induction false} TranscriptDomainDiffers(p: Payload)
    requires !p.Elsewhere?
    ensures Domain(p) != "exarch/pairing-transcript/1"
  {
    assert |"exarch/pairing-transcript/1"| == 27;
    assert |"exarch/pairing-request/1"| == 24 && |"exarch/pairing-host-challenge/1"| == 31;
    assert |"exarch/pairing-device-confirmation/1"| == 36 && |"exarch/pairing-complete/1"| == 25;
  }

  lemma {:induction false} TranscriptJsonDiffers(f: Fields, r: Request, p: Payload)
    requires !p.Elsewhere?
    ensures TranscriptJson(f, r) != PayloadJson(p)
  {
    TranscriptDomainDiffers(p);
    var a, c := TranscriptJson(f, r).members, PayloadJson(p).members;
    assert a["domain"] == String("exarch/pairing-transcript/1") && c["domain"] == String(Domain(p));
  }

  /** What is hashed is never what is signed. */
  lemma {:induction false} TranscriptsAreNotSigned(f: Fields, r: Request, p: Payload)
    requires !p.Elsewhere?
    ensures ScriptBytes(TranscriptJson(f, r)) != ScriptBytes(PayloadJson(p))
  {
    TranscriptJsonDiffers(f, r, p);
    ScriptBytesAreUnambiguous(TranscriptJson(f, r), PayloadJson(p));
  }

  /** What devices sign for ordinary requests. */
  function RequestSignatureJson(
    verb: string, path: string, bodyHash: string, nonce: string, counter: Decimal, timestamp: string,
    challengeExpiresAt: string): Json
  {
    Object(map[
      "version" := Number(ONE), "method" := String(verb), "path" := String(path), "bodyHash" := String(bodyHash),
      "nonce" := String(nonce), "counter" := Number(counter), "timestamp" := String(timestamp),
      "challengeExpiresAt" := String(challengeExpiresAt)])
  }

  lemma {:induction false} RequestJsonDiffers(p: Payload, signed: Json)
    requires !p.Elsewhere? && signed.Object? && "domain" !in signed.members
    ensures PayloadJson(p) != signed
  {
    assert "domain" in PayloadJson(p).members;
  }

  /** Signing ordinary requests never yields a pairing signature, although both use one key. */
  lemma {:induction false} RequestsAreNotPairing(
    p: Payload, verb: string, path: string, bodyHash: string, nonce: string, counter: Decimal, timestamp: string,
    challengeExpiresAt: string)
    requires !p.Elsewhere?
    ensures ScriptBytes(PayloadJson(p)) != ScriptBytes(RequestSignatureJson(verb, path, bodyHash, nonce, counter,
      timestamp, challengeExpiresAt))
  {
    var signed := RequestSignatureJson(verb, path, bodyHash, nonce, counter, timestamp, challengeExpiresAt);
    NoDomain(verb, path, bodyHash, nonce, counter, timestamp, challengeExpiresAt);
    RequestJsonDiffers(p, signed);
    ScriptBytesAreUnambiguous(PayloadJson(p), signed);
  }

  lemma {:induction false} NoDomain(
    verb: string, path: string, bodyHash: string, nonce: string, counter: Decimal, timestamp: string,
    challengeExpiresAt: string)
    ensures "domain" !in RequestSignatureJson(verb, path, bodyHash, nonce, counter, timestamp,
      challengeExpiresAt).members
  {
    assert |"version"| == 7 && |"method"| == 6 && |"path"| == 4 && |"bodyHash"| == 8 && |"nonce"| == 5;
    assert |"counter"| == 7 && |"timestamp"| == 9 && |"challengeExpiresAt"| == 18 && |"domain"| == 6;
    assert "method"[0] == 'm' && "domain"[0] == 'd';
  }

  // ----- one text on both sides -----

  /** A key that does not start with a digit is no array index. */
  lemma {:induction false} LetterFirst(members: map<string, Json>)
    requires forall k | k in members :: k != "" && !IsDigit(k[0]) && NoIndexKeys(members[k])
    ensures NoIndexKeys(Object(members))
  {
  }

  lemma {:induction false} LetterFirstFlat(members: map<string, Json>)
    requires forall k | k in members :: k != "" && !IsDigit(k[0]) && (members[k].String? || members[k].Number?)
    ensures NoIndexKeys(Object(members))
  {
    LetterFirst(members);
  }

  lemma {:induction false} FieldKeys(f: Fields)
    ensures NoIndexKeys(FieldsJson(f))
  {
    LetterFirstFlat(FieldsJson(f).members);
  }

  lemma {:induction false} RequestKeys(r: Request)
    ensures NoIndexKeys(RequestJson(r))
  {
    LetterFirstFlat(RequestJson(r).members);
  }

  lemma {:induction false} PairingKeys(p: Payload)
    requires !p.Elsewhere?
    ensures NoIndexKeys(PayloadJson(p))
  {
    if p.RequestPayload? {
      FieldKeys(p.fields);
      RequestKeys(p.request);
    }
    LetterFirst(PayloadJson(p).members);
  }

  /** The native device and the laptop sign and check the same bytes. */
  lemma {:induction false} BothSidesSignTheSame(p: Payload)
    requires !p.Elsewhere?
    ensures ScriptBytes(PayloadJson(p)) == CanonicalBytes(PayloadJson(p))
  {
    PairingKeys(p);
    NoIndexKeysIsSafe(PayloadJson(p));
    WritersAgreeOnBytes(PayloadJson(p));
  }

  // ----- the code -----

  const CODES := 1_000_000_000_000_000_000

  /** The number in the first eight bytes of a digest. */
  function Prefix(digest: seq<int>): nat
    requires |digest| == 32 && InBase(digest, 256)
  {
    ValueBounds(digest[..8], 256);
    Value(digest[..8], 256)
  }

  function PadStart(text: string, width: nat): string {
    if |text| >= width then text else Zeros(width - |text|) + text
  }

  /** Eighteen decimal digits; None for a hash that is not 32 bytes long. */
  function PairingCode(digest: seq<int>): Option<string>
    requires InBase(digest, 256)
  {
    if |digest| != 32 then None else Some(PadStart(NatText(Prefix(digest) % CODES), 18))
  }

  lemma {:induction false} PadKeepsNumber(text: string, width: nat)
    requires AllDigits(text) && text != ""
    ensures AllDigits(PadStart(text, width)) && NatOf(PadStart(text, width)) == NatOf(text)
  {
    if |text| < width {
      var k := width - |text|;
      assert DigitValues(PadStart(text, width)) == seq(k, _ => 0) + DigitValues(text);
      ValueDropsZeros(k, DigitValues(text), 10);
    }
  }

  lemma {:induction false} EighteenPlaces()
    ensures Pow(10, 18) == CODES
  {
    assert Pow(10, 3) == 1000;
    PowAdd(10, 3, 3);
    PowAdd(10, 6, 6);
    PowAdd(10, 12, 6);
  }

  /**
   * The code is always eighteen digits long and spells the prefix modulo 10^18, so codes agree exactly when these do.
   */
  lemma {:induction false} CodeSpellsPrefix(digest: seq<int>, other: seq<int>)
    requires InBase(digest, 256) && |digest| == 32 && InBase(other, 256) && |other| == 32
    ensures var code := PairingCode(digest).value;
      |code| == 18 && AllDigits(code) && NatOf(code) == Value(digest[..8], 256) % 1_000_000_000_000_000_000
    ensures PairingCode(digest) == PairingCode(other) <==>
      Value(digest[..8], 256) % 1_000_000_000_000_000_000 == Value(other[..8], 256) % 1_000_000_000_000_000_000
  {
    EighteenPlaces();
    CodeLength(Prefix(digest) % CODES);
    CodeLength(Prefix(other) % CODES);
  }

  lemma {:induction false} CodeLength(n: nat)
    requires n < Pow(10, 18)
    ensures var code := PadStart(NatText(n), 18);
      |code| == 18 && AllDigits(code) && NatOf(code) == n
  {
    FitsIn(n, 10, 18);
    DigitsOfCanonical(n, 10);
    NatTextReads(n);
    PadKeepsNumber(NatText(n), 18);
  }
}
