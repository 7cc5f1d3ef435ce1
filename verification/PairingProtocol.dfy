/** Pairing a device: any number of attempts on the laptop and runs on devices, interleaved at every await. */
module PairingProtocol {
  // The network may deliver any frame, except that it cannot make signatures of the laptop or of an honest device.

  import opened Wrappers

  // ----- what the two sides exchange -----

  datatype Fields = Fields(
    invitationId: string, relayWebSocketUrl: string, routingId: string, challenge: string,
    hostSigningKey: string, hostPeer: string, expiresAt: string)

  datatype Invitation = Invitation(fields: Fields, deviceTicket: string)

  /** The request of a device, without its signature. */
  datatype Request = Request(
    invitationId: string, deviceId: string, displayName: string, signingKey: string, approvalKey: string, peer: string)

  /** What gets signed; Elsewhere stands for payloads of other parts of the program. */
  datatype Payload =
    | RequestPayload(fields: Fields, request: Request)
    | HostChallenge(transcript: string, code: string)
    | DeviceConfirmation(transcript: string)
    | Completion(deviceId: string, transcript: string, token: string)
    | Elsewhere(text: string)

  /** A signature is good for the key and payload it was made with; Junk is good for nothing. */
  datatype Signature = Signature(key: string, payload: Payload) | Junk

  datatype Code = Invalid | Expired | Mismatch | Declined | Unavailable

  datatype Frame =
    | PairRequest(request: Request, signature: Signature)
    | PairChallenge(transcript: string, code: string, signature: Signature)
    | PairConfirm(transcript: string, signature: Signature)
    | PairComplete(deviceId: string, transcript: string, token: string, signature: Signature)
    | PairReject(reason: Code)

  /** The laptop's key and peer id, the keys of honest devices, and the foreign functions. */
  datatype Setting = Setting(
    hostKey: string, hostPeer: string, deviceKeys: set<string>,
    hash: (Fields, Request) -> string, sas: string -> string, timeOf: string -> int)

  ghost predicate Injective(x: Setting) {
    forall f, g, r, q :: x.hash(f, r) == x.hash(g, q) ==> f == g && r == q
  }

  // ----- the laptop -----

  datatype Stage = Available | Pending | Consumed

  datatype Stored = Stored(invitation: Invitation, token: string, stage: Stage)

  datatype Phase =
    | AwaitingRequest | SigningChallenge | AwaitingApproval | AwaitingConfirmation | SigningCompletion
    | Returned | Failed(code: Code)

  /**
   * One call of accept. `found` is the invitation it looked up, `claim` the one it made pending;
   * `approved` says that the person at the laptop accepted the code.
   */
  datatype Session = Session(
    remotePeer: string, phase: Phase, found: Option<string>, claim: Option<string>, request: Option<Request>,
    approved: bool)

  datatype Registration = Registration(session: nat, request: Request, transcript: string)

  datatype Host = Host(invitations: map<string, Stored>, sessions: seq<Session>, registered: seq<Registration>)

  function SetStage(h: Host, id: string, stage: Stage): Host
    requires id in h.invitations
  {
    h.(invitations := h.invitations[id := h.invitations[id].(stage := stage)])
  }

  function SetSession(h: Host, s: nat, session: Session): Host
    requires s < |h.sessions|
  {
    h.(sessions := h.sessions[s := session])
  }

  /** The failure path: whatever invitation was looked up is consumed. */
  function Fail(h: Host, s: nat, code: Code): Host
    requires s < |h.sessions|
  {
    var session := h.sessions[s];
    var failed := SetSession(h, s, session.(phase := Failed(code)));
    if session.found.Some? && session.found.value in h.invitations then SetStage(failed, session.found.value, Consumed)
      else failed
  }

  function CreateInvitation(h: Host, invitation: Invitation, token: string): Host {
    h.(invitations := h.invitations[invitation.fields.invitationId := Stored(invitation, token, Available)])
  }

  function StartSession(h: Host, remotePeer: string): Host {
    h.(sessions := h.sessions + [Session(remotePeer, AwaitingRequest, None, None, None, false)])
  }

  /** Checks on a request whose invitation is available. */
  function RequestProblem(x: Setting, session: Session, stored: Stored, frame: Frame, now: int): Option<Code>
    requires frame.PairRequest?
  {
    if x.timeOf(stored.invitation.fields.expiresAt) <= now then Some(Expired)
    else if frame.request.peer != session.remotePeer then Some(Mismatch)
    else if frame.signature != Signature(frame.request.signingKey,
      RequestPayload(stored.invitation.fields, frame.request))
    then Some(Invalid)
    else None
  }

  /** `frame` is None when receiving fails. */
  function OnRequest(x: Setting, h: Host, s: nat, frame: Option<Frame>, now: int): Host
    requires s < |h.sessions|
  {
    if frame.None? || !frame.value.PairRequest? then Fail(h, s, Invalid)
    else
      var id := frame.value.request.invitationId;
      if id !in h.invitations then Fail(h, s, Unavailable)
      else
        var session := h.sessions[s].(found := Some(id));
        var stored := h.invitations[id];
        if stored.stage != Available then Fail(SetSession(h, s, session), s, Unavailable)
        else
          var claiming := session.(claim := Some(id));
          var claimed := SetStage(SetSession(h, s, claiming), id, Pending);
          match RequestProblem(x, session, stored, frame.value, now)
          case Some(code) => Fail(claimed, s, code)
          case None =>
            SetSession(claimed, s, claiming.(phase := SigningChallenge, request := Some(frame.value.request)))
  }

  function OnChallengeSigned(h: Host, s: nat, ok: bool): Host
    requires s < |h.sessions|
  {
    if ok then SetSession(h, s, h.sessions[s].(phase := AwaitingApproval)) else Fail(h, s, Invalid)
  }

  /** `answer` is None when asking fails. */
  function OnAnswer(h: Host, s: nat, answer: Option<bool>): Host
    requires s < |h.sessions|
  {
    match answer
    case None => Fail(h, s, Invalid)
    case Some(accepted) =>
      if accepted then SetSession(h, s, h.sessions[s].(phase := AwaitingConfirmation, approved := true))
        else Fail(h, s, Declined)
  }

  /** The transcript of a session that has claimed an invitation. */
  function Transcript(x: Setting, h: Host, s: nat): string
    requires s < |h.sessions|
  {
    var session := h.sessions[s];
    if session.claim.Some? && session.claim.value in h.invitations && session.request.Some?
    then x.hash(h.invitations[session.claim.value].invitation.fields, session.request.value)
    else ""
  }

  /** `stored` says whether the device store takes the new device. */
  function OnConfirmation(x: Setting, h: Host, s: nat, frame: Option<Frame>, stored: bool): Host
    requires s < |h.sessions| && h.sessions[s].request.Some?
  {
    var session := h.sessions[s];
    var request, transcript := session.request.value, Transcript(x, h, s);
    if frame.None? then Fail(h, s, Invalid)
    else if !frame.value.PairConfirm? || frame.value.transcript != transcript
         || frame.value.signature != Signature(request.signingKey, DeviceConfirmation(transcript))
    then Fail(h, s, Mismatch)
    else if !stored then Fail(h, s, Invalid)
    else
      var done := SetSession(h, s, session.(phase := SigningCompletion))
        .(registered := h.registered + [Registration(s, request, transcript)]);
      if session.claim.Some? && session.claim.value in h.invitations then SetStage(done, session.claim.value, Consumed)
        else done
  }

  function OnCompletionSigned(h: Host, s: nat, ok: bool): Host
    requires s < |h.sessions|
  {
    if ok then SetSession(h, s, h.sessions[s].(phase := Returned)) else Fail(h, s, Invalid)
  }

  datatype HostEvent =
    | Invited(invitation: Invitation, token: string)
    | Accepting(remotePeer: string)
    | HostReceived(s: nat, frame: Option<Frame>, now: int, stored: bool)
    | HostSigned(s: nat, ok: bool)
    | HostAnswered(s: nat, answer: Option<bool>)

  /** New invitations carry the laptop's own key and peer id, and a new id. */
  predicate Invitable(x: Setting, h: Host, invitation: Invitation) {
    && invitation.fields.invitationId !in h.invitations
    && invitation.fields.hostSigningKey == x.hostKey && invitation.fields.hostPeer == x.hostPeer
  }

  /** Events that do not fit the phase of their session do nothing. */
  function HostStep(x: Setting, h: Host, e: HostEvent): Host {
    match e
    case Invited(invitation, token) => if Invitable(x, h, invitation) then CreateInvitation(h, invitation, token) else h
    case Accepting(remotePeer) => StartSession(h, remotePeer)
    case HostReceived(s, frame, now, stored) =>
      if s >= |h.sessions| then h
      else if h.sessions[s].phase == AwaitingRequest then OnRequest(x, h, s, frame, now)
      else if h.sessions[s].phase == AwaitingConfirmation && h.sessions[s].request.Some?
      then OnConfirmation(x, h, s, frame, stored)
      else h
    case HostSigned(s, ok) =>
      if s >= |h.sessions| then h
      else if h.sessions[s].phase == SigningChallenge then OnChallengeSigned(h, s, ok)
      else if h.sessions[s].phase == SigningCompletion then OnCompletionSigned(h, s, ok)
      else h
    case HostAnswered(s, answer) =>
      if s < |h.sessions| && h.sessions[s].phase == AwaitingApproval then OnAnswer(h, s, answer) else h
  }

  /** What the laptop signs in a session that is about to sign. */
  function HostSignature(x: Setting, h: Host, s: nat): Option<Signature>
    requires s < |h.sessions|
  {
    var session, transcript := h.sessions[s], Transcript(x, h, s);
    if session.phase == SigningChallenge then Some(Signature(x.hostKey, HostChallenge(transcript, x.sas(transcript))))
    else if session.phase == SigningCompletion && session.request.Some? && session.claim.Some?
      && session.claim.value in h.invitations then
      Some(Signature(x.hostKey,
        Completion(session.request.value.deviceId, transcript, h.invitations[session.claim.value].token)))
    else None
  }

  // ----- a device -----

  datatype DevicePhase =
    | SigningRequest | AwaitingChallenge | AwaitingCode | SigningConfirmation | AwaitingCompletion
    | Paired(token: string) | Stopped

  /** One run of pairDevice; `accepted` says that the person at the device accepted the code. */
  datatype DeviceRun = DeviceRun(invitation: Invitation, request: Request, phase: DevicePhase, accepted: bool)

  function DeviceTranscript(x: Setting, d: DeviceRun): string { x.hash(d.invitation.fields, d.request) }

  /** A run starts only before the invitation expires and over a channel to the invited laptop. */
  predicate Startable(x: Setting, invitation: Invitation, remotePeer: string, now: int) {
    x.timeOf(invitation.fields.expiresAt) > now && remotePeer == invitation.fields.hostPeer
  }

  function OnDeviceSigned(d: DeviceRun): DeviceRun {
    if d.phase == SigningRequest then d.(phase := AwaitingChallenge)
    else if d.phase == SigningConfirmation then d.(phase := AwaitingCompletion)
    else d
  }

  function OnChallenge(x: Setting, d: DeviceRun, frame: Frame): DeviceRun {
    var transcript := DeviceTranscript(x, d);
    if && frame.PairChallenge? && frame.transcript == transcript && frame.code == x.sas(transcript)
       && frame.signature == Signature(d.invitation.fields.hostSigningKey, HostChallenge(transcript, x.sas(transcript)))
    then d.(phase := AwaitingCode)
    else d.(phase := Stopped)
  }

  function OnCode(d: DeviceRun, accepted: bool): DeviceRun {
    if accepted then d.(phase := SigningConfirmation, accepted := true) else d.(phase := Stopped)
  }

  function OnComplete(x: Setting, d: DeviceRun, frame: Frame): DeviceRun {
    var transcript := DeviceTranscript(x, d);
    if && frame.PairComplete? && frame.deviceId == d.request.deviceId && frame.transcript == transcript
       && frame.signature == Signature(d.invitation.fields.hostSigningKey,
            Completion(d.request.deviceId, transcript, frame.token))
    then d.(phase := Paired(frame.token))
    else d.(phase := Stopped)
  }

  function DeviceStep(x: Setting, d: DeviceRun, frame: Frame): DeviceRun {
    if d.phase == AwaitingChallenge then OnChallenge(x, d, frame)
    else if d.phase == AwaitingCompletion then OnComplete(x, d, frame)
    else d
  }

  function DeviceSignature(x: Setting, d: DeviceRun): Option<Signature> {
    if d.phase == SigningRequest
      then Some(Signature(d.request.signingKey, RequestPayload(d.invitation.fields, d.request)))
    else if d.phase == SigningConfirmation
      then Some(Signature(d.request.signingKey, DeviceConfirmation(DeviceTranscript(x, d))))
    else None
  }

  // ----- everybody together -----

  /** `made` holds the signatures honest parties have made. */
  datatype World = World(host: Host, devices: seq<DeviceRun>, made: set<Signature>)

  predicate HonestKey(x: Setting, key: string) { key == x.hostKey || key in x.deviceKeys }

  function SignatureOf(frame: Frame): Signature { if frame.PairReject? then Junk else frame.signature }

  /** Signatures of honest keys cannot be forged. */
  predicate Deliverable(x: Setting, w: World, frame: Frame) {
    var signature := SignatureOf(frame);
    signature.Junk? || !HonestKey(x, signature.key) || signature in w.made
  }

  datatype Event =
    | OnHost(event: HostEvent)
    | DeviceStarts(invitation: Invitation, request: Request, remotePeer: string, now: int)
    | DeviceSigns(d: nat)
    | DeviceReceives(d: nat, frame: Frame)
    | DeviceAnswers(d: nat, accepted: bool)
    | SignsElsewhere(key: string, text: string)

  function AddMade(made: set<Signature>, s: Option<Signature>): set<Signature> {
    if s.Some? then made + {s.value} else made
  }

  function After(x: Setting, w: World, e: Event): World {
    match e
    case OnHost(event) =>
      if event.HostReceived? && event.frame.Some? && !Deliverable(x, w, event.frame.value) then w
      else
        var made := if event.HostSigned? && event.s < |w.host.sessions|
          then AddMade(w.made, HostSignature(x, w.host, event.s)) else w.made;
        w.(host := HostStep(x, w.host, event), made := made)
    case DeviceStarts(invitation, request, remotePeer, now) =>
      if Startable(x, invitation, remotePeer, now) && request.signingKey in x.deviceKeys
         && request.invitationId == invitation.fields.invitationId
      then w.(devices := w.devices + [DeviceRun(invitation, request, SigningRequest, false)])
      else w
    case DeviceSigns(d) =>
      if d < |w.devices|
      then w.(devices := w.devices[d := OnDeviceSigned(w.devices[d])],
        made := AddMade(w.made, DeviceSignature(x, w.devices[d])))
      else w
    case DeviceReceives(d, frame) =>
      if d < |w.devices| && Deliverable(x, w, frame)
        then w.(devices := w.devices[d := DeviceStep(x, w.devices[d], frame)]) else w
    case DeviceAnswers(d, accepted) =>
      if d < |w.devices| && w.devices[d].phase == AwaitingCode
        then w.(devices := w.devices[d := OnCode(w.devices[d], accepted)]) else w
    case SignsElsewhere(key, text) => w.(made := w.made + {Signature(key, Elsewhere(text))})
  }

  function Run(x: Setting, events: seq<Event>): World {
    if events == [] then World(Host(map[], [], []), [], {})
    else After(x, Run(x, events[..|events| - 1]), events[|events| - 1])
  }
}
