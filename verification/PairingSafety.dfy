/** What pairing guarantees in every interleaving. */
module PairingSafety {
  import opened Wrappers
  import opened PairingProtocol

  // ----- the laptop alone -----

  predicate Late(p: Phase) { p.SigningCompletion? || p.Returned? || p.Failed? }

  /** An invitation is claimed by at most one session, and is no longer available then. */
  ghost predicate Claims(h: Host) {
    && (forall s | 0 <= s < |h.sessions| && h.sessions[s].claim.Some? ::
          && h.sessions[s].claim.value in h.invitations && h.invitations[h.sessions[s].claim.value].stage != Available
          && h.sessions[s].found == h.sessions[s].claim)
    && (forall s, t | 0 <= s < t < |h.sessions| && h.sessions[s].claim.Some? ::
         h.sessions[s].claim != h.sessions[t].claim)
    && (forall s | 0 <= s < |h.sessions| && h.sessions[s].phase.AwaitingRequest? :: h.sessions[s].claim.None?)
  }

  /** A session past its request holds a claim on the requested invitation; past the answer it is approved. */
  ghost predicate InOrder(session: Session) {
    && (!session.phase.AwaitingRequest? && !session.phase.Failed? ==>
          && session.request.Some? && session.claim == Some(session.request.value.invitationId)
          && session.request.value.peer == session.remotePeer)
    && (session.phase.AwaitingConfirmation? || session.phase.SigningCompletion? || session.phase.Returned? ==>
         session.approved)
  }

  ghost predicate Ordered(h: Host) {
    forall s | 0 <= s < |h.sessions| :: InOrder(h.sessions[s])
  }

  /** A registration comes from a session past its confirmation, which registers nothing more. */
  ghost predicate RegisteredBy(h: Host, r: Registration) {
    && r.session < |h.sessions|
    && var session := h.sessions[r.session];
       && session.request == Some(r.request) && session.claim == Some(r.request.invitationId)
       && session.approved && session.remotePeer == r.request.peer && Late(session.phase)
  }

  ghost predicate Registrations(h: Host) {
    && (forall i | 0 <= i < |h.registered| :: RegisteredBy(h, h.registered[i]))
    && (forall i, j | 0 <= i < j < |h.registered| :: h.registered[i].session != h.registered[j].session)
    && Completed(h)
  }

  /** A session past its registration did register. */
  ghost predicate Completed(h: Host) {
    forall s | 0 <= s < |h.sessions| && (h.sessions[s].phase.SigningCompletion? || h.sessions[s].phase.Returned?) ::
      exists i | 0 <= i < |h.registered| :: h.registered[i].session == s
  }

  /** Registered transcripts cover the invitation as it was issued. */
  ghost predicate Transcripts(x: Setting, h: Host) {
    && (forall i | 0 <= i < |h.registered| ::
          h.registered[i].request.invitationId in h.invitations
          && h.registered[i].transcript ==
               x.hash(h.invitations[h.registered[i].request.invitationId].invitation.fields, h.registered[i].request))
    && (forall id | id in h.invitations :: h.invitations[id].invitation.fields.invitationId == id)
  }

  ghost predicate HostSound(x: Setting, h: Host) {
    Claims(h) && Ordered(h) && Registrations(h) && Transcripts(x, h)
  }

  /** Invitations are never taken back or changed, except for their stage, which never returns to available. */
  ghost predicate Continues(h: Host, g: Host) {
    && |h.sessions| <= |g.sessions|
    && (forall id | id in h.invitations ::
          && id in g.invitations && g.invitations[id].invitation == h.invitations[id].invitation
          && g.invitations[id].token == h.invitations[id].token
          && (h.invitations[id].stage != Available ==> g.invitations[id].stage != Available))
    && |h.registered| <= |g.registered| && g.registered[..|h.registered|] == h.registered
  }

  lemma {:induction false} FailKeepsSound(x: Setting, h: Host, s: nat, code: Code)
    requires HostSound(x, h) && s < |h.sessions|
    requires !h.sessions[s].phase.Returned?
    ensures HostSound(x, Fail(h, s, code)) && Continues(h, Fail(h, s, code))
  {
    var g := Fail(h, s, code);
    forall t | 0 <= t < |g.sessions| && (g.sessions[t].phase.SigningCompletion? || g.sessions[t].phase.Returned?)
      ensures exists i | 0 <= i < |g.registered| :: g.registered[i].session == t
    {
      assert t != s && h.sessions[t] == g.sessions[t];
    }
  }

  /** Moving one session on, without touching claims or registrations. */
  lemma {:induction false} MoveKeepsSound(x: Setting, h: Host, s: nat, session: Session)
    requires HostSound(x, h) && s < |h.sessions| && InOrder(session)
    requires var was := h.sessions[s];
      && session.found == was.found && session.claim == was.claim && session.request == was.request
      && session.remotePeer == was.remotePeer
      && (session.phase.AwaitingRequest? ==> was.phase.AwaitingRequest?)
      && (was.approved ==> session.approved) && (Late(was.phase) ==> Late(session.phase))
      && (session.phase.SigningCompletion? || session.phase.Returned? ==>
            was.phase.SigningCompletion? || was.phase.Returned?)
    ensures HostSound(x, SetSession(h, s, session)) && Continues(h, SetSession(h, s, session))
  {
    var g := SetSession(h, s, session);
    forall t | 0 <= t < |g.sessions| && (g.sessions[t].phase.SigningCompletion? || g.sessions[t].phase.Returned?)
      ensures exists i | 0 <= i < |g.registered| :: g.registered[i].session == t
    {
      assert h.sessions[t].phase.SigningCompletion? || h.sessions[t].phase.Returned?;
    }
  }

  /** A session that has only looked an invitation up. */
  lemma {:induction false} FindKeepsSound(x: Setting, h: Host, s: nat, id: string)
    requires HostSound(x, h) && s < |h.sessions| && h.sessions[s].phase.AwaitingRequest?
    ensures HostSound(x, SetSession(h, s, h.sessions[s].(found := Some(id))))
    ensures Continues(h, SetSession(h, s, h.sessions[s].(found := Some(id))))
  {
    var g := SetSession(h, s, h.sessions[s].(found := Some(id)));
    forall t | 0 <= t < |g.sessions| && (g.sessions[t].phase.SigningCompletion? || g.sessions[t].phase.Returned?)
      ensures exists i | 0 <= i < |g.registered| :: g.registered[i].session == t
    {
      assert h.sessions[t] == g.sessions[t];
    }
  }

  /** Claiming an available invitation; the session then fails at once or waits for its challenge signature. */
  function Claimed(h: Host, s: nat, id: string, stage: Stage, phase: Phase, request: Option<Request>): Host
    requires s < |h.sessions| && id in h.invitations
  {
    SetStage(SetSession(h, s, h.sessions[s].(found := Some(id), claim := Some(id), request := request, phase := phase)),
      id, stage)
  }

  lemma {:induction false} ClaimKeepsClaims(
    h: Host, s: nat, id: string, stage: Stage, phase: Phase, request: Option<Request>)
    requires Claims(h) && s < |h.sessions| && h.sessions[s].phase.AwaitingRequest?
    requires id in h.invitations && h.invitations[id].stage == Available && stage != Available
      && !phase.AwaitingRequest?
    ensures Claims(Claimed(h, s, id, stage, phase, request))
  {
    assert forall t | 0 <= t < |h.sessions| :: h.sessions[t].claim != Some(id);
  }

  lemma {:induction false} ClaimKeepsSound(
    x: Setting, h: Host, s: nat, id: string, stage: Stage, phase: Phase, request: Option<Request>)
    requires HostSound(x, h) && s < |h.sessions| && h.sessions[s].phase.AwaitingRequest?
    requires id in h.invitations && h.invitations[id].stage == Available && stage != Available
    requires
      || phase.Failed?
      || (phase.SigningChallenge? && request.Some? && request.value.invitationId == id
           && request.value.peer == h.sessions[s].remotePeer)
    ensures HostSound(x, Claimed(h, s, id, stage, phase, request))
      && Continues(h, Claimed(h, s, id, stage, phase, request))
  {
    var g := Claimed(h, s, id, stage, phase, request);
    ClaimKeepsClaims(h, s, id, stage, phase, request);
    forall t | 0 <= t < |g.sessions| && (g.sessions[t].phase.SigningCompletion? || g.sessions[t].phase.Returned?)
      ensures exists i | 0 <= i < |g.registered| :: g.registered[i].session == t
    {
      assert h.sessions[t] == g.sessions[t];
    }
    assert Registrations(g);
  }

  /** A request for an available invitation ends in exactly one of two ways. */
  lemma {:induction false} AvailableRequest(x: Setting, h: Host, s: nat, frame: Frame, now: int)
    requires s < |h.sessions| && frame.PairRequest? && frame.request.invitationId in h.invitations
    requires h.invitations[frame.request.invitationId].stage == Available
    ensures var id := frame.request.invitationId;
      match RequestProblem(x, h.sessions[s], h.invitations[id], frame, now)
      case None =>
        OnRequest(x, h, s, Some(frame), now) == Claimed(h, s, id, Pending, SigningChallenge, Some(frame.request))
      case Some(code) =>
        OnRequest(x, h, s, Some(frame), now) == Claimed(h, s, id, Consumed, Failed(code), h.sessions[s].request)
  {
  }

  lemma {:induction false} RequestKeepsSound(x: Setting, h: Host, s: nat, frame: Option<Frame>, now: int)
    requires HostSound(x, h) && s < |h.sessions| && h.sessions[s].phase.AwaitingRequest?
    ensures HostSound(x, OnRequest(x, h, s, frame, now)) && Continues(h, OnRequest(x, h, s, frame, now))
  {
    if frame.None? || !frame.value.PairRequest? {
      FailKeepsSound(x, h, s, Invalid);
    } else {
      var id := frame.value.request.invitationId;
      if id !in h.invitations {
        FailKeepsSound(x, h, s, Unavailable);
      } else if h.invitations[id].stage != Available {
        FindKeepsSound(x, h, s, id);
        FailKeepsSound(x, SetSession(h, s, h.sessions[s].(found := Some(id))), s, Unavailable);
      } else {
        AvailableRequest(x, h, s, frame.value, now);
        match RequestProblem(x, h.sessions[s], h.invitations[id], frame.value, now)
        case None => ClaimKeepsSound(x, h, s, id, Pending, SigningChallenge, Some(frame.value.request));
        case Some(code) => ClaimKeepsSound(x, h, s, id, Consumed, Failed(code), h.sessions[s].request);
      }
    }
  }

  /** A good confirmation of the session's own transcript. */
  predicate Confirms(x: Setting, h: Host, s: nat, frame: Option<Frame>)
    requires s < |h.sessions|
  {
    && h.sessions[s].request.Some? && frame.Some? && frame.value.PairConfirm?
    && frame.value.transcript == Transcript(x, h, s)
    && frame.value.signature == Signature(h.sessions[s].request.value.signingKey,
         DeviceConfirmation(Transcript(x, h, s)))
  }

  /** The laptop after a confirmed session has registered its device. */
  lemma {:induction false} ConfirmedRegisters(x: Setting, h: Host, s: nat, frame: Frame)
    requires s < |h.sessions| && Confirms(x, h, s, Some(frame))
    ensures var g, was := OnConfirmation(x, h, s, Some(frame), true), h.sessions[s];
      && g.registered == h.registered + [Registration(s, was.request.value, Transcript(x, h, s))]
      && g.sessions == h.sessions[s := was.(phase := SigningCompletion)]
  {
  }

  lemma {:induction false} NewlyCompleted(h: Host, g: Host, s: nat, r: Registration)
    requires Completed(h) && s < |h.sessions| && r.session == s && g.registered == h.registered + [r]
    requires g.sessions == h.sessions[s := h.sessions[s].(phase := SigningCompletion)]
    ensures Completed(g)
  {
    forall t | 0 <= t < |g.sessions| && (g.sessions[t].phase.SigningCompletion? || g.sessions[t].phase.Returned?)
      ensures exists i | 0 <= i < |g.registered| :: g.registered[i].session == t
    {
      if t == s {
        assert g.registered[|h.registered|].session == t;
      } else {
        var i :| 0 <= i < |h.registered| && h.registered[i].session == t;
        assert g.registered[i].session == t;
      }
    }
  }

  lemma {:induction false} RegistrationIsNew(x: Setting, h: Host, s: nat, frame: Frame)
    requires Registrations(h) && Ordered(h) && s < |h.sessions| && h.sessions[s].phase.AwaitingConfirmation?
    requires h.sessions[s].request.Some? && Confirms(x, h, s, Some(frame))
    ensures Registrations(OnConfirmation(x, h, s, Some(frame), true))
  {
    var g := OnConfirmation(x, h, s, Some(frame), true);
    ConfirmedRegisters(x, h, s, frame);
    var r := Registration(s, h.sessions[s].request.value, Transcript(x, h, s));
    assert InOrder(h.sessions[s]);
    forall i | 0 <= i < |h.registered| ensures RegisteredBy(g, h.registered[i]) && h.registered[i].session != s {
      assert RegisteredBy(h, h.registered[i]);
    }
    NewlyCompleted(h, g, s, r);
  }

  lemma {:induction false} RegistrationKeepsSound(x: Setting, h: Host, s: nat, frame: Frame)
    requires HostSound(x, h) && s < |h.sessions| && h.sessions[s].phase.AwaitingConfirmation?
    requires Confirms(x, h, s, Some(frame))
    ensures HostSound(x, OnConfirmation(x, h, s, Some(frame), true))
      && Continues(h, OnConfirmation(x, h, s, Some(frame), true))
  {
    RegistrationIsNew(x, h, s, frame);
  }

  lemma {:induction false} ConfirmationKeepsSound(x: Setting, h: Host, s: nat, frame: Option<Frame>, stored: bool)
    requires HostSound(x, h) && s < |h.sessions| && h.sessions[s].phase.AwaitingConfirmation?
      && h.sessions[s].request.Some?
    ensures HostSound(x, OnConfirmation(x, h, s, frame, stored)) && Continues(h, OnConfirmation(x, h, s, frame, stored))
  {
    if Confirms(x, h, s, frame) && stored {
      RegistrationKeepsSound(x, h, s, frame.value);
    } else {
      FailKeepsSound(x, h, s, if frame.None? || Confirms(x, h, s, frame) then Invalid else Mismatch);
    }
  }

  lemma {:induction false} SigningKeepsSound(x: Setting, h: Host, s: nat, ok: bool)
    requires HostSound(x, h) && s < |h.sessions|
    ensures HostSound(x, HostStep(x, h, HostSigned(s, ok))) && Continues(h, HostStep(x, h, HostSigned(s, ok)))
  {
    var session := h.sessions[s];
    if session.phase == SigningChallenge || session.phase == SigningCompletion {
      if ok {
        var next := if session.phase == SigningChallenge then AwaitingApproval else Returned;
        MoveKeepsSound(x, h, s, session.(phase := next));
      } else {
        FailKeepsSound(x, h, s, Invalid);
      }
    }
  }

  lemma {:induction false} AnswerKeepsSound(x: Setting, h: Host, s: nat, answer: Option<bool>)
    requires HostSound(x, h) && s < |h.sessions| && h.sessions[s].phase.AwaitingApproval?
    ensures HostSound(x, OnAnswer(h, s, answer)) && Continues(h, OnAnswer(h, s, answer))
  {
    if answer == Some(true) {
      MoveKeepsSound(x, h, s, h.sessions[s].(phase := AwaitingConfirmation, approved := true));
    } else {
      FailKeepsSound(x, h, s, if answer.None? then Invalid else Declined);
    }
  }

  lemma {:induction false} StartKeepsSound(x: Setting, h: Host, remotePeer: string)
    requires HostSound(x, h)
    ensures HostSound(x, StartSession(h, remotePeer)) && Continues(h, StartSession(h, remotePeer))
  {
    var g := StartSession(h, remotePeer);
    forall t | 0 <= t < |g.sessions| && (g.sessions[t].phase.SigningCompletion? || g.sessions[t].phase.Returned?)
      ensures exists i | 0 <= i < |g.registered| :: g.registered[i].session == t
    {
      assert h.sessions[t] == g.sessions[t];
    }
  }

  lemma {:induction false} HostStepKeepsSound(x: Setting, h: Host, e: HostEvent)
    requires HostSound(x, h)
    ensures HostSound(x, HostStep(x, h, e)) && Continues(h, HostStep(x, h, e))
  {
    match e
    case Invited(_, _) =>
    case Accepting(remotePeer) => StartKeepsSound(x, h, remotePeer);
    case HostReceived(s, frame, now, stored) =>
      if s < |h.sessions| && h.sessions[s].phase == AwaitingRequest { RequestKeepsSound(x, h, s, frame, now); }
      if s < |h.sessions| && h.sessions[s].phase == AwaitingConfirmation && h.sessions[s].request.Some? {
        ConfirmationKeepsSound(x, h, s, frame, stored);
      }
    case HostSigned(s, ok) => if s < |h.sessions| { SigningKeepsSound(x, h, s, ok); }
    case HostAnswered(s, answer) =>
      if s < |h.sessions| && h.sessions[s].phase == AwaitingApproval { AnswerKeepsSound(x, h, s, answer); }
  }

  /** One invitation registers at most one device. */
  lemma {:induction false} OneDevicePerInvitation(x: Setting, h: Host)
    requires HostSound(x, h)
    ensures forall i, j | 0 <= i < j < |h.registered| ::
      h.registered[i].request.invitationId != h.registered[j].request.invitationId
  {
    forall i, j | 0 <= i < j < |h.registered|
      ensures h.registered[i].request.invitationId != h.registered[j].request.invitationId
    {
      assert RegisteredBy(h, h.registered[i]) && RegisteredBy(h, h.registered[j]);
    }
  }

  // ----- what an attempt does to its invitation -----

  predicate Over(p: Phase) { p.SigningCompletion? || p.Returned? || p.Failed? }

  /** An invitation that some attempt looked up and finished with, well or badly, is consumed. */
  ghost predicate Burned(h: Host) {
    forall s | 0 <= s < |h.sessions| && h.sessions[s].found.Some? ::
      && h.sessions[s].found.value in h.invitations
      && (Over(h.sessions[s].phase) ==> h.invitations[h.sessions[s].found.value].stage == Consumed)
  }

  lemma {:induction false} FailBurns(h: Host, s: nat, code: Code)
    requires Burned(h) && s < |h.sessions|
    ensures Burned(Fail(h, s, code))
  {
  }

  lemma {:induction false} FindBurns(h: Host, s: nat, id: string)
    requires Burned(h) && s < |h.sessions| && h.sessions[s].phase.AwaitingRequest? && id in h.invitations
    ensures Burned(SetSession(h, s, h.sessions[s].(found := Some(id))))
  {
  }

  lemma {:induction false} ClaimBurns(h: Host, s: nat, id: string, stage: Stage, phase: Phase, request: Option<Request>)
    requires Burned(h) && s < |h.sessions| && id in h.invitations && h.invitations[id].stage == Available
    requires Over(phase) ==> stage == Consumed
    ensures Burned(Claimed(h, s, id, stage, phase, request))
  {
  }

  lemma {:induction false} RequestBurns(x: Setting, h: Host, s: nat, frame: Option<Frame>, now: int)
    requires Burned(h) && s < |h.sessions| && h.sessions[s].phase.AwaitingRequest?
    ensures Burned(OnRequest(x, h, s, frame, now))
  {
    FailBurns(h, s, Invalid);
    FailBurns(h, s, Unavailable);
    if frame.Some? && frame.value.PairRequest? && frame.value.request.invitationId in h.invitations {
      var id := frame.value.request.invitationId;
      if h.invitations[id].stage != Available {
        FindBurns(h, s, id);
        FailBurns(SetSession(h, s, h.sessions[s].(found := Some(id))), s, Unavailable);
      } else {
        AvailableRequest(x, h, s, frame.value, now);
        ClaimBurns(h, s, id, Pending, SigningChallenge, Some(frame.value.request));
        match RequestProblem(x, h.sessions[s], h.invitations[id], frame.value, now)
        case None =>
        case Some(code) => ClaimBurns(h, s, id, Consumed, Failed(code), h.sessions[s].request);
      }
    }
  }

  lemma {:induction false} ConfirmationBurns(x: Setting, h: Host, s: nat, frame: Option<Frame>, stored: bool)
    requires Burned(h) && s < |h.sessions| && h.sessions[s].request.Some? && h.sessions[s].found == h.sessions[s].claim
    ensures Burned(OnConfirmation(x, h, s, frame, stored))
  {
    FailBurns(h, s, Invalid);
    FailBurns(h, s, Mismatch);
  }

  lemma {:induction false} HostStepBurns(x: Setting, h: Host, e: HostEvent)
    requires HostSound(x, h) && Burned(h)
    ensures Burned(HostStep(x, h, e))
  {
    match e
    case Invited(_, _) =>
    case Accepting(_) =>
    case HostReceived(s, frame, now, stored) =>
      if s < |h.sessions| && h.sessions[s].phase == AwaitingRequest { RequestBurns(x, h, s, frame, now); }
      if s < |h.sessions| && h.sessions[s].phase == AwaitingConfirmation && h.sessions[s].request.Some? {
        assert InOrder(h.sessions[s]);
        ConfirmationBurns(x, h, s, frame, stored);
      }
    case HostSigned(s, _) => if s < |h.sessions| { FailBurns(h, s, Invalid); }
    case HostAnswered(s, _) =>
      if s < |h.sessions| {
        FailBurns(h, s, Invalid);
        FailBurns(h, s, Declined);
      }
  }

  // ----- both sides -----

  /** Honest parties confirm only accepted codes, and complete only registrations. */
  ghost predicate Earned(x: Setting, w: World, made: Signature) {
    match made
    case Junk => true
    case Signature(key, payload) =>
      match payload
      case DeviceConfirmation(transcript) =>
        exists d | 0 <= d < |w.devices| ::
          w.devices[d].accepted && w.devices[d].request.signingKey == key
            && DeviceTranscript(x, w.devices[d]) == transcript
      case Completion(deviceId, transcript, token) =>
        key == x.hostKey && exists i | 0 <= i < |w.host.registered| ::
          var r := w.host.registered[i];
          r.request.deviceId == deviceId && r.transcript == transcript
          && r.request.invitationId in w.host.invitations && w.host.invitations[r.request.invitationId].token == token
      case _ => true
  }

  ghost predicate AllEarned(x: Setting, w: World) {
    forall made | made in w.made :: Earned(x, w, made)
  }

  /** A device that got past the code accepted it; one that finished holds a completion signed by the invited laptop. */
  ghost predicate DeviceSound(x: Setting, w: World, d: DeviceRun) {
    && d.request.signingKey in x.deviceKeys
    && (d.phase.SigningConfirmation? || d.phase.AwaitingCompletion? || d.phase.Paired? ==> d.accepted)
    && (d.phase.Paired? && HonestKey(x, d.invitation.fields.hostSigningKey) ==>
          Signature(d.invitation.fields.hostSigningKey,
            Completion(d.request.deviceId, DeviceTranscript(x, d), d.phase.token)) in w.made)
  }

  ghost predicate DevicesSound(x: Setting, w: World) {
    forall d | 0 <= d < |w.devices| :: DeviceSound(x, w, w.devices[d])
  }

  /** Each registration of an honest key was confirmed with that key. */
  ghost predicate Confirmed(x: Setting, w: World) {
    forall i | 0 <= i < |w.host.registered| ::
      var r := w.host.registered[i];
      HonestKey(x, r.request.signingKey) ==> Signature(r.request.signingKey, DeviceConfirmation(r.transcript)) in w.made
  }

  ghost predicate Sound(x: Setting, w: World) {
    HostSound(x, w.host) && AllEarned(x, w) && DevicesSound(x, w) && Confirmed(x, w)
  }

  /** Nothing is unlearned: later worlds keep registrations, runs and signatures. */
  ghost predicate Grows(x: Setting, w: World, v: World) {
    && Continues(w.host, v.host) && w.made <= v.made && |w.devices| <= |v.devices|
    && (forall d | 0 <= d < |w.devices| ::
          && v.devices[d].request == w.devices[d].request && v.devices[d].invitation == w.devices[d].invitation
          && (w.devices[d].accepted ==> v.devices[d].accepted))
  }

  lemma {:induction false} EarnedStays(x: Setting, w: World, v: World, made: Signature)
    requires Earned(x, w, made) && Grows(x, w, v)
    ensures Earned(x, v, made)
  {
    if made.Signature? && made.payload.DeviceConfirmation? {
      var d :| 0 <= d < |w.devices| && w.devices[d].accepted && w.devices[d].request.signingKey == made.key
               && DeviceTranscript(x, w.devices[d]) == made.payload.transcript;
      assert v.devices[d].accepted && DeviceTranscript(x, v.devices[d]) == made.payload.transcript;
    } else if made.Signature? && made.payload.Completion? {
      var i :| 0 <= i < |w.host.registered|
        && w.host.registered[i].request.deviceId == made.payload.deviceId
        && w.host.registered[i].transcript == made.payload.transcript
        && w.host.registered[i].request.invitationId in w.host.invitations
        && w.host.invitations[w.host.registered[i].request.invitationId].token == made.payload.token;
      assert v.host.registered[i] == w.host.registered[i];
    }
  }

  lemma {:induction false} AllEarnedStays(x: Setting, w: World, v: World)
    requires AllEarned(x, w) && Grows(x, w, v)
    requires forall made | made in v.made && made !in w.made :: Earned(x, v, made)
    ensures AllEarned(x, v)
  {
    forall made | made in w.made ensures Earned(x, v, made) { EarnedStays(x, w, v, made); }
  }

  /** What the laptop signs in a completion is registered. */
  lemma {:induction false} HostEarns(x: Setting, w: World, s: nat)
    requires HostSound(x, w.host) && s < |w.host.sessions| && HostSignature(x, w.host, s).Some?
    ensures Earned(x, w, HostSignature(x, w.host, s).value)
  {
    var h := w.host;
    if h.sessions[s].phase == SigningCompletion {
      var i :| 0 <= i < |h.registered| && h.registered[i].session == s;
      assert RegisteredBy(h, h.registered[i]);
    }
  }

  lemma {:induction false} HostEventKeepsSound(x: Setting, w: World, e: HostEvent)
    requires Sound(x, w)
    ensures Sound(x, After(x, w, OnHost(e))) && Grows(x, w, After(x, w, OnHost(e)))
  {
    var v := After(x, w, OnHost(e));
    HostStepKeepsSound(x, w.host, e);
    assert Grows(x, w, v);
    if e.HostSigned? && e.s < |w.host.sessions| && HostSignature(x, w.host, e.s).Some? {
      HostEarns(x, w, e.s);
      EarnedStays(x, w, v, HostSignature(x, w.host, e.s).value);
    }
    AllEarnedStays(x, w, v);
    NewRegistrationConfirmed(x, w, e);
  }

  lemma {:induction false} NewRegistrationConfirmed(x: Setting, w: World, e: HostEvent)
    requires HostSound(x, w.host) && Confirmed(x, w)
    ensures Confirmed(x, After(x, w, OnHost(e)))
  {
    var v := After(x, w, OnHost(e));
    forall i | 0 <= i < |v.host.registered|
      ensures HonestKey(x, v.host.registered[i].request.signingKey) ==>
        Signature(v.host.registered[i].request.signingKey, DeviceConfirmation(v.host.registered[i].transcript))
          in v.made
    {
      if i < |w.host.registered| {
        HostStepKeepsSound(x, w.host, e);
        assert v.host.registered[i] == v.host.registered[..|w.host.registered|][i];
      }
    }
  }

  lemma {:induction false} DeviceEarns(x: Setting, w: World, d: nat)
    requires DevicesSound(x, w) && d < |w.devices| && DeviceSignature(x, w.devices[d]).Some?
    ensures Earned(x, w, DeviceSignature(x, w.devices[d]).value)
  {
    assert DeviceSound(x, w, w.devices[d]);
  }

  /** Signatures stay, so devices stay sound. */
  lemma {:induction false} DevicesStay(x: Setting, w: World, v: World, d: nat)
    requires DevicesSound(x, w) && w.made <= v.made && |w.devices| == |v.devices| && d < |v.devices|
    requires DeviceSound(x, v, v.devices[d])
    requires forall c | 0 <= c < |w.devices| && c != d :: v.devices[c] == w.devices[c]
    ensures DevicesSound(x, v)
  {
    forall c | 0 <= c < |v.devices| ensures DeviceSound(x, v, v.devices[c]) {
      assert DeviceSound(x, w, w.devices[c]);
    }
  }

  lemma {:induction false} DeviceSignsKeepsSound(x: Setting, w: World, d: nat)
    requires Sound(x, w) && d < |w.devices|
    ensures Sound(x, After(x, w, DeviceSigns(d)))
  {
    var v := After(x, w, DeviceSigns(d));
    assert DeviceSound(x, w, w.devices[d]);
    DevicesStay(x, w, v, d);
    assert Grows(x, w, v);
    if DeviceSignature(x, w.devices[d]).Some? {
      DeviceEarns(x, w, d);
      EarnedStays(x, w, v, DeviceSignature(x, w.devices[d]).value);
    }
    AllEarnedStays(x, w, v);
  }

  lemma {:induction false} DeviceReceivesKeepsSound(x: Setting, w: World, d: nat, frame: Frame)
    requires Sound(x, w) && d < |w.devices| && Deliverable(x, w, frame)
    ensures Sound(x, After(x, w, DeviceReceives(d, frame)))
  {
    var v := After(x, w, DeviceReceives(d, frame));
    assert DeviceSound(x, w, w.devices[d]);
    DevicesStay(x, w, v, d);
    AllEarnedStays(x, w, v);
  }

  lemma {:induction false} DeviceAnswersKeepsSound(x: Setting, w: World, d: nat, accepted: bool)
    requires Sound(x, w) && d < |w.devices|
    ensures Sound(x, After(x, w, DeviceAnswers(d, accepted)))
  {
    var v := After(x, w, DeviceAnswers(d, accepted));
    assert DeviceSound(x, w, w.devices[d]);
    DevicesStay(x, w, v, d);
    AllEarnedStays(x, w, v);
  }

  lemma {:induction false} DeviceStartsKeepsSound(
    x: Setting, w: World, invitation: Invitation, request: Request, remotePeer: string, now: int)
    requires Sound(x, w)
    ensures Sound(x, After(x, w, DeviceStarts(invitation, request, remotePeer, now)))
  {
    var v := After(x, w, DeviceStarts(invitation, request, remotePeer, now));
    forall c | 0 <= c < |v.devices| ensures DeviceSound(x, v, v.devices[c]) {
      assert c < |w.devices| ==> DeviceSound(x, w, w.devices[c]);
    }
    AllEarnedStays(x, w, v);
  }

  lemma {:induction false} SignsElsewhereKeepsSound(x: Setting, w: World, key: string, text: string)
    requires Sound(x, w)
    ensures Sound(x, After(x, w, SignsElsewhere(key, text)))
  {
    var v := After(x, w, SignsElsewhere(key, text));
    forall c | 0 <= c < |v.devices| ensures DeviceSound(x, v, v.devices[c]) {
      assert DeviceSound(x, w, w.devices[c]);
    }
    AllEarnedStays(x, w, v);
  }

  lemma {:induction false} StepKeepsSound(x: Setting, w: World, e: Event)
    requires Sound(x, w)
    ensures Sound(x, After(x, w, e))
  {
    match e
    case OnHost(event) => HostEventKeepsSound(x, w, event);
    case DeviceStarts(invitation, request, remotePeer, now) =>
      DeviceStartsKeepsSound(x, w, invitation, request, remotePeer, now);
    case DeviceSigns(d) => if d < |w.devices| { DeviceSignsKeepsSound(x, w, d); }
    case DeviceReceives(d, frame) =>
      if d < |w.devices| && Deliverable(x, w, frame) { DeviceReceivesKeepsSound(x, w, d, frame); }
    case DeviceAnswers(d, accepted) => if d < |w.devices| { DeviceAnswersKeepsSound(x, w, d, accepted); }
    case SignsElsewhere(key, text) => SignsElsewhereKeepsSound(x, w, key, text);
  }

  lemma {:induction false} EveryRunIsSound(x: Setting, events: seq<Event>)
    ensures Sound(x, Run(x, events))
  {
    if events != [] {
      EveryRunIsSound(x, events[..|events| - 1]);
      StepKeepsSound(x, Run(x, events[..|events| - 1]), events[|events| - 1]);
    }
  }

  /**
   * A device that finishes with an invitation naming this laptop's key was registered there under its own id and
   * keys, over the same invitation and transcript, with both codes accepted, and got that invitation's token.
   */
  lemma {:induction false} PairedMeansRegistered(x: Setting, events: seq<Event>, d: nat)
    requires Injective(x) && d < |Run(x, events).devices|
    requires Run(x, events).devices[d].phase.Paired?
      && Run(x, events).devices[d].invitation.fields.hostSigningKey == x.hostKey
    ensures var w, run := Run(x, events), Run(x, events).devices[d];
      run.accepted && exists i | 0 <= i < |w.host.registered| ::
        var r := w.host.registered[i];
        && r.request == run.request && r.transcript == DeviceTranscript(x, run)
        && r.session < |w.host.sessions| && w.host.sessions[r.session].approved
        && r.request.invitationId in w.host.invitations
        && w.host.invitations[r.request.invitationId].invitation.fields == run.invitation.fields
        && w.host.invitations[r.request.invitationId].token == run.phase.token
  {
    var w, run := Run(x, events), Run(x, events).devices[d];
    EveryRunIsSound(x, events);
    assert DeviceSound(x, w, run);
    var made := Signature(x.hostKey, Completion(run.request.deviceId, DeviceTranscript(x, run), run.phase.token));
    assert Earned(x, w, made);
    var i :| 0 <= i < |w.host.registered|
      && w.host.registered[i].request.deviceId == run.request.deviceId
      && w.host.registered[i].transcript == DeviceTranscript(x, run)
      && w.host.registered[i].request.invitationId in w.host.invitations
      && w.host.invitations[w.host.registered[i].request.invitationId].token == run.phase.token;
    assert RegisteredBy(w.host, w.host.registered[i]);
  }

  /** Every device registered with an honest key was accepted on both sides, for the same request and transcript. */
  lemma {:induction false} RegisteredMeansAccepted(x: Setting, events: seq<Event>, i: nat)
    requires Injective(x) && i < |Run(x, events).host.registered|
    requires Run(x, events).host.registered[i].request.signingKey in x.deviceKeys
    ensures var w, r := Run(x, events), Run(x, events).host.registered[i];
      && r.session < |w.host.sessions| && w.host.sessions[r.session].approved
      && w.host.sessions[r.session].remotePeer == r.request.peer
      && r.request.invitationId in w.host.invitations
      && exists d | 0 <= d < |w.devices| ::
           && w.devices[d].accepted && w.devices[d].request == r.request
           && DeviceTranscript(x, w.devices[d]) == r.transcript
           && w.devices[d].invitation.fields == w.host.invitations[r.request.invitationId].invitation.fields
  {
    var w, r := Run(x, events), Run(x, events).host.registered[i];
    EveryRunIsSound(x, events);
    assert RegisteredBy(w.host, r);
    assert Earned(x, w, Signature(r.request.signingKey, DeviceConfirmation(r.transcript)));
    var d :| 0 <= d < |w.devices| && w.devices[d].accepted && w.devices[d].request.signingKey == r.request.signingKey
             && DeviceTranscript(x, w.devices[d]) == r.transcript;
  }

  /** In every interleaving, one invitation registers at most one device. */
  lemma {:induction false} InvitationsAreOneUse(x: Setting, events: seq<Event>)
    ensures var registered := Run(x, events).host.registered;
      forall i, j | 0 <= i < j < |registered| ::
        registered[i].request.invitationId != registered[j].request.invitationId
  {
    EveryRunIsSound(x, events);
    OneDevicePerInvitation(x, Run(x, events).host);
  }

  /** In every interleaving, an attempt that ended leaves no invitation it touched usable. */
  lemma {:induction false} AttemptsBurnInvitations(x: Setting, events: seq<Event>)
    ensures Burned(Run(x, events).host)
  {
    if events != [] {
      var before, e := Run(x, events[..|events| - 1]), events[|events| - 1];
      AttemptsBurnInvitations(x, events[..|events| - 1]);
      EveryRunIsSound(x, events[..|events| - 1]);
      if e.OnHost? { HostStepBurns(x, before.host, e.event); }
    }
  }

  // ----- an honest pairing -----

  lemma {:induction false} Then(x: Setting, events: seq<Event>, e: Event) returns (longer: seq<Event>)
    ensures Run(x, longer) == After(x, Run(x, events), e)
  {
    longer := events + [e];
    assert longer[..|events|] == events;
  }

  ghost predicate Honest(x: Setting, invitation: Invitation, request: Request, now: int) {
    && invitation.fields.hostSigningKey == x.hostKey && invitation.fields.hostPeer == x.hostPeer
    && request.invitationId == invitation.fields.invitationId && request.signingKey in x.deviceKeys
    && x.timeOf(invitation.fields.expiresAt) > now
  }

  /** One invitation, its session, sessions that came later, and one run, with the given progress. */
  ghost predicate Scene(
    w: World, invitation: Invitation, request: Request, token: string, stage: Stage, host: Phase, approved: bool,
    device: DevicePhase, accepted: bool, others: seq<Session>)
  {
    && w.host.invitations == map[request.invitationId := Stored(invitation, token, stage)]
    && w.host.sessions ==
         [Session(request.peer, host, Some(request.invitationId), Some(request.invitationId), Some(request), approved)]
           + others
    && w.devices == [DeviceRun(invitation, request, device, accepted)]
  }

  lemma {:induction false} OpeningSucceeds(
    x: Setting, invitation: Invitation, request: Request, token: string, now: int)
    returns (events: seq<Event>)
    requires Honest(x, invitation, request, now)
    ensures Scene(Run(x, events), invitation, request, token, Pending, SigningChallenge, false, AwaitingChallenge,
      false, [])
    ensures Run(x, events).host.registered == []
  {
    var asked := Signature(request.signingKey, RequestPayload(invitation.fields, request));
    events := Then(x, [], OnHost(Invited(invitation, token)));
    events := Then(x, events, OnHost(Accepting(request.peer)));
    events := Then(x, events, DeviceStarts(invitation, request, x.hostPeer, now));
    events := Then(x, events, DeviceSigns(0));
    events := Then(x, events, OnHost(HostReceived(0, Some(PairRequest(request, asked)), now, true)));
  }

  lemma {:induction false} ChallengeAnswered(
    x: Setting, invitation: Invitation, request: Request, token: string, now: int, stage: Stage, others: seq<Session>,
    before: seq<Event>) returns (events: seq<Event>)
    requires Honest(x, invitation, request, now)
    requires Scene(Run(x, before), invitation, request, token, stage, SigningChallenge, false, AwaitingChallenge, false,
      others)
    requires Run(x, before).host.registered == []
    ensures Scene(Run(x, events), invitation, request, token, stage, AwaitingApproval, false, SigningConfirmation, true,
      others)
    ensures Run(x, events).host.registered == []
  {
    var transcript := x.hash(invitation.fields, request);
    var challenged := Signature(x.hostKey, HostChallenge(transcript, x.sas(transcript)));
    events := Then(x, before, OnHost(HostSigned(0, true)));
    events := Then(x, events, DeviceReceives(0, PairChallenge(transcript, x.sas(transcript), challenged)));
    events := Then(x, events, DeviceAnswers(0, true));
  }

  lemma {:induction false} CodesAccepted(
    x: Setting, invitation: Invitation, request: Request, token: string, now: int, stage: Stage, others: seq<Session>,
    before: seq<Event>) returns (events: seq<Event>)
    requires Honest(x, invitation, request, now)
    requires Scene(Run(x, before), invitation, request, token, stage, AwaitingApproval, false, SigningConfirmation,
      true, others)
    requires Run(x, before).host.registered == []
    ensures Scene(Run(x, events), invitation, request, token, stage, AwaitingConfirmation, true, AwaitingCompletion,
      true, others)
    ensures Signature(request.signingKey, DeviceConfirmation(x.hash(invitation.fields, request))) in Run(x, events).made
    ensures Run(x, events).host.registered == []
  {
    events := Then(x, before, DeviceSigns(0));
    events := Then(x, events, OnHost(HostAnswered(0, Some(true))));
  }

  lemma {:induction false} RegistersConfirmed(
    x: Setting, invitation: Invitation, request: Request, token: string, now: int, stage: Stage, others: seq<Session>,
    before: seq<Event>) returns (events: seq<Event>)
    requires Honest(x, invitation, request, now)
    requires Scene(Run(x, before), invitation, request, token, stage, AwaitingConfirmation, true, AwaitingCompletion,
      true, others)
    requires Signature(request.signingKey, DeviceConfirmation(x.hash(invitation.fields, request)))
      in Run(x, before).made
    requires Run(x, before).host.registered == []
    ensures Scene(Run(x, events), invitation, request, token, Consumed, SigningCompletion, true, AwaitingCompletion,
      true, others)
    ensures Run(x, events).host.registered == [Registration(0, request, x.hash(invitation.fields, request))]
  {
    var transcript := x.hash(invitation.fields, request);
    var confirmed := Signature(request.signingKey, DeviceConfirmation(transcript));
    events := Then(x, before, OnHost(HostReceived(0, Some(PairConfirm(transcript, confirmed)), now, true)));
  }

  lemma {:induction false} Completes(
    x: Setting, invitation: Invitation, request: Request, token: string, now: int, others: seq<Session>,
    before: seq<Event>)
    returns (events: seq<Event>)
    requires Honest(x, invitation, request, now)
    requires Scene(Run(x, before), invitation, request, token, Consumed, SigningCompletion, true, AwaitingCompletion,
      true, others)
    ensures Scene(Run(x, events), invitation, request, token, Consumed, Returned, true, Paired(token), true, others)
    ensures Run(x, events).host.registered == Run(x, before).host.registered
  {
    var transcript := x.hash(invitation.fields, request);
    var completed := Signature(x.hostKey, Completion(request.deviceId, transcript, token));
    events := Then(x, before, OnHost(HostSigned(0, true)));
    events := Then(x, events, DeviceReceives(0, PairComplete(request.deviceId, transcript, token, completed)));
  }

  /** From the laptop's challenge on. */
  lemma {:induction false} PairingCompletes(
    x: Setting, invitation: Invitation, request: Request, token: string, now: int, stage: Stage, others: seq<Session>,
    before: seq<Event>) returns (events: seq<Event>)
    requires Honest(x, invitation, request, now)
    requires Scene(Run(x, before), invitation, request, token, stage, SigningChallenge, false, AwaitingChallenge, false,
      others)
    requires Run(x, before).host.registered == []
    ensures Scene(Run(x, events), invitation, request, token, Consumed, Returned, true, Paired(token), true, others)
    ensures Run(x, events).host.registered == [Registration(0, request, x.hash(invitation.fields, request))]
  {
    events := ChallengeAnswered(x, invitation, request, token, now, stage, others, before);
    events := CodesAccepted(x, invitation, request, token, now, stage, others, events);
    events := RegistersConfirmed(x, invitation, request, token, now, stage, others, events);
    events := Completes(x, invitation, request, token, now, others, events);
  }

  /** Without interference, a device and the laptop that accept the code do pair. */
  lemma {:induction false} HonestPairingSucceeds(
    x: Setting, invitation: Invitation, request: Request, token: string, now: int)
    returns (events: seq<Event>)
    requires Honest(x, invitation, request, now)
    ensures Scene(Run(x, events), invitation, request, token, Consumed, Returned, true, Paired(token), true, [])
    ensures Run(x, events).host.registered == [Registration(0, request, x.hash(invitation.fields, request))]
  {
    events := OpeningSucceeds(x, invitation, request, token, now);
    events := PairingCompletes(x, invitation, request, token, now, Pending, [], events);
  }
}
