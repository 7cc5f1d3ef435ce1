/** What each event does to a pairing attempt, and that every registration goes back to a request made in time. */
module PairingOutcomes {
  import opened Wrappers
  import opened PairingProtocol
  import opened PairingSafety

  // ----- the laptop receives a request -----

  /** A session whose first frame is still to come. */
  predicate Waits(h: Host, s: nat, peer: string) {
    s < |h.sessions| && h.sessions[s] == Session(peer, AwaitingRequest, None, None, None, false)
  }

  /** The request names a stored invitation. */
  predicate Names(h: Host, frame: Option<Frame>) {
    frame.Some? && frame.value.PairRequest? && frame.value.request.invitationId in h.invitations
  }

  /**
   * A request for an available invitation before its expiry, from the session's own peer, and signed over that
   * invitation with the request's own key.
   */
  predicate Acceptable(x: Setting, h: Host, peer: string, frame: Option<Frame>, now: int) {
    && Names(h, frame)
    && var stored, request := h.invitations[frame.value.request.invitationId], frame.value.request;
       && stored.stage == Available && now < x.timeOf(stored.invitation.fields.expiresAt) && request.peer == peer
       && frame.value.signature == Signature(request.signingKey, RequestPayload(stored.invitation.fields, request))
  }

  /** Why any other frame is refused, in this order. */
  function Objection(x: Setting, h: Host, peer: string, frame: Option<Frame>, now: int): Code {
    if frame.None? || !frame.value.PairRequest? then Invalid
    else if !Names(h, frame) || h.invitations[frame.value.request.invitationId].stage != Available then Unavailable
    else if x.timeOf(h.invitations[frame.value.request.invitationId].invitation.fields.expiresAt) <= now then Expired
    else if frame.value.request.peer != peer then Mismatch
    else Invalid
  }

  ghost predicate OnlySession(h: Host, g: Host, s: nat) {
    && |g.sessions| == |h.sessions|
    && forall t | 0 <= t < |h.sessions| && t != s :: g.sessions[t] == h.sessions[t]
  }

  /** The stage of this invitation, if stored, and nothing else of any. */
  ghost predicate OnlyStage(h: Host, g: Host, id: Option<string>, stage: Stage) {
    && g.invitations.Keys == h.invitations.Keys
    && forall i | i in h.invitations ::
         g.invitations[i] == if id == Some(i) then h.invitations[i].(stage := stage) else h.invitations[i]
  }

  lemma {:induction false} RequestTaken(
    x: Setting, h: Host, s: nat, peer: string, frame: Option<Frame>, now: int, stored: bool)
    requires Waits(h, s, peer) && Acceptable(x, h, peer, frame, now)
    ensures var g, request := HostStep(x, h, HostReceived(s, frame, now, stored)), frame.value.request;
      var id := Some(request.invitationId);
      && g.sessions == h.sessions[s := Session(peer, SigningChallenge, id, id, Some(request), false)]
      && OnlyStage(h, g, id, Pending) && g.registered == h.registered
  {
    AvailableRequest(x, h, s, frame.value, now);
  }

  lemma {:induction false} RequestRefused(
    x: Setting, h: Host, s: nat, peer: string, frame: Option<Frame>, now: int, stored: bool)
    requires Waits(h, s, peer) && !Acceptable(x, h, peer, frame, now)
    ensures var g := HostStep(x, h, HostReceived(s, frame, now, stored));
      && g.sessions[s].phase == Failed(Objection(x, h, peer, frame, now)) && OnlySession(h, g, s)
      && g.sessions[s].request.None? && !g.sessions[s].approved && g.sessions[s].remotePeer == peer
      && OnlyStage(h, g, if Names(h, frame) then Some(frame.value.request.invitationId) else None, Consumed)
      && g.registered == h.registered
  {
    if Names(h, frame) && h.invitations[frame.value.request.invitationId].stage == Available {
      AvailableRequest(x, h, s, frame.value, now);
    }
  }

  /** A waiting session goes on to sign its challenge exactly for an acceptable request, and fails for any other. */
  lemma {:induction false} RequestTakenExactly(
    x: Setting, h: Host, s: nat, peer: string, frame: Option<Frame>, now: int, stored: bool)
    requires Waits(h, s, peer)
    ensures var phase := HostStep(x, h, HostReceived(s, frame, now, stored)).sessions[s].phase;
      && (phase == SigningChallenge <==> Acceptable(x, h, peer, frame, now))
      && (phase == Failed(Objection(x, h, peer, frame, now)) <==> !Acceptable(x, h, peer, frame, now))
  {
    if Acceptable(x, h, peer, frame, now) {
      RequestTaken(x, h, s, peer, frame, now, stored);
    } else {
      RequestRefused(x, h, s, peer, frame, now, stored);
    }
  }

  // ----- the laptop receives a confirmation -----

  /** The session holds a claim on the invitation for this request and waits for its confirmation. */
  predicate AwaitsConfirmation(h: Host, s: nat, id: string, request: Request) {
    && s < |h.sessions| && h.sessions[s].phase == AwaitingConfirmation && h.sessions[s].claim == Some(id)
    && h.sessions[s].found == Some(id) && h.sessions[s].request == Some(request) && id in h.invitations
  }

  /** A confirmation of the transcript of the invitation and the request, signed with the request's key. */
  predicate IsConfirmation(x: Setting, h: Host, id: string, request: Request, frame: Option<Frame>)
    requires id in h.invitations
  {
    && frame.Some? && frame.value.PairConfirm?
    && var transcript := x.hash(h.invitations[id].invitation.fields, request);
       && frame.value.transcript == transcript
       && frame.value.signature == Signature(request.signingKey, DeviceConfirmation(transcript))
  }

  /** A session registers its device exactly when the confirmation is good and the store takes the device. */
  lemma {:induction false} RegistersExactly(
    x: Setting, h: Host, s: nat, id: string, request: Request, frame: Option<Frame>, now: int, stored: bool)
    requires AwaitsConfirmation(h, s, id, request)
    ensures var g := HostStep(x, h, HostReceived(s, frame, now, stored));
      var good := IsConfirmation(x, h, id, request, frame) && stored;
      var transcript := x.hash(h.invitations[id].invitation.fields, request);
      && g.registered == h.registered + (if good then [Registration(s, request, transcript)] else [])
      && g.sessions == h.sessions[s := h.sessions[s].(phase :=
           if good then SigningCompletion
           else if frame.None? || IsConfirmation(x, h, id, request, frame) then Failed(Invalid)
           else Failed(Mismatch))]
      && OnlyStage(h, g, Some(id), Consumed)
  {
    if IsConfirmation(x, h, id, request, frame) && stored { ConfirmedRegisters(x, h, s, frame.value); }
  }

  // ----- the laptop signs and asks -----

  /** A failure leaves the invitation that was looked up consumed. */
  ghost predicate Fails(h: Host, g: Host, s: nat, code: Code)
    requires s < |h.sessions|
  {
    && g.sessions == h.sessions[s := h.sessions[s].(phase := Failed(code))] && g.registered == h.registered
    && OnlyStage(h, g, h.sessions[s].found, Consumed)
  }

  ghost predicate GoesOn(h: Host, g: Host, s: nat, phase: Phase)
    requires s < |h.sessions|
  {
    g == h.(sessions := h.sessions[s := h.sessions[s].(phase := phase)])
  }

  /** Signing and sending succeed or fail; nothing happens in other phases. */
  lemma {:induction false} SigningOutcome(x: Setting, h: Host, s: nat, ok: bool)
    requires s < |h.sessions|
    ensures var g, phase := HostStep(x, h, HostSigned(s, ok)), h.sessions[s].phase;
      if phase != SigningChallenge && phase != SigningCompletion then g == h
      else if !ok then Fails(h, g, s, Invalid)
      else GoesOn(h, g, s, if phase == SigningChallenge then AwaitingApproval else Returned)
  {
  }

  /** The person at the laptop accepts, declines, or cannot be asked. */
  lemma {:induction false} AnswerOutcome(x: Setting, h: Host, s: nat, answer: Option<bool>)
    requires s < |h.sessions|
    ensures var g := HostStep(x, h, HostAnswered(s, answer));
      if h.sessions[s].phase != AwaitingApproval then g == h
      else if answer == Some(true) then
        g == h.(sessions := h.sessions[s := h.sessions[s].(phase := AwaitingConfirmation, approved := true)])
      else Fails(h, g, s, if answer == Some(false) then Declined else Invalid)
  {
  }

  /** What the laptop signs: the challenge with its code, and the completion with the invitation's token. */
  lemma {:induction false} LaptopSigns(x: Setting, w: World, s: nat, id: string, request: Request, ok: bool)
    requires s < |w.host.sessions| && id in w.host.invitations
    requires w.host.sessions[s].claim == Some(id) && w.host.sessions[s].request == Some(request)
    ensures var made := After(x, w, OnHost(HostSigned(s, ok))).made;
      var transcript := x.hash(w.host.invitations[id].invitation.fields, request);
      made == w.made +
        match w.host.sessions[s].phase
        case SigningChallenge => {Signature(x.hostKey, HostChallenge(transcript, x.sas(transcript)))}
        case SigningCompletion =>
          {Signature(x.hostKey, Completion(request.deviceId, transcript, w.host.invitations[id].token))}
        case _ => {}
  {
  }

  // ----- a device -----

  /** A device goes on to show the code exactly for the invited laptop's challenge on its own transcript. */
  lemma {:induction false} ChallengeTakenExactly(x: Setting, d: DeviceRun, frame: Frame)
    requires d.phase == AwaitingChallenge
    ensures var transcript := x.hash(d.invitation.fields, d.request);
      var good := frame == PairChallenge(transcript, x.sas(transcript),
        Signature(d.invitation.fields.hostSigningKey, HostChallenge(transcript, x.sas(transcript))));
      DeviceStep(x, d, frame) == d.(phase := if good then AwaitingCode else Stopped)
  {
  }

  /** A device is paired exactly by the invited laptop's completion for its own id and transcript. */
  lemma {:induction false} PairedExactly(x: Setting, d: DeviceRun, frame: Frame)
    requires d.phase == AwaitingCompletion
    ensures var transcript := x.hash(d.invitation.fields, d.request);
      && (forall token :: DeviceStep(x, d, frame).phase == Paired(token) <==>
            frame == PairComplete(d.request.deviceId, transcript, token,
              Signature(d.invitation.fields.hostSigningKey, Completion(d.request.deviceId, transcript, token))))
      && DeviceStep(x, d, frame) == d.(phase := DeviceStep(x, d, frame).phase)
      && (DeviceStep(x, d, frame).phase.Paired? || DeviceStep(x, d, frame).phase.Stopped?)
  {
  }

  /** An honest device starts exactly before the expiry and over a channel to the invited laptop. */
  lemma {:induction false} StartsExactly(
    x: Setting, w: World, invitation: Invitation, request: Request, remotePeer: string, now: int)
    requires request.signingKey in x.deviceKeys && request.invitationId == invitation.fields.invitationId
    ensures var after := After(x, w, DeviceStarts(invitation, request, remotePeer, now));
      after == w.(devices := w.devices +
        if now < x.timeOf(invitation.fields.expiresAt) && remotePeer == invitation.fields.hostPeer
        then [DeviceRun(invitation, request, SigningRequest, false)] else [])
  {
    assert w.devices + [] == w.devices;
  }

  /** What a device signs: its request, and after an accepted code the confirmation. */
  lemma {:induction false} DeviceSignsExactly(x: Setting, w: World, d: nat)
    requires d < |w.devices|
    ensures var after, run := After(x, w, DeviceSigns(d)), w.devices[d];
      && after.host == w.host
      && after.devices == w.devices[d := run.(phase :=
           match run.phase
           case SigningRequest => AwaitingChallenge
           case SigningConfirmation => AwaitingCompletion
           case other => other)]
      && after.made == w.made +
           match run.phase
           case SigningRequest =>
             {Signature(run.request.signingKey, RequestPayload(run.invitation.fields, run.request))}
           case SigningConfirmation =>
             {Signature(run.request.signingKey, DeviceConfirmation(x.hash(run.invitation.fields, run.request)))}
           case _ => {}
  {
  }

  lemma {:induction false} CodeAnswered(x: Setting, w: World, d: nat, accepted: bool)
    requires d < |w.devices| && w.devices[d].phase == AwaitingCode
    ensures var run := w.devices[d];
      After(x, w, DeviceAnswers(d, accepted)) == w.(devices := w.devices[d :=
        if accepted then run.(phase := SigningConfirmation, accepted := true) else run.(phase := Stopped)])
  {
  }

  // ----- every run -----

  /** The request reached the session in time, from its own peer and signed with its own key. */
  predicate Asked(x: Setting, h: Host, e: Event, s: nat, request: Request) {
    && e.OnHost? && e.event.HostReceived? && e.event.s == s && request.invitationId in h.invitations
    && var fields := h.invitations[request.invitationId].invitation.fields;
       && e.event.frame == Some(PairRequest(request, Signature(request.signingKey, RequestPayload(fields, request))))
       && e.event.now < x.timeOf(fields.expiresAt)
  }

  ghost predicate InTime(x: Setting, events: seq<Event>, s: nat, request: Request) {
    exists k | 0 <= k < |events| :: Asked(x, Run(x, events).host, events[k], s, request)
  }

  /** A session that has not received its request is as it began. */
  ghost predicate Fresh(h: Host) {
    forall s | 0 <= s < |h.sessions| && h.sessions[s].phase.AwaitingRequest? :: Waits(h, s, h.sessions[s].remotePeer)
  }

  ghost predicate AllInTime(x: Setting, events: seq<Event>) {
    var h := Run(x, events).host;
    forall s | 0 <= s < |h.sessions| && h.sessions[s].request.Some? :: InTime(x, events, s, h.sessions[s].request.value)
  }

  lemma {:induction false} SessionSteps(x: Setting, h: Host, e: HostEvent, s: nat)
    requires Fresh(h) && Ordered(h) && Claims(h)
    ensures var g := HostStep(x, h, e);
      && |h.sessions| <= |g.sessions|
      && (s < |g.sessions| && g.sessions[s].phase.AwaitingRequest? ==> Waits(g, s, g.sessions[s].remotePeer))
      && (s < |g.sessions| && g.sessions[s].request.Some? ==>
            || (s < |h.sessions| && h.sessions[s].request == g.sessions[s].request)
            || (s < |h.sessions| && Waits(h, s, h.sessions[s].remotePeer) && e.HostReceived? && e.s == s
                && Acceptable(x, h, h.sessions[s].remotePeer, e.frame, e.now)
                && g.sessions[s].request == Some(e.frame.value.request)))
  {
    if e.HostReceived? && e.s < |h.sessions| && h.sessions[e.s].phase.AwaitingRequest? {
      var peer := h.sessions[e.s].remotePeer;
      if Acceptable(x, h, peer, e.frame, e.now) {
        RequestTaken(x, h, e.s, peer, e.frame, e.now, e.stored);
      } else {
        RequestRefused(x, h, e.s, peer, e.frame, e.now, e.stored);
      }
    } else if e.HostReceived? && e.s < |h.sessions| && h.sessions[e.s].phase == AwaitingConfirmation {
      assert InOrder(h.sessions[e.s]);
      RegistersExactly(x, h, e.s, h.sessions[e.s].claim.value, h.sessions[e.s].request.value, e.frame, e.now, e.stored);
    } else if e.HostSigned? && e.s < |h.sessions| {
      SigningOutcome(x, h, e.s, e.ok);
    } else if e.HostAnswered? && e.s < |h.sessions| {
      AnswerOutcome(x, h, e.s, e.answer);
    }
  }

  lemma {:induction false} StaysInTime(x: Setting, events: seq<Event>, s: nat, request: Request)
    requires events != [] && InTime(x, events[..|events| - 1], s, request)
    requires Continues(Run(x, events[..|events| - 1]).host, Run(x, events).host)
    ensures InTime(x, events, s, request)
  {
    var front := events[..|events| - 1];
    var k :| 0 <= k < |front| && Asked(x, Run(x, front).host, front[k], s, request);
    assert Asked(x, Run(x, events).host, events[k], s, request);
  }

  /** One session after one more event. */
  lemma {:induction false} OneMoreInTime(x: Setting, events: seq<Event>, s: nat)
    requires events != [] && Fresh(Run(x, events[..|events| - 1]).host) && AllInTime(x, events[..|events| - 1])
    requires HostSound(x, Run(x, events[..|events| - 1]).host)
    requires Continues(Run(x, events[..|events| - 1]).host, Run(x, events).host)
    requires s < |Run(x, events).host.sessions|
    requires var e := events[|events| - 1];
      e.OnHost? && Run(x, events).host == HostStep(x, Run(x, events[..|events| - 1]).host, e.event)
    ensures var session := Run(x, events).host.sessions[s];
      && (session.phase.AwaitingRequest? ==> Waits(Run(x, events).host, s, session.remotePeer))
      && (session.request.Some? ==> InTime(x, events, s, session.request.value))
  {
    var front, e := events[..|events| - 1], events[|events| - 1];
    var h, g := Run(x, front).host, Run(x, events).host;
    SessionSteps(x, h, e.event, s);
    if g.sessions[s].request.Some? {
      var request := g.sessions[s].request.value;
      if s < |h.sessions| && h.sessions[s].request == Some(request) {
        StaysInTime(x, events, s, request);
      } else {
        assert Asked(x, g, events[|front|], s, request);
      }
    }
  }

  lemma {:induction false} EveryRunIsInTime(x: Setting, events: seq<Event>)
    ensures Fresh(Run(x, events).host) && AllInTime(x, events)
  {
    hide HostStep, HostSound;
    if events != [] {
      var front, e := events[..|events| - 1], events[|events| - 1];
      var h, g := Run(x, front).host, Run(x, events).host;
      EveryRunIsInTime(x, front);
      EveryRunIsSound(x, front);
      if e.OnHost? && g == HostStep(x, h, e.event) {
        HostStepKeepsSound(x, h, e.event);
        forall s: nat | s < |g.sessions|
          ensures g.sessions[s].phase.AwaitingRequest? ==> Waits(g, s, g.sessions[s].remotePeer)
          ensures g.sessions[s].request.Some? ==> InTime(x, events, s, g.sessions[s].request.value)
        {
          OneMoreInTime(x, events, s);
        }
      } else {
        forall s: nat | s < |h.sessions| && h.sessions[s].request.Some?
          ensures InTime(x, events, s, h.sessions[s].request.value)
        {
          StaysInTime(x, events, s, h.sessions[s].request.value);
        }
      }
    }
  }

  /**
   * In every interleaving, every registration goes back to a request that its session received before the invitation
   * expired, from the peer of the session and signed with the registered key.
   */
  lemma {:induction false} RegisteredInTime(x: Setting, events: seq<Event>, i: nat)
    requires i < |Run(x, events).host.registered|
    ensures var h, r := Run(x, events).host, Run(x, events).host.registered[i];
      && InTime(x, events, r.session, r.request)
      && r.session < |h.sessions| && h.sessions[r.session].remotePeer == r.request.peer
  {
    EveryRunIsSound(x, events);
    EveryRunIsInTime(x, events);
    assert RegisteredBy(Run(x, events).host, Run(x, events).host.registered[i]);
  }
}
