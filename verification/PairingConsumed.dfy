/** What a consumed invitation can still do: register the device of the session that holds the claim on it, if any. */
module PairingConsumed {
  import opened Wrappers
  import opened PairingProtocol
  import opened PairingSafety

  /**
   * A second request for the invitation marks it consumed while the first session holds it, and yet that session goes
   * on to register its device.
   */
  lemma {:induction false} ConsumedInvitationRegisters(
    x: Setting, invitation: Invitation, request: Request, token: string, now: int)
    returns (before: seq<Event>, events: seq<Event>)
    requires Honest(x, invitation, request, now)
    ensures var h := Run(x, before).host;
      && request.invitationId in h.invitations && h.invitations[request.invitationId].stage == Consumed
      && h.registered == []
    ensures Run(x, events).host.registered == [Registration(0, request, x.hash(invitation.fields, request))]
  {
    before := OpeningSucceeds(x, invitation, request, token, now);
    before := Then(x, before, OnHost(Accepting("")));
    before := Then(x, before, OnHost(HostReceived(1, Some(PairRequest(request, Junk)), now, true)));
    var second := Session("", Failed(Unavailable), Some(request.invitationId), None, None, false);
    events := PairingCompletes(x, invitation, request, token, now, Consumed, [second], before);
  }

  /** The session has claimed the invitation and is still under way to a registration. */
  predicate Holds(h: Host, s: nat, id: string) {
    && s < |h.sessions| && h.sessions[s].claim == Some(id)
    && (h.sessions[s].phase.SigningChallenge? || h.sessions[s].phase.AwaitingApproval?
         || h.sessions[s].phase.AwaitingConfirmation?)
  }

  function AfterAll(x: Setting, w: World, events: seq<Event>): World {
    if events == [] then w else After(x, AfterAll(x, w, events[..|events| - 1]), events[|events| - 1])
  }

  /** Between the two states a device was registered for the invitation. */
  ghost predicate RegisteredSince(h: Host, g: Host, id: string) {
    exists i | |h.registered| <= i < |g.registered| :: g.registered[i].request.invitationId == id
  }

  /** A run of an honest device that can still come to confirm this transcript with this key. */
  predicate Willing(x: Setting, w: World, d: nat, key: string, transcript: string) {
    && d < |w.devices| && w.devices[d].request.signingKey == key && DeviceTranscript(x, w.devices[d]) == transcript
    && (w.devices[d].phase.SigningRequest? || w.devices[d].phase.AwaitingChallenge? || w.devices[d].phase.AwaitingCode?
        || w.devices[d].phase.SigningConfirmation?)
  }

  /** The confirmation of the session can be had: its key is no honest one, or it is signed, or it can be signed. */
  ghost predicate MayConfirm(x: Setting, w: World, s: nat) {
    && s < |w.host.sessions| && w.host.sessions[s].request.Some?
    && var key, transcript := w.host.sessions[s].request.value.signingKey, Transcript(x, w.host, s);
       || !HonestKey(x, key) || Signature(key, DeviceConfirmation(transcript)) in w.made
       || exists d :: Willing(x, w, d, key, transcript)
  }

  // ----- what one step of the laptop does to a claim -----

  /** Only a session that holds a claim registers, and then it registers its own request. */
  lemma {:induction false} OnlyHoldersRegister(x: Setting, h: Host, e: HostEvent)
    requires Ordered(h)
    ensures var g := HostStep(x, h, e);
      || g.registered == h.registered
      || (e.HostReceived? && e.s < |h.sessions| && h.sessions[e.s].request.Some?
          && Holds(h, e.s, h.sessions[e.s].request.value.invitationId)
          && Confirms(x, h, e.s, e.frame)
          && g.registered == h.registered + [Registration(e.s, h.sessions[e.s].request.value, Transcript(x, h, e.s))])
  {
    if e.HostReceived? && e.s < |h.sessions| { assert InOrder(h.sessions[e.s]); }
  }

  lemma {:induction false} RequestTakesNone(
    x: Setting, h: Host, sender: nat, frame: Option<Frame>, now: int, s: nat, id: string)
    requires sender < |h.sessions| && h.sessions[sender].phase.AwaitingRequest? && h.sessions[sender].claim.None?
    requires id in h.invitations && h.invitations[id].stage != Available
    requires Holds(OnRequest(x, h, sender, frame, now), s, id)
    ensures Holds(h, s, id)
  {
    if frame.Some? && frame.value.PairRequest? && frame.value.request.invitationId in h.invitations
       && h.invitations[frame.value.request.invitationId].stage == Available {
      AvailableRequest(x, h, sender, frame.value, now);
    }
  }

  lemma {:induction false} ConfirmationTakesNone(
    x: Setting, h: Host, sender: nat, frame: Option<Frame>, stored: bool, s: nat, id: string)
    requires sender < |h.sessions| && h.sessions[sender].request.Some?
      && Holds(OnConfirmation(x, h, sender, frame, stored), s, id)
    ensures Holds(h, s, id)
  {
  }

  /** A claim is taken only while the invitation is available. */
  lemma {:induction false} NoNewHolder(x: Setting, h: Host, e: HostEvent, s: nat, id: string)
    requires Claims(h) && id in h.invitations && h.invitations[id].stage != Available
    requires Holds(HostStep(x, h, e), s, id)
    ensures Holds(h, s, id)
  {
    if e.HostReceived? && e.s < |h.sessions| {
      if h.sessions[e.s].phase == AwaitingRequest {
        RequestTakesNone(x, h, e.s, e.frame, e.now, s, id);
      } else if h.sessions[e.s].phase == AwaitingConfirmation && h.sessions[e.s].request.Some? {
        ConfirmationTakesNone(x, h, e.s, e.frame, e.stored, s, id);
      }
    }
  }

  /** Past its request a session keeps request and claim. */
  lemma {:induction false} SessionKeeps(x: Setting, h: Host, e: HostEvent, s: nat)
    requires s < |h.sessions| && !h.sessions[s].phase.AwaitingRequest?
    ensures var g := HostStep(x, h, e);
      s < |g.sessions| && g.sessions[s].request == h.sessions[s].request && g.sessions[s].claim == h.sessions[s].claim
  {
  }

  lemma {:induction false} SameTranscript(x: Setting, h: Host, g: Host, s: nat)
    requires Continues(h, g) && s < |h.sessions| && h.sessions[s].claim.Some?
      && h.sessions[s].claim.value in h.invitations
    requires g.sessions[s].request == h.sessions[s].request && g.sessions[s].claim == h.sessions[s].claim
    ensures Transcript(x, g, s) == Transcript(x, h, s)
  {
  }

  /** A claim that is held before and after a step is that of the same request and transcript. */
  lemma {:induction false} HolderUnchanged(x: Setting, h: Host, e: HostEvent, s: nat, id: string)
    requires HostSound(x, h) && Holds(h, s, id)
    ensures var g := HostStep(x, h, e);
      && h.sessions[s].request.Some? && s < |g.sessions| && g.sessions[s].request == h.sessions[s].request
      && Transcript(x, g, s) == Transcript(x, h, s)
  {
    HostStepKeepsSound(x, h, e);
    SessionKeeps(x, h, e, s);
    assert InOrder(h.sessions[s]);
    SameTranscript(x, h, HostStep(x, h, e), s);
  }

  // ----- nobody confirms -----

  /** An invitation that is spoken for, and whose claim, if held at all, cannot be confirmed. */
  ghost predicate Abandoned(x: Setting, w: World, id: string) {
    && id in w.host.invitations && w.host.invitations[id].stage != Available
    && forall s :: Holds(w.host, s, id) ==> !MayConfirm(x, w, s)
  }

  /** Only devices sign confirmations, each for its own transcript. */
  lemma {:induction false} ConfirmationSigned(x: Setting, w: World, e: Event, key: string, transcript: string)
    requires Signature(key, DeviceConfirmation(transcript)) in After(x, w, e).made
    requires Signature(key, DeviceConfirmation(transcript)) !in w.made
    ensures e.DeviceSigns? && Willing(x, w, e.d, key, transcript)
  {
  }

  lemma {:induction false} NobodyTurnsWilling(x: Setting, w: World, e: Event, d: nat, key: string, transcript: string)
    requires !e.DeviceStarts? && Willing(x, After(x, w, e), d, key, transcript)
    ensures Willing(x, w, d, key, transcript)
  {
  }

  lemma {:induction false} NoNewConfirmation(x: Setting, w: World, e: Event, s: nat, id: string)
    requires HostSound(x, w.host) && !e.DeviceStarts? && Holds(w.host, s, id)
    requires Holds(After(x, w, e).host, s, id) && MayConfirm(x, After(x, w, e), s)
    ensures MayConfirm(x, w, s)
  {
    var v := After(x, w, e);
    if e.OnHost? && v.host == HostStep(x, w.host, e.event) { HolderUnchanged(x, w.host, e.event, s, id); }
    assert InOrder(w.host.sessions[s]);
    var key, transcript := w.host.sessions[s].request.value.signingKey, Transcript(x, w.host, s);
    if Signature(key, DeviceConfirmation(transcript)) in v.made
      && Signature(key, DeviceConfirmation(transcript)) !in w.made {
      ConfirmationSigned(x, w, e, key, transcript);
    }
    if d :| Willing(x, v, d, key, transcript) { NobodyTurnsWilling(x, w, e, d, key, transcript); }
  }

  /** Only a claim that may be confirmed registers a device. */
  lemma {:induction false} OnlyConfirmedRegister(x: Setting, w: World, e: Event, id: string)
    requires HostSound(x, w.host) && RegisteredSince(w.host, After(x, w, e).host, id)
    ensures exists s :: Holds(w.host, s, id) && MayConfirm(x, w, s)
  {
    OnlyHoldersRegister(x, w.host, e.event);
    assert Holds(w.host, e.event.s, id);
    assert MayConfirm(x, w, e.event.s);
  }

  lemma {:induction false} AbandonedStays(x: Setting, w: World, e: Event, id: string)
    requires HostSound(x, w.host) && Abandoned(x, w, id) && !e.DeviceStarts?
    ensures Abandoned(x, After(x, w, e), id) && !RegisteredSince(w.host, After(x, w, e).host, id)
  {
    var v := After(x, w, e);
    if e.OnHost? { HostStepKeepsSound(x, w.host, e.event); }
    forall s | Holds(v.host, s, id) ensures !MayConfirm(x, v, s) {
      if e.OnHost? && v.host == HostStep(x, w.host, e.event) { NoNewHolder(x, w.host, e.event, s, id); }
      if MayConfirm(x, v, s) { NoNewConfirmation(x, w, e, s, id); }
    }
    if RegisteredSince(w.host, v.host, id) { OnlyConfirmedRegister(x, w, e, id); }
  }

  ghost predicate NoNewRuns(events: seq<Event>) { forall e | e in events :: !e.DeviceStarts? }

  lemma {:induction false} AbandonedForever(x: Setting, w: World, events: seq<Event>, id: string)
    requires Sound(x, w) && Abandoned(x, w, id) && NoNewRuns(events)
    ensures var v := AfterAll(x, w, events);
      && Sound(x, v) && Abandoned(x, v, id) && !RegisteredSince(w.host, v.host, id)
      && |w.host.registered| <= |v.host.registered|
  {
    if events != [] {
      var front, e := events[..|events| - 1], events[|events| - 1];
      AbandonedForever(x, w, front, id);
      var before := AfterAll(x, w, front);
      StepKeepsSound(x, before, e);
      AbandonedStays(x, before, e, id);
      RegistrationsStay(x, before, e);
    }
  }

  lemma {:induction false} RegistrationsStay(x: Setting, w: World, e: Event)
    requires HostSound(x, w.host)
    ensures w.host.registered <= After(x, w, e).host.registered
  {
    if e.OnHost? { HostStepKeepsSound(x, w.host, e.event); }
  }

  // ----- what a held claim is backed by -----

  /** Past its signing, the challenge of a session is among the signatures made. */
  predicate ChallengeMade(x: Setting, w: World, s: nat) {
    && s < |w.host.sessions|
    && (w.host.sessions[s].phase.AwaitingApproval? || w.host.sessions[s].phase.AwaitingConfirmation?) ==>
      var transcript := Transcript(x, w.host, s);
      Signature(x.hostKey, HostChallenge(transcript, x.sas(transcript))) in w.made
  }

  /** A session that holds a claim has the request of a device, honest or not, and not of the laptop itself. */
  predicate Requested(x: Setting, h: Host, s: nat, id: string) {
    Holds(h, s, id) ==>
      && h.sessions[s].request.Some?
      && (HonestKey(x, h.sessions[s].request.value.signingKey) ==>
           h.sessions[s].request.value.signingKey in x.deviceKeys)
  }

  ghost predicate OwnKeys(x: Setting, h: Host) {
    forall id | id in h.invitations :: h.invitations[id].invitation.fields.hostSigningKey == x.hostKey
  }

  ghost predicate RequestsOfDevices(x: Setting, made: set<Signature>) {
    forall m | m in made && m.Signature? && m.payload.RequestPayload? :: m.key in x.deviceKeys
  }

  ghost predicate Backed(x: Setting, w: World) {
    && OwnKeys(x, w.host) && RequestsOfDevices(x, w.made)
    && (forall s: nat :: ChallengeMade(x, w, s)) && (forall s: nat, id: string :: Requested(x, w.host, s, id))
  }

  lemma {:induction false} StepKeepsOwnKeys(x: Setting, w: World, e: Event)
    requires HostSound(x, w.host) && OwnKeys(x, w.host)
    ensures OwnKeys(x, After(x, w, e).host)
  {
    if e.OnHost? { HostStepKeepsOwnKeys(x, w.host, e.event); }
  }

  lemma {:induction false} HostStepKeepsOwnKeys(x: Setting, h: Host, e: HostEvent)
    requires OwnKeys(x, h)
    ensures OwnKeys(x, HostStep(x, h, e))
  {
    hide RequestProblem;
  }

  lemma {:induction false} StepKeepsRequests(x: Setting, w: World, e: Event)
    requires DevicesSound(x, w) && RequestsOfDevices(x, w.made)
    ensures RequestsOfDevices(x, After(x, w, e).made)
  {
    if e.DeviceSigns? && e.d < |w.devices| { assert DeviceSound(x, w, w.devices[e.d]); }
  }

  /** A session waits for its answers only after its challenge was signed. */
  lemma {:induction false} SessionPastChallenge(x: Setting, h: Host, e: HostEvent, s: nat)
    requires s < |HostStep(x, h, e).sessions|
    requires var b := HostStep(x, h, e).sessions[s]; b.phase.AwaitingApproval? || b.phase.AwaitingConfirmation?
    ensures s < |h.sessions|
    ensures var a := h.sessions[s];
      || a.phase.AwaitingApproval? || a.phase.AwaitingConfirmation?
      || (a.phase.SigningChallenge? && e == HostSigned(s, true))
  {
  }

  lemma {:induction false} HostKeepsChallenge(x: Setting, w: World, e: HostEvent, s: nat)
    requires HostSound(x, w.host) && ChallengeMade(x, w, s) && After(x, w, OnHost(e)).host == HostStep(x, w.host, e)
    ensures ChallengeMade(x, After(x, w, OnHost(e)), s)
  {
    var h, v := w.host, After(x, w, OnHost(e));
    if && s < |v.host.sessions|
       && (v.host.sessions[s].phase.AwaitingApproval? || v.host.sessions[s].phase.AwaitingConfirmation?) {
      SessionPastChallenge(x, h, e, s);
      SessionKeeps(x, h, e, s);
      HostStepKeepsSound(x, h, e);
      assert InOrder(h.sessions[s]);
      SameTranscript(x, h, v.host, s);
      MadeStays(x, w, OnHost(e));
    }
  }

  lemma {:induction false} MadeStays(x: Setting, w: World, e: Event)
    ensures w.made <= After(x, w, e).made
    ensures
      && e.OnHost? && e.event.HostSigned? && e.event.s < |w.host.sessions|
      && HostSignature(x, w.host, e.event.s).Some? ==>
        HostSignature(x, w.host, e.event.s).value in After(x, w, e).made
  {
  }

  lemma {:induction false} StepKeepsChallenge(x: Setting, w: World, e: Event, s: nat)
    requires HostSound(x, w.host) && ChallengeMade(x, w, s)
    ensures ChallengeMade(x, After(x, w, e), s)
  {
    if e.OnHost? && After(x, w, e).host == HostStep(x, w.host, e.event) {
      HostKeepsChallenge(x, w, e.event, s);
    } else {
      MadeStays(x, w, e);
    }
  }

  lemma {:induction false} StepKeepsRequested(x: Setting, w: World, e: Event, s: nat, id: string)
    requires HostSound(x, w.host) && RequestsOfDevices(x, w.made) && Requested(x, w.host, s, id)
    ensures Requested(x, After(x, w, e).host, s, id)
  {
    var v := After(x, w, e);
    if e.OnHost? && v.host == HostStep(x, w.host, e.event) && Holds(v.host, s, id) {
      HostStepKeepsSound(x, w.host, e.event);
      if Holds(w.host, s, id) {
        HolderUnchanged(x, w.host, e.event, s, id);
      } else {
        NewHolderAsked(x, w.host, e.event, s, id);
      }
    }
  }

  /** A session that comes to hold a claim was waiting for its request, and this is the step that reads it. */
  lemma {:induction false} HolderWasWaiting(x: Setting, h: Host, e: HostEvent, s: nat, id: string)
    requires !Holds(h, s, id) && Holds(HostStep(x, h, e), s, id)
    ensures e.HostReceived? && e.s == s && s < |h.sessions| && h.sessions[s].phase.AwaitingRequest?
  {
    if s < |h.sessions| && !h.sessions[s].phase.AwaitingRequest? { SessionKeeps(x, h, e, s); }
  }

  /** A claim is taken with a signed request. */
  lemma {:induction false} NewHolderAsked(x: Setting, h: Host, e: HostEvent, s: nat, id: string)
    requires HostSound(x, h) && !Holds(h, s, id) && Holds(HostStep(x, h, e), s, id)
    ensures e.HostReceived? && e.s == s && e.frame.Some? && e.frame.value.PairRequest? && id in h.invitations
    ensures HostStep(x, h, e).sessions[s].request == Some(e.frame.value.request)
    ensures e.frame.value.signature ==
      Signature(e.frame.value.request.signingKey,
        RequestPayload(h.invitations[id].invitation.fields, e.frame.value.request))
  {
    HolderWasWaiting(x, h, e, s, id);
    RequestTaken(x, h, s, e.frame, e.now, id);
  }

  lemma {:induction false} RequestTaken(x: Setting, h: Host, s: nat, frame: Option<Frame>, now: int, id: string)
    requires Claims(h) && s < |h.sessions| && h.sessions[s].phase.AwaitingRequest?
      && Holds(OnRequest(x, h, s, frame, now), s, id)
    ensures frame.Some? && frame.value.PairRequest? && id in h.invitations
    ensures OnRequest(x, h, s, frame, now).sessions[s].request == Some(frame.value.request)
    ensures frame.value.signature ==
      Signature(frame.value.request.signingKey,
        RequestPayload(h.invitations[id].invitation.fields, frame.value.request))
  {
    if frame.Some? && frame.value.PairRequest? && frame.value.request.invitationId in h.invitations
       && h.invitations[frame.value.request.invitationId].stage == Available {
      AvailableRequest(x, h, s, frame.value, now);
    }
  }

  lemma {:induction false} StepKeepsBacked(x: Setting, w: World, e: Event)
    requires Sound(x, w) && Backed(x, w)
    ensures Backed(x, After(x, w, e))
  {
    StepKeepsOwnKeys(x, w, e);
    StepKeepsRequests(x, w, e);
    forall s: nat ensures ChallengeMade(x, After(x, w, e), s) { StepKeepsChallenge(x, w, e, s); }
    forall s: nat, id: string ensures Requested(x, After(x, w, e).host, s, id) { StepKeepsRequested(x, w, e, s, id); }
  }

  lemma {:induction false} EveryRunIsBacked(x: Setting, events: seq<Event>)
    ensures Backed(x, Run(x, events))
  {
    if events != [] {
      EveryRunIsBacked(x, events[..|events| - 1]);
      EveryRunIsSound(x, events[..|events| - 1]);
      StepKeepsBacked(x, Run(x, events[..|events| - 1]), events[|events| - 1]);
    }
  }

  // ----- a claim that may be confirmed registers -----

  lemma {:induction false} Extended(x: Setting, w: World, events: seq<Event>, e: Event) returns (longer: seq<Event>)
    requires Sound(x, AfterAll(x, w, events)) && Backed(x, AfterAll(x, w, events)) && NoNewRuns(events)
    ensures AfterAll(x, w, longer) == After(x, AfterAll(x, w, events), e) && (!e.DeviceStarts? ==> NoNewRuns(longer))
    ensures Sound(x, AfterAll(x, w, longer)) && Backed(x, AfterAll(x, w, longer))
  {
    longer := events + [e];
    assert longer[..|events|] == events;
    StepKeepsSound(x, AfterAll(x, w, events), e);
    StepKeepsBacked(x, AfterAll(x, w, events), e);
  }

  lemma {:induction false} Joined(x: Setting, w: World, a: seq<Event>, b: seq<Event>) returns (both: seq<Event>)
    ensures both == a + b && AfterAll(x, w, both) == AfterAll(x, AfterAll(x, w, a), b)
  {
    both := a + b;
    if b == [] {
      assert both == a;
    } else {
      var front := Joined(x, w, a, b[..|b| - 1]);
      assert both[..|both| - 1] == front && both[|both| - 1] == b[|b| - 1];
    }
  }

  /** The session of the claim waits for the confirmation; devices stand where they stood. */
  ghost predicate Awaits(x: Setting, w: World, v: World, s: nat, id: string) {
    && s < |w.host.sessions| && Holds(v.host, s, id) && v.host.sessions[s].phase.AwaitingConfirmation?
    && v.host.sessions[s].request == w.host.sessions[s].request && Transcript(x, v.host, s) == Transcript(x, w.host, s)
    && v.host.registered == w.host.registered && v.devices == w.devices && w.made <= v.made
  }

  lemma {:induction false} AnsweredAwaits(x: Setting, w: World, s: nat, id: string)
    requires HostSound(x, w.host) && Holds(w.host, s, id) && w.host.sessions[s].phase.AwaitingApproval?
    ensures Awaits(x, w, After(x, w, OnHost(HostAnswered(s, Some(true)))), s, id)
  {
    assert InOrder(w.host.sessions[s]);
  }

  lemma {:induction false} SignedAwaitsApproval(x: Setting, w: World, s: nat, id: string)
    requires HostSound(x, w.host) && Holds(w.host, s, id) && w.host.sessions[s].phase.SigningChallenge?
    ensures var v := After(x, w, OnHost(HostSigned(s, true)));
      && Holds(v.host, s, id) && v.host.sessions[s].phase.AwaitingApproval?
      && v.host.sessions[s].request == w.host.sessions[s].request
      && Transcript(x, v.host, s) == Transcript(x, w.host, s)
      && v.host.registered == w.host.registered && v.devices == w.devices && w.made <= v.made
      && |v.host.sessions| == |w.host.sessions|
  {
    assert InOrder(w.host.sessions[s]);
  }

  lemma {:induction false} HolderAwaits(x: Setting, w: World, s: nat, id: string) returns (events: seq<Event>)
    requires Sound(x, w) && Backed(x, w) && Holds(w.host, s, id)
    ensures NoNewRuns(events) && Awaits(x, w, AfterAll(x, w, events), s, id)
    ensures Sound(x, AfterAll(x, w, events)) && Backed(x, AfterAll(x, w, events))
  {
    events := [];
    if w.host.sessions[s].phase.SigningChallenge? {
      SignedAwaitsApproval(x, w, s, id);
      events := Extended(x, w, events, OnHost(HostSigned(s, true)));
    }
    if !w.host.sessions[s].phase.AwaitingConfirmation? {
      AnsweredAwaits(x, AfterAll(x, w, events), s, id);
      events := Extended(x, w, events, OnHost(HostAnswered(s, Some(true))));
    }
  }

  function Remaining(p: DevicePhase): nat {
    match p
    case SigningRequest => 4
    case AwaitingChallenge => 3
    case AwaitingCode => 2
    case SigningConfirmation => 1
    case _ => 0
  }

  /** What a willing device does next. */
  function NextOf(x: Setting, w: World, d: nat): Event
    requires d < |w.devices|
  {
    var transcript := DeviceTranscript(x, w.devices[d]);
    match w.devices[d].phase
    case AwaitingChallenge =>
      DeviceReceives(d, PairChallenge(transcript, x.sas(transcript),
        Signature(x.hostKey, HostChallenge(transcript, x.sas(transcript)))))
    case AwaitingCode => DeviceAnswers(d, true)
    case _ => DeviceSigns(d)
  }

  /** A challenge the laptop made for the device's own transcript, in the name of the key the device expects. */
  predicate Answerable(x: Setting, w: World, d: nat) {
    && d < |w.devices| && w.devices[d].invitation.fields.hostSigningKey == x.hostKey
    && var transcript := DeviceTranscript(x, w.devices[d]);
       Signature(x.hostKey, HostChallenge(transcript, x.sas(transcript))) in w.made
  }

  lemma {:induction false} WillingGoesOn(x: Setting, w: World, d: nat, key: string, transcript: string)
    requires Willing(x, w, d, key, transcript) && Answerable(x, w, d)
    ensures var v := After(x, w, NextOf(x, w, d));
      && v.host == w.host && |v.devices| == |w.devices|
      && if w.devices[d].phase.SigningConfirmation? then Signature(key, DeviceConfirmation(transcript)) in v.made
         else
           && Willing(x, v, d, key, transcript) && Answerable(x, v, d)
           && Remaining(v.devices[d].phase) < Remaining(w.devices[d].phase)
  {
  }

  /** A willing device that the laptop has challenged comes to sign its confirmation. */
  lemma {:induction false} WillingConfirms(x: Setting, w: World, d: nat, key: string, transcript: string)
    returns (events: seq<Event>)
    requires Sound(x, w) && Backed(x, w) && Willing(x, w, d, key, transcript) && Answerable(x, w, d)
    ensures NoNewRuns(events) && AfterAll(x, w, events).host == w.host
    ensures Signature(key, DeviceConfirmation(transcript)) in AfterAll(x, w, events).made
    decreases Remaining(w.devices[d].phase)
  {
    WillingGoesOn(x, w, d, key, transcript);
    events := Extended(x, w, [], NextOf(x, w, d));
    if !w.devices[d].phase.SigningConfirmation? {
      var rest := WillingConfirms(x, AfterAll(x, w, events), d, key, transcript);
      events := Joined(x, w, events, rest);
    }
  }

  /** A session that waits for a confirmation and gets it registers its device. */
  lemma {:induction false} ConfirmationRegisters(x: Setting, w: World, s: nat, id: string) returns (e: Event)
    requires HostSound(x, w.host) && Holds(w.host, s, id) && w.host.sessions[s].phase.AwaitingConfirmation?
    requires w.host.sessions[s].request.Some?
    requires var key, transcript := w.host.sessions[s].request.value.signingKey, Transcript(x, w.host, s);
      !HonestKey(x, key) || Signature(key, DeviceConfirmation(transcript)) in w.made
    ensures !e.DeviceStarts? && RegisteredSince(w.host, After(x, w, e).host, id)
  {
    var key, transcript := w.host.sessions[s].request.value.signingKey, Transcript(x, w.host, s);
    var frame := PairConfirm(transcript, Signature(key, DeviceConfirmation(transcript)));
    e := OnHost(HostReceived(s, Some(frame), 0, true));
    assert InOrder(w.host.sessions[s]);
    ConfirmedRegisters(x, w.host, s, frame);
    assert After(x, w, e).host == OnConfirmation(x, w.host, s, Some(frame), true);
    assert After(x, w, e).host.registered[|w.host.registered|].request == w.host.sessions[s].request.value;
  }

  /** The confirmation of a session that waits for it gets made. */
  lemma {:induction false} ConfirmationIsHad(x: Setting, w: World, s: nat, id: string) returns (events: seq<Event>)
    requires Injective(x) && Sound(x, w) && Backed(x, w) && MayConfirm(x, w, s)
    requires Holds(w.host, s, id) && w.host.sessions[s].phase.AwaitingConfirmation?
    ensures NoNewRuns(events) && AfterAll(x, w, events).host == w.host
    ensures var key, transcript := w.host.sessions[s].request.value.signingKey, Transcript(x, w.host, s);
      !HonestKey(x, key) || Signature(key, DeviceConfirmation(transcript)) in AfterAll(x, w, events).made
  {
    var key, transcript := w.host.sessions[s].request.value.signingKey, Transcript(x, w.host, s);
    events := [];
    if HonestKey(x, key) && Signature(key, DeviceConfirmation(transcript)) !in w.made {
      var d: nat :| Willing(x, w, d, key, transcript);
      assert ChallengeMade(x, w, s) && InOrder(w.host.sessions[s]);
      assert w.devices[d].invitation.fields == w.host.invitations[id].invitation.fields;
      events := WillingConfirms(x, w, d, key, transcript);
    }
  }

  lemma {:induction false} HolderRegisters(x: Setting, w: World, s: nat, id: string) returns (events: seq<Event>)
    requires Injective(x) && Sound(x, w) && Backed(x, w) && Holds(w.host, s, id) && MayConfirm(x, w, s)
    ensures NoNewRuns(events) && RegisteredSince(w.host, AfterAll(x, w, events).host, id)
  {
    var awaiting := HolderAwaits(x, w, s, id);
    var v := AfterAll(x, w, awaiting);
    StillMayConfirm(x, w, v, s, id);
    var confirming := ConfirmationIsHad(x, v, s, id);
    events := Joined(x, w, awaiting, confirming);
    AfterAllKeeps(x, w, events);
    var e := ConfirmationRegisters(x, AfterAll(x, w, events), s, id);
    events := Extended(x, w, events, e);
  }

  lemma {:induction false} StillMayConfirm(x: Setting, w: World, v: World, s: nat, id: string)
    requires MayConfirm(x, w, s) && Awaits(x, w, v, s, id)
    ensures MayConfirm(x, v, s)
  {
    var key, transcript := w.host.sessions[s].request.value.signingKey, Transcript(x, w.host, s);
    if d :| Willing(x, w, d, key, transcript) { assert Willing(x, v, d, key, transcript); }
  }

  lemma {:induction false} AfterAllKeeps(x: Setting, w: World, events: seq<Event>)
    requires Sound(x, w) && Backed(x, w)
    ensures Sound(x, AfterAll(x, w, events)) && Backed(x, AfterAll(x, w, events))
  {
    if events != [] {
      AfterAllKeeps(x, w, events[..|events| - 1]);
      StepKeepsSound(x, AfterAll(x, w, events[..|events| - 1]), events[|events| - 1]);
      StepKeepsBacked(x, AfterAll(x, w, events[..|events| - 1]), events[|events| - 1]);
    }
  }

  // ----- the two conditions -----

  /** Some continuation of the world registers a device for the invitation; `runs` allows new runs of honest devices. */
  ghost predicate CanRegister(x: Setting, w: World, id: string, runs: bool) {
    exists events: seq<Event> :: (runs || NoNewRuns(events)) && RegisteredSince(w.host, AfterAll(x, w, events).host, id)
  }

  /**
   * In every run, as long as no honest device starts anew: an invitation that is no longer available, marked consumed
   * or not, can still register a device exactly when a session under way holds the claim on it and its confirmation can
   * be had. A session whose honest device declined holds the claim in vain.
   */
  lemma {:induction false} RegistersExactlyIfConfirmable(x: Setting, before: seq<Event>, id: string)
    requires Injective(x) && id in Run(x, before).host.invitations
    requires Run(x, before).host.invitations[id].stage != Available
    ensures var w := Run(x, before);
      CanRegister(x, w, id, false) <==> exists s :: Holds(w.host, s, id) && MayConfirm(x, w, s)
  {
    var w := Run(x, before);
    EveryRunIsSound(x, before);
    EveryRunIsBacked(x, before);
    if exists s :: Holds(w.host, s, id) && MayConfirm(x, w, s) {
      var s :| Holds(w.host, s, id) && MayConfirm(x, w, s);
      var events := HolderRegisters(x, w, s, id);
    } else {
      forall events | NoNewRuns(events) ensures !RegisteredSince(w.host, AfterAll(x, w, events).host, id) {
        AbandonedForever(x, w, events, id);
      }
    }
  }

  /** An honest device can start again with the same invitation and request, and is willing then. */
  lemma {:induction false} NewRunIsWilling(x: Setting, w: World, s: nat, id: string) returns (e: Event)
    requires Sound(x, w) && Backed(x, w) && Holds(w.host, s, id)
    ensures var v := After(x, w, e); v.host == w.host && MayConfirm(x, v, s)
  {
    assert InOrder(w.host.sessions[s]) && Requested(x, w.host, s, id);
    var invitation, request := w.host.invitations[id].invitation, w.host.sessions[s].request.value;
    if request.signingKey in x.deviceKeys {
      e := DeviceStarts(invitation, request, invitation.fields.hostPeer, x.timeOf(invitation.fields.expiresAt) - 1);
      assert Willing(x, After(x, w, e), |w.devices|, request.signingKey, Transcript(x, w.host, s));
    } else {
      e := SignsElsewhere("", "");
    }
  }

  /** No session holds the claim, in whatever way devices start. */
  lemma {:induction false} UnheldForever(x: Setting, w: World, events: seq<Event>, id: string)
    requires Sound(x, w) && id in w.host.invitations && w.host.invitations[id].stage != Available
    requires forall s :: !Holds(w.host, s, id)
    ensures var v := AfterAll(x, w, events);
      && Sound(x, v) && id in v.host.invitations && v.host.invitations[id].stage != Available
      && (forall s :: !Holds(v.host, s, id)) && !RegisteredSince(w.host, v.host, id)
      && |w.host.registered| <= |v.host.registered|
  {
    if events != [] {
      var front, e := events[..|events| - 1], events[|events| - 1];
      UnheldForever(x, w, front, id);
      var before := AfterAll(x, w, front);
      StepKeepsSound(x, before, e);
      UnheldStays(x, before, e, id);
      RegistrationsStay(x, before, e);
    }
  }

  lemma {:induction false} UnheldStays(x: Setting, w: World, e: Event, id: string)
    requires HostSound(x, w.host) && id in w.host.invitations && w.host.invitations[id].stage != Available
    requires forall s :: !Holds(w.host, s, id)
    ensures var v := After(x, w, e);
      && id in v.host.invitations && v.host.invitations[id].stage != Available
      && (forall s :: !Holds(v.host, s, id)) && !RegisteredSince(w.host, v.host, id)
  {
    var v := After(x, w, e);
    if e.OnHost? { HostStepKeepsSound(x, w.host, e.event); }
    forall s ensures !Holds(v.host, s, id) {
      if e.OnHost? && v.host == HostStep(x, w.host, e.event) && Holds(v.host, s, id) {
        NoNewHolder(x, w.host, e.event, s, id);
      }
    }
    if RegisteredSince(w.host, v.host, id) { OnlyConfirmedRegister(x, w, e, id); }
  }

  /** In every run, when honest devices may start again: exactly when a session under way holds the claim on it. */
  lemma {:induction false} RegistersExactlyIfHeld(x: Setting, before: seq<Event>, id: string)
    requires Injective(x) && id in Run(x, before).host.invitations
    requires Run(x, before).host.invitations[id].stage != Available
    ensures var w := Run(x, before); CanRegister(x, w, id, true) <==> exists s :: Holds(w.host, s, id)
  {
    var w := Run(x, before);
    EveryRunIsSound(x, before);
    EveryRunIsBacked(x, before);
    if exists s :: Holds(w.host, s, id) {
      var s :| Holds(w.host, s, id);
      var e := NewRunIsWilling(x, w, s, id);
      var started := Extended(x, w, [], e);
      var v := AfterAll(x, w, started);
      var registering := HolderRegisters(x, v, s, id);
      var events := Joined(x, w, started, registering);
    } else {
      forall events: seq<Event> ensures !RegisteredSince(w.host, AfterAll(x, w, events).host, id) {
        UnheldForever(x, w, events, id);
      }
    }
  }

  lemma {:induction false} UnacceptedIsUnconfirmed(x: Setting, w: World, key: string, transcript: string)
    requires AllEarned(x, w) && forall d | 0 <= d < |w.devices| :: !w.devices[d].accepted
    ensures Signature(key, DeviceConfirmation(transcript)) !in w.made
  {
  }

  lemma {:induction false} CodeDeclined(x: Setting, invitation: Invitation, request: Request, token: string, now: int)
    returns (events: seq<Event>)
    requires Honest(x, invitation, request, now)
    ensures Scene(Run(x, events), invitation, request, token, Pending, AwaitingApproval, false, Stopped, false, [])
  {
    var transcript := x.hash(invitation.fields, request);
    var challenged := Signature(x.hostKey, HostChallenge(transcript, x.sas(transcript)));
    events := OpeningSucceeds(x, invitation, request, token, now);
    events := Then(x, events, OnHost(HostSigned(0, true)));
    events := Then(x, events, DeviceReceives(0, PairChallenge(transcript, x.sas(transcript), challenged)));
    events := Then(x, events, DeviceAnswers(0, false));
  }

  /** A run in which the device declines the code: its session holds the claim, and nothing can confirm it. */
  lemma {:induction false} DeclinedHoldsInVain(
    x: Setting, invitation: Invitation, request: Request, token: string, now: int) returns (events: seq<Event>)
    requires Honest(x, invitation, request, now)
    ensures var w := Run(x, events); Holds(w.host, 0, request.invitationId) && !MayConfirm(x, w, 0)
  {
    events := CodeDeclined(x, invitation, request, token, now);
    EveryRunIsSound(x, events);
    UnacceptedIsUnconfirmed(x, Run(x, events), request.signingKey, Transcript(x, Run(x, events).host, 0));
  }
}
