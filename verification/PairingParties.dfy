/** The two sides of pairing as programs: one method for each stretch between two awaits. */
module PairingParties {
  import opened Wrappers
  import opened PairingProtocol
  import opened PairingSafety

  class PairingHost {
    const x: Setting
    var invitations: map<string, Stored>
    var sessions: seq<Session>
    var registered: seq<Registration>

    ghost function State(): Host
      reads this
    {
      Host(invitations, sessions, registered)
    }

    ghost predicate Valid()
      reads this
    {
      HostSound(x, State())
    }

    constructor (x: Setting)
      ensures Valid() && this.x == x && State() == Host(map[], [], [])
    {
      this.x, invitations, sessions, registered := x, map[], [], [];
    }

    /** `invitation` is the freshly made one; its id is new. Lifetime and token length are checked first. */
    method Invite(invitation: Invitation, token: string, lifetimeMs: int) returns (ok: bool)
      requires Valid() && Invitable(x, State(), invitation)
      modifies this
      ensures Valid() && (ok <==> 30_000 <= lifetimeMs <= 10 * 60_000 && 32 <= |token| <= 4096)
      ensures State() == if ok then HostStep(x, old(State()), Invited(invitation, token)) else old(State())
    {
      if lifetimeMs < 30_000 || lifetimeMs > 10 * 60_000 { return false; }
      if |token| < 32 || |token| > 4096 { return false; }
      HostStepKeepsSound(x, State(), Invited(invitation, token));
      invitations := invitations[invitation.fields.invitationId := Stored(invitation, token, Available)];
      return true;
    }

    method Accept(remotePeer: string) returns (s: nat)
      requires Valid()
      modifies this
      ensures Valid() && State() == HostStep(x, old(State()), Accepting(remotePeer))
      ensures s == |old(sessions)| && sessions[s].phase == AwaitingRequest
    {
      HostStepKeepsSound(x, State(), Accepting(remotePeer));
      s := |sessions|;
      sessions := sessions + [Session(remotePeer, AwaitingRequest, None, None, None, false)];
    }

    /** The catch block of accept. */
    method GiveUp(s: nat, code: Code)
      requires s < |sessions|
      modifies this`sessions, this`invitations
      ensures State() == Fail(old(State()), s, code)
    {
      var found := sessions[s].found;
      sessions := sessions[s := sessions[s].(phase := Failed(code))];
      if found.Some? && found.value in invitations {
        invitations := invitations[found.value := invitations[found.value].(stage := Consumed)];
      }
    }

    method CheckRequest(s: nat, frame: Option<Frame>, now: int)
      requires s < |sessions|
      modifies this`sessions, this`invitations
      ensures State() == OnRequest(x, old(State()), s, frame, now)
    {
      if frame.None? || !frame.value.PairRequest? {
        GiveUp(s, Invalid);
        return;
      }
      var first, signature := frame.value.request, frame.value.signature;
      if first.invitationId !in invitations {
        GiveUp(s, Unavailable);
        return;
      }
      var stored := invitations[first.invitationId];
      sessions := sessions[s := sessions[s].(found := Some(first.invitationId))];
      if stored.stage != Available {
        GiveUp(s, Unavailable);
        return;
      }
      sessions := sessions[s := sessions[s].(claim := Some(first.invitationId))];
      invitations := invitations[first.invitationId := stored.(stage := Pending)];
      if x.timeOf(stored.invitation.fields.expiresAt) <= now {
        GiveUp(s, Expired);
      } else if first.peer != sessions[s].remotePeer {
        GiveUp(s, Mismatch);
      } else if signature != Signature(first.signingKey, RequestPayload(stored.invitation.fields, first)) {
        GiveUp(s, Invalid);
      } else {
        sessions := sessions[s := sessions[s].(phase := SigningChallenge, request := Some(first))];
      }
    }

    method CheckConfirmation(s: nat, frame: Option<Frame>, stored: bool)
      requires s < |sessions| && sessions[s].request.Some?
      modifies this
      ensures State() == OnConfirmation(x, old(State()), s, frame, stored)
    {
      var session := sessions[s];
      var first, transcript := session.request.value, Transcript(x, Host(invitations, sessions, registered), s);
      if frame.None? {
        GiveUp(s, Invalid);
      } else if !frame.value.PairConfirm? || frame.value.transcript != transcript
                || frame.value.signature != Signature(first.signingKey, DeviceConfirmation(transcript)) {
        GiveUp(s, Mismatch);
      } else if !stored {
        GiveUp(s, Invalid);
      } else {
        registered := registered + [Registration(s, first, transcript)];
        sessions := sessions[s := session.(phase := SigningCompletion)];
        if session.claim.Some? && session.claim.value in invitations {
          invitations := invitations[session.claim.value := invitations[session.claim.value].(stage := Consumed)];
        }
      }
    }

    /** wire.receive() settles, with a frame or with an error. */
    method Receive(s: nat, frame: Option<Frame>, now: int, stored: bool)
      requires Valid() && s < |sessions|
        && (sessions[s].phase.AwaitingRequest? || sessions[s].phase.AwaitingConfirmation?)
      modifies this
      ensures Valid() && State() == HostStep(x, old(State()), HostReceived(s, frame, now, stored))
    {
      HostStepKeepsSound(x, State(), HostReceived(s, frame, now, stored));
      assert InOrder(sessions[s]);
      if sessions[s].phase == AwaitingRequest {
        CheckRequest(s, frame, now);
      } else {
        CheckConfirmation(s, frame, stored);
      }
    }

    /** sign() settles; `ok` is false when signing or sending fails. */
    method Signed(s: nat, ok: bool)
      requires Valid() && s < |sessions|
        && (sessions[s].phase.SigningChallenge? || sessions[s].phase.SigningCompletion?)
      modifies this
      ensures Valid() && State() == HostStep(x, old(State()), HostSigned(s, ok))
    {
      HostStepKeepsSound(x, State(), HostSigned(s, ok));
      if !ok {
        GiveUp(s, Invalid);
      } else {
        sessions := sessions[s := sessions[s].(
          phase := if sessions[s].phase == SigningChallenge then AwaitingApproval else Returned)];
      }
    }

    /** confirm() settles. */
    method Answered(s: nat, answer: Option<bool>)
      requires Valid() && s < |sessions| && sessions[s].phase.AwaitingApproval?
      modifies this
      ensures Valid() && State() == HostStep(x, old(State()), HostAnswered(s, answer))
    {
      HostStepKeepsSound(x, State(), HostAnswered(s, answer));
      if answer.None? {
        GiveUp(s, Invalid);
      } else if !answer.value {
        GiveUp(s, Declined);
      } else {
        sessions := sessions[s := sessions[s].(phase := AwaitingConfirmation, approved := true)];
      }
    }
  }

  /** One run of pairDevice. */
  class PairingDevice {
    const x: Setting
    const invitation: Invitation
    const request: Request
    var phase: DevicePhase
    var accepted: bool

    ghost function State(): DeviceRun
      reads this
    {
      DeviceRun(invitation, request, phase, accepted)
    }

    constructor (x: Setting, invitation: Invitation, request: Request)
      ensures this.x == x && State() == DeviceRun(invitation, request, SigningRequest, false)
    {
      this.x, this.invitation, this.request, phase, accepted := x, invitation, request, SigningRequest, false;
    }

    /** The device signs and sends. */
    method Signed() returns (signature: Signature)
      requires phase.SigningRequest? || phase.SigningConfirmation?
      modifies this
      ensures State() == OnDeviceSigned(old(State()))
      ensures Some(signature) == DeviceSignature(x, old(State()))
    {
      if phase == SigningRequest {
        signature := Signature(request.signingKey, RequestPayload(invitation.fields, request));
        phase := AwaitingChallenge;
      } else {
        signature := Signature(request.signingKey, DeviceConfirmation(x.hash(invitation.fields, request)));
        phase := AwaitingCompletion;
      }
    }

    method Receive(frame: Frame)
      requires phase.AwaitingChallenge? || phase.AwaitingCompletion?
      modifies this
      ensures State() == DeviceStep(x, old(State()), frame)
    {
      var transcript := x.hash(invitation.fields, request);
      var code := x.sas(transcript);
      if phase == AwaitingChallenge {
        if !frame.PairChallenge? || frame.transcript != transcript || frame.code != code
           || frame.signature != Signature(invitation.fields.hostSigningKey, HostChallenge(transcript, code)) {
          phase := Stopped;
        } else {
          phase := AwaitingCode;
        }
      } else if !frame.PairComplete? || frame.deviceId != request.deviceId || frame.transcript != transcript
                || frame.signature !=
                     Signature(invitation.fields.hostSigningKey,
                       Completion(request.deviceId, transcript, frame.token)) {
        phase := Stopped;
      } else {
        phase := Paired(frame.token);
      }
    }

    method Answered(accept: bool)
      requires phase.AwaitingCode?
      modifies this
      ensures State() == OnCode(old(State()), accept)
    {
      if accept {
        phase, accepted := SigningConfirmation, true;
      } else {
        phase := Stopped;
      }
    }
  }

  /** pairDevice begins: it refuses an expired invitation and a channel to anyone but the invited laptop. */
  method StartDevice(
    x: Setting, invitation: Invitation, input: Request, remotePeer: string, localPeer: string, now: int)
    returns (device: Option<PairingDevice>)
    ensures device.Some? <==> Startable(x, invitation, remotePeer, now)
    ensures device.Some? ==>
      var request := input.(invitationId := invitation.fields.invitationId, peer := localPeer);
      device.value.State() == DeviceRun(invitation, request, SigningRequest, false)
  {
    if x.timeOf(invitation.fields.expiresAt) <= now { return None; }
    if remotePeer != invitation.fields.hostPeer { return None; }
    var run := new PairingDevice(x, invitation,
      input.(invitationId := invitation.fields.invitationId, peer := localPeer));
    return Some(run);
  }
}
