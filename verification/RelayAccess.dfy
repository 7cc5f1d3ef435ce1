/** Access tokens of relay routes: they buy tickets until the route is revoked, which only its host can do. */
module RelayAccess {
  import opened Wrappers
  import opened RelayTickets
  import TicketBudget

  datatype Access = Access(routingId: string, role: Role, expiresAt: int, tokenId: string)

  datatype AccessError =
    | MalformedToken | BadSignature | BadPayload | TokenExpired | RouteRevoked
    | CapacityReached | RateReached | NotTheHost | StoreFailed

  /** What happened to routes, in order. */
  datatype Happening = Issued(routingId: string, role: Role, tokenId: string) | Revoked(routingId: string)

  /** After its revocation a route gets no ticket. */
  ghost predicate RevocationHolds(happened: seq<Happening>) {
    forall i, j | 0 <= i < j < |happened| && happened[i].Revoked? && happened[j].Issued? ::
      happened[i].routingId != happened[j].routingId
  }

  ghost predicate WasRevoked(happened: seq<Happening>, id: string) {
    exists i | 0 <= i < |happened| :: happened[i] == Revoked(id)
  }

  lemma {:induction false} OneMoreHappening(happened: seq<Happening>, h: Happening, id: string)
    ensures WasRevoked(happened + [h], id) <==> WasRevoked(happened, id) || h == Revoked(id)
  {
    var after := happened + [h];
    if WasRevoked(happened, id) {
      var i :| 0 <= i < |happened| && happened[i] == Revoked(id);
      assert after[i] == Revoked(id);
    }
    assert after[|happened|] == h;
  }

  class RelayAccessAuthority {
    const verifies: (string, string) -> bool     // the current key or one of the legacy ones
    const read: string -> Option<Access>         // base64url, JSON and shape of the payload
    const budget: TicketBudget.Budget
    var revokedRoutes: set<string>
    ghost var happened: seq<Happening>

    ghost predicate Valid()
      reads this, budget
    {
      && budget.Valid() && RevocationHolds(happened)
      && (forall id :: id in revokedRoutes <==> WasRevoked(happened, id))
    }

    constructor (verifies: (string, string) -> bool, read: string -> Option<Access>, now: int)
      ensures Valid() && fresh(budget) && this.verifies == verifies && this.read == read
      ensures revokedRoutes == {} && happened == []
    {
      this.verifies, this.read := verifies, read;
      budget := new TicketBudget.Budget(now);
      revokedRoutes, happened := {}, [];
    }

    function VerifyAccess(token: string, allowRevoked: bool, now: int): Result<Access, AccessError>
      reads this
    {
      var parts := Parts(token);
      if |parts| != 2 then Err(MalformedToken)
      else if !verifies(parts[0], parts[1]) then Err(BadSignature)
      else
        match read(parts[0])
        case None => Err(BadPayload)
        case Some(a) =>
          if a.expiresAt <= now then Err(TokenExpired)
          else if !allowRevoked && a.routingId in revokedRoutes then Err(RouteRevoked)
          else Ok(a)
    }

    /** A token passes exactly when it is one signed text followed by its signature, in time, and its route stands. */
    lemma {:induction false} TokenPasses(token: string, allowRevoked: bool, now: int, a: Access)
      ensures VerifyAccess(token, allowRevoked, now) == Ok(a) <==>
        && Authentic(verifies, read, token, a) && now < a.expiresAt && (allowRevoked || a.routingId !in revokedRoutes)
    {
      PartsRejoin(token);
      var parts := Parts(token);
      if |parts| == 2 {
        assert token == parts[0] + "." + parts[1];
      }
      forall encoded, signature | '.' !in encoded && '.' !in signature && token == encoded + "." + signature
        ensures parts == [encoded, signature]
      {
        OneStop(encoded, signature);
      }
    }

    /** Why a token does not pass: its form, its signature, its payload, its age, or its route. */
    lemma {:induction false} TokenRefused(token: string, allowRevoked: bool, now: int)
      ensures VerifyAccess(token, allowRevoked, now) == Err(MalformedToken) <==>
        !exists encoded, signature :: '.' !in encoded && '.' !in signature && token == encoded + "." + signature
      ensures forall encoded, signature |
        '.' !in encoded && '.' !in signature && token == encoded + "." + signature ::
        var r, a := VerifyAccess(token, allowRevoked, now), read(encoded);
        && (r == Err(BadSignature) <==> !verifies(encoded, signature))
        && (r == Err(BadPayload) <==> verifies(encoded, signature) && a.None?)
        && (r == Err(TokenExpired) <==> verifies(encoded, signature) && a.Some? && a.value.expiresAt <= now)
        && (r == Err(RouteRevoked) <==>
              && verifies(encoded, signature) && a.Some? && now < a.value.expiresAt
              && !allowRevoked && a.value.routingId in revokedRoutes)
    {
      PartsRejoin(token);
      var parts := Parts(token);
      if |parts| == 2 { assert token == parts[0] + "." + parts[1]; }
      forall encoded, signature | '.' !in encoded && '.' !in signature && token == encoded + "." + signature
        ensures parts == [encoded, signature]
      {
        OneStop(encoded, signature);
      }
    }

    /** Sells a ticket to a live token of a standing route, within its budget. */
    method IssueTicket(token: string, now: int, later: int) returns (r: Result<(string, Role), AccessError>)
      requires Valid()
      modifies this`happened, budget
      ensures Valid()
      ensures
        match old(VerifyAccess(token, false, now))
        case Err(e) => r == Err(e) && happened == old(happened) && unchanged(budget)
        case Ok(a) =>
          && (r == Err(CapacityReached) <==> old(budget.Full(a.tokenId, later)))
          && (r == Err(RateReached) <==> old(budget.UsedUp(a.tokenId, later)))
          && (r == Ok((a.routingId, a.role)) <==>
                !old(budget.Full(a.tokenId, later)) && !old(budget.UsedUp(a.tokenId, later)))
          && happened == old(happened) + (if r.Ok? then [Issued(a.routingId, a.role, a.tokenId)] else [])
          && budget.ticketBuckets ==
               TicketBudget.AfterCharge(old(budget.ticketBuckets), later, a.tokenId, r == Err(CapacityReached))
          && |budget.history| == |old(budget.history)| + (if r.Ok? then 1 else 0)
          && old(budget.history) <= budget.history
          && (r.Ok? ==> budget.history[|old(budget.history)|].key == a.tokenId)
    {
      var verified := VerifyAccess(token, false, now);
      if verified.Err? { return Err(verified.error); }
      var a := verified.value;
      var denied := budget.Consume(a.tokenId, later);
      if denied.Some? { return Err(if denied.value.RateExceeded? then RateReached else CapacityReached); }
      ghost var issued := Issued(a.routingId, a.role, a.tokenId);
      forall id ensures WasRevoked(happened + [issued], id) <==> WasRevoked(happened, id) {
        OneMoreHappening(happened, issued, id);
      }
      happened := happened + [issued];
      return Ok((a.routingId, a.role));
    }

    /** The matching host token revokes its route, also when that was done before. */
    method RevokeRoute(token: string, expectedRoutingId: string, now: int, stored: bool)
      returns (r: Result<(), AccessError>)
      requires Valid()
      modifies this`happened, this`revokedRoutes
      ensures Valid()
      ensures r.Ok? <==>
        && old(VerifyAccess(token, true, now)).Ok? && stored
        && old(VerifyAccess(token, true, now)).value.role == Host
        && old(VerifyAccess(token, true, now)).value.routingId == expectedRoutingId
      ensures r.Err? ==>
        match old(VerifyAccess(token, true, now))
        case Err(e) => r.error == e
        case Ok(a) => r.error == if a.role == Host && a.routingId == expectedRoutingId then StoreFailed else NotTheHost
      ensures revokedRoutes == old(revokedRoutes) + if r.Ok? then {expectedRoutingId} else {}
      ensures happened == old(happened) + if r.Ok? then [Revoked(expectedRoutingId)] else []
    {
      var verified := VerifyAccess(token, true, now);
      if verified.Err? { return Err(verified.error); }
      var a := verified.value;
      if a.role != Host || a.routingId != expectedRoutingId { return Err(NotTheHost); }
      if !stored { return Err(StoreFailed); }
      ghost var revoked := Revoked(a.routingId);
      forall id ensures WasRevoked(happened + [revoked], id) <==> WasRevoked(happened, id) || id == a.routingId {
        OneMoreHappening(happened, revoked, id);
      }
      revokedRoutes := revokedRoutes + {a.routingId};
      happened := happened + [revoked];
      return Ok(());
    }
  }
}
