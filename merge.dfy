/**
  The decision made by UmaPctService.updateClaims, as a function of its inputs: which record
  survives and which claim set it carries. The method in Service is proved to return exactly
  this record; the lemmas below state what the record is in each of the four cases.
*/
module ClaimsMerge {
  import opened Wrappers
  import opened Claims
  import opened Records

  /**
    The working record once claims are merged. `current` is the caller's token, `ticket` the one
    found from the first permission, `created` the record that would be created when both are
    null, and `idClaims` the ID token's claims (null when it has none).
    The claim set that is merged into is the current token's when there is one: the ticket's
    claims are copied into it, and then the ticket record takes it over.
  */
  function WorkingRecord(current: Option<Pct>, ticket: Option<Pct>, created: Pct,
                         idClaims: Option<ClaimSet>, combine: Combine): Pct
  {
    var base := if current.Some? then current.value else if ticket.Some? then ticket.value else created;
    var both := current.Some? && ticket.Some?;
    var claims1 := if both then Overlay(current.value.claims, ticket.value.claims, combine) else base.claims;
    var claims2 := if idClaims.Some? then Overlay(claims1, idClaims.value, combine) else claims1;
    var survivor := if both then ticket.value else base;
    survivor.(claims := claims2)
  }

  /** The claim set the ID token contributes: none when it is null. */
  function IdKeys(idClaims: Option<ClaimSet>): set<string>
  {
    if idClaims.Some? then idClaims.value.Keys else {}
  }

  /**
    No current token, a ticket token found: the result is the ticket record itself (same code,
    DN, client and expiration), with its own claims and the ID token's set on top.
  */
  lemma NoCurrentWithTicket(ticket: Pct, created: Pct, idClaims: Option<ClaimSet>, combine: Combine)
    ensures var w := WorkingRecord(None, Some(ticket), created, idClaims, combine);
      && w == ticket.(claims := w.claims)
      && w.claims == (if idClaims.Some? then Overlay(ticket.claims, idClaims.value, combine) else ticket.claims)
  {
  }

  /** No current token and no ID claims: the ticket record comes back unchanged. */
  lemma NoCurrentTicketOnly(ticket: Pct, created: Pct, combine: Combine)
    ensures WorkingRecord(None, Some(ticket), created, None, combine) == ticket
  {
  }

  /**
    Both a current and a ticket token: the record that survives is the ticket's (its code, DN,
    client and expiration), its claim keys are the union of the three sources, a key found only
    in the current token keeps the current token's value, and a ticket key the ID token does not
    set holds the ticket value combined into the current token's. The ticket's claims are
    copied first and the ID token's second, so an ID claim is combined with the merged value.
  */
  lemma CurrentAndTicket(current: Pct, ticket: Pct, created: Pct, idClaims: Option<ClaimSet>, combine: Combine)
    ensures var w := WorkingRecord(Some(current), Some(ticket), created, idClaims, combine);
      && w == ticket.(claims := w.claims)
      && w.claims.Keys == current.claims.Keys + ticket.claims.Keys + IdKeys(idClaims)
      && (forall k :: k in current.claims && k !in ticket.claims && k !in IdKeys(idClaims) ==>
            w.claims[k] == current.claims[k])
      && (forall k :: k in ticket.claims && k !in IdKeys(idClaims) ==>
            w.claims[k] == combine(Get(current.claims, k), ticket.claims[k]))
      && (forall k :: k in IdKeys(idClaims) ==>
            w.claims[k] == combine(Get(Overlay(current.claims, ticket.claims, combine), k), idClaims.value[k]))
      && w.claims == (var c1 := Overlay(current.claims, ticket.claims, combine);
                      if idClaims.Some? then Overlay(c1, idClaims.value, combine) else c1)
  {
  }

  /** A current token and no ticket token: the current record survives with the ID claims set on it. */
  lemma CurrentWithoutTicket(current: Pct, created: Pct, idClaims: Option<ClaimSet>, combine: Combine)
    ensures var w := WorkingRecord(Some(current), None, created, idClaims, combine);
      && w == current.(claims := w.claims)
      && w.claims == (if idClaims.Some? then Overlay(current.claims, idClaims.value, combine) else current.claims)
  {
  }

  /**
    Neither token: the created record survives, and under replacement its claims are exactly the
    ID token's (none when there is no ID token).
  */
  lemma NeitherToken(created: Pct, idClaims: Option<ClaimSet>)
    requires created.claims == map[]
    ensures var w := WorkingRecord(None, None, created, idClaims, Replace);
      && w == created.(claims := w.claims)
      && w.claims == (if idClaims.Some? then idClaims.value else map[])
  {
  }

  /**
    Claims are never dropped and the expiration is never extended: every claim of every source
    that takes part is in the result, and the expiration is that of the surviving record.
  */
  lemma KeepsEveryClaim(current: Option<Pct>, ticket: Option<Pct>, created: Pct,
                        idClaims: Option<ClaimSet>, combine: Combine)
    ensures var w := WorkingRecord(current, ticket, created, idClaims, combine);
      && IdKeys(idClaims) <= w.claims.Keys
      && (current.Some? ==> current.value.claims.Keys <= w.claims.Keys)
      && (ticket.Some? ==> ticket.value.claims.Keys <= w.claims.Keys)
      && (current.None? && ticket.None? ==> created.claims.Keys <= w.claims.Keys)
      && w.expiration == (if ticket.Some? then ticket.value else if current.Some? then current.value else created).expiration
  {
  }

  /**
    Current token T1 with `{x:1}` and ticket token P1 with `{x:2, y:9}`, no ID token, wholesale
    replacement: the result is P1 with `{x:2, y:9}`, because the ticket's claims are copied
    into T1's claim set and so overwrite `x`.
  */
  lemma IdentityTransferExample(t: Pct, p: Pct, created: Pct)
    requires t.code == "T1" && t.claims == map["x" := Number(1)]
    requires p.code == "P1" && p.claims == map["x" := Number(2), "y" := Number(9)]
    ensures var w := WorkingRecord(Some(t), Some(p), created, None, Replace);
      && w.code == "P1"
      && w.claims == map["x" := Number(2), "y" := Number(9)]
  {
  }
}
