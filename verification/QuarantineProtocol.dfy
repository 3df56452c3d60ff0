/** The quarantine as a state machine over its durable records. */
module QuarantineProtocol {
  // Which write each operation may make, what every reachable state satisfies, and what a resumed
  // operation ends with.

  import opened QuarantineRecords
  import opened Results

  /** The records bound to their names, and the external audit ledger. */
  datatype Logical = Logical(
    marker: Option<Marker>, claims: imap<Digest, Option<Claim>>, grants: imap<GrantId, Files>,
    ledger: seq<Audit>)

  ghost predicate Defined(l: Logical) {
    (forall d: Digest :: d in l.claims) && (forall g: GrantId :: g in l.grants)
  }

  datatype Step =
    | Reserve | PublishMarker | PublishReceipt | PublishTerminal | PublishClaim | RemoveMarker
    | PublishAudit | AppendAudit | PublishAck

  predicate ValidPayload(payload: Payload) {
    0 < payload.expiresAt - payload.issuedAt <= GRANT_TTL_MS
  }

  function Full(reservation: Reservation): Files {
    AllFiles(reservation, reservation.reservedAt, reservation.reservedAt)
  }

  function Count(files: Files): nat {
    if files.ack.Some? then 5 else if files.audit.Some? then 4 else if files.terminal.Some? then 3
    else if files.receipt.Some? then 2 else if files.reservation.Some? then 1 else 0
  }

  function ClaimBy(reservation: Reservation): Claim
    requires reservation.envelope.payload.ReleaseGrant?
  {
    CreateClaim(reservation.envelope.payload, OfEnvelope(reservation.envelope), reservation.reservedAt)
  }

  predicate Active(l: Logical, d: Digest) {
    l.marker.Some? && OfMarker(l.marker.value) == d
  }

  /** The enter grant that made the marker is consumed. */
  predicate EnterConsumed(l: Logical, d: Digest) {
    d.OfMarker? && d.marker.enterGrant in l.grants && l.grants[d.marker.enterGrant].terminal.Some?
  }

  /** The grant is reserved, by this very envelope. */
  predicate Held(l: Logical, envelope: Envelope) {
    var g := GrantId(envelope.payload);
    g in l.grants && l.grants[g].reservation.Some? && l.grants[g].reservation.value.envelope == envelope
  }

  predicate OwnsClaim(l: Logical, envelope: Envelope)
    requires Held(l, envelope)
  {
    && envelope.payload.ReleaseGrant?
    && envelope.payload.activeMarker in l.claims
    && l.claims[envelope.payload.activeMarker]
       == Some(ClaimBy(l.grants[GrantId(envelope.payload)].reservation.value))
  }

  /** An operation may make its grant's next effect records: an enter once its marker is active, a
      release once it holds the claim on an active marker whose enter grant is consumed. */
  predicate Effective(l: Logical, envelope: Envelope)
    requires Held(l, envelope)
  {
    Active(l, MarkerDigestOf(envelope)) &&
    (envelope.payload.ReleaseGrant? ==>
       OwnsClaim(l, envelope) && EnterConsumed(l, envelope.payload.activeMarker))
  }

  predicate Allowed(l: Logical, step: Step, envelope: Envelope, now: int) {
    var payload := envelope.payload;
    var g := GrantId(payload);
    && g in l.grants
    && var files := l.grants[g];
       match step
       case Reserve =>
         files == NO_FILES && ValidPayload(payload) && WithinWindow(payload, now)
         && (payload.ReleaseGrant? ==> Active(l, payload.activeMarker))
       case PublishMarker =>
         payload.EnterGrant? && Held(l, envelope) && files.terminal.None? && l.marker.None?
       case PublishReceipt => Held(l, envelope) && Count(files) == 1 && Effective(l, envelope)
       case PublishTerminal => Held(l, envelope) && Count(files) == 2 && Effective(l, envelope)
       case PublishClaim =>
         payload.ReleaseGrant? && Held(l, envelope) && files.ack.None?
         && payload.activeMarker in l.claims && l.claims[payload.activeMarker].None?
       case RemoveMarker =>
         payload.ReleaseGrant? && Held(l, envelope) && files.terminal.Some? && files.ack.None?
         && OwnsClaim(l, envelope) && Active(l, payload.activeMarker)
       case PublishAudit =>
         Held(l, envelope) && Count(files) == 3
         && (payload.ReleaseGrant? ==> !Active(l, payload.activeMarker))
       case AppendAudit => Held(l, envelope) && Count(files) == 4
       case PublishAck => Held(l, envelope) && Count(files) == 4 && files.audit.value in l.ledger
  }

  ghost function Apply(l: Logical, step: Step, envelope: Envelope, now: int): Logical
    requires Allowed(l, step, envelope, now)
  {
    var g := GrantId(envelope.payload);
    var files := l.grants[g];
    match step
    case Reserve =>
      l.(grants := l.grants[g := FirstFiles(Full(Reservation(envelope, now)), 1)])
    case PublishMarker =>
      l.(marker := Some(CreateMarker(envelope.payload, OfEnvelope(envelope))))
    case PublishReceipt =>
      l.(grants := l.grants[g := FirstFiles(Full(files.reservation.value), 2)])
    case PublishTerminal =>
      l.(grants := l.grants[g := FirstFiles(Full(files.reservation.value), 3)])
    case PublishClaim =>
      l.(claims := l.claims[envelope.payload.activeMarker := Some(ClaimBy(files.reservation.value))])
    case RemoveMarker => l.(marker := None)
    case PublishAudit =>
      l.(grants := l.grants[g := FirstFiles(Full(files.reservation.value), 4)])
    case AppendAudit => l.(ledger := l.ledger + [files.audit.value])
    case PublishAck =>
      l.(grants := l.grants[g := Full(files.reservation.value)])
  }

  // ----- the invariant

  /** A grant's files are a prefix of what its reservation determines, and its effects agree with
      the marker and the claim. */
  ghost predicate GrantOk(l: Logical, g: GrantId)
    requires Defined(l)
  {
    var files := l.grants[g];
    files != NO_FILES ==>
      && files.reservation.Some?
      && var reservation := files.reservation.value;
         var payload, d := reservation.envelope.payload, MarkerDigestOf(reservation.envelope);
         && GrantId(payload) == g
         && ValidPayload(payload) && WithinWindow(payload, reservation.reservedAt)
         && files == FirstFiles(Full(reservation), Count(files))
         && (Count(files) == 2 ==> Active(l, d))
         && (files.ack.Some? ==> files.audit.value in l.ledger)
         && (payload.ReleaseGrant? ==>
               && (2 <= Count(files) ==> OwnsClaim(l, reservation.envelope) && EnterConsumed(l, d))
               && (4 <= Count(files) ==> !Active(l, d)))
  }

  ghost predicate ClaimOk(l: Logical, d: Digest)
    requires Defined(l)
  {
    l.claims[d].Some? ==>
      var claim := l.claims[d].value;
      && claim.marker == d
      && l.grants[claim.releaseGrant].reservation.Some?
      && var reservation := l.grants[claim.releaseGrant].reservation.value;
         && GrantId(reservation.envelope.payload) == claim.releaseGrant
         && reservation.envelope.payload.ReleaseGrant?
         && reservation.envelope.payload.activeMarker == d
         && claim == ClaimBy(reservation)
  }

  ghost predicate MarkerOk(l: Logical)
    requires Defined(l)
  {
    l.marker.Some? ==>
      var marker := l.marker.value;
      && l.grants[marker.enterGrant].reservation.Some?
      && var envelope := l.grants[marker.enterGrant].reservation.value.envelope;
         && GrantId(envelope.payload) == marker.enterGrant
         && envelope.payload.EnterGrant?
         && marker == CreateMarker(envelope.payload, OfEnvelope(envelope))
  }

  ghost predicate LedgerOk(l: Logical)
    requires Defined(l)
  {
    forall i :: 0 <= i < |l.ledger| ==> l.grants[l.ledger[i].grant].audit == Some(l.ledger[i])
  }

  ghost predicate Inv(l: Logical) {
    && Defined(l)
    && (forall g: GrantId :: GrantOk(l, g))
    && (forall d: Digest :: ClaimOk(l, d))
    && MarkerOk(l)
    && LedgerOk(l)
  }

  lemma MarkerStepsKeepInv(l: Logical, step: Step, envelope: Envelope, now: int)
    requires Inv(l) && Allowed(l, step, envelope, now)
    requires step.PublishMarker? || step.RemoveMarker?
    ensures Inv(Apply(l, step, envelope, now))
  {
    var m := Apply(l, step, envelope, now);
    assert GrantOk(l, GrantId(envelope.payload));
    forall d: Digest ensures ClaimOk(m, d) {
      assert ClaimOk(l, d);
    }
    forall g: GrantId ensures GrantOk(m, g) {
      assert GrantOk(l, g);
      assert ClaimOk(l, MarkerDigestOf(envelope));
    }
  }

  lemma LedgerStepKeepsInv(l: Logical, envelope: Envelope, now: int)
    requires Inv(l) && Allowed(l, AppendAudit, envelope, now)
    ensures Inv(Apply(l, AppendAudit, envelope, now))
  {
    var m := Apply(l, AppendAudit, envelope, now);
    assert GrantOk(l, GrantId(envelope.payload));
    forall d: Digest ensures ClaimOk(m, d) {
      assert ClaimOk(l, d);
    }
    forall g: GrantId ensures GrantOk(m, g) {
      assert GrantOk(l, g);
    }
  }

  lemma ClaimStepKeepsInv(l: Logical, envelope: Envelope, now: int)
    requires Inv(l) && Allowed(l, PublishClaim, envelope, now)
    ensures Inv(Apply(l, PublishClaim, envelope, now))
  {
    var m := Apply(l, PublishClaim, envelope, now);
    assert GrantOk(l, GrantId(envelope.payload));
    forall d: Digest ensures ClaimOk(m, d) {
      assert ClaimOk(l, d);
    }
    forall g: GrantId ensures GrantOk(m, g) {
      assert GrantOk(l, g);
    }
  }

  /** Later files of the same grant: nothing written earlier is lost or changed. */
  predicate Grows(before: Files, after: Files) {
    && (before.reservation.Some? ==> after.reservation == before.reservation)
    && (before.terminal.Some? ==> after.terminal == before.terminal)
    && (before.audit.Some? ==> after.audit == before.audit)
  }

  /** Writing into one grant directory leaves every other part of the invariant alone. */
  lemma GrowthKeepsRest(l: Logical, mine: GrantId, files: Files)
    requires Inv(l) && Grows(l.grants[mine], files)
    ensures var m := l.(grants := l.grants[mine := files]);
            Defined(m) && (GrantOk(m, mine) ==> Inv(m))
  {
    var m := l.(grants := l.grants[mine := files]);
    if GrantOk(m, mine) {
      forall d: Digest ensures ClaimOk(m, d) {
        assert ClaimOk(l, d);
      }
      forall g: GrantId ensures GrantOk(m, g) {
        assert GrantOk(l, g);
        if g != mine && l.grants[g].reservation.Some? {
          var envelope := l.grants[g].reservation.value.envelope;
          assert Held(l, envelope) ==> Held(m, envelope);
          assert EnterConsumed(l, MarkerDigestOf(envelope)) ==> EnterConsumed(m, MarkerDigestOf(envelope));
        }
      }
      forall i | 0 <= i < |m.ledger| ensures m.grants[m.ledger[i].grant].audit == Some(m.ledger[i]) {
        assert l.grants[l.ledger[i].grant].audit == Some(l.ledger[i]);
      }
    }
  }

  lemma GrantStepsKeepInv(l: Logical, step: Step, envelope: Envelope, now: int)
    requires Inv(l) && Allowed(l, step, envelope, now)
    requires step.Reserve? || step.PublishReceipt? || step.PublishTerminal? || step.PublishAudit?
             || step.PublishAck?
    ensures Inv(Apply(l, step, envelope, now))
  {
    var m, mine := Apply(l, step, envelope, now), GrantId(envelope.payload);
    assert GrantOk(l, mine);
    GrowthKeepsRest(l, mine, m.grants[mine]);
    assert GrantOk(m, mine);
  }

  lemma StepKeepsInv(l: Logical, step: Step, envelope: Envelope, now: int)
    requires Inv(l) && Allowed(l, step, envelope, now)
    ensures Inv(Apply(l, step, envelope, now))
  {
    match step {
      case PublishMarker | RemoveMarker => MarkerStepsKeepInv(l, step, envelope, now);
      case AppendAudit => LedgerStepKeepsInv(l, envelope, now);
      case PublishClaim => ClaimStepKeepsInv(l, envelope, now);
      case _ => GrantStepsKeepInv(l, step, envelope, now);
    }
  }
}
