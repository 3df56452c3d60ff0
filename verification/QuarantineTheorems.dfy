/** What holds over whole histories of quarantine operations. */
module QuarantineTheorems {
  // Each operation in a history may stop anywhere.

  import opened QuarantineProtocol
  import opened QuarantineRecords
  import opened Results

  /** One write, made for an envelope at a clock reading. */
  datatype Event = Event(envelope: Envelope, now: int, step: Step)

  ghost predicate Run(l: Logical, events: seq<Event>, m: Logical)
    decreases events
  {
    if events == [] then l == m
    else
      var e := events[0];
      Allowed(l, e.step, e.envelope, e.now)
      && Run(Apply(l, e.step, e.envelope, e.now), events[1..], m)
  }

  predicate By(events: seq<Event>, envelope: Envelope) {
    forall i :: 0 <= i < |events| ==> events[i].envelope == envelope
  }

  lemma {:induction false} RunConcat(l: Logical, a: seq<Event>, m: Logical, b: seq<Event>, n: Logical)
    requires Run(l, a, m) && Run(m, b, n)
    ensures Run(l, a + b, n)
    decreases a
  {
    if a == [] {
      assert a + b == b;
    } else {
      RunConcat(Apply(l, a[0].step, a[0].envelope, a[0].now), a[1..], m, b, n);
      assert (a + b)[1..] == a[1..] + b;
    }
  }

  lemma {:induction false} RunKeepsInv(l: Logical, events: seq<Event>, m: Logical)
    requires Inv(l) && Run(l, events, m)
    ensures Inv(m)
    decreases events
  {
    if events != [] {
      var e := events[0];
      StepKeepsInv(l, e.step, e.envelope, e.now);
      RunKeepsInv(Apply(l, e.step, e.envelope, e.now), events[1..], m);
    }
  }

  function NoClaim(d: Digest): Option<Claim> { None }

  function NoFiles(g: GrantId): Files { NO_FILES }

  /** No grants, no marker, no claims. */
  ghost function Empty(): Logical {
    Logical(None, imap d: Digest :: NoClaim(d), imap g: GrantId :: NoFiles(g), [])
  }

  /** Every history from an empty store keeps the invariant. */
  lemma ReachableKeepsInv(events: seq<Event>, l: Logical)
    requires Run(Empty(), events, l)
    ensures Inv(l)
  {
    RunKeepsInv(Empty(), events, l);
  }

  /** In every reachable store a grant's records come in order, each at the time of the reservation,
      and the claim on a marker is that of a release grant reserved for it. */
  lemma RecordsSay(l: Logical, g: GrantId, d: Digest)
    requires Inv(l)
    ensures var files := l.grants[g];
            && (files != NO_FILES ==>
                  && files.reservation.Some? && files.reservation.value.envelope.payload == g.payload
                  && g.payload.issuedAt <= files.reservation.value.reservedAt < g.payload.expiresAt)
            && (files.receipt.Some? ==> files.receipt.value.completedAt == files.reservation.value.reservedAt)
            && (files.terminal.Some? ==>
                  files.receipt.Some? && files.terminal.value.consumedAt == files.reservation.value.reservedAt)
            && (files.audit.Some? ==>
                  files.terminal.Some? && files.audit.value.recordedAt == files.reservation.value.reservedAt)
            && (files.ack.Some? ==>
                  files.audit.Some? && files.ack.value.acknowledgedAt == files.reservation.value.reservedAt)
    ensures l.claims[d].Some? ==>
              var claim := l.claims[d].value;
              && claim.marker == d && claim.releaseGrant.payload.ReleaseGrant?
              && claim.releaseGrant.payload.activeMarker == d && claim.releaseGrant in l.grants
              && l.grants[claim.releaseGrant].reservation.Some?
              && var reservation := l.grants[claim.releaseGrant].reservation.value;
                 claim.releaseEnvelope == OfEnvelope(reservation.envelope) && claim.claimedAt == reservation.reservedAt
  {
    assert GrantOk(l, g) && ClaimOk(l, d);
  }

  // ----- markers

  /** The marker was consumed by its enter grant and is not active. */
  predicate Retired(l: Logical, d: Digest) {
    EnterConsumed(l, d) && !Active(l, d)
  }

  /** Release grant g is consumed for marker d. */
  predicate ReleasedBy(l: Logical, g: GrantId, d: Digest) {
    && g.payload.ReleaseGrant? && g.payload.activeMarker == d
    && g in l.grants && l.grants[g].terminal.Some?
  }

  /** At most one release grant ever gets a receipt for a given marker. */
  lemma AtMostOneRelease(l: Logical, g: GrantId, h: GrantId)
    requires Inv(l)
    requires g.payload.ReleaseGrant? && h.payload.ReleaseGrant?
    requires g.payload.activeMarker == h.payload.activeMarker
    requires l.grants[g].receipt.Some? && l.grants[h].receipt.Some?
    ensures g == h
  {
    assert GrantOk(l, g) && GrantOk(l, h);
  }

  lemma RetiredStep(l: Logical, e: Event, d: Digest)
    requires Inv(l) && Allowed(l, e.step, e.envelope, e.now) && Retired(l, d)
    ensures Retired(Apply(l, e.step, e.envelope, e.now), d)
  {
    var g := GrantId(e.envelope.payload);
    assert GrantOk(l, g);
  }

  /** A retired marker is never active again, whatever grants follow. */
  lemma {:induction false} RetiredForever(l: Logical, events: seq<Event>, m: Logical, d: Digest)
    requires Inv(l) && Run(l, events, m) && Retired(l, d)
    ensures Retired(m, d)
    decreases events
  {
    if events != [] {
      var e := events[0];
      StepKeepsInv(l, e.step, e.envelope, e.now);
      RetiredStep(l, e, d);
      RetiredForever(Apply(l, e.step, e.envelope, e.now), events[1..], m, d);
    }
  }

  lemma {:induction false} ReleasedForever(l: Logical, events: seq<Event>, m: Logical, g: GrantId, d: Digest)
    requires Inv(l) && Run(l, events, m) && ReleasedBy(l, g, d)
    ensures ReleasedBy(m, g, d)
    decreases events
  {
    if events != [] {
      var e := events[0];
      assert GrantOk(l, GrantId(e.envelope.payload));
      StepKeepsInv(l, e.step, e.envelope, e.now);
      ReleasedForever(Apply(l, e.step, e.envelope, e.now), events[1..], m, g, d);
    }
  }

  /** The step at which a marker stops being active removes it, for a release grant that is terminal
      like the enter grant. */
  lemma RemovalStep(l: Logical, e: Event, d: Digest)
    requires Inv(l) && Allowed(l, e.step, e.envelope, e.now) && Active(l, d)
    requires !Active(Apply(l, e.step, e.envelope, e.now), d)
    ensures e.step.RemoveMarker? && EnterConsumed(l, d) && ReleasedBy(l, GrantId(e.envelope.payload), d)
    ensures Retired(Apply(l, e.step, e.envelope, e.now), d)
    ensures ReleasedBy(Apply(l, e.step, e.envelope, e.now), GrantId(e.envelope.payload), d)
  {
    assert GrantOk(l, GrantId(e.envelope.payload));
  }

  /** A marker that stops being active is removed by one step, and when that step is taken its enter
      grant and the release grant whose envelope takes it are already terminal; they stay so. */
  lemma {:induction false} RemovalJustified(l: Logical, events: seq<Event>, m: Logical, d: Digest)
    returns (i: nat, k: Logical)
    requires Inv(l) && Run(l, events, m) && Active(l, d) && !Active(m, d)
    ensures i < |events| && Run(l, events[..i], k) && events[i].step.RemoveMarker?
    ensures var e := events[i];
            && Active(k, d) && EnterConsumed(k, d) && ReleasedBy(k, GrantId(e.envelope.payload), d)
            && Allowed(k, e.step, e.envelope, e.now) && !Active(Apply(k, e.step, e.envelope, e.now), d)
    ensures ReleasedBy(m, GrantId(events[i].envelope.payload), d)
    ensures Retired(m, d)
    decreases events
  {
    hide Inv, Apply, Allowed, Retired, ReleasedBy, EnterConsumed, Active;
    var e := events[0];
    var n := Apply(l, e.step, e.envelope, e.now);
    StepKeepsInv(l, e.step, e.envelope, e.now);
    if Active(n, d) {
      var j;
      j, k := RemovalJustified(n, events[1..], m, d);
      i := j + 1;
      assert events[..i][0] == e && events[..i][1..] == events[1..][..j];
    } else {
      i, k := 0, l;
      RemovalStep(l, e, d);
      RetiredForever(n, events[1..], m, d);
      ReleasedForever(n, events[1..], m, GrantId(e.envelope.payload), d);
    }
  }

  /** However often it stops and resumes, an operation only ever removes the marker its own
      release grant names. */
  lemma RemovesOnlyNamedMarker(l: Logical, events: seq<Event>, m: Logical, envelope: Envelope, d: Digest)
    requires Inv(l) && Run(l, events, m) && By(events, envelope)
    requires Active(l, d) && !Active(m, d)
    ensures envelope.payload.ReleaseGrant? && envelope.payload.activeMarker == d
  {
    var i, _ := RemovalJustified(l, events, m, d);
    assert events[i].envelope == envelope;
  }

  // ----- resumption

  ghost function Durable(l: Logical): Logical {
    l.(ledger := [])
  }

  /** The durable records once the grant is through, written in closed form. */
  ghost function Completed(l: Logical, envelope: Envelope): Logical
    requires Held(l, envelope)
  {
    var g, d := GrantId(envelope.payload), MarkerDigestOf(envelope);
    var reservation := l.grants[g].reservation.value;
    match envelope.payload
    case EnterGrant(_, _, _, _) =>
      Logical(
        if l.grants[g].terminal.Some? then l.marker
        else Some(CreateMarker(envelope.payload, OfEnvelope(envelope))),
        l.claims, l.grants[g := Full(reservation)], [])
    case ReleaseGrant(_, _, _, _, _) =>
      Logical(
        if Active(l, d) then None else l.marker,
        l.claims[d := Some(ClaimBy(reservation))], l.grants[g := Full(reservation)], [])
  }

  /** A reserved grant that an uninterrupted run carries through. */
  predicate CanFinish(l: Logical, envelope: Envelope) {
    var d := MarkerDigestOf(envelope);
    && Held(l, envelope)
    && var files := l.grants[GrantId(envelope.payload)];
       && files.ack.None?
       && (envelope.payload.EnterGrant? ==>
             files.terminal.Some? || l.marker.None? || Active(l, d))
       && (envelope.payload.ReleaseGrant? ==>
             && d in l.claims && (l.claims[d].None? || OwnsClaim(l, envelope))
             && (files.terminal.Some? || (Active(l, d) && EnterConsumed(l, d))))
  }

  /** The grant is through and its records are the completed ones. */
  predicate Finished(l: Logical, envelope: Envelope) {
    Held(l, envelope) && l.grants[GrantId(envelope.payload)].ack.Some?
  }

  lemma ResumeKeepsCompleted(l: Logical, e: Event)
    requires Inv(l) && CanFinish(l, e.envelope) && Allowed(l, e.step, e.envelope, e.now)
    ensures var m := Apply(l, e.step, e.envelope, e.now);
            Held(m, e.envelope) && Completed(m, e.envelope) == Completed(l, e.envelope)
  {
    var m, g := Apply(l, e.step, e.envelope, e.now), GrantId(e.envelope.payload);
    assert GrantOk(l, g);
    ResumeKeepsReservation(l, e);
    var a, b := Completed(m, e.envelope), Completed(l, e.envelope);
    assert a.grants == b.grants;
    assert a.claims == b.claims;
    hide Full, FirstFiles, ClaimBy, CreateMarker;
  }

  lemma ResumeKeepsReservation(l: Logical, e: Event)
    requires Inv(l) && CanFinish(l, e.envelope) && Allowed(l, e.step, e.envelope, e.now)
    ensures var m, g := Apply(l, e.step, e.envelope, e.now), GrantId(e.envelope.payload);
            && Held(m, e.envelope) && m.grants[g].reservation == l.grants[g].reservation
            && (forall h :: h in l.grants && h != g ==> h in m.grants && m.grants[h] == l.grants[h])
  {
    assert GrantOk(l, GrantId(e.envelope.payload));
  }

  lemma ResumeProgress(l: Logical, e: Event)
    requires Inv(l) && CanFinish(l, e.envelope) && Allowed(l, e.step, e.envelope, e.now)
    ensures var m := Apply(l, e.step, e.envelope, e.now);
            if e.step.PublishAck? then Finished(m, e.envelope) && Durable(m) == Completed(m, e.envelope)
            else CanFinish(m, e.envelope)
  {
    assert GrantOk(l, GrantId(e.envelope.payload));
  }

  lemma ResumeStep(l: Logical, e: Event)
    requires Inv(l) && CanFinish(l, e.envelope) && Allowed(l, e.step, e.envelope, e.now)
    ensures var m := Apply(l, e.step, e.envelope, e.now);
            && Held(m, e.envelope) && Completed(m, e.envelope) == Completed(l, e.envelope)
            && (CanFinish(m, e.envelope)
                || (Finished(m, e.envelope) && Durable(m) == Completed(l, e.envelope)))
  {
    hide Inv, Apply, Allowed, Completed, CanFinish;
    ResumeKeepsCompleted(l, e);
    ResumeProgress(l, e);
  }

  /** Stopping an operation whose grant is reserved anywhere, any number of times and under any
      clock, changes nothing about what its completion leaves behind: either it is still to be
      completed, with the same result, or it already has that result. */
  lemma {:induction false} ResumptionKeepsOutcome(l: Logical, events: seq<Event>, m: Logical, envelope: Envelope)
    requires Inv(l) && Run(l, events, m) && By(events, envelope) && CanFinish(l, envelope)
    ensures Held(m, envelope)
    ensures Completed(m, envelope) == Completed(l, envelope)
    ensures CanFinish(m, envelope)
            || (Finished(m, envelope) && Durable(m) == Completed(l, envelope))
    decreases events
  {
    if events != [] {
      var e := events[0];
      assert e.envelope == envelope;
      var n := Apply(l, e.step, e.envelope, e.now);
      ResumeStep(l, e);
      StepKeepsInv(l, e.step, e.envelope, e.now);
      if CanFinish(n, envelope) {
        ResumptionKeepsOutcome(n, events[1..], m, envelope);
      } else {
        FinishedIsFinal(n, events[1..], m, envelope);
      }
    }
  }

  /** Once acknowledged, a grant allows no further write. */
  lemma NoWriteWhenFinished(l: Logical, e: Event)
    requires Inv(l) && Finished(l, e.envelope)
    ensures !Allowed(l, e.step, e.envelope, e.now)
  {
    assert GrantOk(l, GrantId(e.envelope.payload));
  }

  lemma FinishedIsFinal(l: Logical, events: seq<Event>, m: Logical, envelope: Envelope)
    requires Inv(l) && Run(l, events, m) && By(events, envelope) && Finished(l, envelope)
    ensures l == m
  {
    if events != [] {
      NoWriteWhenFinished(l, events[0]);
    }
  }

  function Repeat(record: Audit, n: nat): seq<Audit> {
    if n == 0 then [] else [record] + Repeat(record, n - 1)
  }

  /** One step of an operation whose grant is held: the grant stays held under its reservation, and
      the ledger grows by the record the reservation determines, or not at all. */
  lemma LedgerStep(l: Logical, e: Event)
    requires Inv(l) && Allowed(l, e.step, e.envelope, e.now) && Held(l, e.envelope)
    ensures var k, g := Apply(l, e.step, e.envelope, e.now), GrantId(e.envelope.payload);
            && Held(k, e.envelope) && k.grants[g].reservation == l.grants[g].reservation
            && k.ledger == l.ledger
                 + if e.step.AppendAudit? then [Full(l.grants[g].reservation.value).audit.value] else []
  {
    assert GrantOk(l, GrantId(e.envelope.payload));
  }

  lemma FinishedIsLogged(l: Logical, envelope: Envelope)
    requires Inv(l) && Finished(l, envelope)
    ensures Full(l.grants[GrantId(envelope.payload)].reservation.value).audit.value in l.ledger
  {
    assert GrantOk(l, GrantId(envelope.payload));
  }

  /** Every audit append of one operation carries the same record: the one its reservation
      determines. Re-runs may append it again, and only it. */
  lemma {:induction false} LedgerRepeatsOneRecord(l: Logical, events: seq<Event>, m: Logical, envelope: Envelope)
    returns (n: nat)
    requires Inv(l) && Run(l, events, m) && By(events, envelope) && Held(l, envelope)
    ensures m.ledger == l.ledger
              + Repeat(Full(l.grants[GrantId(envelope.payload)].reservation.value).audit.value, n)
    ensures Finished(m, envelope) ==>
              Full(l.grants[GrantId(envelope.payload)].reservation.value).audit.value in m.ledger
    decreases events
  {
    hide Inv, Apply, Allowed, Full;
    if events == [] {
      n := 0;
      if Finished(l, envelope) {
        FinishedIsLogged(l, envelope);
      }
    } else {
      var e := events[0];
      assert e.envelope == envelope;
      var k := Apply(l, e.step, e.envelope, e.now);
      LedgerStep(l, e);
      StepKeepsInv(l, e.step, e.envelope, e.now);
      n := LedgerRepeatsOneRecord(k, events[1..], m, envelope);
      if e.step.AppendAudit? {
        n := n + 1;
      }
    }
  }
}
