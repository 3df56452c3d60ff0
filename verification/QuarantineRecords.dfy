/** The quarantine's grants and records, and the chain check over them. */
module QuarantineRecords {
  // Source: packages/workflow-engine/src/recovery-quarantine.ts. A SHA-256 digest of canonical JSON
  // is taken to be injective: it is the value it was taken of. The digest a record carries of itself
  // is therefore not stored but computed. Times are milliseconds.

  import opened Results

  const GRANT_TTL_MS: int := 5 * 60 * 1000

  /** What every grant binds: one loaded Recovery Authority and its runtime. */
  datatype Authority = Authority(
    repositoryId: string, descriptorDigest: string, generation: nat, runtimeDigest: string,
    externalAuditRoot: string)

  datatype Signer = Signer(identity: string, fingerprint: string)

  datatype Operation = EnterQuarantine | ReleaseQuarantine

  datatype Payload =
    | EnterGrant(authority: Authority, signer: Signer, issuedAt: int, expiresAt: int)
    | ReleaseGrant(authority: Authority, signer: Signer, issuedAt: int, expiresAt: int,
                   activeMarker: Digest)
  {
    function Operation(): Operation {
      if EnterGrant? then EnterQuarantine else ReleaseQuarantine
    }
  }

  /** A grant id is a digest of its payload. */
  datatype GrantId = GrantId(payload: Payload)

  datatype Envelope = Envelope(payload: Payload, signature: string)

  datatype Marker = Marker(
    authority: Authority, enterGrant: GrantId, enterEnvelope: Digest, enteredAt: int)

  datatype Reservation = Reservation(envelope: Envelope, reservedAt: int)

  datatype Receipt = Receipt(
    grant: GrantId, operation: Operation, authority: Authority, marker: Digest,
    result: Operation, completedAt: int)

  datatype Terminal = Terminal(
    grant: GrantId, operation: Operation, envelope: Digest, receipt: Digest, marker: Digest,
    consumedAt: int)

  datatype Audit = Audit(
    recordId: Digest, grant: GrantId, operation: Operation, authority: Authority, signer: Signer,
    event: Operation, marker: Digest, envelope: Digest, receipt: Digest, terminal: Digest,
    recordedAt: int)

  datatype Acknowledgement = Acknowledgement(
    grant: GrantId, recordId: Digest, record: Digest, acknowledgedAt: int)

  datatype Claim = Claim(marker: Digest, releaseGrant: GrantId, releaseEnvelope: Digest, claimedAt: int)

  datatype Digest =
    | OfEnvelope(envelope: Envelope)
    | OfMarker(marker: Marker)
    | OfReceipt(receipt: Receipt)
    | OfTerminal(terminal: Terminal)
    | OfAudit(audit: Audit)
    | AuditId(grant: GrantId, event: Operation, receiptDigest: Digest)
    | Foreign(text: string)

  // ----- record builders

  function CreateMarker(payload: Payload, envelope: Digest): Marker {
    Marker(payload.authority, GrantId(payload), envelope, payload.issuedAt)
  }

  function CreateReceipt(payload: Payload, marker: Digest, completedAt: int): Receipt {
    Receipt(GrantId(payload), payload.Operation(), payload.authority, marker, payload.Operation(),
            completedAt)
  }

  function CreateTerminal(payload: Payload, envelope: Digest, receipt: Receipt): Terminal {
    Terminal(GrantId(payload), payload.Operation(), envelope, OfReceipt(receipt), receipt.marker,
             receipt.completedAt)
  }

  function CreateClaim(payload: Payload, envelope: Digest, claimedAt: int): Claim
    requires payload.ReleaseGrant?
  {
    Claim(payload.activeMarker, GrantId(payload), envelope, claimedAt)
  }

  function CreateAudit(payload: Payload, envelope: Digest, receipt: Receipt, terminal: Terminal): Audit {
    Audit(AuditId(GrantId(payload), receipt.result, OfReceipt(receipt)), GrantId(payload),
          payload.Operation(), payload.authority, payload.signer, receipt.result, receipt.marker,
          envelope, OfReceipt(receipt), OfTerminal(terminal), terminal.consumedAt)
  }

  function CreateAcknowledgement(audit: Audit, acknowledgedAt: int): Acknowledgement {
    Acknowledgement(audit.grant, audit.recordId, OfAudit(audit), acknowledgedAt)
  }

  /** The marker a grant is about: the one an enter creates, the one a release names. */
  function MarkerDigestOf(envelope: Envelope): Digest {
    match envelope.payload
    case EnterGrant(_, _, _, _) => OfMarker(CreateMarker(envelope.payload, OfEnvelope(envelope)))
    case ReleaseGrant(_, _, _, _, marker) => marker
  }

  // ----- one grant's files

  datatype Files = Files(
    reservation: Option<Reservation>, receipt: Option<Receipt>, terminal: Option<Terminal>,
    audit: Option<Audit>, ack: Option<Acknowledgement>)

  const NO_FILES := Files(None, None, None, None, None)

  predicate WithinWindow(payload: Payload, time: int) {
    payload.issuedAt <= time < payload.expiresAt
  }

  /** The reader's check of a grant directory that holds a reservation. */
  predicate ChainAccepted(files: Files)
    requires files.reservation.Some?
  {
    var reservation := files.reservation.value;
    var payload, envelope := reservation.envelope.payload, OfEnvelope(reservation.envelope);
    && WithinWindow(payload, reservation.reservedAt)
    && (files.receipt.Some? ==>
          && reservation.reservedAt <= files.receipt.value.completedAt
          && files.receipt.value == CreateReceipt(payload, MarkerDigestOf(reservation.envelope),
                                                  files.receipt.value.completedAt))
    && (files.terminal.Some? ==>
          && files.receipt.Some?
          && files.terminal.value == CreateTerminal(payload, envelope, files.receipt.value))
    && (files.audit.Some? ==>
          && files.receipt.Some? && files.terminal.Some?
          && files.audit.value
             == CreateAudit(payload, envelope, files.receipt.value, files.terminal.value))
    && (files.ack.Some? ==>
          && files.audit.Some?
          && files.audit.value.recordedAt <= files.ack.value.acknowledgedAt
          && files.ack.value == CreateAcknowledgement(files.audit.value, files.ack.value.acknowledgedAt))
  }

  /** All five records of a grant completed at `completedAt` and acknowledged at `ackAt`. */
  function AllFiles(reservation: Reservation, completedAt: int, ackAt: int): (files: Files)
    ensures files.reservation.Some? && files.receipt.Some? && files.terminal.Some?
    ensures files.audit.Some? && files.ack.Some?
  {
    var payload, envelope := reservation.envelope.payload, OfEnvelope(reservation.envelope);
    var receipt := CreateReceipt(payload, MarkerDigestOf(reservation.envelope), completedAt);
    var terminal := CreateTerminal(payload, envelope, receipt);
    var audit := CreateAudit(payload, envelope, receipt, terminal);
    Files(Some(reservation), Some(receipt), Some(terminal), Some(audit),
          Some(CreateAcknowledgement(audit, ackAt)))
  }

  /** The first n of a grant's files, in the order they are written. */
  function FirstFiles(files: Files, n: nat): Files {
    Files(if 1 <= n then files.reservation else None, if 2 <= n then files.receipt else None,
          if 3 <= n then files.terminal else None, if 4 <= n then files.audit else None,
          if 5 <= n then files.ack else None)
  }

  /** The chain check accepts exactly the non-empty prefixes of reservation, receipt, terminal,
      audit, acknowledgement that one reservation inside its window could have produced, with
      times that do not run backwards. */
  lemma ChainAcceptsPrefixes(files: Files)
    requires files.reservation.Some?
    ensures ChainAccepted(files) <==>
              && WithinWindow(files.reservation.value.envelope.payload, files.reservation.value.reservedAt)
              && exists n: nat, completedAt: int, ackAt: int ::
                   1 <= n <= 5 && files.reservation.value.reservedAt <= completedAt <= ackAt
                   && files == FirstFiles(AllFiles(files.reservation.value, completedAt, ackAt), n)
  {
    if ChainAccepted(files) {
      var reservation := files.reservation.value;
      var completedAt := if files.receipt.Some? then files.receipt.value.completedAt else reservation.reservedAt;
      var ackAt := if files.ack.Some? then files.ack.value.acknowledgedAt else completedAt;
      var n := if files.ack.Some? then 5 else if files.audit.Some? then 4
               else if files.terminal.Some? then 3 else if files.receipt.Some? then 2 else 1;
      assert files == FirstFiles(AllFiles(reservation, completedAt, ackAt), n);
    }
  }

  // ----- the chain, field by field

  /** A receipt is of its grant and about its marker: the one an enter makes, at the time the grant was
      issued, or the one a release names. */
  predicate ReceiptAgrees(reservation: Reservation, receipt: Receipt) {
    var payload := reservation.envelope.payload;
    && receipt.grant.payload == payload && receipt.authority == payload.authority
    && receipt.operation == receipt.result == (if payload.EnterGrant? then EnterQuarantine else ReleaseQuarantine)
    && reservation.reservedAt <= receipt.completedAt
    && if payload.EnterGrant? then
         && receipt.marker.OfMarker?
         && var marker := receipt.marker.marker;
            && marker.authority == payload.authority && marker.enterGrant.payload == payload
            && marker.enterEnvelope.OfEnvelope? && marker.enterEnvelope.envelope == reservation.envelope
            && marker.enteredAt == payload.issuedAt
       else receipt.marker == payload.activeMarker
  }

  /** A terminal record is of the grant's envelope and receipt, at the receipt's time. */
  predicate TerminalAgrees(reservation: Reservation, receipt: Receipt, terminal: Terminal) {
    && terminal.grant == receipt.grant && terminal.operation == receipt.operation && terminal.marker == receipt.marker
    && terminal.envelope.OfEnvelope? && terminal.envelope.envelope == reservation.envelope
    && terminal.receipt.OfReceipt? && terminal.receipt.receipt == receipt
    && terminal.consumedAt == receipt.completedAt
  }

  /** An audit record is of the grant, its signer, its receipt and its terminal record. */
  predicate AuditAgrees(reservation: Reservation, receipt: Receipt, terminal: Terminal, audit: Audit) {
    && audit.grant == receipt.grant && audit.operation == receipt.operation && audit.event == receipt.result
    && audit.authority == receipt.authority && audit.marker == receipt.marker
    && audit.signer == reservation.envelope.payload.signer && audit.envelope == terminal.envelope
    && audit.receipt.OfReceipt? && audit.receipt.receipt == receipt
    && audit.terminal.OfTerminal? && audit.terminal.terminal == terminal
    && audit.recordedAt == receipt.completedAt
    && audit.recordId.AuditId? && audit.recordId.grant == receipt.grant && audit.recordId.event == receipt.result
    && audit.recordId.receiptDigest == audit.receipt
  }

  predicate AckAgrees(audit: Audit, ack: Acknowledgement) {
    && ack.grant == audit.grant && ack.recordId == audit.recordId
    && ack.record.OfAudit? && ack.record.audit == audit && audit.recordedAt <= ack.acknowledgedAt
  }

  /** The chain check accepts exactly the files that come in order and agree field by field, reserved
      inside the grant's window. */
  lemma ChainMeans(files: Files)
    requires files.reservation.Some?
    ensures var reservation := files.reservation.value;
            var payload := reservation.envelope.payload;
            ChainAccepted(files) <==>
              && payload.issuedAt <= reservation.reservedAt < payload.expiresAt
              && (files.terminal.Some? ==> files.receipt.Some?) && (files.audit.Some? ==> files.terminal.Some?)
              && (files.ack.Some? ==> files.audit.Some?)
              && (files.receipt.Some? ==> ReceiptAgrees(reservation, files.receipt.value))
              && (files.terminal.Some? ==> TerminalAgrees(reservation, files.receipt.value, files.terminal.value))
              && (files.audit.Some? ==>
                    AuditAgrees(reservation, files.receipt.value, files.terminal.value, files.audit.value))
              && (files.ack.Some? ==> AckAgrees(files.audit.value, files.ack.value))
  {
  }
}
