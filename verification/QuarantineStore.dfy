/** The quarantine operations as they run: directory reads, hard-link publication and unlinking,
    any of which may be the last thing that happens before the machine stops.

    Every operation is proved against the state machine of QuarantineProtocol: what it does to the
    durable records is a run of that machine made of its own grant's steps, and when nothing stops
    it, it ends with the completed grant or with the refusal the starting records call for. The
    temporary files a stopped publication leaves are seen by the directories only: the durable
    records never mention them. */
module QuarantineStore {
  import opened QuarantineDirectory
  import opened QuarantineProtocol
  import opened QuarantineRecords
  import opened QuarantineTheorems
  import opened Results

  datatype Place = StateDir | GrantsDir | ClaimsDir | GrantDir(grant: GrantId)

  datatype Error =
    | StateCorrupt | GrantInvalid | GrantTtlInvalid | OperationMismatch | BindingMismatch | SignatureInvalid
    | NotYetValid | Expired | AlreadyConsumed | AlreadyActive | EnterNotTerminal | MarkerMismatch

  /** How a call ends: with a value, with the machine stopped, or with a thrown error. */
  datatype Outcome<T> = Done(value: T) | Stopped | Failed(error: Error) {
    predicate IsFailure() { !Done? }
    function PropagateFailure<U>(): Outcome<U>
      requires IsFailure()
    {
      if Stopped? then Stopped else Failed(error)
    }
    function Extract(): T
      requires Done?
    {
      value
    }
  }

  type Store = map<Place, Dir>

  /** `assertAllowedTarget`. */
  predicate AllowedTarget(place: Place, t: Target) {
    match place
    case StateDir => t.MarkerFile?
    case GrantsDir => false
    case ClaimsDir => t.ClaimFile?
    case GrantDir(_) =>
      t.ReservationFile? || t.ReceiptFile? || t.TerminalFile? || t.AuditFile? || t.AckFile?
  }

  ghost predicate Layout(store: Store, unused: nat) {
    forall p :: p in store ==>
      DirOk(store[p], unused) && forall n :: n in store[p].names ==> AllowedTarget(p, n.target)
  }

  /** What nothing ever removes; only the marker's directory ever loses a published record. */
  predicate Stuck(store: Store, p: Place, n: Name) {
    p in store && StuckIn(store[p], n, !p.StateDir?)
  }

  ghost predicate Watched(store: Store, watched: set<(Place, Name)>) {
    forall w :: w in watched ==> Stuck(store, w.0, w.1)
  }

  lemma WatchedAfter(store: Store, p: Place, dir: Dir, watched: set<(Place, Name)>)
    requires Watched(store, watched)
    requires forall n :: (p, n) in watched && Stuck(store, p, n) ==> StuckIn(dir, n, !p.StateDir?)
    ensures Watched(store[p := dir], watched)
  {
    hide StuckIn;
    forall w | w in watched ensures Stuck(store[p := dir], w.0, w.1) {
      assert Stuck(store, w.0, w.1);
      assert w == (w.0, w.1);
    }
  }

  lemma WatchedElsewhere(store: Store, p: Place, watched: set<(Place, Name)>)
    requires Watched(store, watched) && p !in store
    ensures Watched(store[p := EMPTY_DIR], watched)
  {
    hide StuckIn;
  }

  lemma EmptyIsOk(unused: nat)
    ensures DirOk(EMPTY_DIR, unused)
  {
  }

  // ----- the records a store holds

  function Find(store: Store, p: Place, t: Target): Option<Record> {
    if p in store then RecordAt(store[p], t) else None
  }

  ghost predicate SameFinds(before: Store, after: Store) {
    forall p, t :: Find(after, p, t) == Find(before, p, t)
  }

  /** The only difference is that name t in directory p now holds r. */
  ghost predicate Publishes(before: Store, after: Store, p: Place, t: Target, r: Option<Record>) {
    forall q, u :: Find(after, q, u) == if q == p && u == t then r else Find(before, q, u)
  }

  function AsReservation(r: Option<Record>): Option<Reservation> {
    if r.Some? && r.value.ReservationRecord? then Some(r.value.reservation) else None
  }

  function AsReceipt(r: Option<Record>): Option<Receipt> {
    if r.Some? && r.value.ReceiptRecord? then Some(r.value.receipt) else None
  }

  function AsTerminal(r: Option<Record>): Option<Terminal> {
    if r.Some? && r.value.TerminalRecord? then Some(r.value.terminal) else None
  }

  function AsAudit(r: Option<Record>): Option<Audit> {
    if r.Some? && r.value.AuditRecord? then Some(r.value.audit) else None
  }

  function AsAck(r: Option<Record>): Option<Acknowledgement> {
    if r.Some? && r.value.AckRecord? then Some(r.value.ack) else None
  }

  function AsClaim(r: Option<Record>): Option<Claim> {
    if r.Some? && r.value.ClaimRecord? then Some(r.value.claim) else None
  }

  function AsMarker(r: Option<Record>): Option<Marker> {
    if r.Some? && r.value.MarkerRecord? then Some(r.value.marker) else None
  }

  function FilesAt(store: Store, g: GrantId): Files {
    var p := GrantDir(g);
    Files(AsReservation(Find(store, p, ReservationFile)), AsReceipt(Find(store, p, ReceiptFile)),
          AsTerminal(Find(store, p, TerminalFile)), AsAudit(Find(store, p, AuditFile)),
          AsAck(Find(store, p, AckFile)))
  }

  function ClaimAt(store: Store, d: Digest): Option<Claim> {
    AsClaim(Find(store, ClaimsDir, ClaimFile(d)))
  }

  function MarkerAt(store: Store): Option<Marker> {
    AsMarker(Find(store, StateDir, MarkerFile))
  }

  ghost function View(store: Store, ledger: seq<Audit>): Logical {
    Logical(MarkerAt(store), imap d: Digest :: ClaimAt(store, d), imap g: GrantId :: FilesAt(store, g), ledger)
  }

  /** Publishing in one place changes what is read in no other. */
  lemma OtherPlacesKeep(before: Store, after: Store, p: Place, t: Target, r: Option<Record>)
    requires Publishes(before, after, p, t, r)
    ensures p != StateDir ==> MarkerAt(after) == MarkerAt(before)
    ensures p != ClaimsDir ==> forall d :: ClaimAt(after, d) == ClaimAt(before, d)
    ensures forall g :: p != GrantDir(g) ==> FilesAt(after, g) == FilesAt(before, g)
  {
  }

  lemma SameView(before: Store, after: Store, ledger: seq<Audit>)
    requires SameFinds(before, after)
    ensures View(after, ledger) == View(before, ledger)
  {
    var l, m := View(before, ledger), View(after, ledger);
    forall g: GrantId ensures m.grants[g] == l.grants[g] {
      assert FilesAt(after, g) == FilesAt(before, g);
    }
    assert m.claims == l.claims && m.grants == l.grants;
  }

  /** The target and record of a grant's n-th file. */
  function GrantTarget(n: nat): Target
    requires 1 <= n <= 5
  {
    if n == 1 then ReservationFile else if n == 2 then ReceiptFile else if n == 3 then TerminalFile
    else if n == 4 then AuditFile else AckFile
  }

  function GrantRecord(reservation: Reservation, n: nat): Record
    requires 1 <= n <= 5
  {
    var files := Full(reservation);
    if n == 1 then ReservationRecord(reservation) else if n == 2 then ReceiptRecord(files.receipt.value)
    else if n == 3 then TerminalRecord(files.terminal.value)
    else if n == 4 then AuditRecord(files.audit.value) else AckRecord(files.ack.value)
  }

  lemma GrantFilesAfter(before: Store, after: Store, g: GrantId, reservation: Reservation, n: nat)
    requires 1 <= n <= 5
    requires FilesAt(before, g) == FirstFiles(Full(reservation), n - 1)
    requires Publishes(before, after, GrantDir(g), GrantTarget(n), Some(GrantRecord(reservation, n)))
    ensures FilesAt(after, g) == FirstFiles(Full(reservation), n)
  {
    var p := GrantDir(g);
    forall u | u != GrantTarget(n) ensures Find(after, p, u) == Find(before, p, u) {
    }
    assert Find(after, p, GrantTarget(n)) == Some(GrantRecord(reservation, n));
  }

  lemma GrantFileView(before: Store, after: Store, g: GrantId, reservation: Reservation, n: nat, ledger: seq<Audit>)
    requires 1 <= n <= 5
    requires FilesAt(before, g) == FirstFiles(Full(reservation), n - 1)
    requires Publishes(before, after, GrantDir(g), GrantTarget(n), Some(GrantRecord(reservation, n)))
    ensures var l := View(before, ledger);
            View(after, ledger) == l.(grants := l.grants[g := FirstFiles(Full(reservation), n)])
  {
    OtherPlacesKeep(before, after, GrantDir(g), GrantTarget(n), Some(GrantRecord(reservation, n)));
    GrantFilesAfter(before, after, g, reservation, n);
    hide FilesAt, ClaimAt, MarkerAt, Find, Publishes, GrantRecord, FirstFiles;
    var l, m := View(before, ledger), View(after, ledger);
    forall h: GrantId ensures m.grants[h] == l.grants[g := FirstFiles(Full(reservation), n)][h] {
      assert h != g ==> FilesAt(after, h) == FilesAt(before, h);
    }
    assert m.claims == l.claims;
    assert m.grants == l.grants[g := FirstFiles(Full(reservation), n)];
  }

  lemma MarkerFileView(before: Store, after: Store, r: Option<Record>, ledger: seq<Audit>)
    requires Publishes(before, after, StateDir, MarkerFile, r)
    ensures View(after, ledger) == View(before, ledger).(marker := AsMarker(r))
  {
    OtherPlacesKeep(before, after, StateDir, MarkerFile, r);
    assert Find(after, StateDir, MarkerFile) == r;
    hide FilesAt, ClaimAt, Find, Publishes;
    SameClaims(before, after, ledger);
    SameGrants(before, after, ledger);
  }

  lemma SameClaims(before: Store, after: Store, ledger: seq<Audit>)
    requires forall d :: ClaimAt(after, d) == ClaimAt(before, d)
    ensures View(after, ledger).claims == View(before, ledger).claims
  {
    hide FilesAt, ClaimAt, MarkerAt;
  }

  lemma SameGrants(before: Store, after: Store, ledger: seq<Audit>)
    requires forall g :: FilesAt(after, g) == FilesAt(before, g)
    ensures View(after, ledger).grants == View(before, ledger).grants
  {
    hide FilesAt, ClaimAt, MarkerAt;
  }

  lemma ClaimsAfter(before: Store, after: Store, claim: Claim, d: Digest)
    requires Publishes(before, after, ClaimsDir, ClaimFile(claim.marker), Some(ClaimRecord(claim)))
    ensures ClaimAt(after, d) == if d == claim.marker then Some(claim) else ClaimAt(before, d)
  {
    assert Find(after, ClaimsDir, ClaimFile(d))
        == if d == claim.marker then Some(ClaimRecord(claim)) else Find(before, ClaimsDir, ClaimFile(d));
  }

  lemma ClaimsViewAfter(before: Store, after: Store, claim: Claim, ledger: seq<Audit>)
    requires forall d :: ClaimAt(after, d) == if d == claim.marker then Some(claim) else ClaimAt(before, d)
    ensures View(after, ledger).claims == View(before, ledger).claims[claim.marker := Some(claim)]
  {
  }

  lemma ClaimFileView(before: Store, after: Store, claim: Claim, ledger: seq<Audit>)
    requires Publishes(before, after, ClaimsDir, ClaimFile(claim.marker), Some(ClaimRecord(claim)))
    ensures View(after, ledger).claims == View(before, ledger).claims[claim.marker := Some(claim)]
    ensures View(after, ledger).grants == View(before, ledger).grants
    ensures View(after, ledger).marker == View(before, ledger).marker
  {
    OtherPlacesKeep(before, after, ClaimsDir, ClaimFile(claim.marker), Some(ClaimRecord(claim)));
    forall d: Digest ensures ClaimAt(after, d) == if d == claim.marker then Some(claim) else ClaimAt(before, d) {
      ClaimsAfter(before, after, claim, d);
    }
    ClaimsViewAfter(before, after, claim, ledger);
    assert forall g :: FilesAt(after, g) == FilesAt(before, g);
  }

  lemma SameRecordsReflexive(dir: Dir)
    ensures SameRecords(dir, dir)
  {
  }

  lemma LayoutGrows(store: Store, unused: nat)
    requires Layout(store, unused)
    ensures Layout(store, unused + 1)
  {
  }

  lemma EmptyFinds(store: Store, p: Place)
    requires p !in store
    ensures SameFinds(store, store[p := EMPTY_DIR])
  {
  }

  lemma SameDirSameFinds(before: Store, after: Store, p: Place)
    requires p in before && p in after && after == before[p := after[p]]
    requires SameRecords(before[p], after[p])
    ensures SameFinds(before, after)
  {
  }

  /** The temporary name and its target are the same file. */
  predicate Paired(dir: Dir, n: Name) {
    n in dir.names && Published(n.target) in dir.names && dir.names[Published(n.target)] == dir.names[n]
  }

  lemma SameFindsTransitive(a: Store, b: Store, c: Store)
    requires SameFinds(a, b) && SameFinds(b, c)
    ensures SameFinds(a, c)
  {
    forall p, t ensures Find(c, p, t) == Find(a, p, t) {
      assert Find(b, p, t) == Find(a, p, t);
    }
  }

  lemma SameFound(before: Store, after: Store, p: Place, t: Target)
    requires SameFinds(before, after)
    ensures Find(after, p, t) == Find(before, p, t)
  {
  }

  lemma AlreadyPublished(before: Store, after: Store, p: Place, t: Target, r: Record)
    requires SameFinds(before, after) && Find(after, p, t) == Some(r)
    ensures Publishes(before, after, p, t, Some(r))
  {
  }

  lemma ReadsAsPublished(store: Store, p: Place, t: Target, unused: nat)
    requires Layout(store, unused) && p in store
    ensures Find(store, p, t).Some? <==> Published(t) in store[p].names
    ensures Published(t) in store[p].names ==>
              && store[p].names[Published(t)] in store[p].inodes
              && store[p].inodes[store[p].names[Published(t)]].content == Whole(Find(store, p, t).value)
              && (Settled(store[p]) ==> store[p].inodes[store[p].names[Published(t)]].links == 1)
  {
    PublishedIsFound(store[p], t, unused);
  }

  lemma SameThenPublishes(a: Store, b: Store, c: Store, p: Place, t: Target, r: Option<Record>)
    requires SameFinds(a, b) && Publishes(b, c, p, t, r)
    ensures Publishes(a, c, p, t, r)
  {
    forall q, u ensures Find(c, q, u) == if q == p && u == t then r else Find(a, q, u) {
      assert Find(b, q, u) == Find(a, q, u);
    }
  }

  lemma PublishesThenSame(a: Store, b: Store, c: Store, p: Place, t: Target, r: Option<Record>)
    requires Publishes(a, b, p, t, r) && SameFinds(b, c)
    ensures Publishes(a, c, p, t, r)
  {
    forall q, u ensures Find(c, q, u) == if q == p && u == t then r else Find(a, q, u) {
      assert Find(c, q, u) == Find(b, q, u);
    }
  }

  lemma DirPublishes(before: Store, after: Store, p: Place, t: Target, r: Option<Record>)
    requires p in before && p in after && after == before[p := after[p]]
    requires forall u :: RecordAt(after[p], u) == if u == t then r else RecordAt(before[p], u)
    ensures Publishes(before, after, p, t, r)
  {
  }

  lemma PublishedIsFound(dir: Dir, t: Target, unused: nat)
    requires DirOk(dir, unused)
    ensures RecordAt(dir, t).Some? <==> Published(t) in dir.names
    ensures Published(t) in dir.names ==>
              dir.inodes[dir.names[Published(t)]].content == Whole(RecordAt(dir, t).value)
              && Fits(t, RecordAt(dir, t).value)
  {
    assert Published(t) in dir.names ==> NameOk(dir, Published(t));
  }

  lemma StillUnpaired(before: Dir, after: Dir, n: Name, pending: set<Name>)
    requires AtMostWithout(before, after, n)
    requires n in after.names ==> !Paired(after, n)
    requires n.Temporary? && n !in pending
    requires forall m :: m in before.names && m.Temporary? && m !in pending + {n} ==> !Paired(before, m)
    ensures forall m :: m in after.names && m.Temporary? && m !in pending ==> !Paired(after, m)
    ensures before.names.Keys - {n} <= after.names.Keys <= before.names.Keys
  {
  }

  lemma UnpairedIsSettled(dir: Dir, unused: nat)
    requires DirOk(dir, unused)
    requires forall n :: n in dir.names && n.Temporary? ==> !Paired(dir, n)
    ensures Settled(dir)
  {
    forall t | Published(t) in dir.names ensures dir.inodes[dir.names[Published(t)]].links == 1 {
      assert NameOk(dir, Published(t)) && PairOk(dir, t);
    }
  }

  // ----- what an operation refuses

  /** What the caller supplies out of band. */
  datatype Dependencies = Dependencies(
    authority: Authority, signer: Signer, now: int, verifySignature: (Payload, string) -> bool)

  function VerifyEnvelope(envelope: Envelope, deps: Dependencies, operation: Operation): Option<Error> {
    var payload := envelope.payload;
    if envelope.signature == "" then Some(GrantInvalid)
    else if !ValidPayload(payload) then Some(GrantTtlInvalid)
    else if payload.Operation() != operation then Some(OperationMismatch)
    else if payload.authority != deps.authority || payload.signer != deps.signer then Some(BindingMismatch)
    else if !deps.verifySignature(payload, envelope.signature) then Some(SignatureInvalid)
    else None
  }

  ghost function ReservedRefusal(l: Logical, envelope: Envelope): Option<Error> {
    if !Held(l, envelope) then Some(StateCorrupt)
    else if l.grants[GrantId(envelope.payload)].ack.Some? then Some(AlreadyConsumed)
    else None
  }

  ghost function NewRefusal(l: Logical, envelope: Envelope, now: int): Option<Error> {
    if now < envelope.payload.issuedAt then Some(NotYetValid)
    else if envelope.payload.expiresAt <= now then Some(Expired)
    else if envelope.payload.ReleaseGrant? && !Active(l, envelope.payload.activeMarker) then Some(MarkerMismatch)
    else None
  }

  /** The error, if any, with which an operation is refused before it reserves or resumes. */
  ghost function BeginRefusal(l: Logical, envelope: Envelope, deps: Dependencies, operation: Operation): Option<Error>
    requires Inv(l)
  {
    if VerifyEnvelope(envelope, deps, operation).Some? then VerifyEnvelope(envelope, deps, operation)
    else if l.grants[GrantId(envelope.payload)] != NO_FILES then ReservedRefusal(l, envelope)
    else NewRefusal(l, envelope, deps.now)
  }

  /** The store with the grant reserved: as it is, or after the reservation this run makes. */
  ghost function Reserved(l: Logical, envelope: Envelope, now: int): Logical
    requires Inv(l)
  {
    if l.grants[GrantId(envelope.payload)] == NO_FILES && Allowed(l, Reserve, envelope, now)
    then Apply(l, Reserve, envelope, now) else l
  }

  /** The error, if any, that stops a reserved grant's operation. */
  ghost function FinishRefusal(l: Logical, envelope: Envelope): Option<Error>
    requires Defined(l) && Held(l, envelope)
  {
    var d, files := MarkerDigestOf(envelope), l.grants[GrantId(envelope.payload)];
    match envelope.payload
    case EnterGrant(_, _, _, _) =>
      if files.terminal.None? && l.marker.Some? && !Active(l, d) then Some(AlreadyActive) else None
    case ReleaseGrant(_, _, _, _, _) =>
      if l.claims[d].Some? && !OwnsClaim(l, envelope) then Some(StateCorrupt)
      else if files.terminal.None? && !Active(l, d) then Some(MarkerMismatch)
      else if files.terminal.None? && !EnterConsumed(l, d) then Some(EnterNotTerminal)
      else None
  }

  /** The error an operation ends with, from the store it starts in; None when it completes. */
  ghost function Refusal(l: Logical, envelope: Envelope, deps: Dependencies, operation: Operation): Option<Error>
    requires Inv(l)
  {
    if BeginRefusal(l, envelope, deps, operation).Some? then BeginRefusal(l, envelope, deps, operation)
    else
      var m := Reserved(l, envelope, deps.now);
      if Defined(m) && Held(m, envelope) then FinishRefusal(m, envelope) else Some(StateCorrupt)
  }

  // ----- what a grant must be, stated without the checks

  /** A signed grant of this operation, for the loaded authority and signer, with a window of at most
      five minutes. */
  predicate Genuine(envelope: Envelope, deps: Dependencies, operation: Operation) {
    var payload := envelope.payload;
    && SoundButForSignature(envelope, deps, operation)
    && deps.verifySignature(payload, envelope.signature)
  }

  predicate SoundButForSignature(envelope: Envelope, deps: Dependencies, operation: Operation) {
    var payload := envelope.payload;
    && envelope.signature != ""
    && 0 < payload.expiresAt - payload.issuedAt <= 300_000
    && (if operation.EnterQuarantine? then payload.EnterGrant? else payload.ReleaseGrant?)
    && payload.authority == deps.authority && payload.signer == deps.signer
  }

  /** A grant that is fresh, in its window, and for a release about the active marker; or one this
      envelope has reserved and that is not acknowledged yet. */
  predicate Welcome(l: Logical, envelope: Envelope, now: int) {
    var g := GrantId(envelope.payload);
    && g in l.grants
    && if l.grants[g] == NO_FILES then
         && envelope.payload.issuedAt <= now < envelope.payload.expiresAt
         && (envelope.payload.ReleaseGrant? ==>
               l.marker.Some? && OfMarker(l.marker.value) == envelope.payload.activeMarker)
       else
         && l.grants[g].reservation.Some? && l.grants[g].reservation.value.envelope == envelope
         && l.grants[g].ack.None?
  }

  lemma GenuineIsVerified(envelope: Envelope, deps: Dependencies, operation: Operation)
    ensures Genuine(envelope, deps, operation) <==> VerifyEnvelope(envelope, deps, operation).None?
  {
  }

  /** An operation is let in exactly with a genuine grant that is welcome; a grant that fails nothing
      but its signature is refused for its signature. */
  lemma LetIn(l: Logical, envelope: Envelope, deps: Dependencies, operation: Operation)
    requires Inv(l)
    ensures BeginRefusal(l, envelope, deps, operation).None?
            <==> Genuine(envelope, deps, operation) && Welcome(l, envelope, deps.now)
    ensures SoundButForSignature(envelope, deps, operation) && !Genuine(envelope, deps, operation) ==>
              BeginRefusal(l, envelope, deps, operation) == Some(SignatureInvalid)
  {
  }

  /** Which error a grant that is not let in gets. */
  lemma WhyNotLetIn(l: Logical, envelope: Envelope, deps: Dependencies, operation: Operation)
    requires Inv(l)
    ensures var payload, refusal := envelope.payload, BeginRefusal(l, envelope, deps, operation);
            var lifetime, unreserved := payload.expiresAt - payload.issuedAt, l.grants[GrantId(payload)] == NO_FILES;
            && (envelope.signature == "" ==> refusal == Some(GrantInvalid))
            && (envelope.signature != "" && !(0 < lifetime <= 300_000) ==> refusal == Some(GrantTtlInvalid))
            && (envelope.signature != "" && 0 < lifetime <= 300_000 ==>
                  && (payload.EnterGrant? != operation.EnterQuarantine? ==> refusal == Some(OperationMismatch))
                  && (payload.EnterGrant? == operation.EnterQuarantine?
                      && (payload.authority != deps.authority || payload.signer != deps.signer) ==>
                        refusal == Some(BindingMismatch)))
            && (Genuine(envelope, deps, operation) && unreserved ==>
                  && (deps.now < payload.issuedAt ==> refusal == Some(NotYetValid))
                  && (payload.expiresAt <= deps.now ==> refusal == Some(Expired))
                  && (payload.issuedAt <= deps.now < payload.expiresAt && refusal.Some? ==>
                        refusal == Some(MarkerMismatch)))
            && (Genuine(envelope, deps, operation) && !unreserved && refusal.Some? ==>
                  refusal == Some(if Held(l, envelope) then AlreadyConsumed else StateCorrupt))
  {
  }

  /** Which error a grant that is let in can still get: for an enter that another marker is active; for
      a release that another one has the claim, that its marker is not active, or that its enter is
      not consumed. A grant whose effects are recorded gets none but the second. */
  lemma WhyNotFinished(l: Logical, envelope: Envelope)
    requires Inv(l) && Held(l, envelope)
    ensures var d, files, refusal := MarkerDigestOf(envelope), l.grants[GrantId(envelope.payload)],
                                     FinishRefusal(l, envelope);
            && (envelope.payload.EnterGrant? ==>
                  (refusal == Some(AlreadyActive)
                   <==> files.terminal.None? && l.marker.Some? && OfMarker(l.marker.value) != d)
                  && (refusal.Some? ==> refusal == Some(AlreadyActive)))
            && (envelope.payload.ReleaseGrant? ==>
                  var taken := l.claims[d].Some? && l.claims[d].value.releaseGrant != GrantId(envelope.payload);
                  && (taken ==> refusal == Some(StateCorrupt))
                  && (refusal.None? ==> files.terminal.Some? || (Active(l, d) && EnterConsumed(l, d)))
                  && (files.terminal.Some? && refusal.Some? ==> refusal == Some(StateCorrupt))
                  && (refusal == Some(MarkerMismatch) ==> !Active(l, d))
                  && (refusal == Some(EnterNotTerminal) ==> Active(l, d) && !EnterConsumed(l, d)))
  {
  }

  lemma ReservationTells(store: Store, ledger: seq<Audit>, unused: nat, g: GrantId)
    requires Layout(store, unused) && Inv(View(store, ledger))
    ensures View(store, ledger).grants[g] != NO_FILES <==>
              GrantDir(g) in store && Published(ReservationFile) in store[GrantDir(g)].names
  {
    var l := View(store, ledger);
    assert GrantOk(l, g);
    assert l.grants[g] == FilesAt(store, g);
    if GrantDir(g) in store {
      PublishedIsFound(store[GrantDir(g)], ReservationFile, unused);
    }
  }

  /** A reservation made now is held by its envelope, and nothing else changes. */
  lemma ReserveHolds(l: Logical, envelope: Envelope, deps: Dependencies, operation: Operation)
    requires Inv(l) && BeginRefusal(l, envelope, deps, operation).None?
    ensures var m := Reserved(l, envelope, deps.now);
            && Defined(m) && Held(m, envelope)
            && (l.grants[GrantId(envelope.payload)] == NO_FILES ==>
                  && Allowed(l, Reserve, envelope, deps.now) && m == Apply(l, Reserve, envelope, deps.now)
                  && m.grants[GrantId(envelope.payload)]
                     == FirstFiles(Full(Reservation(envelope, deps.now)), 1))
            && (l.grants[GrantId(envelope.payload)] != NO_FILES ==> m == l)
            && m.grants[GrantId(envelope.payload)].ack.None?
  {
    assert GrantOk(l, GrantId(envelope.payload));
  }

  // ----- steps of a reserved grant

  /** The store with the first n of the grant's files. */
  ghost function WithFiles(l: Logical, envelope: Envelope, n: nat): Logical
    requires Held(l, envelope)
  {
    var g := GrantId(envelope.payload);
    l.(grants := l.grants[g := FirstFiles(Full(l.grants[g].reservation.value), n)])
  }

  /** A grant still to be acknowledged, whose marker is in the state its effects need. */
  ghost predicate Underway(l: Logical, envelope: Envelope) {
    && Inv(l) && Held(l, envelope) && l.grants[GrantId(envelope.payload)].ack.None?
  }

  lemma UnderwayFiles(l: Logical, envelope: Envelope)
    requires Underway(l, envelope)
    ensures var files := l.grants[GrantId(envelope.payload)];
            && files.reservation.Some? && 1 <= Count(files) <= 4
            && (files.receipt.Some? <==> 2 <= Count(files))
            && (files.terminal.Some? <==> 3 <= Count(files))
            && (files.audit.Some? <==> 4 <= Count(files))
            && l == WithFiles(l, envelope, Count(files))
  {
    assert GrantOk(l, GrantId(envelope.payload));
  }

  lemma EffectAllowed(l: Logical, envelope: Envelope, n: nat, now: int)
    requires Underway(l, envelope) && Effective(l, envelope) && 2 <= n <= 3
    requires Count(l.grants[GrantId(envelope.payload)]) == n - 1
    ensures Allowed(l, GrantStep(n), envelope, now)
    ensures var m := Apply(l, GrantStep(n), envelope, now);
            && m == WithFiles(l, envelope, n) && Held(m, envelope) && Underway(m, envelope)
            && Count(m.grants[GrantId(envelope.payload)]) == n
            && Effective(m, envelope)
            && m.grants[GrantId(envelope.payload)].reservation == l.grants[GrantId(envelope.payload)].reservation
            && WithFiles(m, envelope, 3) == WithFiles(l, envelope, 3)
  {
    assert GrantOk(l, GrantId(envelope.payload));
    StepKeepsInv(l, GrantStep(n), envelope, now);
  }

  /** Everything before the audit is recorded, and the marker is where the operation leaves it. */
  ghost predicate Effected(l: Logical, envelope: Envelope) {
    && Underway(l, envelope)
    && 3 <= Count(l.grants[GrantId(envelope.payload)])
    && (envelope.payload.ReleaseGrant? ==> !Active(l, envelope.payload.activeMarker))
  }

  lemma AuditAllowed(l: Logical, envelope: Envelope, now: int)
    requires Effected(l, envelope)
    ensures var files := l.grants[GrantId(envelope.payload)];
            && (files.audit.None? ==> Allowed(l, GrantStep(4), envelope, now))
            && (files.audit.Some? ==> Allowed(l, AppendAudit, envelope, now))
            && (files.audit.Some? && files.audit.value in l.ledger ==> Allowed(l, GrantStep(5), envelope, now))
  {
    UnderwayFiles(l, envelope);
  }

  lemma AuditSteps(l: Logical, step: Step, envelope: Envelope, now: int)
    requires Effected(l, envelope) && Allowed(l, step, envelope, now)
    requires step == GrantStep(4) || step == AppendAudit || step == GrantStep(5)
    ensures var m := Apply(l, step, envelope, now);
            var before, after := l.grants[GrantId(envelope.payload)], m.grants[GrantId(envelope.payload)];
            && Inv(m) && Held(m, envelope) && after.reservation == before.reservation
            && after.audit == Full(before.reservation.value).audit
            && (step == GrantStep(5) ==> Finished(m, envelope))
            && (step != GrantStep(5) ==> Effected(m, envelope) && after.audit.Some?)
            && (step == AppendAudit ==> after.audit.value in m.ledger)
  {
    UnderwayFiles(l, envelope);
    StepKeepsInv(l, step, envelope, now);
    assert GrantOk(l, GrantId(envelope.payload));
  }

  /** Where an enter stands: consumed, refused, or with its marker active or still to be made. */
  lemma EnterCases(l: Logical, envelope: Envelope, now: int)
    requires Underway(l, envelope) && envelope.payload.EnterGrant?
    ensures var files := l.grants[GrantId(envelope.payload)];
            && (files.terminal.Some? ==> Effected(l, envelope) && FinishRefusal(l, envelope).None?)
            && (files.terminal.None? && l.marker.Some? && OfMarker(l.marker.value) != MarkerDigestOf(envelope) ==>
                  FinishRefusal(l, envelope) == Some(AlreadyActive))
            && (files.terminal.None? && l.marker.Some? && OfMarker(l.marker.value) == MarkerDigestOf(envelope) ==>
                  FinishRefusal(l, envelope).None? && Effective(l, envelope))
            && (files.terminal.None? && l.marker.None? ==>
                  && FinishRefusal(l, envelope).None?
                  && Allowed(l, PublishMarker, envelope, now)
                  && var m := Apply(l, PublishMarker, envelope, now);
                     Held(m, envelope) && Underway(m, envelope) && Effective(m, envelope)
                     && m.grants == l.grants)
  {
    UnderwayFiles(l, envelope);
    if Allowed(l, PublishMarker, envelope, now) {
      StepKeepsInv(l, PublishMarker, envelope, now);
    }
  }

  lemma EffectsRecorded(l: Logical, envelope: Envelope)
    requires Underway(l, envelope) && Count(l.grants[GrantId(envelope.payload)]) == 3
    requires envelope.payload.EnterGrant?
    ensures Effected(l, envelope)
  {
  }

  /** Where a release that holds its claim stands before its receipt and terminal. */
  lemma ReleaseCases(l: Logical, envelope: Envelope)
    requires Underway(l, envelope) && envelope.payload.ReleaseGrant? && OwnsClaim(l, envelope)
    requires l.grants[GrantId(envelope.payload)].terminal.None?
    ensures Count(l.grants[GrantId(envelope.payload)]) < 3
    ensures var d := envelope.payload.activeMarker;
            && (l.marker.None? || OfMarker(l.marker.value) != d ==>
                  FinishRefusal(l, envelope) == Some(MarkerMismatch))
            && (l.marker.Some? && OfMarker(l.marker.value) == d ==>
                  var enter := l.marker.value.enterGrant;
                  && enter in l.grants && l.grants[enter] != NO_FILES
                  && (l.grants[enter].terminal.None? ==> FinishRefusal(l, envelope) == Some(EnterNotTerminal))
                  && (l.grants[enter].terminal.Some? ==>
                        FinishRefusal(l, envelope).None? && Effective(l, envelope)))
  {
    UnderwayFiles(l, envelope);
  }

  lemma EffectsKeepClaim(l: Logical, m: Logical, envelope: Envelope)
    requires Underway(l, envelope) && OwnsClaim(l, envelope)
    requires m == WithFiles(l, envelope, 3) && Underway(m, envelope)
    ensures OwnsClaim(m, envelope) && m.grants[GrantId(envelope.payload)].terminal.Some?
  {
  }

  lemma WithdrawCases(l: Logical, envelope: Envelope, now: int)
    requires Underway(l, envelope) && envelope.payload.ReleaseGrant? && OwnsClaim(l, envelope)
    requires l.grants[GrantId(envelope.payload)].terminal.Some?
    ensures var d := envelope.payload.activeMarker;
            && (l.marker.None? || OfMarker(l.marker.value) != d ==> Effected(l, envelope))
            && (l.marker.Some? && OfMarker(l.marker.value) == d ==>
                  && Allowed(l, RemoveMarker, envelope, now)
                  && Effected(Apply(l, RemoveMarker, envelope, now), envelope))
  {
    UnderwayFiles(l, envelope);
    if Allowed(l, RemoveMarker, envelope, now) {
      StepKeepsInv(l, RemoveMarker, envelope, now);
    }
  }

  lemma ClaimedCases(l: Logical, envelope: Envelope, reservation: Reservation)
    requires Underway(l, envelope) && envelope.payload.ReleaseGrant?
    requires l.grants[GrantId(envelope.payload)].reservation == Some(reservation)
    ensures ClaimedByOther(l, envelope, reservation) ==> FinishRefusal(l, envelope) == Some(StateCorrupt)
    ensures reservation.envelope == envelope
    ensures !ClaimedByOther(l, envelope, reservation) ==>
              var m := Claimed(l, reservation);
              && Underway(m, envelope) && OwnsClaim(m, envelope)
              && m.grants == l.grants
              && FinishRefusal(m, envelope) == FinishRefusal(l, envelope)
              && (l.grants[GrantId(envelope.payload)].terminal.Some? ==> FinishRefusal(l, envelope).None?)
  {
    UnderwayFiles(l, envelope);
    var m := Claimed(l, reservation);
    if l.claims[envelope.payload.activeMarker].None? {
      StepKeepsInv(l, PublishClaim, envelope, 0);
    } else if !ClaimedByOther(l, envelope, reservation) {
      assert m.claims == l.claims;
    }
  }

  lemma BegunUnderway(l: Logical, envelope: Envelope, deps: Dependencies, operation: Operation)
    requires Inv(l) && Inv(Reserved(l, envelope, deps.now))
    requires BeginRefusal(l, envelope, deps, operation).None?
    ensures var m := Reserved(l, envelope, deps.now);
            && Underway(m, envelope) && Held(m, envelope)
            && Refusal(l, envelope, deps, operation) == FinishRefusal(m, envelope)
    ensures envelope.payload.Operation() == operation
  {
    ReserveHolds(l, envelope, deps, operation);
  }

  /** A run that finishes a grant leaves the completed records of the store it began in. */
  lemma FinishedAsCompleted(l: Logical, events: seq<Event>, m: Logical, envelope: Envelope)
    requires Underway(l, envelope) && Run(l, events, m) && By(events, envelope)
    requires FinishRefusal(l, envelope).None? && Finished(m, envelope)
    ensures Durable(m) == Completed(l, envelope)
  {
    UnderwayFiles(l, envelope);
    assert CanFinish(l, envelope);
    ResumptionKeepsOutcome(l, events, m, envelope);
  }

  lemma JoinRuns(l: Logical, a: seq<Event>, m: Logical, b: seq<Event>, n: Logical, envelope: Envelope)
    requires Run(l, a, m) && Run(m, b, n) && By(a, envelope) && By(b, envelope)
    ensures Run(l, a + b, n) && By(a + b, envelope)
  {
    RunConcat(l, a, m, b, n);
  }

  /** Stopping a reserved grant that would complete, anywhere, any number of times, leaves it either
      complete with the same durable records, or still accepted, under any clock and past its
      expiry, with the same records to come. */
  lemma ResumedRunCompletes(l: Logical, events: seq<Event>, m: Logical, envelope: Envelope,
                            deps: Dependencies, later: Dependencies, operation: Operation)
    requires Inv(l) && Held(l, envelope) && Refusal(l, envelope, deps, operation).None?
    requires Run(l, events, m) && By(events, envelope)
    requires later == deps.(now := later.now)
    ensures Inv(m)
    ensures || (Finished(m, envelope) && Durable(m) == Completed(l, envelope))
            || (&& Refusal(m, envelope, later, operation).None?
                && Reserved(m, envelope, later.now) == m
                && Held(m, envelope) && Completed(m, envelope) == Completed(l, envelope))
  {
    var g := GrantId(envelope.payload);
    assert GrantOk(l, g);
    assert Reserved(l, envelope, deps.now) == l;
    assert CanFinish(l, envelope);
    RunKeepsInv(l, events, m);
    ResumptionKeepsOutcome(l, events, m, envelope);
    if CanFinish(m, envelope) {
      assert Reserved(m, envelope, later.now) == m;
    }
  }

  // ----- a grant's files in order

  /** The write of a grant's n-th file. */
  function GrantStep(n: nat): Step
    requires 1 <= n <= 5
  {
    if n == 1 then Reserve else if n == 2 then PublishReceipt else if n == 3 then PublishTerminal
    else if n == 4 then PublishAudit else PublishAck
  }

  lemma PrefixChainAccepted(files: Files)
    requires files.reservation.Some?
    requires files == FirstFiles(Full(files.reservation.value), Count(files))
    requires WithinWindow(files.reservation.value.envelope.payload, files.reservation.value.reservedAt)
    ensures ChainAccepted(files)
  {
  }

  /** A grant's files begin with its reservation, if there are any, and form a chain. */
  lemma GrantFilesTell(store: Store, ledger: seq<Audit>, g: GrantId)
    requires Inv(View(store, ledger))
    ensures var files := FilesAt(store, g);
            && View(store, ledger).grants[g] == files
            && (GrantDir(g) !in store || files.reservation.None? ==> files == NO_FILES)
            && (files.reservation.Some? ==>
                  GrantId(files.reservation.value.envelope.payload) == g && ChainAccepted(files))
  {
    var files := FilesAt(store, g);
    assert GrantOk(View(store, ledger), g);
    if files.reservation.Some? {
      PrefixChainAccepted(files);
    }
  }

  lemma ViewFiles(store: Store, ledger: seq<Audit>, g: GrantId)
    ensures View(store, ledger).grants[g] == FilesAt(store, g)
  {
  }

  lemma GrantRecordFits(g: GrantId, reservation: Reservation, n: nat)
    requires 1 <= n <= 5
    ensures AllowedTarget(GrantDir(g), GrantTarget(n)) && Fits(GrantTarget(n), GrantRecord(reservation, n))
  {
  }

  /** Each grant write turns a prefix of the grant's files into the next longer one. */
  lemma GrantStepIsWrite(l: Logical, n: nat, envelope: Envelope, reservation: Reservation, now: int)
    requires Inv(l) && 1 <= n <= 5 && Allowed(l, GrantStep(n), envelope, now)
    requires n == 1 ==> reservation == Reservation(envelope, now)
    requires n != 1 ==> l.grants[GrantId(envelope.payload)].reservation == Some(reservation)
    ensures var g := GrantId(envelope.payload);
            && l.grants[g] == FirstFiles(Full(reservation), n - 1)
            && Apply(l, GrantStep(n), envelope, now)
               == l.(grants := l.grants[g := FirstFiles(Full(reservation), n)])
  {
    assert GrantOk(l, GrantId(envelope.payload));
  }

  lemma NoMarkerRecord(store: Store, unused: nat)
    requires Layout(store, unused)
    ensures MarkerAt(store).None? <==> Find(store, StateDir, MarkerFile).None?
    ensures MarkerAt(store).Some? ==>
              Find(store, StateDir, MarkerFile) == Some(MarkerRecord(MarkerAt(store).value))
  {
    if StateDir in store {
      PublishedIsFound(store[StateDir], MarkerFile, unused);
    }
  }

  lemma ViewMarker(store: Store, ledger: seq<Audit>)
    ensures View(store, ledger).marker == MarkerAt(store)
  {
  }

  lemma ActiveMarkerFile(store: Store, ledger: seq<Audit>, unused: nat)
    requires Layout(store, unused)
    ensures View(store, ledger).marker.Some? && StateDir in store ==>
              Published(MarkerFile) in store[StateDir].names
  {
    if StateDir in store {
      PublishedIsFound(store[StateDir], MarkerFile, unused);
    }
  }

  lemma MarkerStepIsWrite(l: Logical, step: Step, envelope: Envelope, now: int)
    requires Allowed(l, step, envelope, now) && (step.PublishMarker? || step.RemoveMarker?)
    ensures l.marker.Some? <==> step.RemoveMarker?
    ensures Apply(l, step, envelope, now)
         == l.(marker := if step.RemoveMarker? then None
                         else Some(CreateMarker(envelope.payload, OfEnvelope(envelope))))
  {
  }

  lemma ClaimsRead(store: Store, ledger: seq<Audit>, d: Digest, unused: nat)
    requires Layout(store, unused)
    ensures View(store, ledger).claims[d] == ClaimAt(store, d)
    ensures ClaimAt(store, d).None? <==> Find(store, ClaimsDir, ClaimFile(d)).None?
    ensures ClaimAt(store, d).Some? ==>
              Find(store, ClaimsDir, ClaimFile(d)) == Some(ClaimRecord(ClaimAt(store, d).value))
  {
    if ClaimsDir in store {
      PublishedIsFound(store[ClaimsDir], ClaimFile(d), unused);
    }
  }

  ghost predicate ClaimedByOther(l: Logical, envelope: Envelope, reservation: Reservation) {
    && envelope.payload.ReleaseGrant? && reservation.envelope == envelope
    && envelope.payload.activeMarker in l.claims
    && l.claims[envelope.payload.activeMarker] !in {None, Some(ClaimBy(reservation))}
  }

  /** The store once the reservation's claim is taken. */
  ghost function Claimed(l: Logical, reservation: Reservation): Logical
    requires reservation.envelope.payload.ReleaseGrant?
  {
    l.(claims := l.claims[reservation.envelope.payload.activeMarker := Some(ClaimBy(reservation))])
  }

  /** A release's claim is filed under the marker it names. */
  lemma ClaimFits(reservation: Reservation)
    requires reservation.envelope.payload.ReleaseGrant?
    ensures var claim := ClaimBy(reservation);
            && claim.marker == reservation.envelope.payload.activeMarker
            && Fits(ClaimFile(claim.marker), ClaimRecord(claim))
            && AllowedTarget(ClaimsDir, ClaimFile(claim.marker))
  {
  }

  lemma ClaimStep(l: Logical, envelope: Envelope, reservation: Reservation, now: int)
    requires Inv(l) && Held(l, envelope) && envelope.payload.ReleaseGrant?
    requires l.grants[GrantId(envelope.payload)].reservation == Some(reservation)
    requires l.grants[GrantId(envelope.payload)].ack.None?
    ensures reservation.envelope == envelope && envelope.payload.activeMarker in l.claims
    ensures l.claims[envelope.payload.activeMarker].None? ==>
              Allowed(l, PublishClaim, envelope, now)
              && Apply(l, PublishClaim, envelope, now) == Claimed(l, reservation)
    ensures l.claims[envelope.payload.activeMarker] == Some(ClaimBy(reservation)) ==>
              Claimed(l, reservation) == l
  {
    if l.claims[envelope.payload.activeMarker] == Some(ClaimBy(reservation)) {
      assert Claimed(l, reservation).claims == l.claims;
    }
  }

  lemma ClaimedView(before: Store, after: Store, reservation: Reservation, ledger: seq<Audit>)
    requires reservation.envelope.payload.ReleaseGrant?
    requires var claim := ClaimBy(reservation);
             Publishes(before, after, ClaimsDir, ClaimFile(claim.marker), Some(ClaimRecord(claim)))
    ensures View(after, ledger) == Claimed(View(before, ledger), reservation)
  {
    ClaimFileView(before, after, ClaimBy(reservation), ledger);
  }

  /** Publishing a claim is one protocol step, or none when the claim was already there. */
  lemma ClaimProgress(before: Store, after: Store, ledger: seq<Audit>, unused: nat, envelope: Envelope,
                      reservation: Reservation, now: int)
    returns (events: seq<Event>)
    requires Layout(before, unused) && Inv(View(before, ledger)) && envelope.payload.ReleaseGrant?
    requires Held(View(before, ledger), envelope)
    requires View(before, ledger).grants[GrantId(envelope.payload)].reservation == Some(reservation)
    requires View(before, ledger).grants[GrantId(envelope.payload)].ack.None?
    requires var t, r := ClaimFile(envelope.payload.activeMarker), Some(ClaimRecord(ClaimBy(reservation)));
             || SameFinds(before, after)
             || (Find(before, ClaimsDir, t) in {None, r} && Publishes(before, after, ClaimsDir, t, r))
    ensures Run(View(before, ledger), events, View(after, ledger)) && By(events, envelope)
    ensures Inv(View(after, ledger))
    ensures SameFinds(before, after) ==> View(after, ledger) == View(before, ledger)
    ensures Publishes(before, after, ClaimsDir, ClaimFile(envelope.payload.activeMarker),
                      Some(ClaimRecord(ClaimBy(reservation))))
            ==> View(after, ledger) == Claimed(View(before, ledger), reservation)
  {
    var l, claim := View(before, ledger), ClaimBy(reservation);
    ClaimFits(reservation);
    ClaimStep(l, envelope, reservation, now);
    ClaimsRead(before, ledger, envelope.payload.activeMarker, unused);
    hide Inv, Layout, View, Apply, Allowed, Run, SameFinds, Publishes, Claimed, Held, Defined;
    var r := Some(ClaimRecord(claim));
    if SameFinds(before, after) {
      SameView(before, after, ledger);
      NoRun(l, envelope);
      events := [];
      if Publishes(before, after, ClaimsDir, ClaimFile(claim.marker), r) {
        PublishesFinds(before, after, ClaimsDir, ClaimFile(claim.marker), r);
      }
    } else {
      ClaimedView(before, after, reservation, ledger);
      PublishesFinds(before, after, ClaimsDir, ClaimFile(claim.marker), r);
      StepKeepsInv(l, PublishClaim, envelope, now);
      events := OneRun(l, PublishClaim, envelope, now);
    }
  }

  lemma PublishesFinds(before: Store, after: Store, p: Place, t: Target, r: Option<Record>)
    requires Publishes(before, after, p, t, r)
    ensures Find(after, p, t) == r
    ensures Find(before, p, t) == r ==> SameFinds(before, after)
    ensures SameFinds(before, after) ==> Find(before, p, t) == r
  {
  }

  lemma NoRun(l: Logical, envelope: Envelope)
    ensures Run(l, [], l) && By([], envelope)
  {
  }

  lemma OneRun(l: Logical, step: Step, envelope: Envelope, now: int) returns (events: seq<Event>)
    requires Allowed(l, step, envelope, now)
    ensures Run(l, events, Apply(l, step, envelope, now)) && By(events, envelope)
    ensures events == [Event(envelope, now, step)]
  {
    events := [Event(envelope, now, step)];
    assert Run(Apply(l, step, envelope, now), events[1..], Apply(l, step, envelope, now));
  }

  lemma NextFileMissing(store: Store, g: GrantId, reservation: Reservation, n: nat, unused: nat)
    requires Layout(store, unused) && GrantDir(g) in store && 1 <= n <= 5
    requires FilesAt(store, g) == FirstFiles(Full(reservation), n - 1)
    ensures Find(store, GrantDir(g), GrantTarget(n)).None?
  {
    PublishedIsFound(store[GrantDir(g)], GrantTarget(n), unused);
  }

  // ----- the volume

  lemma NothingStored()
    ensures View(map[], []) == Empty() && Layout(map[], 0) && Inv(Empty())
  {
    var l, m := View(map[], []), Empty();
    forall g: GrantId ensures l.grants[g] == m.grants[g] {
    }
    forall d: Digest ensures l.claims[d] == m.claims[d] {
    }
    assert l.grants == m.grants && l.claims == m.claims;
    ReachableKeepsInv([], m);
  }

  lemma LedgerAppends(store: Store, ledger: seq<Audit>, record: Audit, envelope: Envelope, now: int)
    requires var l := View(store, ledger);
             Allowed(l, AppendAudit, envelope, now) && l.grants[GrantId(envelope.payload)].audit == Some(record)
    ensures View(store, ledger + [record]) == Apply(View(store, ledger), AppendAudit, envelope, now)
  {
  }

  /** A fresh temporary file is torn, and is none of those watched. */
  lemma CreatedStore(store: Store, place: Place, t: Target, r: Record, unused: nat, watched: set<(Place, Name)>)
    requires Layout(store, unused) && Watched(store, watched)
    requires place in store && AllowedTarget(place, t) && Fits(t, r)
    ensures var n, after := Temporary(t, r, unused), store[place := Create(store[place], t, r, unused)];
            && Layout(after, unused + 1) && Watched(after, watched) && SameFinds(store, after)
            && (place, n) !in watched && StuckIn(after[place], n, false)
            && n in after[place].names && after[place].inodes[after[place].names[n]].links == 1
  {
    hide DirOk, Fits, SameFinds, RecordAt;
    var dir := Create(store[place], t, r, unused);
    CreateKeeps(store[place], t, r, unused);
    CreateKeepsWatched(store, place, t, r, unused, watched);
    LayoutGrows(store, unused);
    SameDirSameFinds(store, store[place := dir], place);
  }

  lemma CreateKeepsWatched(store: Store, place: Place, t: Target, r: Record, unused: nat, watched: set<(Place, Name)>)
    requires Layout(store, unused) && Watched(store, watched) && place in store
    ensures Watched(store[place := Create(store[place], t, r, unused)], watched)
    ensures (place, Temporary(t, r, unused)) !in watched
  {
    hide StuckIn, Create;
    var dir := Create(store[place], t, r, unused);
    forall m | (place, m) in watched
      ensures StuckIn(dir, m, !place.StateDir?) && m != Temporary(t, r, unused)
    {
      assert Stuck(store, (place, m).0, (place, m).1);
      CreateKeepsStuck(store[place], t, r, unused, m, !place.StateDir?);
    }
    WatchedAfter(store, place, dir, watched);
  }

  class Volume {
    var store: Store
    var ledger: seq<Audit>
    /** Above every inode and UUID in use. */
    var unused: nat
    /** Durable effects left before the machine stops; negative when it never does. */
    var stopAfter: int
    /** Some of the temporary names nothing ever removes. */
    ghost var watched: set<(Place, Name)>

    /** Nothing has been written yet. */
    constructor ()
      ensures Valid() && Records() == Empty() && stopAfter < 0
    {
      store, ledger, unused, stopAfter, watched := map[], [], 0, -1, {};
      new;
      NothingStored();
    }

    ghost predicate Sound()
      reads this
    {
      Layout(store, unused) && Watched(store, watched)
    }

    ghost function Records(): Logical
      reads this
    {
      View(store, ledger)
    }

    method Effect() returns (o: Outcome<()>)
      modifies this`stopAfter
      ensures !o.Failed? && (old(stopAfter) < 0 ==> !o.Stopped? && stopAfter < 0)
      ensures if old(stopAfter) == 0 then o.Stopped? else o.Done? && stopAfter == old(stopAfter) - 1
    {
      if stopAfter == 0 {
        return Stopped;
      }
      stopAfter := stopAfter - 1;
      return Done(());
    }

    /** One temporary name of a directory: removed when it duplicates its published record. */
    method ReconcileName(place: Place, n: Name) returns (o: Outcome<()>)
      requires Sound() && place in store && n in store[place].names && n.Temporary?
      modifies this`store, this`stopAfter
      ensures Sound() && place in store && store == old(store)[place := store[place]]
      ensures SameRecords(old(store[place]), store[place])
      ensures AtMostWithout(old(store[place]), store[place], n)
      ensures !o.Failed? && (old(stopAfter) < 0 ==> !o.Stopped? && stopAfter < 0)
      ensures o.Done? && n in store[place].names ==> !Paired(store[place], n)
      ensures o.Done? && Settled(old(store[place])) && n in store[place].names ==> Kept(old(store[place]), n)
    {
      var dir, target := store[place], Published(n.target);
      var inode := dir.inodes[dir.names[n]];
      assert NameOk(dir, n) && (target in dir.names ==> NameOk(dir, target));
      if inode.links != 1 && inode.links != 2 {
        return Failed(StateCorrupt);
      }
      if inode.content.Torn? {
        return Done(());
      }
      if inode.content.record != n.record || !Fits(n.target, inode.content.record) {
        return Failed(StateCorrupt);
      }
      if target !in dir.names {
        return if inode.links == 1 then Done(()) else Failed(StateCorrupt);
      }
      var same := dir.names[target] == dir.names[n];
      if inode.links != if same then 2 else 1 {
        return Failed(StateCorrupt);
      }
      var published := dir.inodes[dir.names[target]];
      if same || (published.links == 1 && published.content == inode.content) {
        o := Effect();
        if o.Done? {
          UnlinkTemporaryKeeps(dir, n, unused);
          forall m | (place, m) in watched && Stuck(store, place, m)
            ensures StuckIn(Unlink(dir, n), m, !place.StateDir?)
          {
            UnlinkTemporaryKeepsStuck(dir, n, unused, m, !place.StateDir?);
          }
          WatchedAfter(store, place, Unlink(dir, n), watched);
          store := store[place := Unlink(dir, n)];
        }
        return;
      }
      return Done(());
    }

    /** Removes the temporary names a stopped publication left beside a published record. From any
        directory that stopped publications can leave it reports no corruption, keeps every
        published record, and leaves each with one link; and where each had one link before, it
        removes exactly the temporary copies of published records. */
    method ReconcileTemporaries(place: Place) returns (o: Outcome<()>)
      requires Sound() && place in store
      modifies this`store, this`stopAfter
      ensures Sound() && place in store && store == old(store)[place := store[place]]
      ensures SameFinds(old(store), store)
      ensures !o.Failed? && (old(stopAfter) < 0 ==> !o.Stopped? && stopAfter < 0)
      ensures o.Done? ==> Settled(store[place]) && Pass(old(store[place]), store[place])
    {
      hide SameRecords, SameFinds, RecordAt, DirOk, Settled, AllowedTarget, Watched, Kept, AtMostWithout, Sweeping,
        Pass;
      ghost var start := store[place];
      SameRecordsReflexive(start);
      var pending := set n | n in store[place].names && n.Temporary?;
      SweepStarts(start, pending);
      while pending != {}
        invariant Sound() && place in store && store == old(store)[place := store[place]]
        invariant SameRecords(start, store[place]) && Sweeping(start, store[place], pending)
        invariant pending <= store[place].names.Keys
        invariant forall n :: n in pending ==> n.Temporary?
        invariant forall n :: n in store[place].names && n.Temporary? && n !in pending ==>
                    !Paired(store[place], n)
        invariant old(stopAfter) < 0 ==> stopAfter < 0
        decreases pending
      {
        var n :| n in pending;
        assert (pending - {n}) + {n} == pending;
        pending := pending - {n};
        ghost var dir := store[place];
        o := ReconcileName(place, n);
        SameRecordsTransitive(start, dir, store[place]);
        if !o.Done? {
          SameDirSameFinds(old(store), store, place);
          return;
        }
        StillUnpaired(dir, store[place], n, pending);
        SweepOn(start, dir, store[place], pending, n, unused);
      }
      UnpairedIsSettled(store[place], unused);
      SweepEnds(start, store[place]);
      SameDirSameFinds(old(store), store, place);
      return Done(());
    }

    method CreateTemporary(place: Place, t: Target, r: Record) returns (o: Outcome<Name>)
      requires Sound() && place in store && AllowedTarget(place, t) && Fits(t, r)
      requires Published(t) !in store[place].names
      modifies this`store, this`stopAfter, this`unused
      ensures Sound() && place in store && store == old(store)[place := store[place]]
      ensures SameFinds(old(store), store) && Published(t) !in store[place].names
      ensures o.Done? ==>
                && o.value == Temporary(t, r, old(unused)) && o.value in store[place].names
                && store[place].inodes[store[place].names[o.value]].links == 1
                && (place, o.value) !in watched && StuckIn(store[place], o.value, false)
      ensures if old(stopAfter) == 0 then o.Stopped? else o.Done? && stopAfter == old(stopAfter) - 1
      ensures !o.Failed? && (old(stopAfter) < 0 ==> !o.Stopped? && stopAfter < 0)
    {
      var effect := Effect();
      if effect.Stopped? {
        return Stopped;
      }
      hide Layout, Watched, SameFinds, StuckIn, DirOk, Fits, AllowedTarget;
      CreatedStore(store, place, t, r, unused, watched);
      store := store[place := Create(store[place], t, r, unused)];
      unused := unused + 1;
      return Done(Temporary(t, r, unused - 1));
    }

    method CompleteTemporary(place: Place, n: Name) returns (o: Outcome<()>)
      requires Sound() && place in store && n in store[place].names && n.Temporary?
      requires store[place].inodes[store[place].names[n]].links == 1 && (place, n) !in watched
      modifies this`store, this`stopAfter
      ensures Sound() && place in store && store == old(store)[place := store[place]]
      ensures SameFinds(old(store), store) && store[place].names == old(store[place].names)
      ensures o.Stopped? ==> store == old(store)
      ensures old(stopAfter) == 0 ==> o.Stopped?
      ensures o.Done? ==> store[place].inodes[store[place].names[n]].content.Whole?
      ensures !o.Failed? && (old(stopAfter) < 0 ==> !o.Stopped? && stopAfter < 0)
    {
      o := Effect();
      if o.Done? {
        CompleteKeeps(store[place], n, unused);
        forall m | (place, m) in watched && Stuck(store, place, m)
          ensures StuckIn(Complete(store[place], n), m, !place.StateDir?)
        {
          CompleteKeepsStuck(store[place], n, unused, m, !place.StateDir?);
        }
        WatchedAfter(store, place, Complete(store[place], n), watched);
        store := store[place := Complete(store[place], n)];
        SameDirSameFinds(old(store), store, place);
      }
    }

    method LinkTemporary(place: Place, n: Name) returns (o: Outcome<()>)
      requires Sound() && place in store && n in store[place].names && n.Temporary?
      requires Published(n.target) !in store[place].names
      requires store[place].inodes[store[place].names[n]].content.Whole?
      modifies this`store, this`stopAfter
      ensures Sound() && place in store && store == old(store)[place := store[place]]
      ensures o.Done? ==> n in store[place].names
                          && Publishes(old(store), store, place, n.target, Some(n.record))
      ensures o.Stopped? ==> store == old(store)
      ensures !o.Failed? && (old(stopAfter) < 0 ==> !o.Stopped? && stopAfter < 0)
    {
      o := Effect();
      if o.Done? {
        LinkPublishes(store[place], n, unused);
        forall m | (place, m) in watched && Stuck(store, place, m)
          ensures StuckIn(Link(store[place], n), m, !place.StateDir?)
        {
          LinkKeepsStuck(store[place], n, unused, m, !place.StateDir?);
        }
        WatchedAfter(store, place, Link(store[place], n), watched);
        store := store[place := Link(store[place], n)];
        DirPublishes(old(store), store, place, n.target, Some(n.record));
      }
    }

    method UnlinkTemporary(place: Place, n: Name) returns (o: Outcome<()>)
      requires Sound() && place in store && n in store[place].names && n.Temporary? && (place, n) !in watched
      modifies this`store, this`stopAfter
      ensures Sound() && place in store && store == old(store)[place := store[place]]
      ensures SameFinds(old(store), store)
      ensures !o.Failed? && (old(stopAfter) < 0 ==> !o.Stopped? && stopAfter < 0)
    {
      o := Effect();
      if o.Done? {
        UnlinkTemporaryKeeps(store[place], n, unused);
        forall m | (place, m) in watched && Stuck(store, place, m)
          ensures StuckIn(Unlink(store[place], n), m, !place.StateDir?)
        {
          UnlinkTemporaryKeepsStuck(store[place], n, unused, m, !place.StateDir?);
        }
        WatchedAfter(store, place, Unlink(store[place], n), watched);
        store := store[place := Unlink(store[place], n)];
        SameDirSameFinds(old(store), store, place);
      }
    }

    method WriteTemporary(place: Place, t: Target, r: Record) returns (o: Outcome<Name>)
      requires Sound() && place in store && AllowedTarget(place, t) && Fits(t, r)
      requires Published(t) !in store[place].names
      modifies this`store, this`stopAfter, this`unused
      ensures Sound() && place in store && store == old(store)[place := store[place]]
      ensures SameFinds(old(store), store) && Published(t) !in store[place].names
      ensures o.Done? ==>
                && o.value.Temporary? && o.value.target == t && o.value.record == r
                && o.value in store[place].names
                && store[place].inodes[store[place].names[o.value]].content.Whole?
                && (place, o.value) !in watched
      ensures old(stopAfter) == 1 ==> o.Stopped? && StuckIn(store[place], Temporary(t, r, old(unused)), false)
      ensures !o.Failed? && (old(stopAfter) < 0 ==> !o.Stopped? && stopAfter < 0)
    {
      o := CreateTemporary(place, t, r);
      if o.Done? {
        ghost var created := store;
        var written := CompleteTemporary(place, o.value);
        SameFindsTransitive(old(store), created, store);
        if written.Stopped? {
          return Stopped;
        }
      }
    }

    /** The write, link and unlink that publish a record nobody has published yet. Stopped after one
        effect it leaves a torn file. */
    method PublishNew(place: Place, t: Target, r: Record) returns (o: Outcome<()>)
      requires Sound() && place in store && AllowedTarget(place, t) && Fits(t, r)
      requires Published(t) !in store[place].names
      modifies this`store, this`stopAfter, this`unused
      ensures Sound() && place in store && store == old(store)[place := store[place]]
      ensures o.Done? ==> Publishes(old(store), store, place, t, Some(r))
      ensures o.Stopped? ==>
                (SameFinds(old(store), store) || Publishes(old(store), store, place, t, Some(r)))
      ensures old(stopAfter) == 1 ==>
                o.Stopped? && SameFinds(old(store), store)
                && StuckIn(store[place], Temporary(t, r, old(unused)), false)
      ensures !o.Failed? && (old(stopAfter) < 0 ==> !o.Stopped? && stopAfter < 0)
    {
      hide Watched, StuckIn, SameFinds, Publishes, RecordAt, DirOk, AllowedTarget, Fits;
      var name :- WriteTemporary(place, t, r);
      ghost var written := store;
      o := LinkTemporary(place, name);
      if o.Done? {
        ghost var linked := store;
        SameThenPublishes(old(store), written, linked, place, t, Some(r));
        o := UnlinkTemporary(place, name);
        PublishesThenSame(old(store), linked, store, place, t, Some(r));
      }
    }

    /** Binds a record to its name unless the name already holds exactly that record. However it
        ends, the name's record is either what it was or the new one, whole. */
    method EnsureImmutable(place: Place, t: Target, r: Record) returns (o: Outcome<()>)
      requires Sound() && place in store && AllowedTarget(place, t) && Fits(t, r)
      modifies this`store, this`stopAfter, this`unused
      ensures Sound() && place in store && store == old(store)[place := store[place]]
      ensures o.Done? ==> Publishes(old(store), store, place, t, Some(r))
      ensures o.Done? <==> !o.Stopped? && old(Find(store, place, t)) in {None, Some(r)}
      ensures o.Stopped? ==>
                (SameFinds(old(store), store)
                 || (old(Find(store, place, t)).None? && Publishes(old(store), store, place, t, Some(r))))
      ensures o.Failed? ==> SameFinds(old(store), store) && o.error == StateCorrupt
      ensures old(stopAfter) < 0 ==> !o.Stopped? && stopAfter < 0
    {
      hide Watched, SameFinds, Publishes, RecordAt, Pass, StuckIn, AllowedTarget, DirOk, Fits, Settled;
      o := ReconcileTemporaries(place);
      if !o.Done? {
        return;
      }
      ReadsAsPublished(store, place, t, unused);
      SameFound(old(store), store, place, t);
      if Published(t) in store[place].names {
        var inode := store[place].inodes[store[place].names[Published(t)]];
        if inode.links != 1 || inode.content != Whole(r) {
          return Failed(StateCorrupt);
        }
        AlreadyPublished(old(store), store, place, t, r);
        return Done(());
      }
      ghost var reconciled := store;
      o := PublishNew(place, t, r);
      if o.Stopped? && SameFinds(reconciled, store) {
        SameFindsTransitive(old(store), reconciled, store);
      } else {
        SameThenPublishes(old(store), reconciled, store, place, t, Some(r));
      }
    }

    // ----- reading and publishing records

    /** The invariant every operation keeps, wherever it stops. */
    ghost predicate Valid()
      reads this
    {
      Sound() && Inv(Records())
    }

    method ReadGrantRecord(g: GrantId) returns (o: Outcome<Files>)
      requires Valid()
      modifies this`store, this`stopAfter
      ensures Valid() && Records() == old(Records()) && store.Keys == old(store.Keys)
      ensures o.Done? ==> o.value == Records().grants[g] && o.value.reservation.Some?
      ensures o.Done? ==> GrantDir(g) in store && store == old(store)[GrantDir(g) := store[GrantDir(g)]]
      ensures o.Done? ==> Pass(old(store[GrantDir(g)]), store[GrantDir(g)])
      ensures o.Failed? ==> Records().grants[g] == NO_FILES && o.error == StateCorrupt
      ensures old(stopAfter) < 0 ==> !o.Stopped? && stopAfter < 0
    {
      hide Inv, Layout, View, Watched, FilesAt, ChainAccepted, Settled, Pass, SameFinds;
      GrantFilesTell(store, ledger, g);
      if GrantDir(g) !in store {
        return Failed(StateCorrupt);
      }
      var reconciled := ReconcileTemporaries(GrantDir(g));
      SameView(old(store), store, ledger);
      if reconciled.Stopped? {
        return Stopped;
      }
      GrantFilesTell(store, ledger, g);
      var files := FilesAt(store, g);
      if files.reservation.None? {
        return Failed(StateCorrupt);
      }
      if GrantId(files.reservation.value.envelope.payload) != g || !ChainAccepted(files) {
        return Failed(StateCorrupt);
      }
      return Done(files);
    }

    method ReadMarker() returns (o: Outcome<Option<Marker>>)
      requires Valid()
      modifies this`store, this`stopAfter
      ensures Valid() && Records() == old(Records()) && store.Keys == old(store.Keys)
      ensures o.Done? ==> o.value == Records().marker
      ensures o.Done? && o.value.Some? ==> StateDir in store && Settled(store[StateDir])
      ensures o.Done? && StateDir in store ==> store == old(store)[StateDir := store[StateDir]]
      ensures o.Done? && StateDir in store ==> Pass(old(store[StateDir]), store[StateDir])
      ensures !o.Failed? && (old(stopAfter) < 0 ==> !o.Stopped? && stopAfter < 0)
    {
      if StateDir !in store {
        return Done(None);
      }
      var reconciled := ReconcileTemporaries(StateDir);
      SameView(old(store), store, ledger);
      if reconciled.Stopped? {
        return Stopped;
      }
      return Done(MarkerAt(store));
    }

    method MakeDirectory(place: Place) returns (o: Outcome<()>)
      requires Valid()
      modifies this`store, this`stopAfter
      ensures Valid() && Records() == old(Records())
      ensures store.Keys == old(store.Keys) || store.Keys == old(store.Keys) + {place}
      ensures o.Done? ==> place in store
      ensures !o.Failed? && (old(stopAfter) < 0 ==> !o.Stopped? && stopAfter < 0)
    {
      hide Inv, Watched, FilesAt, View, DirOk, AllowedTarget;
      if place in store {
        return Done(());
      }
      o := Effect();
      if o.Done? {
        WatchedElsewhere(store, place, watched);
        EmptyIsOk(unused);
        EmptyFinds(store, place);
        store := store[place := EMPTY_DIR];
        SameView(old(store), store, ledger);
      }
    }

    method MakeDirectories(g: GrantId) returns (o: Outcome<()>)
      requires Valid()
      modifies this`store, this`stopAfter
      ensures Valid() && Records() == old(Records()) && old(store.Keys) <= store.Keys
      ensures o.Done? ==> {StateDir, GrantsDir, ClaimsDir, GrantDir(g)} <= store.Keys
      ensures !o.Failed? && (old(stopAfter) < 0 ==> !o.Stopped? && stopAfter < 0)
    {
      hide Inv, Layout, View;
      o := MakeDirectory(StateDir);
      if o.Done? {
        o := MakeDirectory(GrantsDir);
      }
      if o.Done? {
        o := MakeDirectory(ClaimsDir);
      }
      if o.Done? {
        o := MakeDirectory(GrantDir(g));
      }
    }

    /** Publishes the n-th file of a grant. */
    method PublishGrantFile(envelope: Envelope, reservation: Reservation, n: nat, now: int)
      returns (o: Outcome<()>, ghost events: seq<Event>)
      requires Valid() && 1 <= n <= 5 && GrantDir(GrantId(envelope.payload)) in store
      requires Allowed(Records(), GrantStep(n), envelope, now)
      requires n == 1 ==> reservation == Reservation(envelope, now)
      requires n != 1 ==> Records().grants[GrantId(envelope.payload)].reservation == Some(reservation)
      modifies this`store, this`stopAfter, this`unused
      ensures Valid() && store.Keys == old(store.Keys)
      ensures o.Done? ==> Records() == Apply(old(Records()), GrantStep(n), envelope, now)
      ensures Run(old(Records()), events, Records()) && By(events, envelope)
      ensures !o.Failed? && (old(stopAfter) < 0 ==> !o.Stopped? && stopAfter < 0)
    {
      hide Inv, Layout, View, Apply, Allowed, Run, SameFinds, Publishes, FilesAt, GrantRecord, FirstFiles;
      ghost var l, g := Records(), GrantId(envelope.payload);
      GrantStepIsWrite(l, n, envelope, reservation, now);
      ViewFiles(store, ledger, g);
      NextFileMissing(store, g, reservation, n, unused);
      GrantRecordFits(g, reservation, n);
      ghost var before := store;
      o := EnsureImmutable(GrantDir(GrantId(envelope.payload)), GrantTarget(n), GrantRecord(reservation, n));
      if o.Stopped? && SameFinds(before, store) {
        SameView(before, store, ledger);
        NoRun(l, envelope);
        events := [];
      } else {
        GrantFileView(before, store, g, reservation, n, ledger);
        StepKeepsInv(l, GrantStep(n), envelope, now);
        events := OneRun(l, GrantStep(n), envelope, now);
      }
    }

    method PublishMarkerFile(envelope: Envelope, now: int) returns (o: Outcome<()>, ghost events: seq<Event>)
      requires Valid() && StateDir in store
      requires Allowed(Records(), PublishMarker, envelope, now)
      modifies this`store, this`stopAfter, this`unused
      ensures Valid() && store.Keys == old(store.Keys)
      ensures o.Done? ==> Records() == Apply(old(Records()), PublishMarker, envelope, now)
      ensures Run(old(Records()), events, Records()) && By(events, envelope)
      ensures !o.Failed? && (old(stopAfter) < 0 ==> !o.Stopped? && stopAfter < 0)
    {
      ghost var l := Records();
      var marker := CreateMarker(envelope.payload, OfEnvelope(envelope));
      hide Inv, Layout, View, Apply, Allowed, Run, SameFinds, Publishes, MarkerAt;
      NoMarkerRecord(store, unused);
      ViewMarker(store, ledger);
      MarkerStepIsWrite(l, PublishMarker, envelope, now);
      ghost var before := store;
      o := EnsureImmutable(StateDir, MarkerFile, MarkerRecord(marker));
      if o.Stopped? && SameFinds(before, store) {
        SameView(before, store, ledger);
        NoRun(l, envelope);
        events := [];
      } else {
        MarkerFileView(before, store, Some(MarkerRecord(marker)), ledger);
        StepKeepsInv(l, PublishMarker, envelope, now);
        events := OneRun(l, PublishMarker, envelope, now);
      }
    }

    /** Takes the one claim on a marker, unless another release grant holds it. */
    method PublishClaimFile(envelope: Envelope, reservation: Reservation, now: int)
      returns (o: Outcome<()>, ghost events: seq<Event>)
      requires Valid() && ClaimsDir in store && envelope.payload.ReleaseGrant?
      requires Held(Records(), envelope)
      requires Records().grants[GrantId(envelope.payload)].reservation == Some(reservation)
      requires Records().grants[GrantId(envelope.payload)].ack.None?
      modifies this`store, this`stopAfter, this`unused
      ensures Valid() && store.Keys == old(store.Keys)
      ensures o.Done? <==> !o.Stopped? && !ClaimedByOther(old(Records()), envelope, reservation)
      ensures o.Done? ==> Records() == Claimed(old(Records()), reservation)
      ensures o.Failed? ==> Records() == old(Records()) && o.error == StateCorrupt
      ensures Run(old(Records()), events, Records()) && By(events, envelope)
      ensures old(stopAfter) < 0 ==> !o.Stopped? && stopAfter < 0
    {
      hide Inv, Layout, View, Apply, Allowed, Run, SameFinds, Publishes, Claimed, Held, Defined, Fits,
           AllowedTarget, ClaimBy, Find, ClaimAt;
      ClaimStep(Records(), envelope, reservation, now);
      ClaimFits(reservation);
      ClaimsRead(store, ledger, envelope.payload.activeMarker, unused);
      ghost var before, bound := store, unused;
      o := EnsureImmutable(ClaimsDir, ClaimFile(envelope.payload.activeMarker), ClaimRecord(ClaimBy(reservation)));
      events := ClaimProgress(before, store, ledger, bound, envelope, reservation, now);
    }

    method UnlinkPublished(place: Place, t: Target) returns (o: Outcome<()>)
      requires Sound() && place == StateDir && place in store && Published(t) in store[place].names
      requires Settled(store[place])
      modifies this`store, this`stopAfter
      ensures Sound() && place in store && store == old(store)[place := store[place]]
      ensures o.Done? ==> Publishes(old(store), store, place, t, None)
      ensures o.Stopped? ==> store == old(store)
      ensures !o.Failed? && (old(stopAfter) < 0 ==> !o.Stopped? && stopAfter < 0)
    {
      if store[place].inodes[store[place].names[Published(t)]].links != 1 {
        return Failed(StateCorrupt);
      }
      o := Effect();
      if o.Done? {
        UnlinkPublishedRemoves(store[place], t, unused);
        forall m | (place, m) in watched && Stuck(store, place, m)
          ensures StuckIn(Unlink(store[place], Published(t)), m, false)
        {
          UnlinkPublishedKeepsTorn(store[place], t, unused, m);
        }
        WatchedAfter(store, place, Unlink(store[place], Published(t)), watched);
        store := store[place := Unlink(store[place], Published(t))];
        DirPublishes(old(store), store, place, t, None);
      }
    }

    /** Removes the active marker, the last effect of a release. */
    method RemoveMarkerFile(envelope: Envelope, now: int) returns (o: Outcome<()>, ghost events: seq<Event>)
      requires Valid() && StateDir in store && Settled(store[StateDir])
      requires Allowed(Records(), RemoveMarker, envelope, now)
      modifies this`store, this`stopAfter
      ensures Valid() && store.Keys == old(store.Keys)
      ensures o.Done? ==> Records() == Apply(old(Records()), RemoveMarker, envelope, now)
      ensures Run(old(Records()), events, Records()) && By(events, envelope)
      ensures !o.Failed? && (old(stopAfter) < 0 ==> !o.Stopped? && stopAfter < 0)
    {
      ghost var l, before := Records(), store;
      hide Inv, Layout, View, Apply, Allowed, Run, SameFinds, Publishes, Settled, RecordAt;
      ActiveMarkerFile(store, ledger, unused);
      MarkerStepIsWrite(l, RemoveMarker, envelope, now);
      o := UnlinkPublished(StateDir, MarkerFile);
      if o.Stopped? {
        NoRun(l, envelope);
        events := [];
      } else {
        MarkerFileView(before, store, None, ledger);
        StepKeepsInv(l, RemoveMarker, envelope, now);
        events := OneRun(l, RemoveMarker, envelope, now);
      }
    }

    /** The call that hands the audit record to the external ledger. */
    method AppendAuditRecord(envelope: Envelope, record: Audit, now: int)
      returns (o: Outcome<()>, ghost events: seq<Event>)
      requires Valid() && Allowed(Records(), AppendAudit, envelope, now)
      requires Records().grants[GrantId(envelope.payload)].audit == Some(record)
      modifies this`ledger, this`stopAfter
      ensures Valid()
      ensures o.Done? ==> Records() == Apply(old(Records()), AppendAudit, envelope, now)
      ensures Run(old(Records()), events, Records()) && By(events, envelope)
      ensures !o.Failed? && (old(stopAfter) < 0 ==> !o.Stopped? && stopAfter < 0)
    {
      hide Inv, Layout, Watched, Run, View, Allowed, Apply;
      ghost var l := Records();
      o := Effect();
      if o.Stopped? {
        NoRun(l, envelope);
        events := [];
      } else {
        LedgerAppends(store, ledger, record, envelope, now);
        ledger := ledger + [record];
        StepKeepsInv(l, AppendAudit, envelope, now);
        events := OneRun(l, AppendAudit, envelope, now);
      }
    }

    // ----- the operations

    /** A grant that is already reserved resumes only for the same envelope, until acknowledged. */
    method CheckReserved(envelope: Envelope) returns (o: Outcome<()>)
      requires Valid() && Records().grants[GrantId(envelope.payload)] != NO_FILES
      modifies this`store, this`stopAfter
      ensures Valid() && Records() == old(Records()) && store.Keys == old(store.Keys)
      ensures o.Done? ==> ReservedRefusal(Records(), envelope).None?
      ensures o.Failed? ==> ReservedRefusal(Records(), envelope) == Some(o.error)
      ensures old(stopAfter) < 0 ==> !o.Stopped? && stopAfter < 0
    {
      assert GrantId(envelope.payload) in Records().grants;
      hide Inv, Layout, View;
      var files :- ReadGrantRecord(GrantId(envelope.payload));
      if files.reservation.value.envelope != envelope {
        return Failed(StateCorrupt);
      }
      if files.ack.Some? {
        return Failed(AlreadyConsumed);
      }
      return Done(());
    }

    /** A new grant is reserved inside its window, a release only for the active marker. */
    method CheckNew(envelope: Envelope, now: int) returns (o: Outcome<()>)
      requires Valid()
      modifies this`store, this`stopAfter
      ensures Valid() && Records() == old(Records()) && store.Keys == old(store.Keys)
      ensures o.Done? ==> NewRefusal(Records(), envelope, now).None?
      ensures o.Failed? ==> NewRefusal(Records(), envelope, now) == Some(o.error)
      ensures old(stopAfter) < 0 ==> !o.Stopped? && stopAfter < 0
    {
      hide Inv, Layout, View;
      if now < envelope.payload.issuedAt {
        return Failed(NotYetValid);
      }
      if envelope.payload.expiresAt <= now {
        return Failed(Expired);
      }
      if envelope.payload.ReleaseGrant? {
        var marker :- ReadMarker();
        if marker.None? || OfMarker(marker.value) != envelope.payload.activeMarker {
          return Failed(MarkerMismatch);
        }
      }
      return Done(());
    }

    /** The checks made before anything is reserved; the value is whether the grant already is. */
    method Admit(envelope: Envelope, deps: Dependencies, operation: Operation) returns (o: Outcome<bool>)
      requires Valid()
      modifies this`store, this`stopAfter
      ensures Valid() && Records() == old(Records()) && store.Keys == old(store.Keys)
      ensures o.Done? ==>
                && BeginRefusal(Records(), envelope, deps, operation).None?
                && o.value == (Records().grants[GrantId(envelope.payload)] != NO_FILES)
      ensures o.Failed? ==> BeginRefusal(Records(), envelope, deps, operation) == Some(o.error)
      ensures !Genuine(envelope, deps, operation) ==> o.Failed? && store == old(store)
      ensures old(stopAfter) < 0 ==> !o.Stopped? && stopAfter < 0
    {
      hide Inv, Layout, View, SameFinds, ReservedRefusal, NewRefusal, VerifyEnvelope, Genuine, Watched;
      GenuineIsVerified(envelope, deps, operation);
      var refusal := VerifyEnvelope(envelope, deps, operation);
      if refusal.Some? {
        return Failed(refusal.value);
      }
      var g := GrantId(envelope.payload);
      if GrantDir(g) in store {
        var reconciled := ReconcileTemporaries(GrantDir(g));
        SameView(old(store), store, ledger);
        if reconciled.Stopped? {
          return Stopped;
        }
      }
      ReservationTells(store, ledger, unused, g);
      var reserved := GrantDir(g) in store && Published(ReservationFile) in store[GrantDir(g)].names;
      var checked;
      if reserved {
        checked := CheckReserved(envelope);
      } else {
        checked := CheckNew(envelope, deps.now);
      }
      return if checked.Done? then Done(reserved) else checked.PropagateFailure();
    }

    method BeginOperation(envelope: Envelope, deps: Dependencies, operation: Operation)
      returns (o: Outcome<Files>, ghost events: seq<Event>)
      requires Valid()
      modifies this`store, this`stopAfter, this`unused
      ensures Valid() && Run(old(Records()), events, Records()) && By(events, envelope)
      ensures o.Done? ==>
                && BeginRefusal(old(Records()), envelope, deps, operation).None?
                && Records() == Reserved(old(Records()), envelope, deps.now)
                && Held(Records(), envelope)
                && o.value == Records().grants[GrantId(envelope.payload)] && o.value.ack.None?
                && {StateDir, ClaimsDir, GrantDir(GrantId(envelope.payload))} <= store.Keys
      ensures o.Failed? ==>
                && Records() == old(Records())
                && BeginRefusal(old(Records()), envelope, deps, operation) == Some(o.error)
      ensures BeginRefusal(old(Records()), envelope, deps, operation).Some? ==> !o.Done? && Records() == old(Records())
      ensures !Genuine(envelope, deps, operation) ==> o.Failed? && store == old(store) && ledger == old(ledger)
      ensures old(stopAfter) < 0 ==> !o.Stopped? && stopAfter < 0
    {
      hide Inv, Layout, View, Apply, Allowed, Run, SameFinds, Publishes, BeginRefusal, Reserved, Held, Defined;
      ghost var l := Records();
      var g := GrantId(envelope.payload);
      NoRun(l, envelope);
      events := [];
      var reserved := Admit(envelope, deps, operation);
      if !reserved.Done? {
        return reserved.PropagateFailure(), events;
      }
      ReserveHolds(l, envelope, deps, operation);
      var made := MakeDirectories(g);
      if !made.Done? {
        return Stopped, events;
      }
      if !reserved.value {
        var published;
        published, events := PublishGrantFile(envelope, Reservation(envelope, deps.now), 1, deps.now);
        if !published.Done? {
          return Stopped, events;
        }
      }
      o := ReadGrantRecord(g);
    }

    /** One effect record, published if it is still missing. */
    method EnsureEffect(envelope: Envelope, n: nat, now: int) returns (o: Outcome<()>, ghost events: seq<Event>)
      requires Valid() && Underway(Records(), envelope) && Effective(Records(), envelope)
      requires GrantDir(GrantId(envelope.payload)) in store && 2 <= n <= 3
      requires n - 1 <= Count(Records().grants[GrantId(envelope.payload)]) <= n
      modifies this`store, this`stopAfter, this`unused
      ensures Valid() && store.Keys == old(store.Keys)
      ensures Run(old(Records()), events, Records()) && By(events, envelope)
      ensures o.Done? ==>
                && Underway(Records(), envelope) && Effective(Records(), envelope)
                && Count(Records().grants[GrantId(envelope.payload)]) == n
                && Records() == WithFiles(old(Records()), envelope, n)
                && WithFiles(Records(), envelope, 3) == WithFiles(old(Records()), envelope, 3)
      ensures !o.Failed? && (old(stopAfter) < 0 ==> !o.Stopped? && stopAfter < 0)
    {
      ghost var l := Records();
      hide Inv, Layout, View, Apply, Allowed, Run, Effective, Held, Underway, WithFiles, GrantStep;
      UnderwayFiles(l, envelope);
      NoRun(l, envelope);
      events := [];
      var files := ReadGrantRecord(GrantId(envelope.payload));
      if !files.Done? {
        return files.PropagateFailure(), events;
      }
      var missing := if n == 2 then files.value.receipt.None? else files.value.terminal.None?;
      if missing {
        EffectAllowed(l, envelope, n, now);
        o, events := PublishGrantFile(envelope, files.value.reservation.value, n, now);
      } else {
        o := Done(());
      }
    }

    /** Receipt, then terminal. */
    method RecordEffects(envelope: Envelope, now: int) returns (o: Outcome<()>, ghost events: seq<Event>)
      requires Valid() && Underway(Records(), envelope) && Effective(Records(), envelope)
      requires GrantDir(GrantId(envelope.payload)) in store
      requires Count(Records().grants[GrantId(envelope.payload)]) < 3
      modifies this`store, this`stopAfter, this`unused
      ensures Valid() && store.Keys == old(store.Keys)
      ensures Run(old(Records()), events, Records()) && By(events, envelope)
      ensures o.Done? ==>
                && Underway(Records(), envelope) && Effective(Records(), envelope)
                && Count(Records().grants[GrantId(envelope.payload)]) == 3
                && Records() == WithFiles(old(Records()), envelope, 3)
      ensures !o.Failed? && (old(stopAfter) < 0 ==> !o.Stopped? && stopAfter < 0)
    {
      ghost var l := Records();
      UnderwayFiles(l, envelope);
      hide Inv, Layout, View, Apply, Allowed, Run, Effective, Held, Underway, WithFiles;
      o, events := EnsureEffect(envelope, 2, now);
      if o.Done? {
        ghost var m, more := Records(), [];
        o, more := EnsureEffect(envelope, 3, now);
        JoinRuns(l, events, m, more, Records(), envelope);
        events := events + more;
      }
    }

    method EnsureAudit(envelope: Envelope, now: int) returns (o: Outcome<Reservation>, ghost events: seq<Event>)
      requires Valid() && Effected(Records(), envelope) && GrantDir(GrantId(envelope.payload)) in store
      modifies this`store, this`stopAfter, this`unused
      ensures Valid() && store.Keys == old(store.Keys)
      ensures Run(old(Records()), events, Records()) && By(events, envelope)
      ensures o.Done? ==>
                && Effected(Records(), envelope)
                && Records().grants[GrantId(envelope.payload)].reservation == Some(o.value)
                && Records().grants[GrantId(envelope.payload)].audit == Full(o.value).audit
      ensures !o.Failed? && (old(stopAfter) < 0 ==> !o.Stopped? && stopAfter < 0)
    {
      ghost var l := Records();
      UnderwayFiles(l, envelope);
      hide Inv, Layout, View, Apply, Allowed, Run, Held, Effected, Finished, GrantStep;
      NoRun(l, envelope);
      events := [];
      var read := ReadGrantRecord(GrantId(envelope.payload));
      if !read.Done? {
        return read.PropagateFailure(), events;
      }
      var reservation := read.value.reservation.value;
      AuditAllowed(l, envelope, now);
      if read.value.audit.None? {
        AuditSteps(l, GrantStep(4), envelope, now);
        var published;
        published, events := PublishGrantFile(envelope, reservation, 4, now);
        if !published.Done? {
          return published.PropagateFailure(), events;
        }
      }
      return Done(reservation), events;
    }

    /** Hands the audit record to the ledger, then acknowledges it. */
    method AppendAndAcknowledge(envelope: Envelope, reservation: Reservation, now: int)
      returns (o: Outcome<()>, ghost events: seq<Event>)
      requires Valid() && Effected(Records(), envelope) && GrantDir(GrantId(envelope.payload)) in store
      requires Records().grants[GrantId(envelope.payload)].reservation == Some(reservation)
      requires Records().grants[GrantId(envelope.payload)].audit == Full(reservation).audit
      modifies this`store, this`stopAfter, this`unused, this`ledger
      ensures Valid() && store.Keys == old(store.Keys)
      ensures Run(old(Records()), events, Records()) && By(events, envelope)
      ensures o.Done? ==> Finished(Records(), envelope)
      ensures !o.Failed? && (old(stopAfter) < 0 ==> !o.Stopped? && stopAfter < 0)
    {
      ghost var l := Records();
      hide Inv, Layout, View, Apply, Allowed, Run, Held, Effected, Finished;
      AuditAllowed(l, envelope, now);
      AuditSteps(l, AppendAudit, envelope, now);
      o, events := AppendAuditRecord(envelope, Full(reservation).audit.value, now);
      if o.Done? {
        ghost var appended, more := Records(), [];
        AuditAllowed(appended, envelope, now);
        AuditSteps(appended, GrantStep(5), envelope, now);
        o, more := PublishGrantFile(envelope, reservation, 5, now);
        JoinRuns(l, events, appended, more, Records(), envelope);
        events := events + more;
        if o.Done? {
          var read := ReadGrantRecord(GrantId(envelope.payload));
          if !read.Done? {
            return read.PropagateFailure(), events;
          }
        }
      }
    }

    /** Publishes the audit record unless it is there, hands it to the ledger, acknowledges it. */
    method FinishAudit(envelope: Envelope, now: int) returns (o: Outcome<()>, ghost events: seq<Event>)
      requires Valid() && Effected(Records(), envelope) && GrantDir(GrantId(envelope.payload)) in store
      modifies this`store, this`stopAfter, this`unused, this`ledger
      ensures Valid() && store.Keys == old(store.Keys)
      ensures Run(old(Records()), events, Records()) && By(events, envelope)
      ensures o.Done? ==> Finished(Records(), envelope)
      ensures !o.Failed? && (old(stopAfter) < 0 ==> !o.Stopped? && stopAfter < 0)
    {
      hide Inv, Layout, View, Apply, Allowed, Run, Held, Effected, Finished, GrantStep;
      ghost var l := Records();
      var audited;
      audited, events := EnsureAudit(envelope, now);
      if !audited.Done? {
        return audited.PropagateFailure(), events;
      }
      ghost var m, more := Records(), [];
      o, more := AppendAndAcknowledge(envelope, audited.value, now);
      JoinRuns(l, events, m, more, Records(), envelope);
      events := events + more;
    }

    /** An enter whose grant is reserved: marker, receipt and terminal, unless consumed already,
        then the audit. */
    method EnterReserved(envelope: Envelope, files: Files, now: int) returns (o: Outcome<()>, ghost events: seq<Event>)
      requires Valid() && Underway(Records(), envelope) && envelope.payload.EnterGrant?
      requires files == Records().grants[GrantId(envelope.payload)]
      requires {StateDir, GrantDir(GrantId(envelope.payload))} <= store.Keys
      modifies this`store, this`stopAfter, this`unused, this`ledger
      ensures Valid() && Run(old(Records()), events, Records()) && By(events, envelope)
      ensures o.Done? ==> FinishRefusal(old(Records()), envelope).None? && Finished(Records(), envelope)
      ensures o.Failed? ==> FinishRefusal(old(Records()), envelope) == Some(o.error)
      ensures old(stopAfter) < 0 ==> !o.Stopped? && stopAfter < 0
    {
      ghost var l, more := Records(), [];
      EnterCases(l, envelope, now);
      UnderwayFiles(l, envelope);
      hide Inv, Layout, View, Apply, Allowed, Run, Held, Underway, Effected, Finished, Effective, WithFiles;
      NoRun(l, envelope);
      events := [];
      if files.terminal.None? {
        var observed := ReadMarker();
        if !observed.Done? {
          return observed.PropagateFailure(), events;
        }
        if observed.value.Some? && OfMarker(observed.value.value) != MarkerDigestOf(envelope) {
          return Failed(AlreadyActive), events;
        }
        if observed.value.None? {
          o, events := PublishMarkerFile(envelope, now);
          if !o.Done? {
            return;
          }
        }
        ghost var m := Records();
        o, more := RecordEffects(envelope, now);
        JoinRuns(l, events, m, more, Records(), envelope);
        events := events + more;
        if !o.Done? {
          return;
        }
        EffectsRecorded(Records(), envelope);
      }
      ghost var m := Records();
      o, more := FinishAudit(envelope, now);
      JoinRuns(l, events, m, more, Records(), envelope);
      events := events + more;
    }

    /** The receipt and terminal of a release that holds its claim. */
    method ReleaseEffects(envelope: Envelope, now: int) returns (o: Outcome<()>, ghost events: seq<Event>)
      requires Valid() && Underway(Records(), envelope) && envelope.payload.ReleaseGrant?
      requires OwnsClaim(Records(), envelope)
      requires Records().grants[GrantId(envelope.payload)].terminal.None?
      requires GrantDir(GrantId(envelope.payload)) in store
      modifies this`store, this`stopAfter, this`unused
      ensures Valid() && store.Keys == old(store.Keys)
      ensures Run(old(Records()), events, Records()) && By(events, envelope)
      ensures o.Done? ==>
                && FinishRefusal(old(Records()), envelope).None?
                && Underway(Records(), envelope) && OwnsClaim(Records(), envelope)
                && Records().grants[GrantId(envelope.payload)].terminal.Some?
      ensures o.Failed? ==> FinishRefusal(old(Records()), envelope) == Some(o.error)
      ensures old(stopAfter) < 0 ==> !o.Stopped? && stopAfter < 0
    {
      ghost var l := Records();
      ReleaseCases(l, envelope);
      hide Inv, Layout, View, Apply, Allowed, Run, Held, Underway, Effective, WithFiles, OwnsClaim, FinishRefusal;
      NoRun(l, envelope);
      events := [];
      var marker := ReadMarker();
      if !marker.Done? {
        return marker.PropagateFailure(), events;
      }
      if marker.value.None? || OfMarker(marker.value.value) != envelope.payload.activeMarker {
        return Failed(MarkerMismatch), events;
      }
      var enter := ReadGrantRecord(marker.value.value.enterGrant);
      if !enter.Done? {
        return enter.PropagateFailure(), events;
      }
      if enter.value.terminal.None? {
        return Failed(EnterNotTerminal), events;
      }
      o, events := RecordEffects(envelope, now);
      if o.Done? {
        EffectsKeepClaim(l, Records(), envelope);
      }
    }

    /** Removes the named marker if it is still active, then audits the release. */
    method WithdrawMarker(envelope: Envelope, now: int) returns (o: Outcome<()>, ghost events: seq<Event>)
      requires Valid() && Underway(Records(), envelope) && envelope.payload.ReleaseGrant?
      requires OwnsClaim(Records(), envelope)
      requires Records().grants[GrantId(envelope.payload)].terminal.Some?
      requires GrantDir(GrantId(envelope.payload)) in store
      modifies this`store, this`stopAfter, this`unused, this`ledger
      ensures Valid() && Run(old(Records()), events, Records()) && By(events, envelope)
      ensures o.Done? ==> Finished(Records(), envelope)
      ensures !o.Failed? && (old(stopAfter) < 0 ==> !o.Stopped? && stopAfter < 0)
    {
      ghost var l, more := Records(), [];
      WithdrawCases(l, envelope, now);
      hide Inv, Layout, View, Apply, Allowed, Run, Held, Underway, Effected, Finished, OwnsClaim;
      NoRun(l, envelope);
      events := [];
      var active := ReadMarker();
      if !active.Done? {
        return active.PropagateFailure(), events;
      }
      if active.value.Some? && OfMarker(active.value.value) == envelope.payload.activeMarker {
        o, events := RemoveMarkerFile(envelope, now);
        if !o.Done? {
          return;
        }
      }
      ghost var m := Records();
      o, more := FinishAudit(envelope, now);
      JoinRuns(l, events, m, more, Records(), envelope);
      events := events + more;
    }

    /** A release whose grant is reserved: claim, receipt and terminal, removal, audit. */
    method ReleaseReserved(envelope: Envelope, files: Files, now: int)
      returns (o: Outcome<()>, ghost events: seq<Event>)
      requires Valid() && Underway(Records(), envelope) && envelope.payload.ReleaseGrant?
      requires files == Records().grants[GrantId(envelope.payload)]
      requires {ClaimsDir, GrantDir(GrantId(envelope.payload))} <= store.Keys
      modifies this`store, this`stopAfter, this`unused, this`ledger
      ensures Valid() && Run(old(Records()), events, Records()) && By(events, envelope)
      ensures o.Done? ==> FinishRefusal(old(Records()), envelope).None? && Finished(Records(), envelope)
      ensures o.Failed? ==> FinishRefusal(old(Records()), envelope) == Some(o.error)
      ensures old(stopAfter) < 0 ==> !o.Stopped? && stopAfter < 0
    {
      ghost var l, more := Records(), [];
      UnderwayFiles(l, envelope);
      assert Held(l, envelope) && l.grants[GrantId(envelope.payload)].ack.None?;
      ClaimedCases(l, envelope, files.reservation.value);
      hide Inv, Layout, View, Apply, Allowed, Run, Held, Underway, Effected, Finished, OwnsClaim, FinishRefusal,
           Claimed, ClaimedByOther;
      o, events := PublishClaimFile(envelope, files.reservation.value, now);
      if !o.Done? {
        return;
      }
      if files.terminal.None? {
        ghost var m := Records();
        o, more := ReleaseEffects(envelope, now);
        JoinRuns(l, events, m, more, Records(), envelope);
        events := events + more;
        if !o.Done? {
          return;
        }
      }
      ghost var m := Records();
      o, more := WithdrawMarker(envelope, now);
      JoinRuns(l, events, m, more, Records(), envelope);
      events := events + more;
    }

    /** `executeRecoveryQuarantineEnter`. Without a genuine grant it writes nothing and fails, and one that
        is not welcome changes no record. However it ends it has made only steps of its own grant;
        if it completes, the durable records are the completed ones of the grant as reserved; if it
        fails, it fails with the error the starting records call for; if the machine does not stop,
        it does one or the other. */
    method ExecuteEnter(envelope: Envelope, deps: Dependencies) returns (o: Outcome<()>, ghost events: seq<Event>)
      requires Valid()
      modifies this`store, this`stopAfter, this`unused, this`ledger
      ensures Valid() && Run(old(Records()), events, Records()) && By(events, envelope)
      ensures o.Done? ==>
                && Refusal(old(Records()), envelope, deps, EnterQuarantine).None?
                && var reserved := Reserved(old(Records()), envelope, deps.now);
                   Held(reserved, envelope) && Durable(Records()) == Completed(reserved, envelope)
      ensures o.Failed? ==> Refusal(old(Records()), envelope, deps, EnterQuarantine) == Some(o.error)
      ensures o.Done? ==> Genuine(envelope, deps, EnterQuarantine) && Welcome(old(Records()), envelope, deps.now)
      ensures !Genuine(envelope, deps, EnterQuarantine) ==> o.Failed? && store == old(store) && ledger == old(ledger)
      ensures SoundButForSignature(envelope, deps, EnterQuarantine) && !Genuine(envelope, deps, EnterQuarantine) ==>
                o == Failed(SignatureInvalid)
      ensures !Welcome(old(Records()), envelope, deps.now) ==> !o.Done? && Records() == old(Records())
      ensures old(stopAfter) < 0 ==> !o.Stopped?
    {
      ghost var l, more := Records(), [];
      var begun;
      LetIn(Records(), envelope, deps, EnterQuarantine);
      begun, events := BeginOperation(envelope, deps, EnterQuarantine);
      if !begun.Done? {
        return begun.PropagateFailure(), events;
      }
      ghost var m := Records();
      BegunUnderway(l, envelope, deps, EnterQuarantine);
      hide Genuine, SoundButForSignature, Welcome, Inv, Layout, View, Apply, Allowed, Run, Held, Underway, Finished,
        FinishRefusal, BeginRefusal, Completed, Reserved, Durable;
      o, more := EnterReserved(envelope, begun.value, deps.now);
      JoinRuns(l, events, m, more, Records(), envelope);
      events := events + more;
      if o.Done? {
        FinishedAsCompleted(m, more, Records(), envelope);
      }
    }

    /** `executeRecoveryQuarantineRelease`, with the same guarantees. */
    method ExecuteRelease(envelope: Envelope, deps: Dependencies) returns (o: Outcome<()>, ghost events: seq<Event>)
      requires Valid()
      modifies this`store, this`stopAfter, this`unused, this`ledger
      ensures Valid() && Run(old(Records()), events, Records()) && By(events, envelope)
      ensures o.Done? ==>
                && Refusal(old(Records()), envelope, deps, ReleaseQuarantine).None?
                && var reserved := Reserved(old(Records()), envelope, deps.now);
                   Held(reserved, envelope) && Durable(Records()) == Completed(reserved, envelope)
      ensures o.Failed? ==> Refusal(old(Records()), envelope, deps, ReleaseQuarantine) == Some(o.error)
      ensures o.Done? ==> Genuine(envelope, deps, ReleaseQuarantine) && Welcome(old(Records()), envelope, deps.now)
      ensures !Genuine(envelope, deps, ReleaseQuarantine) ==> o.Failed? && store == old(store) && ledger == old(ledger)
      ensures SoundButForSignature(envelope, deps, ReleaseQuarantine) && !Genuine(envelope, deps, ReleaseQuarantine) ==>
                o == Failed(SignatureInvalid)
      ensures !Welcome(old(Records()), envelope, deps.now) ==> !o.Done? && Records() == old(Records())
      ensures old(stopAfter) < 0 ==> !o.Stopped?
    {
      ghost var l, more := Records(), [];
      var begun;
      LetIn(Records(), envelope, deps, ReleaseQuarantine);
      begun, events := BeginOperation(envelope, deps, ReleaseQuarantine);
      if !begun.Done? {
        return begun.PropagateFailure(), events;
      }
      ghost var m := Records();
      BegunUnderway(l, envelope, deps, ReleaseQuarantine);
      hide Genuine, SoundButForSignature, Welcome, Inv, Layout, View, Apply, Allowed, Run, Held, Underway, Finished,
        FinishRefusal, BeginRefusal, Completed, Reserved, Durable;
      o, more := ReleaseReserved(envelope, begun.value, deps.now);
      JoinRuns(l, events, m, more, Records(), envelope);
      events := events + more;
      if o.Done? {
        FinishedAsCompleted(m, more, Records(), envelope);
      }
    }
  }
}
