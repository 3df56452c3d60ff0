/** The launcher's own reader of the quarantine directory
    (packages/workflow-engine/bootstrap/control-plane-trust.ts), which shares no code with the
    engine, and its agreement with the engine's reader.

    The launcher accepts less than the engine does: every grant must be audited, and no temporary
    name may be left anywhere. */
module QuarantineLauncher {
  import opened QuarantineDirectory
  import opened QuarantineProtocol
  import opened QuarantineRecords
  import opened QuarantineStore
  import opened Results

  /** A record file with one link; anything else is corrupt. */
  function ReadPublished(dir: Dir, t: Target): Option<Record> {
    if Published(t) in dir.names && dir.names[Published(t)] in dir.inodes
       && dir.inodes[dir.names[Published(t)]].links == 1
    then RecordAt(dir, t) else None
  }

  const GRANT_FILES: set<Name> :=
    {Published(AckFile), Published(AuditFile), Published(ReceiptFile), Published(ReservationFile),
     Published(TerminalFile)}

  datatype History = History(operation: Operation, marker: Digest)

  /** One grant directory: exactly five files, each about this grant and linked to the others. */
  function ReadHistory(g: GrantId, dir: Dir): Option<History> {
    match (ReadPublished(dir, ReservationFile), ReadPublished(dir, ReceiptFile), ReadPublished(dir, TerminalFile),
           ReadPublished(dir, AuditFile), ReadPublished(dir, AckFile))
    case (Some(ReservationRecord(reservation)), Some(ReceiptRecord(receipt)), Some(TerminalRecord(terminal)),
          Some(AuditRecord(audit)), Some(AckRecord(ack))) =>
      var payload := reservation.envelope.payload;
      if && dir.names.Keys == GRANT_FILES
         && GrantId(payload) == g
         && receipt.grant == g && terminal.grant == g && audit.grant == g && ack.grant == g
         && receipt.operation == payload.Operation() && terminal.operation == payload.Operation()
         && audit.operation == payload.Operation()
         && terminal.receipt == OfReceipt(receipt) && terminal.marker == receipt.marker
         && audit.receipt == OfReceipt(receipt) && audit.terminal == OfTerminal(terminal)
         && audit.marker == receipt.marker
         && ack.recordId == audit.recordId && ack.record == OfAudit(audit)
      then Some(History(payload.Operation(), receipt.marker)) else None
    case _ => None
  }

  /** No temporary file is left in the directory. */
  ghost predicate Plain(dir: Dir) {
    forall n :: n in dir.names ==> n.Published?
  }

  /** There is a grant, and every grant directory holds an audited one and nothing else. */
  ghost predicate AllAudited(store: Store) {
    && (exists p :: p in store && p.GrantDir?)
    && (forall p :: p in store && p.GrantDir? ==> FilesAt(store, p.grant).ack.Some? && Plain(store[p]))
  }

  /** Every grant is audited and no temporary file is left: what the launcher waits for. */
  ghost predicate Quiescent(store: Store) {
    && StateDir in store && GrantsDir in store && ClaimsDir in store
    && AllAudited(store) && Plain(store[StateDir]) && Plain(store[ClaimsDir])
  }

  // ----- what the launcher accepts of any store

  /** The file under a record's name is complete, holds this record and has no other name. */
  ghost predicate HoldsAlone(dir: Dir, t: Target, r: Record) {
    Published(t) in dir.names && dir.names[Published(t)] in dir.inodes
    && dir.inodes[dir.names[Published(t)]] == Inode(Whole(r), 1)
  }

  /** Five records of one grant and operation about one marker, each naming those before it. */
  predicate Consistent(g: GrantId, reservation: Reservation, receipt: Receipt, terminal: Terminal, audit: Audit,
                       ack: Acknowledgement, history: History)
  {
    && reservation.envelope.payload == g.payload
    && receipt.grant == terminal.grant == audit.grant == ack.grant == g
    && history.operation == (if g.payload.EnterGrant? then EnterQuarantine else ReleaseQuarantine)
    && receipt.operation == terminal.operation == audit.operation == history.operation
    && receipt.marker == terminal.marker == audit.marker == history.marker
    && terminal.receipt == OfReceipt(receipt) && audit.receipt == OfReceipt(receipt)
    && audit.terminal == OfTerminal(terminal)
    && ack.recordId == audit.recordId && ack.record == OfAudit(audit)
  }

  /** A grant directory of five such records, alone in their files, and of no other name. */
  ghost predicate Legible(g: GrantId, dir: Dir, history: History) {
    && |dir.names| == 5
    && exists reservation, receipt, terminal, audit, ack ::
         && HoldsAlone(dir, ReservationFile, ReservationRecord(reservation))
         && HoldsAlone(dir, ReceiptFile, ReceiptRecord(receipt))
         && HoldsAlone(dir, TerminalFile, TerminalRecord(terminal))
         && HoldsAlone(dir, AuditFile, AuditRecord(audit)) && HoldsAlone(dir, AckFile, AckRecord(ack))
         && Consistent(g, reservation, receipt, terminal, audit, ack, history)
  }

  /** Reading a grant directory gives the history its records tell, if they tell one. */
  lemma ReadHistoryMeans(g: GrantId, dir: Dir, history: History)
    ensures ReadHistory(g, dir) == Some(history) <==> Legible(g, dir, history)
  {
    hide Consistent;
    forall t, r ensures ReadPublished(dir, t) == Some(r) <==> HoldsAlone(dir, t, r) {
    }
    hide ReadPublished, HoldsAlone;
    FiveNamed(dir);
    if Legible(g, dir, history) {
      var reservation, receipt, terminal, audit, ack :|
        && HoldsAlone(dir, ReservationFile, ReservationRecord(reservation))
        && HoldsAlone(dir, ReceiptFile, ReceiptRecord(receipt))
        && HoldsAlone(dir, TerminalFile, TerminalRecord(terminal))
        && HoldsAlone(dir, AuditFile, AuditRecord(audit)) && HoldsAlone(dir, AckFile, AckRecord(ack))
        && Consistent(g, reservation, receipt, terminal, audit, ack, history);
      ConsistentIs(g, reservation, receipt, terminal, audit, ack, history);
    }
    if ReadHistory(g, dir) == Some(history) {
      var reservation, receipt := ReadPublished(dir, ReservationFile).value, ReadPublished(dir, ReceiptFile).value;
      var terminal, audit := ReadPublished(dir, TerminalFile).value, ReadPublished(dir, AuditFile).value;
      var ack := ReadPublished(dir, AckFile).value;
      ConsistentIs(g, reservation.reservation, receipt.receipt, terminal.terminal, audit.audit, ack.ack, history);
    }
  }

  lemma ConsistentIs(g: GrantId, reservation: Reservation, receipt: Receipt, terminal: Terminal, audit: Audit,
                     ack: Acknowledgement, history: History)
    ensures var payload := reservation.envelope.payload;
            Consistent(g, reservation, receipt, terminal, audit, ack, history) <==>
              && GrantId(payload) == g
              && receipt.grant == g && terminal.grant == g && audit.grant == g && ack.grant == g
              && receipt.operation == payload.Operation() && terminal.operation == payload.Operation()
              && audit.operation == payload.Operation()
              && terminal.receipt == OfReceipt(receipt) && terminal.marker == receipt.marker
              && audit.receipt == OfReceipt(receipt) && audit.terminal == OfTerminal(terminal)
              && audit.marker == receipt.marker
              && ack.recordId == audit.recordId && ack.record == OfAudit(audit)
              && history == History(payload.Operation(), receipt.marker)
  {
  }

  /** Five names that include the five record names are just those. */
  lemma FiveNamed(dir: Dir)
    ensures dir.names.Keys == GRANT_FILES <==> |dir.names| == 5 && GRANT_FILES <= dir.names.Keys
  {
    assert |GRANT_FILES| == 5;
    assert |dir.names| == |dir.names.Keys|;
    if GRANT_FILES <= dir.names.Keys {
      assert |dir.names.Keys - GRANT_FILES| == |dir.names| - 5;
    }
  }

  /** A claim's name is that of the marker it claims. */
  ghost predicate ClaimLegible(dir: Dir, n: Name) {
    n.Published? &&
    exists claim: Claim :: n.target == ClaimFile(claim.marker) && HoldsAlone(dir, n.target, ClaimRecord(claim))
  }

  ghost predicate GrantLegible(store: Store, p: Place) {
    p in store && p.GrantDir? && exists history :: Legible(p.grant, store[p], history)
  }

  /** There is a grant, every grant directory and every claim is legible, and beside them is at most the
      marker's own file. */
  ghost predicate Surrounded(store: Store) {
    && StateDir in store && GrantsDir in store && ClaimsDir in store
    && (exists p :: GrantLegible(store, p))
    && (forall p :: p in store && p.GrantDir? ==> GrantLegible(store, p))
    && (forall n :: n in store[ClaimsDir].names ==> ClaimLegible(store[ClaimsDir], n))
    && (forall n :: n in store[StateDir].names ==> n == Published(MarkerFile))
  }

  /** The marker's file, if there is one, holds a marker that the grant it names made by entering. */
  ghost predicate MarkerLegible(store: Store, marker: Option<Marker>)
    requires StateDir in store
  {
    match marker
    case None => Published(MarkerFile) !in store[StateDir].names
    case Some(m) =>
      && HoldsAlone(store[StateDir], MarkerFile, MarkerRecord(m))
      && GrantDir(m.enterGrant) in store
      && Legible(m.enterGrant, store[GrantDir(m.enterGrant)], History(EnterQuarantine, OfMarker(m)))
  }

  // ----- one grant directory

  lemma PublishedLinkedOnce(dir: Dir, t: Target, unused: nat)
    requires DirOk(dir, unused) && Plain(dir)
    ensures ReadPublished(dir, t) == RecordAt(dir, t)
  {
    if Published(t) in dir.names {
      assert NameOk(dir, Published(t)) && PairOk(dir, t);
    }
  }

  lemma FiveRecords(store: Store, unused: nat, g: GrantId)
    requires Layout(store, unused) && GrantDir(g) in store
    requires Plain(store[GrantDir(g)])
    ensures var dir, files := store[GrantDir(g)], FilesAt(store, g);
            && (files.reservation.Some? ==>
                  ReadPublished(dir, ReservationFile) == Some(ReservationRecord(files.reservation.value)))
            && (files.receipt.Some? ==> ReadPublished(dir, ReceiptFile) == Some(ReceiptRecord(files.receipt.value)))
            && (files.terminal.Some? ==> ReadPublished(dir, TerminalFile) == Some(TerminalRecord(files.terminal.value)))
            && (files.audit.Some? ==> ReadPublished(dir, AuditFile) == Some(AuditRecord(files.audit.value)))
            && (files.ack.Some? ==> ReadPublished(dir, AckFile) == Some(AckRecord(files.ack.value)))
  {
    forall t ensures ReadPublished(store[GrantDir(g)], t) == RecordAt(store[GrantDir(g)], t) {
      PublishedLinkedOnce(store[GrantDir(g)], t, unused);
    }
  }

  /** The launcher's checks hold of the full chain of one reservation. */
  lemma FullHistory(g: GrantId, dir: Dir, reservation: Reservation)
    requires var files := Full(reservation);
             && ReadPublished(dir, ReservationFile) == Some(ReservationRecord(reservation))
             && ReadPublished(dir, ReceiptFile) == Some(ReceiptRecord(files.receipt.value))
             && ReadPublished(dir, TerminalFile) == Some(TerminalRecord(files.terminal.value))
             && ReadPublished(dir, AuditFile) == Some(AuditRecord(files.audit.value))
             && ReadPublished(dir, AckFile) == Some(AckRecord(files.ack.value))
    requires dir.names.Keys == GRANT_FILES && GrantId(reservation.envelope.payload) == g
    ensures ReadHistory(g, dir)
         == Some(History(reservation.envelope.payload.Operation(), MarkerDigestOf(reservation.envelope)))
  {
  }

  lemma AuditedHistory(store: Store, ledger: seq<Audit>, unused: nat, g: GrantId)
    requires Layout(store, unused) && Inv(View(store, ledger)) && GrantDir(g) in store
    requires FilesAt(store, g).ack.Some?
    requires Plain(store[GrantDir(g)])
    ensures FilesAt(store, g).reservation.Some?
    ensures var envelope := FilesAt(store, g).reservation.value.envelope;
            && GrantId(envelope.payload) == g
            && ReadHistory(g, store[GrantDir(g)])
               == Some(History(envelope.payload.Operation(), MarkerDigestOf(envelope)))
  {
    assert GrantOk(View(store, ledger), g) && View(store, ledger).grants[g] == FilesAt(store, g);
    var reservation := FilesAt(store, g).reservation.value;
    assert FilesAt(store, g) == Full(reservation);
    hide Inv, Layout, View, FilesAt, GrantOk;
    FiveRecords(store, unused, g);
    FiveNames(store, unused, g);
    FullHistory(g, store[GrantDir(g)], reservation);
  }

  lemma FiveNames(store: Store, unused: nat, g: GrantId)
    requires Layout(store, unused) && GrantDir(g) in store
    requires Plain(store[GrantDir(g)])
    requires FilesAt(store, g).reservation.Some? && FilesAt(store, g).receipt.Some?
    requires FilesAt(store, g).terminal.Some? && FilesAt(store, g).audit.Some? && FilesAt(store, g).ack.Some?
    ensures store[GrantDir(g)].names.Keys == GRANT_FILES
  {
    var names := store[GrantDir(g)].names;
    forall n | n in names ensures n in GRANT_FILES {
      assert AllowedTarget(GrantDir(g), n.target) && n == Published(n.target);
    }
    forall n | n in GRANT_FILES ensures n in names {
      assert Find(store, GrantDir(g), n.target).Some?;
    }
  }

  lemma HistoryMeansAudited(store: Store, unused: nat, g: GrantId)
    requires Layout(store, unused) && GrantDir(g) in store
    requires ReadHistory(g, store[GrantDir(g)]).Some?
    ensures FilesAt(store, g).ack.Some?
    ensures Plain(store[GrantDir(g)])
  {
  }

  // ----- the reader

  /** What the loop over the grant directories has put in the map. */
  ghost predicate Gathered(store: Store, found: map<GrantId, History>, pending: set<Place>) {
    && (forall p :: p in store && p.GrantDir? && p !in pending ==>
          ReadHistory(p.grant, store[p]).Some? && p.grant in found
          && found[p.grant] == ReadHistory(p.grant, store[p]).value)
    && forall g :: g in found ==> GrantDir(g) in store
  }

  /** `readRecoveryGrantHistories`: None when any grant directory is corrupt or there is none. */
  method ReadHistories(store: Store) returns (histories: Option<map<GrantId, History>>)
    ensures histories.Some? <==>
              && (exists p :: p in store && p.GrantDir?)
              && forall p :: p in store && p.GrantDir? ==> ReadHistory(p.grant, store[p]).Some?
    ensures histories.Some? ==> Gathered(store, histories.value, {})
  {
    hide ReadHistory;
    var directories := set p | p in store && p.GrantDir?;
    var found: map<GrantId, History> := map[];
    if directories == {} {
      assert forall p :: p in store && p.GrantDir? ==> p in directories;
      return None;
    }
    var pending := directories;
    while pending != {}
      invariant pending <= directories
      invariant Gathered(store, found, pending)
      decreases pending
    {
      var p :| p in pending;
      var history := ReadHistory(p.grant, store[p]);
      if history.None? {
        return None;
      }
      pending := pending - {p};
      found := found[p.grant := history.value];
    }
    return Some(found);
  }

  /** `readRecoveryReleaseClaims`. */
  method ReadClaims(dir: Dir) returns (intact: bool)
    ensures intact <==> forall n :: n in dir.names ==> ClaimLegible(dir, n)
  {
    var pending := dir.names.Keys;
    while pending != {}
      invariant pending <= dir.names.Keys
      invariant forall n :: n in dir.names && n !in pending ==> ClaimLegible(dir, n)
      decreases pending
    {
      var n :| n in pending;
      pending := pending - {n};
      if n.Temporary? {
        return false;
      }
      var claim := ReadPublished(dir, n.target);
      if !(claim.Some? && claim.value.ClaimRecord? && ClaimFile(claim.value.claim.marker) == n.target) {
        assert !ClaimLegible(dir, n);
        return false;
      }
      assert HoldsAlone(dir, n.target, ClaimRecord(claim.value.claim));
    }
    return true;
  }

  predicate OnlyMarker(dir: Dir) {
    forall n :: n in dir.names ==> n == Published(MarkerFile)
  }

  /** Everything but the marker: the directory's own entries, the grants and the claims. */
  method ReadSurroundings(store: Store) returns (histories: Option<map<GrantId, History>>)
    ensures histories.Some? <==> Surrounded(store)
    ensures histories.Some? ==> Gathered(store, histories.value, {})
  {
    hide ReadHistory, Legible, ClaimLegible, Gathered;
    forall p | p in store && p.GrantDir?
      ensures ReadHistory(p.grant, store[p]).Some? <==> GrantLegible(store, p)
    {
      GrantRead(store, p);
    }
    if StateDir !in store || GrantsDir !in store || ClaimsDir !in store || !OnlyMarker(store[StateDir]) {
      return None;
    }
    histories := ReadHistories(store);
    if histories.Some? {
      var intact := ReadClaims(store[ClaimsDir]);
      if !intact {
        return None;
      }
    }
  }

  lemma GrantRead(store: Store, p: Place)
    requires p in store && p.GrantDir?
    ensures ReadHistory(p.grant, store[p]).Some? <==> GrantLegible(store, p)
  {
    hide ReadHistory, Legible;
    var read := ReadHistory(p.grant, store[p]);
    if read.Some? {
      ReadHistoryMeans(p.grant, store[p], read.value);
    }
    forall history | Legible(p.grant, store[p], history) ensures read == Some(history) {
      ReadHistoryMeans(p.grant, store[p], history);
    }
  }

  /** `readRecoveryQuarantineInventory`: of any store the launcher accepts exactly those it can read in
      full, and returns the marker they hold. In every store the operations can reach those are the
      quiescent ones, and the marker is the engine's own. */
  method ReadInventory(store: Store, ghost ledger: seq<Audit>, ghost unused: nat)
    returns (r: Option<Option<Marker>>)
    ensures r.Some? <==> Surrounded(store) && exists marker :: MarkerLegible(store, marker)
    ensures r.Some? ==> MarkerLegible(store, r.value)
    ensures Layout(store, unused) && Inv(View(store, ledger)) ==>
              && (r.Some? <==> Quiescent(store))
              && (r.Some? ==> r.value == View(store, ledger).marker)
  {
    hide Inv, View, Layout, Quiescent, Surrounded, MarkerLegible, ReadPublished, ReadHistory, Gathered, Legible,
      HoldsAlone;
    if Layout(store, unused) && Inv(View(store, ledger)) {
      ReachableIsLegible(store, ledger, unused);
    }
    var histories := ReadSurroundings(store);
    if histories.None? {
      return None;
    }
    SurroundedHasState(store);
    if Published(MarkerFile) !in store[StateDir].names {
      NoMarkerRead(store);
      return Some(None);
    }
    var record := ReadPublished(store[StateDir], MarkerFile);
    MarkerRead(store, record, histories.value);
    if record.None? || !record.value.MarkerRecord? {
      return None;
    }
    var marker := record.value.marker;
    if marker.enterGrant !in histories.value
       || histories.value[marker.enterGrant] != History(EnterQuarantine, OfMarker(marker)) {
      return None;
    }
    return Some(Some(marker));
  }

  lemma SurroundedHasState(store: Store)
    requires Surrounded(store)
    ensures StateDir in store
  {
  }

  lemma NoMarkerRead(store: Store)
    requires StateDir in store && Published(MarkerFile) !in store[StateDir].names
    ensures MarkerLegible(store, None)
  {
  }

  /** The marker is legible exactly when its file holds it and the map has its history. */
  lemma MarkerRead(store: Store, record: Option<Record>, histories: map<GrantId, History>)
    requires StateDir in store && Published(MarkerFile) in store[StateDir].names
    requires record == ReadPublished(store[StateDir], MarkerFile) && Gathered(store, histories, {})
    ensures forall marker :: MarkerLegible(store, marker) <==>
              && marker.Some? && record == Some(MarkerRecord(marker.value))
              && marker.value.enterGrant in histories
              && histories[marker.value.enterGrant] == History(EnterQuarantine, OfMarker(marker.value))
  {
    hide ReadHistory, Legible;
    forall m: Marker
      ensures MarkerLegible(store, Some(m)) <==>
                && record == Some(MarkerRecord(m)) && m.enterGrant in histories
                && histories[m.enterGrant] == History(EnterQuarantine, OfMarker(m))
    {
      var p := GrantDir(m.enterGrant);
      if p in store {
        ReadHistoryMeans(m.enterGrant, store[p], History(EnterQuarantine, OfMarker(m)));
      }
    }
  }

  // ----- stores the operations can reach

  /** There the legible stores are the quiescent ones, and the marker they hold is the engine's. */
  lemma ReachableIsLegible(store: Store, ledger: seq<Audit>, unused: nat)
    requires Layout(store, unused) && Inv(View(store, ledger))
    ensures Surrounded(store) <==> Quiescent(store)
    ensures Quiescent(store) ==> MarkerLegible(store, View(store, ledger).marker)
    ensures Quiescent(store) ==>
              forall marker :: MarkerLegible(store, marker) ==> marker == View(store, ledger).marker
  {
    hide Inv, Layout, DirOk, View, FilesAt, Plain, Legible, ClaimLegible, AllowedTarget, MarkerLegible, ReadHistory;
    forall p | p in store && p.GrantDir?
      ensures GrantLegible(store, p) <==> FilesAt(store, p.grant).ack.Some? && Plain(store[p])
    {
      GrantLegibleMeans(store, ledger, unused, p);
    }
    if StateDir in store && ClaimsDir in store {
      EntriesTell(store, unused);
    }
    if Quiescent(store) {
      MarkerTells(store, ledger, unused);
    }
  }

  lemma GrantLegibleMeans(store: Store, ledger: seq<Audit>, unused: nat, p: Place)
    requires Layout(store, unused) && Inv(View(store, ledger)) && p in store && p.GrantDir?
    ensures GrantLegible(store, p) <==> FilesAt(store, p.grant).ack.Some? && Plain(store[p])
  {
    GrantRead(store, p);
    hide ReadHistory, Inv, View, FilesAt, Plain, Layout, Legible;
    if GrantLegible(store, p) {
      HistoryMeansAudited(store, unused, p.grant);
    }
    if FilesAt(store, p.grant).ack.Some? && Plain(store[p]) {
      AuditedHistory(store, ledger, unused, p.grant);
    }
  }

  /** The state directory's own file is the marker alone, and every claim is legible, exactly when no
      name there is temporary. */
  lemma EntriesTell(store: Store, unused: nat)
    requires Layout(store, unused) && StateDir in store && ClaimsDir in store
    ensures (forall n :: n in store[StateDir].names ==> n == Published(MarkerFile)) <==> Plain(store[StateDir])
    ensures (forall n :: n in store[ClaimsDir].names ==> ClaimLegible(store[ClaimsDir], n))
            <==> Plain(store[ClaimsDir])
  {
    var dir := store[ClaimsDir];
    if Plain(dir) {
      forall n | n in dir.names ensures ClaimLegible(dir, n) {
        assert AllowedTarget(ClaimsDir, n.target) && NameOk(dir, n);
        PublishedLinkedOnce(dir, n.target, unused);
        var claim := dir.inodes[dir.names[n]].content.record.claim;
        assert HoldsAlone(dir, n.target, ClaimRecord(claim));
      }
    }
  }

  lemma MarkerTells(store: Store, ledger: seq<Audit>, unused: nat)
    requires Layout(store, unused) && Inv(View(store, ledger)) && Quiescent(store)
    ensures MarkerLegible(store, View(store, ledger).marker)
    ensures forall marker :: MarkerLegible(store, marker) ==> marker == View(store, ledger).marker
  {
    PublishedLinkedOnce(store[StateDir], MarkerFile, unused);
    PublishedIsFound(store[StateDir], MarkerFile, unused);
    MarkerIs(store, ledger);
    hide Inv, View, Layout, FilesAt, Legible, Quiescent;
    if View(store, ledger).marker.Some? {
      var m := View(store, ledger).marker.value;
      MarkerHasHistory(store, ledger, unused, m);
      ReadHistoryMeans(m.enterGrant, store[GrantDir(m.enterGrant)], History(EnterQuarantine, OfMarker(m)));
    }
  }

  lemma MarkerIs(store: Store, ledger: seq<Audit>)
    ensures View(store, ledger).marker == MarkerAt(store)
  {
  }

  /** The active marker's enter grant is among the audited ones, and is the one that made it. */
  lemma MarkerHasHistory(store: Store, ledger: seq<Audit>, unused: nat, marker: Marker)
    requires Layout(store, unused) && Inv(View(store, ledger)) && View(store, ledger).marker == Some(marker)
    requires AllAudited(store)
    ensures var g := marker.enterGrant;
            GrantDir(g) in store
            && ReadHistory(g, store[GrantDir(g)]) == Some(History(EnterQuarantine, OfMarker(marker)))
  {
    var g := marker.enterGrant;
    assert View(store, ledger).grants[g] == FilesAt(store, g);
    assert MarkerOk(View(store, ledger));
    assert GrantDir(g) in store;
    AuditedHistory(store, ledger, unused, g);
  }
}
