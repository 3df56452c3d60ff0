/** What stopped operations leave behind, and when the launcher can accept a store again. */
module QuarantineResidue {
  // The launcher accepts no store with a temporary name in it. Some names nothing ever removes.

  import opened QuarantineDirectory
  import opened QuarantineLauncher
  import opened QuarantineProtocol
  import opened QuarantineRecords
  import opened QuarantineReruns
  import opened QuarantineStore
  import opened QuarantineTheorems
  import opened Results

  lemma StuckIsNotQuiescent(store: Store, p: Place, n: Name, unused: nat)
    requires Layout(store, unused) && Stuck(store, p, n)
    ensures !Quiescent(store)
  {
    assert n in store[p].names && n.Temporary? && AllowedTarget(p, n.target);
  }

  /** Runs the operations one after another, each stopped where its request says. */
  method ExecuteMore(volume: Volume, requests: seq<Request>)
    requires volume.Valid()
    modifies volume`store, volume`stopAfter, volume`unused, volume`ledger
    ensures volume.Valid()
  {
    for i := 0 to |requests|
      invariant volume.Valid()
    {
      volume.stopAfter := requests[i].stopAfter;
      var o, events := Execute(volume, requests[i].envelope, requests[i].deps, requests[i].operation);
    }
  }

  /** A torn temporary file, or in a grant's or the claims' directory a temporary file of a record other
      than the published one, is there after any operations, each stopped anywhere or not at all, and
      the launcher refuses the store for good. */
  method RefusedForGood(volume: Volume, requests: seq<Request>, ghost p: Place, ghost n: Name)
    returns (r: Option<Option<Marker>>)
    requires volume.Valid() && Stuck(volume.store, p, n)
    modifies volume
    ensures volume.Valid() && Stuck(volume.store, p, n) && r.None?
  {
    volume.watched := {(p, n)};
    ExecuteMore(volume, requests);
    assert (p, n) in volume.watched && Stuck(volume.store, (p, n).0, (p, n).1);
    StuckIsNotQuiescent(volume.store, p, n, volume.unused);
    r := ReadInventory(volume.store, volume.ledger, volume.unused);
  }

  /** Such a file comes from one stop: between creating a reservation's file and writing it. Whatever
      is run afterwards, the grant itself included, the launcher refuses. */
  method TornReservationIsRefused(envelope: Envelope, now: int, requests: seq<Request>)
    returns (r: Option<Option<Marker>>)
    ensures r.None?
  {
    hide Inv, Layout, View, Watched, StuckIn, Empty;
    var g, reservation := GrantId(envelope.payload), Reservation(envelope, now);
    var volume := new Volume();
    var made := volume.MakeDirectories(g);
    NoReservation(volume.store, volume.ledger, volume.unused, g);
    GrantRecordFits(g, reservation, 1);
    volume.stopAfter := 1;
    ghost var before, torn := volume.store, Temporary(ReservationFile, ReservationRecord(reservation), volume.unused);
    var o := volume.PublishNew(GrantDir(g), ReservationFile, ReservationRecord(reservation));
    SameView(before, volume.store, volume.ledger);
    StuckAnywhere(volume.store, GrantDir(g), torn);
    r := RefusedForGood(volume, requests, GrantDir(g), torn);
  }

  lemma StuckAnywhere(store: Store, p: Place, n: Name)
    requires p in store && StuckIn(store[p], n, false)
    ensures Stuck(store, p, n)
  {
  }

  lemma NoReservation(store: Store, ledger: seq<Audit>, unused: nat, g: GrantId)
    requires Layout(store, unused) && View(store, ledger) == Empty() && GrantDir(g) in store
    ensures Published(ReservationFile) !in store[GrantDir(g)].names
  {
    ViewFiles(store, ledger, g);
    PublishedIsFound(store[GrantDir(g)], ReservationFile, unused);
  }

  // ----- stores that become quiescent by being read

  /** A temporary name the engine's readers leave in a marker's or a grant's directory. */
  ghost predicate KeptSomewhere(store: Store) {
    exists p, n :: p in store && (p.StateDir? || p.GrantDir?) && Kept(store[p], n)
  }

  /** Every directory the engine's readers reconcile has been through a pass. */
  ghost predicate Passed(before: Store, after: Store, left: set<Place>) {
    && after.Keys == before.Keys
    && (forall p :: p in before && (p in left || !(p.StateDir? || p.GrantDir?)) ==> after[p] == before[p])
    && (forall p :: p in before && p !in left && (p.StateDir? || p.GrantDir?) ==> Pass(before[p], after[p]))
  }

  function GrantPlaces(store: Store): set<Place> {
    set p | p in store && p.GrantDir?
  }

  lemma OnePassed(before: Store, middle: Store, after: Store, left: set<Place>, p: Place)
    requires Passed(before, middle, left + {p}) && p in before && p !in left && (p.StateDir? || p.GrantDir?)
    requires p in middle && p in after && after == middle[p := after[p]] && Pass(middle[p], after[p])
    ensures Passed(before, after, left)
  {
    hide Pass;
  }

  lemma NonePassed(store: Store, left: set<Place>)
    requires left == GrantPlaces(store) + {StateDir}
    ensures Passed(store, store, left)
  {
  }

  lemma GrantsDefined(store: Store, ledger: seq<Audit>)
    ensures forall g: GrantId :: g in View(store, ledger).grants
  {
  }

  /** The engine's readers: the marker's, and that of every grant there is a directory of. */
  method ReadAll(volume: Volume)
    requires volume.Valid() && volume.stopAfter < 0 && StateDir in volume.store
    requires forall p :: p in volume.store && p.GrantDir? ==> volume.Records().grants[p.grant].reservation.Some?
    modifies volume`store, volume`stopAfter
    ensures volume.Valid() && volume.stopAfter < 0 && volume.Records() == old(volume.Records())
    ensures Passed(old(volume.store), volume.store, {})
  {
    hide Inv, Layout, View, Watched, Pass, Passed;
    ghost var start := volume.store;
    GrantsDefined(volume.store, volume.ledger);
    var left := GrantPlaces(volume.store);
    NonePassed(start, left + {StateDir});
    var marker := volume.ReadMarker();
    OnePassed(start, start, volume.store, left, StateDir);
    while left != {}
      invariant volume.Valid() && volume.stopAfter < 0 && volume.Records() == old(volume.Records())
      invariant left <= GrantPlaces(start) && Passed(start, volume.store, left) && volume.store.Keys == start.Keys
      decreases left
    {
      var p :| p in left;
      ghost var middle := volume.store;
      var read := volume.ReadGrantRecord(p.grant);
      assert (left - {p}) + {p} == left;
      left := left - {p};
      OnePassed(start, middle, volume.store, left, p);
    }
  }

  lemma PassedTwice(a: Store, b: Store, c: Store)
    requires Passed(a, b, {}) && Passed(b, c, {})
    ensures forall p :: p in a && (p.StateDir? || p.GrantDir?) ==>
              p in c && (Plain(c[p]) <==> forall n :: !Kept(a[p], n))
    ensures forall p :: p in a && !(p.StateDir? || p.GrantDir?) ==> p in c && c[p] == a[p]
  {
    hide Kept, Settled;
    forall p | p in a && (p.StateDir? || p.GrantDir?)
      ensures Plain(c[p]) <==> forall n :: !Kept(a[p], n)
    {
      assert Pass(a[p], b[p]) && Pass(b[p], c[p]);
      PassedPlain(a[p], b[p], c[p]);
    }
  }

  lemma PassedPlain(a: Dir, b: Dir, c: Dir)
    requires Pass(a, b) && Pass(b, c)
    ensures Plain(c) <==> forall n :: !Kept(a, n)
  {
    hide Settled;
    assert Swept(b, c);
    forall n ensures Kept(c, n) <==> Kept(a, n) {
    }
    if Plain(c) {
      forall n ensures !Kept(a, n) {
        assert Kept(c, n) ==> n in c.names && n.Temporary?;
      }
    } else {
      var n :| n in c.names && !n.Published?;
      assert Kept(b, n);
    }
  }

  /** When every grant is audited, the engine's readers, each run twice, leave a store the launcher
      accepts exactly when no temporary name they keep was there, and no temporary name at all beside
      the claims, which they do not read. */
  method ReadThenInventory(volume: Volume) returns (r: Option<Option<Marker>>)
    requires volume.Valid() && volume.stopAfter < 0
    requires StateDir in volume.store && GrantsDir in volume.store && ClaimsDir in volume.store
    requires exists p :: p in volume.store && p.GrantDir?
    requires forall p :: p in volume.store && p.GrantDir? ==> FilesAt(volume.store, p.grant).ack.Some?
    modifies volume`store, volume`stopAfter
    ensures volume.Valid() && volume.Records() == old(volume.Records())
    ensures r.Some? <==> !KeptSomewhere(old(volume.store)) && Plain(old(volume.store)[ClaimsDir])
    ensures r.Some? ==> r.value == volume.Records().marker
  {
    hide Inv, Layout, Watched, Pass, Passed, Kept, Plain, Stuck;
    ghost var a := volume.store;
    AuditedAreReserved(a, volume.ledger);
    ReadAll(volume);
    ghost var b := volume.store;
    SameKeysPassed(a, b);
    ReadAll(volume);
    ghost var c := volume.store;
    SameKeysPassed(b, c);
    PassedTwice(a, b, c);
    AuditedStays(a, c, volume.ledger);
    r := ReadInventory(volume.store, volume.ledger, volume.unused);
    QuiescentWhen(a, c);
  }

  lemma SameKeysPassed(a: Store, b: Store)
    requires Passed(a, b, {})
    ensures a.Keys == b.Keys
  {
  }

  lemma AuditedAreReserved(store: Store, ledger: seq<Audit>)
    requires Inv(View(store, ledger))
    requires forall p :: p in store && p.GrantDir? ==> FilesAt(store, p.grant).ack.Some?
    ensures forall p :: p in store && p.GrantDir? ==> View(store, ledger).grants[p.grant].reservation.Some?
  {
    hide Inv;
    forall p | p in store && p.GrantDir? ensures View(store, ledger).grants[p.grant].reservation.Some? {
      GrantFilesTell(store, ledger, p.grant);
    }
  }

  lemma AuditedStays(a: Store, c: Store, ledger: seq<Audit>)
    requires View(a, ledger) == View(c, ledger)
    ensures forall g: GrantId :: FilesAt(c, g) == FilesAt(a, g)
  {
    forall g: GrantId ensures FilesAt(c, g) == FilesAt(a, g) {
      ViewFiles(a, ledger, g);
      ViewFiles(c, ledger, g);
    }
  }

  lemma QuiescentWhen(a: Store, c: Store)
    requires a.Keys == c.Keys && StateDir in a && GrantsDir in a && ClaimsDir in a
    requires exists p :: p in a && p.GrantDir?
    requires forall p :: p in c && p.GrantDir? ==> FilesAt(c, p.grant).ack.Some?
    requires forall p :: p in a && (p.StateDir? || p.GrantDir?) ==>
               p in c && (Plain(c[p]) <==> forall n :: !Kept(a[p], n))
    requires c[ClaimsDir] == a[ClaimsDir]
    ensures Quiescent(c) <==> !KeptSomewhere(a) && Plain(a[ClaimsDir])
  {
    hide Kept, Plain, FilesAt;
  }

  /** Beside an audited grant's records what the readers keep is kept for good. */
  lemma KeptBesideAudited(store: Store, ledger: seq<Audit>, unused: nat, g: GrantId, n: Name)
    requires Layout(store, unused) && Inv(View(store, ledger)) && GrantDir(g) in store
    requires FilesAt(store, g).ack.Some?
    ensures Kept(store[GrantDir(g)], n) <==> Stuck(store, GrantDir(g), n)
  {
    GrantFilesTell(store, ledger, g);
    AuditedHasAll(store, ledger, g);
    hide Inv, View, Layout;
    if Kept(store[GrantDir(g)], n) {
      assert AllowedTarget(GrantDir(g), n.target) by { LayoutAllows(store, unused, GrantDir(g), n); }
    }
  }

  lemma LayoutAllows(store: Store, unused: nat, p: Place, n: Name)
    requires Layout(store, unused) && p in store && n in store[p].names
    ensures AllowedTarget(p, n.target)
  {
  }

  lemma AuditedHasAll(store: Store, ledger: seq<Audit>, g: GrantId)
    requires Inv(View(store, ledger)) && FilesAt(store, g).ack.Some?
    ensures var files := FilesAt(store, g);
            files.reservation.Some? && files.receipt.Some? && files.terminal.Some? && files.audit.Some?
  {
    ViewFiles(store, ledger, g);
    assert GrantOk(View(store, ledger), g);
  }
}
