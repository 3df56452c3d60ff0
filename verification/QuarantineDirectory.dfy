/** One private directory of the quarantine store: names bound to inodes, inodes with contents and
    a link count, and the four file system calls the store publishes records with.

    The directory is well formed when every published name is bound to a complete record of its
    kind, when two names share an inode only as a target and one temporary name of that target, and
    when link counts agree with that. Each of the four calls keeps this, so it holds wherever the
    machine stops between them. Modes, ownership and symbolic links are not part of the state. */
module QuarantineDirectory {
  import opened QuarantineRecords
  import opened Results

  datatype Target =
    | ReservationFile | ReceiptFile | TerminalFile | AuditFile | AckFile
    | MarkerFile | ClaimFile(marker: Digest)

  datatype Record =
    | ReservationRecord(reservation: Reservation)
    | ReceiptRecord(receipt: Receipt)
    | TerminalRecord(terminal: Terminal)
    | AuditRecord(audit: Audit)
    | AckRecord(ack: Acknowledgement)
    | MarkerRecord(marker: Marker)
    | ClaimRecord(claim: Claim)

  /** `validateTargetRecord`: the record is of the kind its name calls for. */
  predicate Fits(t: Target, r: Record) {
    match t
    case ReservationFile => r.ReservationRecord?
    case ReceiptFile => r.ReceiptRecord?
    case TerminalFile => r.TerminalRecord?
    case AuditFile => r.AuditRecord?
    case AckFile => r.AckRecord?
    case MarkerFile => r.MarkerRecord?
    case ClaimFile(marker) => r.ClaimRecord? && r.claim.marker == marker
  }

  /** A file still being written cannot be read: canonical text holds no newline, so only the
      complete text ends with one (`Json.TornTextUnreadable`). */
  datatype Content = Torn | Whole(record: Record)

  /** A temporary name spells its target, the digest of its record and a fresh UUID. */
  datatype Name = Published(target: Target) | Temporary(target: Target, record: Record, uuid: nat)

  datatype Inode = Inode(content: Content, links: nat)

  datatype Dir = Dir(names: map<Name, nat>, inodes: map<nat, Inode>)

  const EMPTY_DIR := Dir(map[], map[])

  /** Every name is bound to a known inode; `unused` is above every inode and UUID in use. */
  predicate Bound(dir: Dir, unused: nat) {
    forall n :: n in dir.names ==>
      dir.names[n] in dir.inodes && dir.names[n] < unused && (n.Temporary? ==> n.uuid < unused)
  }

  predicate NameOk(dir: Dir, n: Name)
    requires n in dir.names && dir.names[n] in dir.inodes
  {
    var inode := dir.inodes[dir.names[n]];
    && 1 <= inode.links <= 2
    && match n
       case Published(t) => inode.content.Whole? && Fits(t, inode.content.record)
       case Temporary(t, r, _) =>
         && Fits(t, r)
         && (inode.content.Torn? || inode.content.record == r)
         && (inode.links == 2 <==>
               Published(t) in dir.names && dir.names[Published(t)] == dir.names[n])
  }

  /** A published name counts two links only while one of its temporary names is still there. */
  ghost predicate PairOk(dir: Dir, t: Target)
    requires Published(t) in dir.names && dir.names[Published(t)] in dir.inodes
  {
    dir.inodes[dir.names[Published(t)]].links == 2 ==>
      exists n :: n in dir.names && n.Temporary? && n.target == t && dir.names[n] == dir.names[Published(t)]
  }

  /** Two names share an inode only as a target and one temporary name of that target. */
  predicate Alias(m: Name, n: Name) {
    m.target == n.target && (m.Published? <==> n.Temporary?)
  }

  ghost predicate DirOk(dir: Dir, unused: nat) {
    && Bound(dir, unused)
    && (forall n :: n in dir.names ==> NameOk(dir, n))
    && (forall t :: Published(t) in dir.names ==> PairOk(dir, t))
    && (forall m, n :: m in dir.names && n in dir.names && m != n && dir.names[m] == dir.names[n] ==>
          Alias(m, n))
  }

  /** What a reader finds under a published name. */
  function RecordAt(dir: Dir, t: Target): Option<Record> {
    if Published(t) in dir.names && dir.names[Published(t)] in dir.inodes
       && dir.inodes[dir.names[Published(t)]].content.Whole?
    then Some(dir.inodes[dir.names[Published(t)]].content.record)
    else None
  }

  ghost predicate SameRecords(before: Dir, after: Dir) {
    forall t :: RecordAt(after, t) == RecordAt(before, t)
  }

  /** No published record is still paired with a temporary name. */
  ghost predicate Settled(dir: Dir) {
    forall t :: Published(t) in dir.names && dir.names[Published(t)] in dir.inodes ==>
      dir.inodes[dir.names[Published(t)]].links == 1
  }

  /** A temporary name no reconcile pass removes: its file is torn, or its record is not the one
      published under its target. */
  predicate Kept(dir: Dir, n: Name) {
    && n.Temporary? && n in dir.names && dir.names[n] in dir.inodes
    && (dir.inodes[dir.names[n]].content.Torn? || RecordAt(dir, n.target) != Some(n.record))
  }

  /** A temporary name nothing ever removes: its file is torn, or another record is published under
      its target, which in some directories is for good. */
  predicate StuckIn(dir: Dir, n: Name, forGood: bool) {
    && n.Temporary? && n in dir.names && dir.names[n] in dir.inodes
    && (dir.inodes[dir.names[n]].content.Torn?
        || (forGood && RecordAt(dir, n.target).Some? && RecordAt(dir, n.target) != Some(n.record)))
  }

  /** At most the name n is gone, and only if a pass may remove it. */
  ghost predicate AtMostWithout(before: Dir, after: Dir, n: Name) {
    || after == before
    || (&& n in before.names && n.Temporary? && !Kept(before, n)
        && before.names[n] in before.inodes && 1 <= before.inodes[before.names[n]].links && after == Unlink(before, n))
  }

  /** Only the temporary names a pass keeps are left. */
  ghost predicate Swept(before: Dir, after: Dir) {
    forall n :: n in after.names <==> n in before.names && (n.Published? || Kept(before, n))
  }

  /** A whole pass: every published record has one link, what is kept is as it was, and where every
      published record had one link before, nothing else is left. */
  ghost predicate Pass(before: Dir, after: Dir) {
    && Settled(after) && (forall n :: Kept(after, n) <==> Kept(before, n))
    && (Settled(before) ==> Swept(before, after))
  }

  // ----- file system calls

  /** `open` with O_CREAT | O_EXCL: an empty file under a fresh name. */
  function Create(dir: Dir, t: Target, r: Record, unused: nat): Dir {
    Dir(dir.names[Temporary(t, r, unused) := unused], dir.inodes[unused := Inode(Torn, 1)])
  }

  /** The write that completes a file. */
  function Complete(dir: Dir, n: Name): Dir
    requires n.Temporary? && n in dir.names && dir.names[n] in dir.inodes
  {
    var i := dir.names[n];
    dir.(inodes := dir.inodes[i := dir.inodes[i].(content := Whole(n.record))])
  }

  /** `link`: the target name for a temporary file's inode. */
  function Link(dir: Dir, n: Name): Dir
    requires n in dir.names && dir.names[n] in dir.inodes
  {
    var i := dir.names[n];
    Dir(dir.names[Published(n.target) := i], dir.inodes[i := dir.inodes[i].(links := dir.inodes[i].links + 1)])
  }

  function Unlink(dir: Dir, n: Name): Dir
    requires n in dir.names && dir.names[n] in dir.inodes && 1 <= dir.inodes[dir.names[n]].links
  {
    var i := dir.names[n];
    Dir(dir.names - {n}, dir.inodes[i := dir.inodes[i].(links := dir.inodes[i].links - 1)])
  }

  lemma CreateKeeps(dir: Dir, t: Target, r: Record, unused: nat)
    requires DirOk(dir, unused) && Fits(t, r)
    ensures DirOk(Create(dir, t, r, unused), unused + 1)
    ensures SameRecords(dir, Create(dir, t, r, unused))
  {
    var after := Create(dir, t, r, unused);
    forall u | Published(u) in after.names ensures PairOk(after, u) {
      assert PairOk(dir, u) && NameOk(dir, Published(u));
      if after.inodes[after.names[Published(u)]].links == 2 {
        var n :| n in dir.names && n.Temporary? && n.target == u && dir.names[n] == dir.names[Published(u)];
        assert n in after.names;
      }
    }
  }

  lemma CompleteKeeps(dir: Dir, n: Name, unused: nat)
    requires DirOk(dir, unused) && n in dir.names && n.Temporary?
    requires dir.inodes[dir.names[n]].links == 1
    ensures DirOk(Complete(dir, n), unused) && SameRecords(dir, Complete(dir, n))
  {
    var after := Complete(dir, n);
    assert NameOk(dir, n);
    forall m | m in after.names ensures NameOk(after, m) {
      assert NameOk(dir, m);
    }
    forall u | Published(u) in after.names ensures PairOk(after, u) {
      assert PairOk(dir, u);
    }
  }

  lemma LinkKeepsNames(dir: Dir, n: Name, unused: nat)
    requires DirOk(dir, unused) && n in dir.names && n.Temporary?
    requires Published(n.target) !in dir.names && dir.inodes[dir.names[n]].content.Whole?
    ensures var after := Link(dir, n);
            Bound(after, unused) && forall m :: m in after.names ==> NameOk(after, m)
  {
    var after := Link(dir, n);
    assert NameOk(dir, n);
    forall m | m in after.names ensures NameOk(after, m) {
      if m in dir.names {
        assert NameOk(dir, m);
      }
    }
  }

  lemma LinkKeepsPairs(dir: Dir, n: Name, unused: nat)
    requires DirOk(dir, unused) && n in dir.names && n.Temporary?
    requires Published(n.target) !in dir.names
    requires forall m :: m in Link(dir, n).names ==> NameOk(Link(dir, n), m)
    ensures var after := Link(dir, n);
            forall u :: Published(u) in after.names ==> PairOk(after, u)
  {
    hide NameOk;
    var after := Link(dir, n);
    assert NameOk(dir, n);
    forall u | Published(u) in after.names ensures PairOk(after, u) {
      if u == n.target {
        assert n in after.names;
      } else {
        assert PairOk(dir, u);
        if after.inodes[after.names[Published(u)]].links == 2 {
          assert Published(u) in dir.names && !Alias(n, Published(u));
          var m :| m in dir.names && m.Temporary? && m.target == u && dir.names[m] == dir.names[Published(u)];
          assert m in after.names;
        }
      }
    }
  }

  lemma LinkPublishes(dir: Dir, n: Name, unused: nat)
    requires DirOk(dir, unused) && n in dir.names && n.Temporary?
    requires Published(n.target) !in dir.names
    requires dir.inodes[dir.names[n]].content.Whole?
    ensures var after := Link(dir, n);
            && DirOk(after, unused)
            && after.inodes[after.names[n]].links == 2
            && forall t :: RecordAt(after, t) == if t == n.target then Some(n.record) else RecordAt(dir, t)
  {
    hide PairOk;
    LinkKeepsNames(dir, n, unused);
    LinkKeepsPairs(dir, n, unused);
    assert NameOk(dir, n);
  }

  lemma UnlinkTemporaryKeeps(dir: Dir, n: Name, unused: nat)
    requires DirOk(dir, unused) && n in dir.names && n.Temporary?
    ensures 1 <= dir.inodes[dir.names[n]].links
    ensures DirOk(Unlink(dir, n), unused) && SameRecords(dir, Unlink(dir, n))
  {
    assert NameOk(dir, n);
    var after := Unlink(dir, n);
    forall m | m in after.names ensures NameOk(after, m) {
      assert NameOk(dir, m);
    }
    forall u | Published(u) in after.names ensures PairOk(after, u) {
      assert PairOk(dir, u) && NameOk(dir, Published(u));
      if after.inodes[after.names[Published(u)]].links == 2 {
        var m :| m in dir.names && m.Temporary? && m.target == u && dir.names[m] == dir.names[Published(u)];
        assert m in after.names;
      }
    }
  }

  lemma UnlinkPublishedRemoves(dir: Dir, t: Target, unused: nat)
    requires DirOk(dir, unused) && Published(t) in dir.names
    requires dir.inodes[dir.names[Published(t)]].links == 1
    ensures var after := Unlink(dir, Published(t));
            && DirOk(after, unused)
            && forall u :: RecordAt(after, u) == if u == t then None else RecordAt(dir, u)
  {
    var after := Unlink(dir, Published(t));
    assert NameOk(dir, Published(t));
    forall m | m in after.names ensures NameOk(after, m) {
      assert NameOk(dir, m);
    }
    forall u | Published(u) in after.names ensures PairOk(after, u) {
      assert PairOk(dir, u);
      if after.inodes[after.names[Published(u)]].links == 2 {
        var m :| m in dir.names && m.Temporary? && m.target == u && dir.names[m] == dir.names[Published(u)];
        assert m in after.names;
      }
    }
  }

  // ----- what the calls leave behind

  lemma CreateKeepsStuck(dir: Dir, t: Target, r: Record, unused: nat, n: Name, forGood: bool)
    requires DirOk(dir, unused) && StuckIn(dir, n, forGood)
    ensures StuckIn(Create(dir, t, r, unused), n, forGood) && n != Temporary(t, r, unused)
  {
    assert RecordAt(Create(dir, t, r, unused), n.target) == RecordAt(dir, n.target);
  }

  lemma CompleteKeepsStuck(dir: Dir, m: Name, unused: nat, n: Name, forGood: bool)
    requires DirOk(dir, unused) && StuckIn(dir, n, forGood)
    requires m in dir.names && m.Temporary? && m != n && dir.inodes[dir.names[m]].links == 1
    ensures StuckIn(Complete(dir, m), n, forGood)
  {
    CompleteKeeps(dir, m, unused);
    assert dir.names[m] != dir.names[n];
  }

  lemma LinkKeepsStuck(dir: Dir, m: Name, unused: nat, n: Name, forGood: bool)
    requires DirOk(dir, unused) && StuckIn(dir, n, forGood)
    requires m in dir.names && m.Temporary? && Published(m.target) !in dir.names
    requires dir.inodes[dir.names[m]].content.Whole?
    ensures StuckIn(Link(dir, m), n, forGood)
  {
    LinkPublishes(dir, m, unused);
  }

  lemma UnlinkTemporaryKeepsStuck(dir: Dir, m: Name, unused: nat, n: Name, forGood: bool)
    requires DirOk(dir, unused) && StuckIn(dir, n, forGood)
    requires m in dir.names && m.Temporary? && m != n
    ensures 1 <= dir.inodes[dir.names[m]].links && StuckIn(Unlink(dir, m), n, forGood)
  {
    UnlinkTemporaryKeeps(dir, m, unused);
  }

  lemma UnlinkPublishedKeepsTorn(dir: Dir, t: Target, unused: nat, n: Name)
    requires DirOk(dir, unused) && StuckIn(dir, n, false)
    requires Published(t) in dir.names && dir.inodes[dir.names[Published(t)]].links == 1
    ensures StuckIn(Unlink(dir, Published(t)), n, false)
  {
  }

  // ----- a pass over the temporary names

  /** Part of a pass: nothing that is kept is gone, and of what has been seen only that is left. */
  ghost predicate Sweeping(start: Dir, dir: Dir, pending: set<Name>) {
    && SameRecords(start, dir) && (Settled(start) ==> Settled(dir))
    && (forall n :: n in dir.names ==> n in start.names && (n.Temporary? ==> (Kept(dir, n) <==> Kept(start, n))))
    && (forall n :: n in start.names && (n.Published? || Kept(start, n)) ==> n in dir.names)
    && (Settled(start) ==> forall n :: n in dir.names && n.Temporary? && n !in pending ==> Kept(start, n))
  }

  lemma SweepStarts(start: Dir, pending: set<Name>)
    requires pending == set n | n in start.names && n.Temporary?
    ensures Sweeping(start, start, pending)
  {
  }

  lemma UnlinkKeepsKept(dir: Dir, n: Name, unused: nat, m: Name)
    requires DirOk(dir, unused) && n in dir.names && n.Temporary? && m in dir.names && m.Temporary? && m != n
    ensures 1 <= dir.inodes[dir.names[n]].links && (Kept(Unlink(dir, n), m) <==> Kept(dir, m))
  {
    UnlinkTemporaryKeeps(dir, n, unused);
    assert RecordAt(Unlink(dir, n), m.target) == RecordAt(dir, m.target);
  }

  lemma UnlinkKeepsSettled(dir: Dir, n: Name, unused: nat)
    requires DirOk(dir, unused) && n in dir.names && n.Temporary? && Settled(dir)
    ensures 1 <= dir.inodes[dir.names[n]].links && Settled(Unlink(dir, n))
  {
    assert NameOk(dir, n);
    assert forall t :: Published(t) in dir.names && dir.names[Published(t)] == dir.names[n] ==> Alias(n, Published(t));
  }

  lemma SweepOn(start: Dir, before: Dir, after: Dir, pending: set<Name>, n: Name, unused: nat)
    requires DirOk(before, unused) && Sweeping(start, before, pending + {n}) && AtMostWithout(before, after, n)
    requires n.Temporary? && n in before.names && n !in pending
    requires Settled(before) && n in after.names ==> Kept(before, n)
    ensures Sweeping(start, after, pending)
  {
    hide RecordAt, DirOk;
    if after != before {
      UnlinkTemporaryKeeps(before, n, unused);
      SameRecordsTransitive(start, before, after);
      if Settled(before) {
        UnlinkKeepsSettled(before, n, unused);
      }
      forall m | m in after.names && m.Temporary? ensures Kept(after, m) <==> Kept(start, m) {
        UnlinkKeepsKept(before, n, unused, m);
      }
    }
    hide Kept, Settled, SameRecords, Unlink;
  }

  lemma SameRecordsTransitive(a: Dir, b: Dir, c: Dir)
    requires SameRecords(a, b) && SameRecords(b, c)
    ensures SameRecords(a, c)
  {
    forall t ensures RecordAt(c, t) == RecordAt(a, t) {
      assert RecordAt(b, t) == RecordAt(a, t);
    }
  }

  lemma SweepEnds(start: Dir, dir: Dir)
    requires Sweeping(start, dir, {}) && Settled(dir)
    ensures Pass(start, dir)
  {
    hide Settled, SameRecords;
    forall n ensures Kept(dir, n) <==> Kept(start, n) {
      assert Kept(start, n) ==> n in start.names && n.Temporary?;
      assert Kept(dir, n) ==> n in dir.names && n.Temporary?;
    }
  }
}
