/** What an accepted supervisor history says of its records, and that this is all that is asked. */
module HistoryFacts {

  import opened History
  import opened HistoryTheorems
  import opened Results

  // ----- one record and one transaction, field by field

  predicate Counts(n: int) {
    1 <= n <= 9_007_199_254_740_991
  }

  /** A record as its parser admits it. */
  predicate WellFormed(r: Record) {
    match r
    case Anchor(_, _, _, _, _, _, _, _, _, _) => r.sequence == 0 && r.previous.None? && Counts(r.generation)
    case Transition(_, _, _, _, _, _, _, _, _, _, _, _, _, _, _) =>
      && Counts(r.sequence) && r.previous.Some? && Counts(r.fromGeneration) && Counts(r.toGeneration)
      && r.toGeneration - r.fromGeneration == 1
    case Terminal(_, _, _, _, _, _, _, _, _, _, _, _) => Counts(r.sequence) && r.previous.Some? && Counts(r.generation)
  }

  /** A candidate takes over from a settled record: its generation and its supervisor. */
  predicate Selects(before: Record, candidate: Record) {
    && (before.Anchor? || before.Terminal?)
    && candidate.Transition? && candidate.phase.CandidateSelected? && candidate.sourceState.RecoveryVerified?
    && candidate.fromGeneration == before.generation && candidate.fromSupervisor == before.supervisor
  }

  /** A rollback of a candidate restores what was active before it. */
  predicate Restores(before: Record, candidate: Record, rollback: Record) {
    && candidate.Transition?
    && rollback.Transition? && rollback.phase.RollbackRestored? && rollback.sourceState.RollbackRequired?
    && rollback.fromGeneration == candidate.toGeneration && rollback.fromSupervisor == candidate.toSupervisor
    && rollback.tx == candidate.tx && rollback.promotionLineage == candidate.promotionLineage
    && rollback.artifact == before.artifact && rollback.trustCommit == before.trustCommit
  }

  /** A terminal record repeats where the last transition led. */
  predicate Ends(last: Record, terminal: Record, state: TerminalState) {
    && last.Transition? && terminal.Terminal? && terminal.state == state
    && terminal.generation == last.toGeneration && terminal.supervisor == last.toSupervisor
    && terminal.artifact == last.artifact && terminal.trustCommit == last.trustCommit && terminal.tx == last.tx
  }

  /** Transactions, one after another. */
  predicate Transactions(before: Record, rest: seq<Record>)
    decreases |rest|
  {
    || rest == []
    || (|rest| >= 2 && Selects(before, rest[0]) && Ends(rest[0], rest[1], Finalized)
        && Transactions(rest[1], rest[2..]))
    || (|rest| >= 3 && Selects(before, rest[0]) && Restores(before, rest[0], rest[1])
        && Ends(rest[1], rest[2], RolledBack) && Transactions(rest[2], rest[3..]))
  }

  /** The records are numbered from zero, name each other's digests, belong to one repository, and
      no time runs backwards. */
  predicate Linked(ordered: seq<Record>) {
    && (forall i :: 0 <= i < |ordered| ==> ordered[i].sequence == i)
    && (forall i :: 0 < i < |ordered| ==> ordered[i].previous == Some(ordered[i - 1].digest))
    && (forall i, j :: 0 <= i < |ordered| && 0 <= j < |ordered| ==> ordered[i].repositoryId == ordered[j].repositoryId)
    && (forall i, j :: 0 <= i < j < |ordered| ==> ordered[i].recordedAt <= ordered[j].recordedAt)
  }

  /** An anchor and at least one transaction. */
  predicate IsHistory(ordered: seq<Record>) {
    |ordered| > 1 && ordered[0].Anchor? && Linked(ordered) && Transactions(ordered[0], ordered[1..])
  }

  // ----- the chain check is exactly this

  lemma {:induction false} TimesRise(ordered: seq<Record>, i: nat, j: nat)
    requires Chain(ordered) && i <= j < |ordered|
    ensures ordered[i].recordedAt <= ordered[j].recordedAt
    decreases j
  {
    if i < j {
      assert LinkOk(ordered, j) && Follows(ordered, j);
      TimesRise(ordered, i, j - 1);
    }
  }

  lemma ChainIsLinked(ordered: seq<Record>)
    requires Chain(ordered)
    ensures Linked(ordered)
  {
    forall i | 0 <= i < |ordered|
      ensures ordered[i].sequence == i && ordered[i].repositoryId == ordered[0].repositoryId
      ensures i > 0 ==> ordered[i].previous == Some(ordered[i - 1].digest)
    {
      assert LinkOk(ordered, i) && (i > 0 ==> Follows(ordered, i));
    }
    forall i, j | 0 <= i < j < |ordered| ensures ordered[i].recordedAt <= ordered[j].recordedAt {
      TimesRise(ordered, i, j);
    }
  }

  lemma LinkedAt(ordered: seq<Record>, i: nat)
    requires Chain(ordered) && 0 < i < |ordered|
    ensures Follows(ordered, i)
  {
    assert LinkOk(ordered, i);
  }

  /** From a settled record on, a chain is transactions. */
  lemma {:induction false} ChainIsTransactions(ordered: seq<Record>, i: nat)
    requires Chain(ordered) && BoundaryAt(ordered, i)
    ensures Transactions(ordered[i - 1], ordered[i..])
    decreases |ordered| - i
  {
    hide Chain;
    if i < |ordered| {
      var rest := ordered[i..];
      LinkedAt(ordered, i);
      StopAt(ordered, i);
      LinkedAt(ordered, i + 1);
      if ordered[i + 1].Terminal? {
        ChainIsTransactions(ordered, i + 2);
        assert rest[2..] == ordered[i + 2..];
      } else {
        LinkedAt(ordered, i + 2);
        ChainIsTransactions(ordered, i + 3);
        assert rest[3..] == ordered[i + 3..];
      }
    }
  }

  /** Transactions link up, record by record. */
  lemma {:induction false} TransactionsFollow(ordered: seq<Record>, i: nat, k: nat)
    requires Linked(ordered) && 0 < i <= k < |ordered| && Transactions(ordered[i - 1], ordered[i..])
    ensures Follows(ordered, k)
    decreases |ordered| - i
  {
    hide Linked;
    var rest := ordered[i..];
    LinkOfLinked(ordered, k);
    if Ends(rest[0], rest[1], Finalized) && Transactions(rest[1], rest[2..]) && Selects(ordered[i - 1], rest[0]) {
      if k >= i + 2 {
        assert rest[2..] == ordered[i + 2..];
        TransactionsFollow(ordered, i + 2, k);
      }
    } else if k >= i + 3 {
      assert rest[3..] == ordered[i + 3..];
      TransactionsFollow(ordered, i + 3, k);
    }
  }

  lemma LinkOfLinked(ordered: seq<Record>, k: nat)
    requires Linked(ordered) && 0 < k < |ordered|
    ensures ordered[k].previous == Some(ordered[k - 1].digest) && ordered[k - 1].recordedAt <= ordered[k].recordedAt
  {
  }

  lemma {:induction false} TransactionsEnd(before: Record, rest: seq<Record>)
    requires Transactions(before, rest) && rest != []
    ensures rest[|rest| - 1].Terminal?
    decreases |rest|
  {
    if Ends(rest[0], rest[1], Finalized) && Transactions(rest[1], rest[2..]) && Selects(before, rest[0]) {
      if |rest| > 2 {
        TransactionsEnd(rest[1], rest[2..]);
      }
    } else if |rest| > 3 {
      TransactionsEnd(rest[2], rest[3..]);
    }
  }

  /** The record-by-record check accepts exactly an anchor followed by transactions. */
  lemma ChainIsHistory(ordered: seq<Record>)
    ensures Chain(ordered) <==> IsHistory(ordered)
  {
    if Chain(ordered) {
      ChainIsLinked(ordered);
      ChainIsTransactions(ordered, 1);
    }
    if IsHistory(ordered) {
      forall k | 0 <= k < |ordered| ensures LinkOk(ordered, k) {
        if k > 0 {
          TransactionsFollow(ordered, 1, k);
        }
      }
      TransactionsEnd(ordered[0], ordered[1..]);
    }
  }

  // ----- directories

  /** The files a history's records are kept in: each named by its record's digest. */
  function FilesOf(ordered: seq<Record>): (files: seq<Entry>)
    ensures |files| == |ordered|
    ensures forall i :: 0 <= i < |files| ==> files[i] == Entry(Some(ordered[i].digest), true, Some(ordered[i]))
  {
    seq(|ordered|, i requires 0 <= i < |ordered| => Entry(Some(ordered[i].digest), true, Some(ordered[i])))
  }

  lemma {:induction false} FilesCount(ordered: seq<Record>, r: Record)
    ensures multiset(FilesOf(ordered))[Entry(Some(r.digest), true, Some(r))] == multiset(ordered)[r]
  {
    if ordered != [] {
      var files, rest := FilesOf(ordered), ordered[1..];
      FilesCount(rest, r);
      assert files[1..] == FilesOf(rest);
      HeadCounts(files, Entry(Some(r.digest), true, Some(r)));
      HeadCounts(ordered, r);
    }
  }

  lemma FilesRead(ordered: seq<Record>, e: Entry)
    requires (forall i :: 0 <= i < |ordered| ==> WellFormed(ordered[i])) && e in FilesOf(ordered)
    ensures Readable(e)
  {
  }

  /** A directory holds a history exactly when it consists of the files of an anchor followed by
      transactions, each record well formed. */
  lemma HoldsMeans(listing: seq<Entry>, ordered: seq<Record>)
    ensures Holds(listing, ordered) <==>
              && multiset(listing) == multiset(FilesOf(ordered))
              && (forall i :: 0 <= i < |ordered| ==> WellFormed(ordered[i]))
              && IsHistory(ordered)
  {
    ChainIsHistory(ordered);
    hide Chain, IsHistory;
    if Holds(listing, ordered) {
      AcceptedAreWellFormed(listing, ordered);
      SameFiles(listing, ordered);
    } else if && multiset(listing) == multiset(FilesOf(ordered))
              && forall i :: 0 <= i < |ordered| ==> WellFormed(ordered[i])
    {
      ListingReads(listing, ordered);
      forall r ensures multiset(Contents(listing))[r] == multiset(ordered)[r] {
        ContentsOfPermutation(listing, r);
        FilesCount(ordered, r);
      }
      assert multiset(Contents(listing)) == multiset(ordered);
    }
  }

  lemma ListingReads(listing: seq<Entry>, ordered: seq<Record>)
    requires multiset(listing) == multiset(FilesOf(ordered))
    requires forall i :: 0 <= i < |ordered| ==> WellFormed(ordered[i])
    ensures forall e :: e in listing ==> Readable(e)
  {
    forall e | e in listing ensures Readable(e) {
      assert e in multiset(FilesOf(ordered));
      FilesRead(ordered, e);
    }
  }

  lemma AcceptedAreWellFormed(listing: seq<Entry>, ordered: seq<Record>)
    requires Holds(listing, ordered)
    ensures forall i :: 0 <= i < |ordered| ==> WellFormed(ordered[i])
  {
    hide Chain;
    forall i | 0 <= i < |ordered| ensures WellFormed(ordered[i]) {
      var k := PlaceOf(ordered, Contents(listing), i);
      assert Readable(listing[k]);
    }
  }

  lemma SameFiles(listing: seq<Entry>, ordered: seq<Record>)
    requires Holds(listing, ordered)
    ensures multiset(listing) == multiset(FilesOf(ordered))
  {
    hide Chain;
    forall e ensures multiset(listing)[e] == multiset(FilesOf(ordered))[e] {
      if e.content.Some? && e == Entry(Some(e.content.value.digest), true, e.content) {
        ContentsOfPermutation(listing, e.content.value);
        FilesCount(ordered, e.content.value);
      } else {
        if e in listing {
          assert Readable(e);
        }
        assert e !in FilesOf(ordered);
        assert e !in listing;
      }
    }
  }

  /** So the leaf's supervisor is where the last transaction led, every transition takes over from the
      record before it, and every terminal record from the transition before it. */
  lemma SupervisorsFollow(listing: seq<Entry>, ordered: seq<Record>, i: nat)
    requires Holds(listing, ordered) && 0 < i < |ordered|
    ensures ordered[i].Transition? ==>
              ordered[i].fromSupervisor
              == if ordered[i - 1].Transition? then ordered[i - 1].toSupervisor else ordered[i - 1].supervisor
    ensures ordered[i].Terminal? ==> ordered[i - 1].Transition? && ordered[i].supervisor == ordered[i - 1].toSupervisor
    ensures ordered[|ordered| - 1].Terminal? && ordered[|ordered| - 2].Transition?
            && ordered[|ordered| - 1].supervisor == ordered[|ordered| - 2].toSupervisor
  {
    LinkedAt(ordered, i);
    LinkedAt(ordered, |ordered| - 1);
  }
}
