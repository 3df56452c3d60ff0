/** The supervisor history and the check of every link in it. */
module History {
  // A directory of digest-named records must form one chain from an anchor to a terminal record,
  // every link checked against its predecessor.

  import opened Results
  import opened Sorting

  type Digest = nat

  type Text = string

  datatype Artifact = Artifact(artifactId: Digest, executableDigest: Digest, closureDigest: Digest)

  datatype Phase = CandidateSelected | RollbackRestored

  datatype SourceState = RecoveryVerified | RollbackRequired

  datatype TerminalState = Finalized | RolledBack

  /** The transaction a transition or a terminal record belongs to. */
  datatype Transaction = Transaction(grantId: Text, txId: Text, grantEnvelope: Digest, promotionBundle: Digest)

  datatype Record =
    | Anchor(
        sequence: int, previous: Option<Digest>, repositoryId: Text, recordedAt: int, digest: Digest,
        artifact: Artifact, trustCommit: Text, generation: int, supervisor: Digest, legacyGrant: Option<Text>)
    | Transition(
        sequence: int, previous: Option<Digest>, repositoryId: Text, recordedAt: int, digest: Digest,
        artifact: Artifact, trustCommit: Text, phase: Phase, fromGeneration: int, toGeneration: int,
        fromSupervisor: Digest, toSupervisor: Digest, tx: Transaction, promotionLineage: Digest,
        sourceState: SourceState)
    | Terminal(
        sequence: int, previous: Option<Digest>, repositoryId: Text, recordedAt: int, digest: Digest,
        artifact: Artifact, trustCommit: Text, generation: int, supervisor: Digest, state: TerminalState,
        tx: Transaction, updateRecord: Digest)
  {
    /** The generation in force after this record. */
    function Generation(): int {
      if Transition? then toGeneration else generation
    }

    function Supervisor(): Digest {
      if Transition? then toSupervisor else supervisor
    }

    predicate Candidate() { Transition? && phase.CandidateSelected? }

    predicate Rollback() { Transition? && phase.RollbackRestored? }

    /** The state between transactions. */
    predicate Settled() { Anchor? || Terminal? }
  }

  /** A directory entry: the digest its name spells, if it spells one, whether it is a plain file,
      and the record its bytes parse to with a matching digest, if they do. */
  datatype Entry = Entry(name: Option<Digest>, plainFile: bool, content: Option<Record>)

  datatype Error = SupervisorNotTerminal

  datatype History = History(records: seq<Record>, anchor: Record, leaf: Record)

  const MAX_SAFE_INTEGER := 0x1F_FFFF_FFFF_FFFF

  predicate PositiveSafe(n: int) {
    1 <= n <= MAX_SAFE_INTEGER
  }

  /** What the record parser demands of each kind. */
  predicate Parses(r: Record) {
    match r
    case Anchor(_, _, _, _, _, _, _, _, _, _) => r.sequence == 0 && r.previous == None && PositiveSafe(r.generation)
    case Transition(_, _, _, _, _, _, _, _, _, _, _, _, _, _, _) =>
      PositiveSafe(r.sequence) && r.previous.Some? && PositiveSafe(r.fromGeneration) && PositiveSafe(r.toGeneration)
      && r.toGeneration == r.fromGeneration + 1
    case Terminal(_, _, _, _, _, _, _, _, _, _, _, _) =>
      PositiveSafe(r.sequence) && r.previous.Some? && PositiveSafe(r.generation)
  }

  predicate Readable(e: Entry) {
    e.name.Some? && e.plainFile && e.content.Some? && Parses(e.content.value) && e.name == Some(e.content.value.digest)
  }

  // ----- one link

  predicate TransitionFollows(previous: Record, current: Record)
    requires current.Transition?
  {
    && current.fromGeneration == previous.Generation()
    && current.fromSupervisor == previous.Supervisor()
    && (if current.phase.CandidateSelected? then previous.Settled() && current.sourceState.RecoveryVerified?
        else
          && previous.Candidate() && current.sourceState.RollbackRequired?
          && current.tx == previous.tx && current.promotionLineage == previous.promotionLineage)
  }

  predicate TerminalFollows(previous: Record, current: Record)
    requires current.Terminal?
  {
    && previous.Transition?
    && current.generation == previous.toGeneration
    && current.supervisor == previous.toSupervisor
    && current.artifact == previous.artifact && current.trustCommit == previous.trustCommit
    && current.tx == previous.tx
    && (current.state.Finalized? ==> previous.phase.CandidateSelected?)
    && (current.state.RolledBack? ==> previous.phase.RollbackRestored?)
  }

  predicate Follows(ordered: seq<Record>, index: nat)
    requires 0 < index < |ordered|
  {
    var previous, current := ordered[index - 1], ordered[index];
    && current.previous == Some(previous.digest)
    && previous.recordedAt <= current.recordedAt
    && match current
       case Anchor(_, _, _, _, _, _, _, _, _, _) => false
       case Transition(_, _, _, _, _, _, _, _, _, _, _, _, _, _, _) =>
         && TransitionFollows(previous, current)
         && (current.phase.RollbackRestored? ==>
               && index >= 2
               && current.artifact == ordered[index - 2].artifact
               && current.trustCommit == ordered[index - 2].trustCommit)
       case Terminal(_, _, _, _, _, _, _, _, _, _, _, _) => TerminalFollows(previous, current)
  }

  predicate LinkOk(ordered: seq<Record>, index: nat)
    requires index < |ordered|
  {
    && ordered[index].sequence == index
    && ordered[index].repositoryId == ordered[0].repositoryId
    && (index > 0 ==> Follows(ordered, index))
  }

  /** The records, in this order, form a history. */
  predicate Chain(ordered: seq<Record>) {
    && ordered != [] && ordered[0].Anchor? && ordered[|ordered| - 1].Terminal?
    && forall index :: 0 <= index < |ordered| ==> LinkOk(ordered, index)
  }

  // ----- reading a directory

  function Contents(listing: seq<Entry>): (records: seq<Record>)
    requires forall i :: 0 <= i < |listing| ==> Readable(listing[i])
    ensures |records| == |listing|
    ensures forall i :: 0 <= i < |listing| ==> listing[i].content == Some(records[i])
  {
    seq(|listing|, i requires 0 <= i < |listing| && Readable(listing[i]) => listing[i].content.value)
  }

  /** A directory lists no name twice. */
  predicate NamesDistinct(listing: seq<Entry>) {
    forall i, j :: 0 <= i < j < |listing| && listing[i].name.Some? ==> listing[i].name != listing[j].name
  }

  /** Every entry reads as a record, and in some order the records form this chain. */
  ghost predicate Holds(listing: seq<Entry>, ordered: seq<Record>) {
    && (forall e :: e in listing ==> Readable(e))
    && multiset(Contents(listing)) == multiset(ordered)
    && Chain(ordered)
  }

  predicate SequenceAtMost(x: Record, y: Record) {
    x.sequence <= y.sequence
  }

  lemma ChainIsSorted(records: seq<Record>, ordered: seq<Record>)
    requires Chain(ordered) && multiset(records) == multiset(ordered)
    ensures Sort(records, SequenceAtMost) == ordered
  {
    forall i | 0 <= i < |ordered| ensures ordered[i].sequence == i {
      assert LinkOk(ordered, i);
    }
    SortSorts(records, SequenceAtMost);
    SortedUnique(ordered, Sort(records, SequenceAtMost), SequenceAtMost);
  }

  /** A directory holds at most one history. */
  lemma OneHistory(listing: seq<Entry>, ordered: seq<Record>, other: seq<Record>)
    requires Holds(listing, ordered) && Holds(listing, other)
    ensures ordered == other
  {
    ChainIsSorted(Contents(listing), ordered);
    ChainIsSorted(Contents(listing), other);
  }

  /** A readable entry is determined by its record. */
  lemma EntryOfRecord(e: Entry, r: Record)
    requires Readable(e)
    ensures e.content == Some(r) <==> e == Entry(Some(r.digest), true, Some(r))
  {
  }

  lemma {:induction false} ContentsOfPermutation(listing: seq<Entry>, r: Record)
    requires forall i :: 0 <= i < |listing| ==> Readable(listing[i])
    ensures multiset(Contents(listing))[r]
            == multiset(listing)[Entry(Some(r.digest), true, Some(r))]
  {
    hide Readable, Contents;
    if listing != [] {
      var records, rest := Contents(listing), listing[1..];
      EntryOfRecord(listing[0], r);
      ContentsOfPermutation(rest, r);
      assert records[1..] == Contents(rest);
      HeadCounts(listing, Entry(Some(r.digest), true, Some(r)));
      HeadCounts(records, r);
    }
  }

  lemma HeadCounts<T>(s: seq<T>, x: T)
    requires s != []
    ensures multiset(s)[x] == (if s[0] == x then 1 else 0) + multiset(s[1..])[x]
  {
    assert s == [s[0]] + s[1..];
  }

  /** Whether a directory holds a history, and which, does not depend on how it is listed. */
  lemma ListingOrderDoesNotMatter(listing: seq<Entry>, other: seq<Entry>, ordered: seq<Record>)
    requires multiset(listing) == multiset(other)
    ensures Holds(listing, ordered) <==> Holds(other, ordered)
  {
    forall e ensures e in listing <==> e in other {
      assert e in multiset(listing) <==> e in listing;
      assert e in multiset(other) <==> e in other;
    }
    if forall e :: e in listing ==> Readable(e) {
      forall r ensures multiset(Contents(listing))[r] == multiset(Contents(other))[r] {
        ContentsOfPermutation(listing, r);
        ContentsOfPermutation(other, r);
      }
      assert multiset(Contents(listing)) == multiset(Contents(other));
    }
  }

  lemma DistinctDigests(listing: seq<Entry>, i: nat, j: nat)
    requires NamesDistinct(listing) && forall e :: e in listing ==> Readable(e)
    requires i < j < |listing|
    ensures Contents(listing)[i].digest != Contents(listing)[j].digest
  {
    assert Readable(listing[i]) && Readable(listing[j]);
  }

  /** In a chain no two records name the same predecessor. */
  lemma NoForks(listing: seq<Entry>, ordered: seq<Record>, i: nat, j: nat)
    requires NamesDistinct(listing) && Holds(listing, ordered) && i < j < |listing|
    requires Contents(listing)[i].previous.Some?
    ensures Contents(listing)[i].previous != Contents(listing)[j].previous
  {
    var records := Contents(listing);
    var p := PlaceOf(records, ordered, i);
    var q := PlaceOf(records, ordered, j);
    DistinctDigests(listing, i, j);
    assert LinkOk(ordered, p) && LinkOk(ordered, q);
    if p > 0 && q > 0 {
      ChainDigestsDistinct(listing, ordered, p - 1, q - 1);
    } else {
      assert Readable(listing[i]) && Readable(listing[j]);
    }
  }

  lemma PlaceOf(records: seq<Record>, ordered: seq<Record>, i: nat) returns (p: nat)
    requires multiset(records) == multiset(ordered) && i < |records|
    ensures p < |ordered| && ordered[p] == records[i]
  {
    assert records[i] in multiset(ordered);
    p :| 0 <= p < |ordered| && ordered[p] == records[i];
  }

  lemma ChainDigestsDistinct(listing: seq<Entry>, ordered: seq<Record>, p: nat, q: nat)
    requires NamesDistinct(listing) && Holds(listing, ordered) && p < |ordered| && q < |ordered| && p != q
    ensures ordered[p].digest != ordered[q].digest
  {
    var records := Contents(listing);
    var i := PlaceOf(ordered, records, p);
    var j := PlaceOf(ordered, records, q);
    assert LinkOk(ordered, p) && LinkOk(ordered, q);
    assert i != j;
    DistinctDigests(listing, if i < j then i else j, if i < j then j else i);
  }

  /** Reads every entry, or refuses. */
  method ReadRecords(listing: seq<Entry>) returns (r: Result<seq<Record>, Error>)
    ensures r.Ok? <==> forall e :: e in listing ==> Readable(e)
    ensures r.Ok? ==> r.value == Contents(listing)
  {
    var records: seq<Record> := [];
    for i := 0 to |listing|
      invariant forall k :: 0 <= k < i ==> Readable(listing[k])
      invariant |records| == i && forall k :: 0 <= k < i ==> listing[k].content == Some(records[k])
    {
      if !Readable(listing[i]) {
        assert listing[i] in listing;
        return Err(SupervisorNotTerminal);
      }
      records := records + [listing[i].content.value];
    }
    assert records == Contents(listing);
    return Ok(records);
  }

  predicate DigestsDistinct(records: seq<Record>) {
    forall i, j :: 0 <= i < j < |records| ==> records[i].digest != records[j].digest
  }

  predicate NoSiblings(records: seq<Record>) {
    forall i, j :: 0 <= i < j < |records| && records[i].previous.Some? ==> records[i].previous != records[j].previous
  }

  /** How many of the records name a digest as their predecessor. */
  function Children(records: seq<Record>, d: Digest): nat {
    if records == [] then 0
    else Children(records[..|records| - 1], d) + if records[|records| - 1].previous == Some(d) then 1 else 0
  }

  lemma {:induction false} ChildIsCounted(records: seq<Record>, i: nat)
    requires i < |records| && records[i].previous.Some?
    ensures Children(records, records[i].previous.value) >= 1
  {
    if i < |records| - 1 {
      ChildIsCounted(records[..|records| - 1], i);
    }
  }

  lemma {:induction false} SiblingsAreCounted(records: seq<Record>, d: Digest)
    ensures Children(records, d) <= 1 <==>
            forall i, j :: 0 <= i < j < |records| && records[i].previous == Some(d) ==> records[j].previous != Some(d)
  {
    if records != [] {
      var front, last := records[..|records| - 1], |records| - 1;
      SiblingsAreCounted(front, d);
      if records[last].previous == Some(d) {
        if Children(front, d) == 0 {
          forall i | 0 <= i < last ensures records[i].previous != Some(d) {
            if front[i].previous == Some(d) {
              ChildIsCounted(front, i);
            }
          }
        } else {
          SomeChild(front, d);
        }
      }
    }
  }

  lemma {:induction false} SomeChild(records: seq<Record>, d: Digest)
    requires Children(records, d) > 0
    ensures exists i :: 0 <= i < |records| && records[i].previous == Some(d)
  {
    if records[|records| - 1].previous != Some(d) {
      SomeChild(records[..|records| - 1], d);
      var i :| 0 <= i < |records| - 1 && records[..|records| - 1][i].previous == Some(d);
      assert records[i].previous == Some(d);
    }
  }

  /** The duplicate check and the fork count: no digest twice, no predecessor named twice. */
  method CheckForks(records: seq<Record>) returns (ok: bool)
    ensures ok <==> DigestsDistinct(records) && NoSiblings(records)
  {
    var digests: set<Digest> := {};
    var childCounts: map<Digest, nat> := map[];
    for i := 0 to |records|
      invariant digests == set k | 0 <= k < i :: records[k].digest
      invariant DigestsDistinct(records[..i])
      invariant forall d: Digest :: Children(records[..i], d) == if d in childCounts then childCounts[d] else 0
      invariant forall d :: d in childCounts ==> childCounts[d] >= 1
    {
      if records[i].digest in digests {
        return false;
      }
      assert records[..i + 1][..i] == records[..i];
      digests := digests + {records[i].digest};
      if records[i].previous.Some? {
        var d := records[i].previous.value;
        childCounts := childCounts[d := (if d in childCounts then childCounts[d] else 0) + 1];
      }
    }
    assert records[..|records|] == records;
    ok := forall d :: d in childCounts ==> childCounts[d] == 1;
    ForkCount(records, childCounts);
  }

  lemma ForkCount(records: seq<Record>, childCounts: map<Digest, nat>)
    requires forall d: Digest :: Children(records, d) == if d in childCounts then childCounts[d] else 0
    requires forall d :: d in childCounts ==> childCounts[d] >= 1
    ensures (forall d :: d in childCounts ==> childCounts[d] == 1) <==> NoSiblings(records)
  {
    forall d: Digest ensures Children(records, d) <= 1 <==>
        forall i, j :: 0 <= i < j < |records| && records[i].previous == Some(d) ==> records[j].previous != Some(d)
    {
      SiblingsAreCounted(records, d);
    }
    if NoSiblings(records) {
      forall d | d in childCounts ensures childCounts[d] == 1 {
        assert Children(records, d) <= 1;
      }
    } else {
      var i, j :| 0 <= i < j < |records| && records[i].previous.Some? && records[i].previous == records[j].previous;
      assert !(Children(records, records[i].previous.value) <= 1);
    }
  }

  /** The record-by-record check of an ordered list. */
  method CheckChain(ordered: seq<Record>) returns (ok: bool)
    requires ordered != []
    ensures ok <==> Chain(ordered)
  {
    if !ordered[0].Anchor? || ordered[0].sequence != 0 {
      assert !(ordered[0].Anchor? && LinkOk(ordered, 0));
      return false;
    }
    for index := 0 to |ordered|
      invariant forall k :: 0 <= k < index ==> LinkOk(ordered, k)
    {
      if !LinkOk(ordered, index) {
        return false;
      }
    }
    return ordered[|ordered| - 1].Terminal?;
  }

  /** A directory that holds a history passes the duplicate check and the fork count. */
  lemma ForkCheckIsImplied(listing: seq<Entry>, ordered: seq<Record>)
    requires NamesDistinct(listing) && Holds(listing, ordered)
    ensures DigestsDistinct(Contents(listing)) && NoSiblings(Contents(listing))
  {
    hide Chain, Readable, NamesDistinct;
    var records := Contents(listing);
    forall i, j | 0 <= i < j < |records| ensures records[i].digest != records[j].digest {
      DistinctDigests(listing, i, j);
    }
    forall i, j | 0 <= i < j < |records| && records[i].previous.Some?
      ensures records[i].previous != records[j].previous
    {
      NoForks(listing, ordered, i, j);
    }
  }

  /** `readBootstrapSupervisorHistory`: accepts exactly the directories that hold a history, and
      returns it. */
  method ReadBootstrapSupervisorHistory(listing: seq<Entry>) returns (r: Result<History, Error>)
    requires NamesDistinct(listing)
    ensures r.Ok? <==> exists ordered :: Holds(listing, ordered)
    ensures forall ordered :: Holds(listing, ordered) ==> r == Ok(History(ordered, ordered[0], ordered[|ordered| - 1]))
  {
    hide DigestsDistinct, NoSiblings, LinkOk, Readable;
    var read := ReadRecords(listing);
    if read.Err? {
      return Err(SupervisorNotTerminal);
    }
    var records := read.value;
    if |records| == 0 {
      return Err(SupervisorNotTerminal);
    }
    var forkless := CheckForks(records);
    if !forkless {
      forall ordered ensures !Holds(listing, ordered) {
        if Holds(listing, ordered) {
          ForkCheckIsImplied(listing, ordered);
        }
      }
      return Err(SupervisorNotTerminal);
    }
    var ordered := Sort(records, SequenceAtMost);
    forall other | Holds(listing, other) ensures other == ordered {
      ChainIsSorted(records, other);
    }
    var ok := CheckChain(ordered);
    if !ok {
      return Err(SupervisorNotTerminal);
    }
    assert Holds(listing, ordered);
    return Ok(History(ordered, ordered[0], ordered[|ordered| - 1]));
  }
}
