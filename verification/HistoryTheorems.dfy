/** What the link-by-link check of a supervisor history amounts to as a whole, and the walk over an
    accepted history. */
module HistoryTheorems {

  import opened History
  import opened Results

  /** One transaction of a history. */
  datatype Group =
    | Finalize(candidate: Record, terminal: Record)
    | RollBack(candidate: Record, rollback: Record, terminal: Record)
  {
    function Records(): (r: seq<Record>)
      ensures 2 <= |r| <= 3 && r[|r| - 1] == terminal
    {
      if Finalize? then [candidate, terminal] else [candidate, rollback, terminal]
    }

    /** The grammar of one transaction: its records are one transaction's, in this order. */
    predicate Ok() {
      && candidate.Candidate() && terminal.Terminal? && terminal.tx == candidate.tx
      && (if Finalize? then terminal.state.Finalized?
          else terminal.state.RolledBack? && rollback.Rollback() && rollback.tx == candidate.tx)
    }

    /** By how much the transaction raises the generation. */
    function Raise(): nat {
      if Finalize? then 1 else 2
    }
  }

  function Flatten(groups: seq<Group>): seq<Record> {
    if groups == [] then [] else groups[0].Records() + Flatten(groups[1..])
  }

  function Raises(groups: seq<Group>): nat {
    if groups == [] then 0 else groups[0].Raise() + Raises(groups[1..])
  }

  function Count(groups: seq<Group>, finalized: bool): nat {
    if groups == [] then 0
    else (if groups[0].Finalize? == finalized then 1 else 0) + Count(groups[1..], finalized)
  }

  function LastFinalized(groups: seq<Group>): Option<Group> {
    if groups == [] then None
    else
      match LastFinalized(groups[1..])
      case Some(later) => Some(later)
      case None => if groups[0].Finalize? then Some(groups[0]) else None
  }

  predicate BoundaryAt(ordered: seq<Record>, i: nat) {
    0 < i <= |ordered| && ordered[i - 1].Settled()
  }

  /** The group that begins at a boundary that is not the end. */
  function GroupAt(ordered: seq<Record>, i: nat): (g: Group)
    requires Chain(ordered) && BoundaryAt(ordered, i) && i < |ordered|
    ensures g.Ok() && i + |g.Records()| <= |ordered| && g.Records() == ordered[i..i + |g.Records()|]
    ensures BoundaryAt(ordered, i + |g.Records()|)
  {
    assert LinkOk(ordered, i);
    assert Follows(ordered, i);
    assert ordered[i].Candidate();
    assert LinkOk(ordered, i + 1);
    assert Follows(ordered, i + 1);
    if ordered[i + 1].Terminal? then Finalize(ordered[i], ordered[i + 1])
    else
      assert LinkOk(ordered, i + 2);
      assert Follows(ordered, i + 2);
      RollBack(ordered[i], ordered[i + 1], ordered[i + 2])
  }

  /** The transactions from a boundary to the end. */
  function Groups(ordered: seq<Record>, i: nat): (groups: seq<Group>)
    requires Chain(ordered) && BoundaryAt(ordered, i)
    decreases |ordered| - i
  {
    if i == |ordered| then []
    else
      var g := GroupAt(ordered, i);
      [g] + Groups(ordered, i + |g.Records()|)
  }

  predicate AllParse(ordered: seq<Record>) {
    forall i :: 0 <= i < |ordered| ==> Parses(ordered[i])
  }

  /** What every accepted directory's records are. */
  lemma AcceptedParses(listing: seq<Entry>, ordered: seq<Record>)
    requires Holds(listing, ordered)
    ensures Chain(ordered) && AllParse(ordered)
  {
    forall i | 0 <= i < |ordered| ensures Parses(ordered[i]) {
      var k := PlaceOf(ordered, Contents(listing), i);
      assert Readable(listing[k]);
    }
  }

  /** One transaction's effect: a finalized one installs its candidate, a rolled-back one restores
      what was active before it. */
  lemma GroupEffect(ordered: seq<Record>, i: nat)
    requires Chain(ordered) && AllParse(ordered) && BoundaryAt(ordered, i) && i < |ordered|
    ensures var g := GroupAt(ordered, i);
            && g.terminal.Generation() == ordered[i - 1].Generation() + g.Raise()
            && g.terminal.artifact == (if g.Finalize? then g.candidate else ordered[i - 1]).artifact
            && g.terminal.trustCommit == (if g.Finalize? then g.candidate else ordered[i - 1]).trustCommit
  {
    var g := GroupAt(ordered, i);
    assert Parses(ordered[i]) && Parses(ordered[i + 1]);
    assert LinkOk(ordered, i) && LinkOk(ordered, i + 1);
    assert Follows(ordered, i) && Follows(ordered, i + 1);
    if g.RollBack? {
      assert LinkOk(ordered, i + 2);
      assert Follows(ordered, i + 2);
    }
  }

  lemma {:induction false} GroupsCover(ordered: seq<Record>, i: nat)
    requires Chain(ordered) && BoundaryAt(ordered, i)
    ensures Flatten(Groups(ordered, i)) == ordered[i..]
    ensures forall g :: g in Groups(ordered, i) ==> g.Ok()
    decreases |ordered| - i
  {
    hide Chain, Group.Ok, GroupAt, BoundaryAt, Group.Records;
    if i < |ordered| {
      var g := GroupAt(ordered, i);
      assert g.Ok();
      var next := i + |g.Records()|;
      GroupsCover(ordered, next);
      assert Groups(ordered, i) == [g] + Groups(ordered, next);
      assert ordered[i..] == ordered[i..next] + ordered[next..];
    }
  }

  lemma {:induction false} GroupsEffect(ordered: seq<Record>, i: nat)
    requires Chain(ordered) && AllParse(ordered) && BoundaryAt(ordered, i)
    ensures var groups, leaf := Groups(ordered, i), ordered[|ordered| - 1];
            && leaf.Generation() == ordered[i - 1].Generation() + Raises(groups)
            && match LastFinalized(groups)
               case Some(g) => leaf.artifact == g.candidate.artifact && leaf.trustCommit == g.candidate.trustCommit
               case None => leaf.artifact == ordered[i - 1].artifact && leaf.trustCommit == ordered[i - 1].trustCommit
    decreases |ordered| - i
  {
    hide Chain, AllParse, Group.Ok, BoundaryAt;
    if i < |ordered| {
      var g := GroupAt(ordered, i);
      var next := i + |g.Records()|;
      GroupEffect(ordered, i);
      GroupsEffect(ordered, next);
      assert ordered[next - 1] == g.terminal by {
        assert g.Records()[|g.Records()| - 1] == g.terminal;
      }
      assert Groups(ordered, i)[1..] == Groups(ordered, next);
    }
  }

  lemma {:induction false} RaisesCount(groups: seq<Group>)
    ensures Raises(groups) == Count(groups, true) + 2 * Count(groups, false)
  {
    if groups != [] {
      RaisesCount(groups[1..]);
    }
  }

  /** An accepted history is an anchor followed by one or more transactions, each "candidate,
      FINALIZED" or "candidate, rollback, ROLLED_BACK"; it ends one generation up for each
      finalized and two for each rolled-back one, with the artifact and trust commit of the last
      finalized one, or the anchor's. */
  lemma HistoryIsTransactions(listing: seq<Entry>, ordered: seq<Record>) returns (groups: seq<Group>)
    requires Holds(listing, ordered)
    ensures groups != [] && ordered == [ordered[0]] + Flatten(groups) && ordered[0].Anchor?
    ensures forall g :: g in groups ==> g.Ok()
    ensures var anchor, leaf := ordered[0], ordered[|ordered| - 1];
            && leaf.generation == anchor.generation + Count(groups, true) + 2 * Count(groups, false)
            && match LastFinalized(groups)
               case Some(g) => leaf.artifact == g.candidate.artifact && leaf.trustCommit == g.candidate.trustCommit
               case None => leaf.artifact == anchor.artifact && leaf.trustCommit == anchor.trustCommit
  {
    AcceptedParses(listing, ordered);
    groups := Groups(ordered, 1);
    GroupsCover(ordered, 1);
    GroupsEffect(ordered, 1);
    RaisesCount(groups);
  }

  // ----- the walk

  /** One stop of the walk: a transaction and the settled record before it. */
  datatype Visit = Visit(predecessor: Record, group: Group)

  function Visits(ordered: seq<Record>, i: nat): seq<Visit>
    requires Chain(ordered) && BoundaryAt(ordered, i)
    decreases |ordered| - i
  {
    if i == |ordered| then []
    else
      var g := GroupAt(ordered, i);
      [Visit(ordered[i - 1], g)] + Visits(ordered, i + |g.Records()|)
  }

  function Terminals(records: seq<Record>): seq<Record> {
    if records == [] then []
    else (if records[0].Terminal? then [records[0]] else []) + Terminals(records[1..])
  }

  function Visited(visits: seq<Visit>): seq<Record> {
    if visits == [] then [] else [visits[0].group.terminal] + Visited(visits[1..])
  }

  lemma TerminalsOfFirst(r: Record, more: seq<Record>)
    ensures Terminals([r] + more) == (if r.Terminal? then [r] else []) + Terminals(more)
  {
    assert ([r] + more)[1..] == more;
  }

  lemma TerminalsOfGroup(g: Group, more: seq<Record>)
    requires g.Ok()
    ensures Terminals(g.Records() + more) == [g.terminal] + Terminals(more)
  {
    hide Terminals;
    TerminalsOfFirst(g.terminal, more);
    if g.Finalize? {
      TerminalsOfFirst(g.candidate, [g.terminal] + more);
      assert g.Records() + more == [g.candidate] + ([g.terminal] + more);
    } else {
      TerminalsOfFirst(g.rollback, [g.terminal] + more);
      TerminalsOfFirst(g.candidate, [g.rollback] + ([g.terminal] + more));
      assert g.Records() + more == [g.candidate] + ([g.rollback] + ([g.terminal] + more));
    }
  }

  /** The walk stops once at every terminal record, in order, and nowhere else. */
  lemma {:induction false} WalkVisitsEachTerminalOnce(ordered: seq<Record>, i: nat)
    requires Chain(ordered) && BoundaryAt(ordered, i)
    ensures Visited(Visits(ordered, i)) == Terminals(ordered[i..])
    decreases |ordered| - i
  {
    hide Chain, Group.Ok, GroupAt, BoundaryAt, Group.Records;
    if i < |ordered| {
      var g := GroupAt(ordered, i);
      var next := i + |g.Records()|;
      WalkVisitsEachTerminalOnce(ordered, next);
      TerminalsOfGroup(g, ordered[next..]);
      assert ordered[i..] == g.Records() + ordered[next..];
      assert Visits(ordered, i)[1..] == Visits(ordered, next);
    }
  }

  /** The grants of some terminal records. */
  function Grants(terminals: seq<Record>): set<Text> {
    if terminals == [] then {}
    else (if terminals[0].Terminal? then {terminals[0].tx.grantId} else {}) + Grants(terminals[1..])
  }

  /** The grant a legacy anchor accounts for itself. */
  function LegacyGrants(anchor: Record): set<Text>
    requires anchor.Anchor?
  {
    match anchor.legacyGrant
    case Some(grantId) => {grantId}
    case None => {}
  }

  /** What the grammar expects at a boundary is there. */
  lemma StopAt(ordered: seq<Record>, i: nat)
    requires Chain(ordered) && BoundaryAt(ordered, i) && i < |ordered|
    ensures ordered[i - 1].Settled() && ordered[i].Candidate() && i + 1 < |ordered|
    ensures var rollback := ordered[i + 1].Rollback();
            var last := i + if rollback then 2 else 1;
            && last < |ordered| && ordered[last].Terminal?
            && GroupAt(ordered, i) == (if rollback then RollBack(ordered[i], ordered[i + 1], ordered[last])
                                       else Finalize(ordered[i], ordered[last]))
  {
    hide Chain, GroupAt;
    var g := GroupAt(ordered, i);
    var records := g.Records();
    assert g.Ok() && records == ordered[i..i + |records|];
    assert records[0] == ordered[i] && records[1] == ordered[i + 1];
    if g.RollBack? {
      assert records[2] == ordered[i + 2];
    }
  }

  lemma VisitsStep(ordered: seq<Record>, i: nat)
    requires Chain(ordered) && BoundaryAt(ordered, i) && i < |ordered|
    ensures var g := GroupAt(ordered, i);
            Visits(ordered, i) == [Visit(ordered[i - 1], g)] + Visits(ordered, i + |g.Records()|)
  {
    hide Chain, GroupAt, BoundaryAt, Group.Ok, Group.Records;
  }

  ghost predicate AllSettle(ordered: seq<Record>, i: nat, settles: Visit -> bool)
    requires Chain(ordered) && BoundaryAt(ordered, i)
  {
    forall v :: v in Visits(ordered, i) ==> settles(v)
  }

  /** The grants met so far and those still ahead. */
  ghost function AllGrants(ordered: seq<Record>, i: nat, met: set<Text>): set<Text>
    requires Chain(ordered) && BoundaryAt(ordered, i)
  {
    met + Grants(Visited(Visits(ordered, i)))
  }

  lemma StepWalks(ordered: seq<Record>, i: nat, settles: Visit -> bool, met: set<Text>)
    requires Chain(ordered) && BoundaryAt(ordered, i) && i < |ordered|
    ensures var g := GroupAt(ordered, i);
            var v, next := Visit(ordered[i - 1], g), i + if g.RollBack? then 3 else 2;
            && next <= |ordered| && BoundaryAt(ordered, next) && g.terminal.Terminal?
            && (AllSettle(ordered, i, settles) <==> settles(v) && AllSettle(ordered, next, settles))
            && AllGrants(ordered, next, met + {g.terminal.tx.grantId}) == AllGrants(ordered, i, met)
  {
    hide Chain, GroupAt, Visits;
    var g := GroupAt(ordered, i);
    assert g.Ok();
    VisitsStep(ordered, i);
    var v, later := Visit(ordered[i - 1], g), Visits(ordered, i + |g.Records()|);
    assert ([v] + later)[0] == v && ([v] + later)[1..] == later;
    var ahead := Visited(later);
    assert ([g.terminal] + ahead)[1..] == ahead;
  }

  /** One turn of the walk's loop: the transaction at `index`, or a grammar error, which an
      accepted history never gives. */
  method ReadGroup(records: seq<Record>, index: nat) returns (r: Result<Visit, Error>)
    requires Chain(records) && BoundaryAt(records, index) && index < |records|
    ensures r == Ok(Visit(records[index - 1], GroupAt(records, index)))
  {
    StopAt(records, index);
    hide Chain, GroupAt, BoundaryAt, Visits;
    var predecessor := records[index - 1];
    if !predecessor.Settled() {
      return Err(SupervisorNotTerminal);
    }
    var candidateTransition := records[index];
    if !candidateTransition.Candidate() {
      return Err(SupervisorNotTerminal);
    }
    var rollback := index + 1 < |records| && records[index + 1].Rollback();
    var last := index + if rollback then 2 else 1;
    if last >= |records| || !records[last].Terminal? {
      return Err(SupervisorNotTerminal);
    }
    return Ok(Visit(predecessor,
                    if rollback then RollBack(candidateTransition, records[index + 1], records[last])
                    else Finalize(candidateTransition, records[last])));
  }

  /** Some terminal record is of this grant's transaction. */
  ghost predicate NamedByTerminal(records: seq<Record>, grantId: Text) {
    exists i :: 0 <= i < |records| && records[i].Terminal? && records[i].tx.grantId == grantId
  }

  lemma GrantsAre(ordered: seq<Record>)
    requires ordered != [] && ordered[0].Anchor?
    ensures forall x :: x in LegacyGrants(ordered[0]) + Grants(Terminals(ordered[1..]))
                        <==> ordered[0].legacyGrant == Some(x) || NamedByTerminal(ordered, x)
  {
    forall x ensures x in Grants(Terminals(ordered[1..])) <==> NamedByTerminal(ordered, x) {
      GrantsOfTerminals(ordered[1..], x);
      if i :| 0 <= i < |ordered| && ordered[i].Terminal? && ordered[i].tx.grantId == x {
        assert ordered[1..][i - 1] == ordered[i];
      }
    }
  }

  lemma {:induction false} GrantsOfTerminals(records: seq<Record>, x: Text)
    ensures x in Grants(Terminals(records)) <==> NamedByTerminal(records, x)
  {
    if records != [] {
      var first, rest := records[0], records[1..];
      GrantsOfTerminals(rest, x);
      NamedByFirst(records, x);
      if first.Terminal? {
        assert Terminals(records) == [first] + Terminals(rest);
        assert ([first] + Terminals(rest))[1..] == Terminals(rest);
      } else {
        assert Terminals(records) == [] + Terminals(rest) == Terminals(rest);
      }
    }
  }

  lemma NamedByFirst(records: seq<Record>, x: Text)
    requires records != []
    ensures NamedByTerminal(records, x)
            <==> (records[0].Terminal? && records[0].tx.grantId == x) || NamedByTerminal(records[1..], x)
  {
    var rest := records[1..];
    if i :| 0 <= i < |rest| && rest[i].Terminal? && rest[i].tx.grantId == x {
      assert records[i + 1] == rest[i];
    }
    if i :| 0 <= i < |records| && records[i].Terminal? && records[i].tx.grantId == x {
      assert i == 0 || rest[i - 1] == records[i];
    }
  }

  /** The walk of `assertTerminalSelectionV3` over an accepted history. `settles` stands for the
      check of one stop against its control-update record. The walk fails only when some stop does
      not settle, and what it returns are the grants of all the terminal records. */
  method WalkHistory(h: History, settles: Visit -> bool) returns (r: Result<set<Text>, Error>)
    requires Chain(h.records)
    ensures r.Ok? <==> forall v :: v in Visits(h.records, 1) ==> settles(v)
    ensures r.Ok? ==> r.value == LegacyGrants(h.records[0]) + Grants(Terminals(h.records[1..]))
    ensures r.Ok? ==> forall x :: x in r.value <==> h.records[0].legacyGrant == Some(x) || NamedByTerminal(h.records, x)
  {
    var records := h.records;
    GrantsAre(records);
    assert records != [] && BoundaryAt(records, 1);
    WalkVisitsEachTerminalOnce(records, 1);
    assert AllSettle(records, 1, settles) <==> forall v :: v in Visits(records, 1) ==> settles(v);
    assert AllGrants(records, 1, LegacyGrants(records[0]))
        == LegacyGrants(records[0]) + Grants(Terminals(records[1..]));
    hide Chain, GroupAt, BoundaryAt, Visits, AllSettle, AllGrants, Group.Ok, Group.Records;
    var expectedGrantIds := LegacyGrants(records[0]);
    var index := 1;
    while index < |records|
      invariant 0 < index <= |records| && BoundaryAt(records, index)
      invariant AllSettle(records, index, settles) <==> AllSettle(records, 1, settles)
      invariant AllGrants(records, index, expectedGrantIds) == AllGrants(records, 1, LegacyGrants(records[0]))
    {
      StepWalks(records, index, settles, expectedGrantIds);
      var stop := ReadGroup(records, index);
      if stop.Err? {
        assert false;
      }
      var visit := stop.value;
      if !settles(visit) {
        return Err(SupervisorNotTerminal);
      }
      expectedGrantIds := expectedGrantIds + {visit.group.terminal.tx.grantId};
      index := index + if visit.group.RollBack? then 3 else 2;
    }
    NothingAhead(records, settles, expectedGrantIds);
    return Ok(expectedGrantIds);
  }

  lemma NothingAhead(ordered: seq<Record>, settles: Visit -> bool, met: set<Text>)
    requires Chain(ordered) && BoundaryAt(ordered, |ordered|)
    ensures AllSettle(ordered, |ordered|, settles) && AllGrants(ordered, |ordered|, met) == met
  {
  }
}
