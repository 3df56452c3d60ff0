/** Running one quarantine operation again after it was stopped, as often as it takes.

    The stops are given in advance, one number of durable effects for each run, so that a statement
    about all such lists is a statement about all ways of being stopped. Each run has a clock of its
    own. What the last run leaves does not mention any of those clocks: once the reservation is
    published, the starting records alone say what the completed grant looks like, and a resumed
    operation takes its times from them. */
module QuarantineReruns {
  import opened QuarantineProtocol
  import opened QuarantineRecords
  import opened QuarantineStore
  import opened QuarantineTheorems
  import opened Results

  /** A run that is stopped after some number of durable effects, at a clock reading of its own. */
  datatype Attempt = Attempt(now: int, stopAfter: nat)

  method Execute(volume: Volume, envelope: Envelope, deps: Dependencies, operation: Operation)
    returns (o: Outcome<()>, ghost events: seq<Event>)
    requires volume.Valid()
    modifies volume`store, volume`stopAfter, volume`unused, volume`ledger
    ensures volume.Valid() && Run(old(volume.Records()), events, volume.Records()) && By(events, envelope)
    ensures o.Done? ==>
              && Refusal(old(volume.Records()), envelope, deps, operation).None?
              && var reserved := Reserved(old(volume.Records()), envelope, deps.now);
                 Held(reserved, envelope) && Durable(volume.Records()) == Completed(reserved, envelope)
    ensures o.Failed? ==> Refusal(old(volume.Records()), envelope, deps, operation) == Some(o.error)
    ensures o.Done? ==> Genuine(envelope, deps, operation) && Welcome(old(volume.Records()), envelope, deps.now)
    ensures !(Genuine(envelope, deps, operation) && Welcome(old(volume.Records()), envelope, deps.now)) ==>
              !o.Done? && volume.Records() == old(volume.Records())
    ensures old(volume.stopAfter) < 0 ==> !o.Stopped?
  {
    hide Refusal, Reserved, Held, Completed, Durable, Run, Inv;
    if operation.EnterQuarantine? {
      o, events := volume.ExecuteEnter(envelope, deps);
    } else {
      o, events := volume.ExecuteRelease(envelope, deps);
    }
  }

  /** One operation asked for: what is presented, and how far it gets. */
  datatype Request = Request(envelope: Envelope, deps: Dependencies, operation: Operation, stopAfter: int)

  /** Whatever operations run one after another on a new volume, each stopped anywhere, the durable
      records are those of a run of the state machine from the empty store. */
  method ExecuteAll(requests: seq<Request>) returns (volume: Volume, ghost events: seq<Event>)
    ensures volume.Valid() && Run(Empty(), events, volume.Records())
  {
    hide Refusal, Reserved, Held, Completed, Durable, Inv, View, Empty;
    volume := new Volume();
    events := [];
    assert Run(Empty(), [], Empty());
    for i := 0 to |requests|
      invariant fresh(volume) && volume.Valid() && Run(Empty(), events, volume.Records())
    {
      ghost var before := volume.Records();
      volume.stopAfter := requests[i].stopAfter;
      var o, more := Execute(volume, requests[i].envelope, requests[i].deps, requests[i].operation);
      RunConcat(Empty(), events, before, more, volume.Records());
      events := events + more;
    }
  }

  /** The operation so far has made only its own writes, and what its completion leaves is what the
      records it started from call for. */
  ghost predicate SoFar(l: Logical, events: seq<Event>, m: Logical, envelope: Envelope) {
    Run(l, events, m) && By(events, envelope)
  }

  /** One more run of an operation that would have completed. */
  method TryAgain(volume: Volume, envelope: Envelope, operation: Operation, deps: Dependencies, attempt: Attempt,
                  ghost l: Logical, ghost events: seq<Event>) returns (through: bool, ghost more: seq<Event>)
    requires volume.Valid() && Inv(l) && Held(l, envelope) && Refusal(l, envelope, deps, operation).None?
    requires SoFar(l, events, volume.Records(), envelope)
    modifies volume`store, volume`stopAfter, volume`unused, volume`ledger
    ensures volume.Valid() && SoFar(l, more, volume.Records(), envelope)
    ensures through ==> Durable(volume.Records()) == Completed(l, envelope)
    ensures old(volume.stopAfter) < 0 ==> through
  {
    hide Refusal, Reserved, Held, Completed, Durable, Run, By, Inv, View, Finished;
    var later := deps.(now := attempt.now);
    ghost var m := volume.Records();
    ResumedRunCompletes(l, events, m, envelope, deps, later, operation);
    var o, mine := Execute(volume, envelope, later, operation);
    JoinRuns(l, events, m, mine, volume.Records(), envelope);
    more := events + mine;
    // A grant that was through already refuses to run again.
    through := !o.Stopped?;
    if Finished(m, envelope) {
      FinishedIsFinal(m, mine, volume.Records(), envelope);
    }
  }

  /** The one audit record a reservation determines. */
  ghost function RecordOf(l: Logical, envelope: Envelope): Audit
    requires Held(l, envelope)
  {
    Full(l.grants[GrantId(envelope.payload)].reservation.value).audit.value
  }

  /** Once a grant is reserved and would complete, stopping its operation anywhere, any number of
      times, and running it again under any clock, even past its expiry, ends with the durable
      records of one uninterrupted run; and every audit append carried the same one record. */
  method RerunAfterStops(volume: Volume, envelope: Envelope, operation: Operation, deps: Dependencies,
                         attempts: seq<Attempt>, last: int) returns (ghost appended: nat)
    requires volume.Valid() && Held(volume.Records(), envelope)
    requires Refusal(volume.Records(), envelope, deps, operation).None?
    modifies volume`store, volume`stopAfter, volume`unused, volume`ledger
    ensures volume.Valid() && Durable(volume.Records()) == Completed(old(volume.Records()), envelope)
    ensures volume.Records().ledger
            == old(volume.Records()).ledger + Repeat(RecordOf(old(volume.Records()), envelope), appended)
  {
    hide Refusal, Reserved, Completed, Durable, SoFar, Inv, Held, RecordOf, View, Run;
    ghost var l, events := volume.Records(), [];
    NothingYet(l, envelope);
    var i, through := 0, false;
    while i < |attempts| && !through
      invariant 0 <= i <= |attempts| && volume.Valid() && SoFar(l, events, volume.Records(), envelope)
      invariant through ==> Durable(volume.Records()) == Completed(l, envelope)
    {
      volume.stopAfter := attempts[i].stopAfter;
      through, events := TryAgain(volume, envelope, operation, deps, attempts[i], l, events);
      i := i + 1;
    }
    if !through {
      volume.stopAfter := -1;
      through, events := TryAgain(volume, envelope, operation, deps, Attempt(last, 0), l, events);
    }
    appended := LedgerOf(l, events, volume.Records(), envelope);
  }

  lemma NothingYet(l: Logical, envelope: Envelope)
    ensures SoFar(l, [], l, envelope)
  {
  }

  lemma LedgerOf(l: Logical, events: seq<Event>, m: Logical, envelope: Envelope) returns (appended: nat)
    requires Inv(l) && Held(l, envelope) && SoFar(l, events, m, envelope)
    ensures m.ledger == l.ledger + Repeat(RecordOf(l, envelope), appended)
  {
    appended := LedgerRepeatsOneRecord(l, events, m, envelope);
  }
}
