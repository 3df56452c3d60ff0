/** What a lone importer does with whatever earlier importers of its descriptor left behind. */
module RecoveryAuthorityResume {
  import opened RecoveryAuthority
  import opened RecoveryAuthoritySafety
  import opened Results

  ghost predicate OnlyDescriptor(s: Store, d: Descriptor) {
    forall i :: i in s.inodes ==> s.inodes[i].descriptor == d
  }

  predicate Links(s: Store, n: Name, links: nat) {
    Bound(s, n) && s.inodes[s.names[n]].links == links
  }

  /** The published descriptor is settled, yet a prepared one lies beside it. */
  predicate Stray(s: Store) {
    Links(s, Target, 1) && Prepared in s.names
  }

  /** A preparation of the importer's own descriptor, with its name still there. */
  predicate Held(s: Store, d: Descriptor, n: Name) {
    n.Preparation? && n.descriptor == d && n in s.names && n.uuid in s.inodes
  }

  /** Where a lone importer can be, and what the directory then looks like. `stray` tells whether
      a stray prepared descriptor was there when it started. */
  predicate Where(s: Store, me: Importer, stray: bool) {
    var d, target, prepared := me.external, Target in s.names, Prepared in s.names;
    match me.pc
    case Start => stray == Stray(s)
    case PublishedStat => target && stray == Stray(s)
    case PublishedAlias | PublishedCheck | PublishedUnlink | TargetCheck => Links(s, Target, 2) && !stray
    case PublishedVerify => Links(s, Target, 1) && stray == prepared
    case PreparedStat => !target && !stray
    case PreparedCount => !target && prepared && !stray
    case PreparedRead | AliasVerify | VerifyPrepared | LinkTarget => !target && Links(s, Prepared, 1) && !stray
    case PreparedTarget(i) => !target && Links(s, Prepared, 2) && s.names[Prepared] == i && !stray
    case PreparedAliases(i) => !target && Links(s, Prepared, 2) && s.names[Prepared] == i && !stray
    case AliasCheck(n) => !target && Links(s, Prepared, 2) && Held(s, d, n) && s.names[Prepared] == n.uuid && !stray
    case AliasUnlink(n) => !target && Links(s, Prepared, 2) && Held(s, d, n) && s.names[Prepared] == n.uuid && !stray
    case List => !target && !prepared && !stray
    case Inspect(remaining, selected) =>
      && !target && !prepared && !stray && remaining <= PreparationsIn(s)
      && (selected.Some? ==> Held(s, d, selected.value) && s.inodes[selected.value.uuid].Complete())
    case Create => !target && !prepared && !stray
    case Write(n) => !target && !prepared && !stray && Held(s, d, n) && !s.inodes[n.uuid].Complete()
    case CheckPreparation(n) => !target && !prepared && !stray && Held(s, d, n) && s.inodes[n.uuid].Complete()
    case LinkPrepared(n) => !target && !prepared && !stray && Held(s, d, n) && s.inodes[n.uuid].Complete()
    case PairCheck(n) => !target && Links(s, Prepared, 2) && Held(s, d, n) && s.names[Prepared] == n.uuid && !stray
    case UnlinkPreparation(n) => !target && Links(s, Prepared, 2) && Held(s, d, n) && s.names[Prepared] == n.uuid
        && !stray
    case Done => Links(s, Target, 1) && s.inodes[s.names[Target]].descriptor == d && stray == prepared
    case Failed => false
  }

  ghost predicate LoneOk(s: Store, me: Importer, stray: bool) {
    DirectoryOk(s) && OnlyDescriptor(s, me.external) && Where(s, me, stray)
  }

  /** How far an importer is from returning. */
  function Distance(pc: Pc): nat {
    match pc
    case Start => 25 case PreparedStat => 24 case List => 22 case Inspect(_, _) => 21 case Create => 20
    case Write(_) => 19 case CheckPreparation(_) => 18 case LinkPrepared(_) => 17 case PairCheck(_) => 16
    case UnlinkPreparation(_) => 15 case VerifyPrepared => 14 case PreparedCount => 13 case PreparedTarget(_) => 12
    case PreparedAliases(_) => 11 case AliasCheck(_) => 10 case AliasUnlink(_) => 9 case AliasVerify => 8
    case PreparedRead => 8 case LinkTarget => 7 case TargetCheck => 6 case PublishedStat => 5
    case PublishedAlias => 4 case PublishedCheck => 3 case PublishedUnlink => 2 case PublishedVerify => 1
    case Done => 0 case Failed => 0
  }

  /** Names still to inspect, or characters still to write. */
  function Work(s: Store, pc: Pc): nat {
    match pc
    case Inspect(remaining, _) => |remaining|
    case Write(n) =>
      if n.Preparation? && n.uuid in s.inodes && s.inodes[n.uuid].written <= s.inodes[n.uuid].descriptor.Size()
      then s.inodes[n.uuid].descriptor.Size() - s.inodes[n.uuid].written else 0
    case _ => 0
  }

  // ----- how the directory counts links

  lemma LinkCounts(s: Store, d: Descriptor)
    requires DirectoryOk(s) && OnlyDescriptor(s, d)
    ensures Target in s.names ==>
              var i := s.names[Target];
              && Bound(s, Target) && s.inodes[i].Complete() && s.inodes[i].descriptor == d
              && s.inodes[i].links == if At(s, Prepared, i) then 2 else 1
    ensures Prepared in s.names ==>
              var i := s.names[Prepared];
              && Bound(s, Prepared) && s.inodes[i].Complete() && s.inodes[i].descriptor == d
              && (Target !in s.names ==>
                    s.inodes[i].links == if Preparation(d, i) in s.names then 2 else 1)
    ensures forall n :: n in s.names && n.Preparation? ==>
              && n.descriptor == d && Bound(s, n) && s.names[n] == n.uuid && s.inodes[n.uuid].descriptor == d
              && (Target !in s.names && Prepared !in s.names ==> s.inodes[n.uuid].links == 1)
  {
    if Target in s.names {
      assert NameOk(s, Target) && InodeOk(s, s.names[Target]);
    }
    if Prepared in s.names {
      assert NameOk(s, Prepared) && InodeOk(s, s.names[Prepared]);
    }
    forall n | n in s.names && n.Preparation?
      ensures && n.descriptor == d && Bound(s, n) && s.names[n] == n.uuid && s.inodes[n.uuid].descriptor == d
              && (Target !in s.names && Prepared !in s.names ==> s.inodes[n.uuid].links == 1)
    {
      assert NameOk(s, n) && InodeOk(s, n.uuid);
    }
  }

  lemma EffectKeepsDescriptor(s: Store, me: Importer, size: nat)
    requires OnlyDescriptor(s, me.external) && (me.pc.Write? ==> Writable(s, me.pc.name, size))
    ensures OnlyDescriptor(Effect(s, me, size), me.external)
  {
  }

  lemma PublishedWhere(s: Store, me: Importer, stray: bool)
    requires LoneOk(s, me, stray) && PhaseOf(me.pc) == Publishing
    ensures var pc := AfterPublished(s, me);
            Where(Effect(s, me, 0), me.(pc := pc), stray) && Distance(pc) < Distance(me.pc)
  {
    LinkCounts(s, me.external);
    hide DirectoryOk, OnlyDescriptor;
  }

  lemma PreparedWhere(s: Store, me: Importer, stray: bool)
    requires LoneOk(s, me, stray) && PhaseOf(me.pc) == Reconciling
    ensures var pc := AfterPrepared(s, me);
            Where(Effect(s, me, 0), me.(pc := pc), stray) && Distance(pc) < Distance(me.pc)
  {
    LinkCounts(s, me.external);
    hide DirectoryOk, OnlyDescriptor;
    if me.pc.PreparedAliases? {
      var i, aliases := me.pc.inode, set n | n in PreparationsIn(s) && s.names[n] == me.pc.inode;
      forall n | n in aliases ensures n == Preparation(me.external, i) {
      }
      assert aliases == {Preparation(me.external, i)};
    }
  }

  lemma InspectWhere(s: Store, me: Importer, size: nat, pick: Name, stray: bool)
    requires LoneOk(s, me, stray) && me.pc.Inspect? && CanAct(s, me, size, pick)
    ensures var pc := AfterPreparation(s, me, size, pick);
            Where(s, me.(pc := pc), stray)
            && (Distance(pc) < Distance(me.pc) || (pc.Inspect? && Work(s, pc) < Work(s, me.pc)))
  {
    hide DirectoryOk, OnlyDescriptor, Where, AfterPreparation;
    if me.pc.remaining == {} {
      InspectedAll(s, me, size, pick, stray);
    } else {
      InspectsOne(s, me, size, pick, stray);
      assert |me.pc.remaining - {pick}| < |me.pc.remaining|;
    }
  }

  lemma InspectedAll(s: Store, me: Importer, size: nat, pick: Name, stray: bool)
    requires LoneOk(s, me, stray) && me.pc.Inspect? && me.pc.remaining == {}
    requires CanAct(s, me, size, pick)
    ensures var pc := AfterPreparation(s, me, size, pick);
            Where(s, me.(pc := pc), stray) && Distance(pc) < Distance(me.pc)
  {
    LinkCounts(s, me.external);
    hide DirectoryOk, OnlyDescriptor;
  }

  lemma InspectsOne(s: Store, me: Importer, size: nat, pick: Name, stray: bool)
    requires LoneOk(s, me, stray) && me.pc.Inspect? && me.pc.remaining != {}
    requires CanAct(s, me, size, pick)
    ensures var pc := AfterPreparation(s, me, size, pick);
            && Where(s, me.(pc := pc), stray)
            && pick in me.pc.remaining && pc.Inspect? && pc.remaining == me.pc.remaining - {pick}
  {
    LinkCounts(s, me.external);
    hide DirectoryOk, OnlyDescriptor;
    assert pick in PreparationsIn(s);
  }

  lemma WritingWhere(s: Store, me: Importer, size: nat, pick: Name, stray: bool)
    requires LoneOk(s, me, stray) && (me.pc.Create? || me.pc.Write?) && CanAct(s, me, size, pick)
    ensures var pc, t := AfterPreparation(s, me, size, pick), Effect(s, me, size);
            Where(t, me.(pc := pc), stray)
            && (Distance(pc) < Distance(me.pc) || (pc.Write? && Work(t, pc) < Work(s, me.pc)))
  {
    LinkCounts(s, me.external);
    assert me.pc.Write? ==> InodeOk(s, me.pc.name.uuid);
    hide DirectoryOk, OnlyDescriptor;
  }

  lemma LinkingWhere(s: Store, me: Importer, size: nat, pick: Name, stray: bool)
    requires LoneOk(s, me, stray) && CanAct(s, me, size, pick)
    requires me.pc.List? || me.pc.CheckPreparation? || me.pc.LinkPrepared? || me.pc.PairCheck?
             || me.pc.UnlinkPreparation? || me.pc.VerifyPrepared?
    ensures var pc := AfterPreparation(s, me, size, pick);
            Where(Effect(s, me, size), me.(pc := pc), stray) && Distance(pc) < Distance(me.pc)
  {
    hide DirectoryOk, OnlyDescriptor;
    LinkCounts(s, me.external);
  }

  lemma OuterWhere(s: Store, me: Importer, stray: bool)
    requires LoneOk(s, me, stray) && PhaseOf(me.pc) == Outer && !me.pc.Done?
    ensures var pc := AfterOuter(s, me);
            Where(Effect(s, me, 0), me.(pc := pc), stray) && Distance(pc) < Distance(me.pc)
  {
    LinkCounts(s, me.external);
    hide DirectoryOk, OnlyDescriptor;
  }

  /** Every step of a lone importer keeps its place and brings it nearer to returning. */
  lemma LoneStep(s: Store, me: Importer, size: nat, pick: Name, stray: bool)
    requires LoneOk(s, me, stray) && ImporterOk(s, me) && CanAct(s, me, size, pick)
    ensures var t, after := Effect(s, me, size), me.(pc := NextPc(s, me, size, pick));
            && LoneOk(t, after, stray) && ImporterOk(t, after)
            && (Distance(after.pc) < Distance(me.pc)
                || (Distance(after.pc) == Distance(me.pc) && Work(t, after.pc) < Work(s, me.pc)))
  {
    ActKeeps(s, me, size, pick);
    EffectKeepsDescriptor(s, me, size);
    SizeMattersToWriting(s, me, size);
    hide DirectoryOk, OnlyDescriptor, Where, ImporterOk, AfterPublished, AfterPrepared, AfterPreparation, AfterOuter,
         Effect, Work;
    match me.pc {
      case Inspect(_, _) => InspectWhere(s, me, size, pick, stray);
      case Create => WritingWhere(s, me, size, pick, stray);
      case Write(_) => WritingWhere(s, me, size, pick, stray);
      case _ =>
        match PhaseOf(me.pc) {
          case Publishing => PublishedWhere(s, me, stray);
          case Reconciling => PreparedWhere(s, me, stray);
          case Preparing => LinkingWhere(s, me, size, pick, stray);
          case Outer => OuterWhere(s, me, stray);
        }
    }
  }

  lemma SizeMattersToWriting(s: Store, me: Importer, size: nat)
    requires me.pc.Write? ==> Writable(s, me.pc.name, size)
    ensures !me.pc.Write? ==> Effect(s, me, size) == Effect(s, me, 0)
    ensures me.pc.Inspect? ==> Effect(s, me, size) == s
  {
  }

  /** A lone importer is never stuck before it returns. */
  lemma LoneCanAct(s: Store, me: Importer, stray: bool) returns (size: nat, pick: Name)
    requires LoneOk(s, me, stray) && !me.pc.Done?
    ensures CanAct(s, me, size, pick)
  {
    size, pick := 1, Prepared;
    if me.pc.Inspect? && me.pc.remaining != {} {
      pick :| pick in me.pc.remaining;
    }
    if me.pc.Write? {
      assert InodeOk(s, me.pc.name.uuid);
    }
  }

  predicate ActsOnly(actions: seq<Action>, p: nat) {
    forall i :: 0 <= i < |actions| ==> actions[i].Act? && actions[i].p == p
  }

  /** Whatever importers of descriptor d left behind, a lone importer of d never fails; and when it
      returns, `descriptor.json` has one link and holds d, and `descriptor.prepare.json` is there
      exactly if it lay beside a settled `descriptor.json` when the importer started. */
  lemma {:induction false} LoneImport(s: State, actions: seq<Action>, t: State, p: nat, stray: bool)
    requires Inv(s) && p in s.importers && LoneOk(s.store, s.importers[p], stray)
    requires Run(s, actions, t) && ActsOnly(actions, p)
    ensures p in t.importers && !t.importers[p].pc.Failed?
    ensures t.importers[p].pc.Done? ==>
              && Links(t.store, Target, 1)
              && t.store.inodes[t.store.names[Target]].descriptor == s.importers[p].external
              && (Prepared in t.store.names <==> stray)
    decreases actions
  {
    if actions != [] {
      var a, me := actions[0], s.importers[p];
      assert a.p == p;
      LoneStep(s.store, me, a.size, a.pick, stray);
      StepKeepsInv(s, a);
      LoneImport(Step(s, a), actions[1..], t, p, stray);
    }
  }

  /** And it does return: some run of its own calls, and by `LoneStep` every long enough one. */
  lemma {:induction false} LoneImportReturns(s: State, p: nat, stray: bool) returns (actions: seq<Action>, t: State)
    requires Inv(s) && p in s.importers && LoneOk(s.store, s.importers[p], stray)
    ensures Run(s, actions, t) && ActsOnly(actions, p) && p in t.importers && t.importers[p].pc.Done?
    decreases Distance(s.importers[p].pc), Work(s.store, s.importers[p].pc)
  {
    var me := s.importers[p];
    if me.pc.Done? {
      actions, t := [], s;
    } else {
      var size, pick := LoneCanAct(s.store, me, stray);
      var a := Act(p, size, pick);
      LoneStep(s.store, me, size, pick, stray);
      StepKeepsInv(s, a);
      var rest;
      rest, t := LoneImportReturns(Step(s, a), p, stray);
      actions := [a] + rest;
      assert actions[1..] == rest;
    }
  }

  /** The start of a lone import: any directory importers of this descriptor can have left. */
  lemma LoneStart(s: State, p: nat)
    requires Inv(s) && p in s.importers && s.importers[p].pc.Start?
    requires OnlyDescriptor(s.store, s.importers[p].external)
    ensures LoneOk(s.store, s.importers[p], Stray(s.store))
  {
  }

  // ----- importers one at a time

  predicate Idle(pc: Pc) { pc.Done? || pc.Failed? }

  /** A target and a prepared name are the same file, and whoever is still preparing has seen no
      target since. */
  ghost predicate SerialOk(s: State) {
    && (Target in s.store.names && Prepared in s.store.names ==>
          s.store.names[Target] == s.store.names[Prepared])
    && (forall p, q :: p in s.importers && q in s.importers && !Idle(s.importers[p].pc) && !Idle(s.importers[q].pc) ==>
          p == q)
    && (forall p :: p in s.importers ==> Unpublished(s.store, s.importers[p].pc))
  }

  /** A new importer starts only when every earlier one has returned, failed or stopped. */
  predicate Serial(s: State, a: Action) {
    a.Spawn? ==> forall p :: p in s.importers ==> Idle(s.importers[p].pc)
  }

  ghost predicate SerialRun(s: State, actions: seq<Action>, t: State)
    decreases actions
  {
    if actions == [] then s == t
    else Enabled(s, actions[0]) && Serial(s, actions[0]) && SerialRun(Step(s, actions[0]), actions[1..], t)
  }

  lemma SerialEffect(s: Store, me: Importer, size: nat, pick: Name)
    requires DirectoryOk(s) && CanAct(s, me, size, pick)
    requires Target in s.names && Prepared in s.names ==> s.names[Target] == s.names[Prepared]
    requires Unpublished(s, me.pc)
    ensures var t, pc := Effect(s, me, size), NextPc(s, me, size, pick);
            && (Target in t.names && Prepared in t.names ==> t.names[Target] == t.names[Prepared])
            && Unpublished(t, pc)
  {
    assert Target in s.names ==> NameOk(s, Target);
    hide DirectoryOk;
  }

  /** Whoever is still preparing has seen no target since. */
  predicate Unpublished(s: Store, pc: Pc) {
    PhaseOf(pc) == Reconciling || PhaseOf(pc) == Preparing || pc.LinkTarget? ==> Target !in s.names
  }

  /** An idle importer stays clear of the directory; the one at work is the only one. */
  lemma SerialWith(s: State, t: State, p: nat)
    requires SerialOk(s) && p in t.importers
    requires forall q :: q in t.importers && q != p ==> q in s.importers && t.importers[q] == s.importers[q]
    requires forall q :: q in t.importers && q != p ==> Idle(t.importers[q].pc) || t.store == s.store
    requires Idle(t.importers[p].pc) || forall q :: q in t.importers && q != p ==> Idle(t.importers[q].pc)
    requires Target in t.store.names && Prepared in t.store.names ==>
               t.store.names[Target] == t.store.names[Prepared]
    requires Unpublished(t.store, t.importers[p].pc)
    ensures SerialOk(t)
  {
  }

  lemma SerialStep(s: State, a: Action)
    requires Inv(s) && SerialOk(s) && Enabled(s, a) && Serial(s, a)
    ensures SerialOk(Step(s, a))
  {
    hide Effect, NextPc, Unpublished, DirectoryOk, ImporterOk;
    match a {
      case Act(p, size, pick) =>
        ActiveIsNotIdle(s.store, s.importers[p], size, pick);
        SerialEffect(s.store, s.importers[p], size, pick);
      case Spawn(p, external) => IdleUnpublished(s.store, Start);
      case Crash(p) => IdleUnpublished(s.store, Failed);
    }
    SerialWith(s, Step(s, a), a.p);
  }

  lemma ActiveIsNotIdle(s: Store, me: Importer, size: nat, pick: Name)
    requires CanAct(s, me, size, pick)
    ensures !Idle(me.pc)
  {
  }

  lemma IdleUnpublished(s: Store, pc: Pc)
    requires pc.Start? || Idle(pc)
    ensures Unpublished(s, pc)
  {
  }

  /** When importers run one at a time, each stopped anywhere, no stray is ever left: a lone
      importer of the descriptor then ends without `descriptor.prepare.json`. */
  lemma {:induction false} SerialRunsLeaveNoStray(s: State, actions: seq<Action>, t: State)
    requires Inv(s) && SerialOk(s) && SerialRun(s, actions, t)
    ensures Inv(t) && SerialOk(t) && !Stray(t.store)
    decreases actions
  {
    if actions == [] {
      if Target in t.store.names {
        assert NameOk(t.store, Target) && InodeOk(t.store, t.store.names[Target]);
      }
    } else {
      StepKeepsInv(s, actions[0]);
      SerialStep(s, actions[0]);
      SerialRunsLeaveNoStray(Step(s, actions[0]), actions[1..], t);
    }
  }

  predicate SpawnsOnly(actions: seq<Action>, d: Descriptor) {
    forall i :: 0 <= i < |actions| && actions[i].Spawn? ==> actions[i].external == d
  }

  /** Every importer so far, and every file, is of one descriptor. */
  ghost predicate AllOf(s: State, d: Descriptor) {
    OnlyDescriptor(s.store, d) && forall p :: p in s.importers ==> s.importers[p].external == d
  }

  lemma {:induction false} SerialRunKeepsDescriptor(s: State, actions: seq<Action>, t: State, d: Descriptor)
    requires AllOf(s, d) && SerialRun(s, actions, t) && SpawnsOnly(actions, d)
    ensures AllOf(t, d)
    decreases actions
  {
    hide OnlyDescriptor, Effect, NextPc;
    if actions != [] {
      var a := actions[0];
      if a.Act? {
        assert s.importers[a.p].external == d;
        EffectKeepsDescriptor(s.store, s.importers[a.p], a.size);
      }
      SerialRunKeepsDescriptor(Step(s, a), actions[1..], t, d);
    }
  }

  /** `descriptor.json` is d with one link, and `descriptor.prepare.json` is gone. */
  predicate PublishedAlone(s: Store, d: Descriptor) {
    Links(s, Target, 1) && s.inodes[s.names[Target]].descriptor == d && Prepared !in s.names
  }

  /** From an empty directory, after any importers of one descriptor run one at a time, each stopped
      anywhere, one more importer left to itself never fails; it returns, and whenever it has returned
      `descriptor.json` has one link and `descriptor.prepare.json` is gone. */
  lemma ImportAfterSerialRuns(actions: seq<Action>, s: State, d: Descriptor, p: nat)
    requires SerialRun(EMPTY_STORE, actions, s) && SpawnsOnly(actions, d)
    requires Enabled(s, Spawn(p, d)) && Serial(s, Spawn(p, d))
    ensures forall more, t :: Run(Step(s, Spawn(p, d)), more, t) && ActsOnly(more, p) ==>
              && p in t.importers && !t.importers[p].pc.Failed?
              && (t.importers[p].pc.Done? ==> PublishedAlone(t.store, d))
    ensures exists more, t :: Run(Step(s, Spawn(p, d)), more, t) && ActsOnly(more, p)
                              && p in t.importers && t.importers[p].pc.Done?
  {
    hide Run, ActsOnly, Stray, Links, LoneOk, OnlyDescriptor, SerialOk, SerialRun;
    EmptyIsSerial(d);
    SerialRunsLeaveNoStray(EMPTY_STORE, actions, s);
    SerialRunKeepsDescriptor(EMPTY_STORE, actions, s, d);
    StepKeepsInv(s, Spawn(p, d));
    var started := Step(s, Spawn(p, d));
    LoneStart(started, p);
    forall more, t | Run(started, more, t) && ActsOnly(more, p)
      ensures && p in t.importers && !t.importers[p].pc.Failed?
              && (t.importers[p].pc.Done? ==> PublishedAlone(t.store, d))
    {
      LoneImport(started, more, t, p, false);
    }
    var more, t := LoneImportReturns(started, p, false);
  }

  lemma EmptyIsSerial(d: Descriptor)
    ensures Inv(EMPTY_STORE) && SerialOk(EMPTY_STORE) && AllOf(EMPTY_STORE, d)
  {
  }

  // ----- importers at once

  lemma {:induction false} RunConcat(s: State, a: seq<Action>, t: State, b: seq<Action>, u: State)
    requires Run(s, a, t) && Run(t, b, u)
    ensures Run(s, a + b, u)
    decreases a
  {
    if a == [] {
      assert a + b == b;
    } else {
      RunConcat(Step(s, a[0]), a[1..], t, b, u);
      assert (a + b)[1..] == a[1..] + b;
    }
  }

  /** One call of importer p that leaves the directory as it is. */
  lemma Looks(s: State, p: nat, pc: Pc)
    requires p in s.importers && CanAct(s.store, s.importers[p], 1, Prepared)
    requires Effect(s.store, s.importers[p], 1) == s.store && NextPc(s.store, s.importers[p], 1, Prepared) == pc
    ensures Run(s, [Act(p, 1, Prepared)], State(s.store, s.importers[p := s.importers[p].(pc := pc)]))
  {
    var t := Step(s, Act(p, 1, Prepared));
    assert Run(t, [], t);
  }

  lemma LooksTwice(s: State, p: nat, first: Pc, second: Pc)
    requires p in s.importers && CanAct(s.store, s.importers[p], 1, Prepared)
    requires Effect(s.store, s.importers[p], 1) == s.store && NextPc(s.store, s.importers[p], 1, Prepared) == first
    requires var me := s.importers[p].(pc := first);
             && CanAct(s.store, me, 1, Prepared)
             && Effect(s.store, me, 1) == s.store && NextPc(s.store, me, 1, Prepared) == second
    ensures Run(s, [Act(p, 1, Prepared), Act(p, 1, Prepared)],
                State(s.store, s.importers[p := s.importers[p].(pc := second)]))
  {
    hide CanAct, Effect, NextPc;
    var me := s.importers[p];
    var between := State(s.store, s.importers[p := me.(pc := first)]);
    Looks(s, p, first);
    Looks(between, p, second);
    assert between.importers[p := me.(pc := second)] == s.importers[p := me.(pc := second)];
    var a := Act(p, 1, Prepared);
    RunConcat(s, [a], between, [a], State(s.store, s.importers[p := me.(pc := second)]));
    assert [a] + [a] == [a, a];
  }

  lemma FindsNothing(s: State, p: nat)
    requires p in s.importers && s.importers[p].pc.Start? && s.store.names == map[]
    ensures var a := Act(p, 1, Prepared);
            Run(s, [a, a], State(s.store, s.importers[p := s.importers[p].(pc := List)]))
  {
    hide Run;
    LooksTwice(s, p, PreparedStat, List);
  }

  lemma ListsNone(s: State, p: nat)
    requires p in s.importers && s.importers[p].pc.List? && s.store.names == map[]
    ensures var a := Act(p, 1, Prepared);
            Run(s, [a, a], State(s.store, s.importers[p := s.importers[p].(pc := Create)]))
  {
    hide Run;
    assert PreparationsIn(s.store) == {};
    LooksTwice(s, p, Inspect({}, None), Create);
  }

  /** In an empty directory an importer soon decides to write a preparation of its own. */
  lemma ListsNothing(s: State, p: nat) returns (actions: seq<Action>)
    requires p in s.importers && s.importers[p].pc.Start? && s.store.names == map[]
    ensures Run(s, actions, State(s.store, s.importers[p := s.importers[p].(pc := Create)]))
  {
    hide Run;
    var me, a := s.importers[p], Act(p, 1, Prepared);
    var listing := State(s.store, s.importers[p := me.(pc := List)]);
    FindsNothing(s, p);
    ListsNone(listing, p);
    assert listing.importers[p := me.(pc := Create)] == s.importers[p := me.(pc := Create)];
    actions := [a, a] + [a, a];
    RunConcat(s, [a, a], listing, [a, a], State(s.store, s.importers[p := me.(pc := Create)]));
  }

  lemma TwoSteps(s: State, a: Action, b: Action)
    requires Enabled(s, a) && Enabled(Step(s, a), b)
    ensures Run(s, [a, b], Step(Step(s, a), b))
  {
    var t := Step(s, a);
    assert [a, b][1..] == [b];
    assert Run(Step(t, b), [], Step(t, b)) && [b][1..] == [];
    assert Run(t, [b], Step(t, b));
  }

  lemma WritesOwn(s: State, q: nat) returns (actions: seq<Action>, t: State)
    requires q in s.importers && s.importers[q].pc.Create?
    ensures Run(s, actions, t) && ActsOnly(actions, q)
    ensures var d, i := s.importers[q].external, s.store.unused;
            && t.store.names == s.store.names[Preparation(d, i) := i]
            && t.store.inodes == s.store.inodes[i := Inode(d, d.Size(), 1)]
            && q in t.importers && t.importers[q] == Importer(d, CheckPreparation(Preparation(d, i)))
  {
    var d, i := s.importers[q].external, s.store.unused;
    var a, b := Act(q, 0, Prepared), Act(q, d.Size(), Prepared);
    TwoSteps(s, a, b);
    actions, t := [a, b], Step(Step(s, a), b);
    assert t.store.inodes == s.store.inodes[i := Inode(d, d.Size(), 1)];
  }

  lemma LinksOwn(s: State, q: nat, n: Name) returns (actions: seq<Action>, t: State)
    requires q in s.importers && s.importers[q].pc == CheckPreparation(n)
    requires Reads(s.store, n, 1, s.importers[q].external) && Prepared !in s.store.names
    ensures Run(s, actions, t) && ActsOnly(actions, q) && t.store == Link(s.store, n, Prepared)
  {
    var a := Act(q, 0, Prepared);
    TwoSteps(s, a, a);
    actions, t := [a, a], Step(Step(s, a), a);
  }

  /** An importer about to write, after another has published, prepares beside the published file. */
  lemma PreparesBeside(s: State, q: nat) returns (actions: seq<Action>, t: State)
    requires Inv(s) && q in s.importers && s.importers[q].pc.Create?
    requires Links(s.store, Target, 1) && Prepared !in s.store.names
    ensures Run(s, actions, t) && ActsOnly(actions, q) && Stray(t.store)
  {
    assert InodeOk(s.store, s.store.names[Target]);
    var n, more, u := Preparation(s.importers[q].external, s.store.unused), [], s;
    actions, u := WritesOwn(s, q);
    more, t := LinksOwn(u, q, n);
    RunConcat(s, actions, u, more, t);
    actions := actions + more;
  }

  /** Two importers of one descriptor can both find nothing and decide to write a preparation. */
  lemma BothAboutToWrite(d: Descriptor) returns (actions: seq<Action>, t: State)
    ensures Run(EMPTY_STORE, actions, t)
    ensures t == State(EMPTY_STORE.store, map[0 := Importer(d, Create), 1 := Importer(d, Create)])
  {
    var store := EMPTY_STORE.store;
    var s1 := State(store, map[0 := Importer(d, Start), 1 := Importer(d, Start)]);
    TwoSteps(EMPTY_STORE, Spawn(0, d), Spawn(1, d));
    var opening := [Spawn(0, d), Spawn(1, d)];
    assert Run(EMPTY_STORE, opening, s1);
    hide Run;
    var a := ListsNothing(s1, 0);
    var s2 := State(store, s1.importers[0 := Importer(d, Create)]);
    var b := ListsNothing(s2, 1);
    t := State(store, s2.importers[1 := Importer(d, Create)]);
    RunConcat(EMPTY_STORE, opening, s1, a, s2);
    RunConcat(EMPTY_STORE, opening + a, s2, b, t);
    actions := opening + a + b;
  }

  /** Two importers of one descriptor at once can leave a stray that no later import removes: the
      first publishes and returns while the second is about to write its own preparation. */
  lemma ConcurrentImportersLeaveStray(d: Descriptor) returns (actions: seq<Action>, t: State)
    ensures Run(EMPTY_STORE, actions, t) && Stray(t.store)
    ensures forall p :: p in t.importers ==> t.importers[p].external == d
    ensures Inv(t) && OnlyDescriptor(t.store, d)
  {
    hide Run;
    var opening, s := BothAboutToWrite(d);
    RunKeepsInv(EMPTY_STORE, opening, s);
    var first, u := LoneImportReturns(s, 0, false);
    RunConcat(EMPTY_STORE, opening, s, first, u);
    LoneImport(s, first, u, 0, false);
    SpectatorsWait(s, first, u, 0);
    RunKeepsInv(EMPTY_STORE, opening + first, u);
    var second;
    second, t := PreparesBeside(u, 1);
    RunConcat(EMPTY_STORE, opening + first, u, second, t);
    SpectatorsWait(u, second, t, 1);
    actions := opening + first + second;
    RunKeepsInv(EMPTY_STORE, actions, t);
  }

  /** One importer's calls move no other importer, and add no other descriptor. */
  lemma {:induction false} SpectatorsWait(s: State, actions: seq<Action>, t: State, p: nat)
    requires Run(s, actions, t) && ActsOnly(actions, p) && p in s.importers
    requires OnlyDescriptor(s.store, s.importers[p].external)
    ensures t.importers.Keys == s.importers.Keys
    ensures forall q :: q in s.importers && q != p ==> t.importers[q] == s.importers[q]
    ensures t.importers[p].external == s.importers[p].external
    ensures OnlyDescriptor(t.store, s.importers[p].external)
    decreases actions
  {
    if actions != [] {
      assert actions[0].p == p;
      EffectKeepsDescriptor(s.store, s.importers[p], actions[0].size);
      SpectatorsWait(Step(s, actions[0]), actions[1..], t, p);
    }
  }
}
