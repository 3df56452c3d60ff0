/** Write-once publication under any interleaving of importers. */
module RecoveryAuthoritySafety {
  // `descriptor.json` is bound at most once, to one complete descriptor, and an importer that
  // succeeds has imported exactly that one.

  import opened RecoveryAuthority

  /** What no step undoes: bytes only grow, a bound target stays, vanished names stay away. */
  ghost predicate Grows(s: Store, t: Store) {
    && s.unused <= t.unused
    && (forall i :: i in s.inodes ==>
          && i in t.inodes && t.inodes[i].descriptor == s.inodes[i].descriptor
          && (s.inodes[i].Complete() ==> t.inodes[i].Complete()))
    && (Target in s.names ==> Target in t.names && t.names[Target] == s.names[Target])
    && (Target !in t.names && Prepared in s.names ==>
          Prepared in t.names && t.names[Prepared] == s.names[Prepared])
    && (forall n :: n in t.names && n.Preparation? ==> n in s.names || s.unused <= n.uuid)
  }

  /** Everything an importer has established survives what others do. */
  lemma OthersKeep(s: Store, t: Store, importer: Importer)
    requires DirectoryOk(s) && DirectoryOk(t) && Grows(s, t)
    requires ImporterOk(s, importer)
    ensures ImporterOk(t, importer)
  {
  }

  lemma UnlinkKeeps(s: Store, n: Name)
    requires DirectoryOk(s) && n != Target && (n == Prepared ==> Target in s.names)
    ensures DirectoryOk(Unlink(s, n)) && Grows(s, Unlink(s, n))
  {
    var t := Unlink(s, n);
    if Bound(s, n) && 1 <= s.inodes[s.names[n]].links {
      assert NameOk(s, n);
      forall j | j in t.inodes ensures InodeOk(t, j) {
        assert InodeOk(s, j) && Home(t, j) == Home(s, j);
        assert Home(s, j) == n ==> s.names[n] == j;
      }
      forall m | m in t.names ensures NameOk(t, m) {
        assert NameOk(s, m) && Home(t, t.names[m]) == Home(s, s.names[m]);
      }
    }
  }

  lemma LinkKeeps(s: Store, n: Name, to: Name)
    requires DirectoryOk(s) && Bound(s, n) && to !in s.names
    requires s.inodes[s.names[n]].Complete()
    requires (to == Prepared && n.Preparation?)
             || (to == Target && n == Prepared && Home(s, s.names[Prepared]) !in s.names)
    ensures DirectoryOk(Link(s, n, to)) && Grows(s, Link(s, n, to))
  {
    var t := Link(s, n, to);
    assert NameOk(s, n);
    forall j | j in t.inodes ensures InodeOk(t, j) {
      assert InodeOk(s, j) && Home(t, j) == Home(s, j);
    }
    forall m | m in t.names ensures NameOk(t, m) {
      assert m in s.names ==> NameOk(s, m);
      assert Home(t, t.names[m]) == Home(s, t.names[m]);
    }
  }

  lemma OpenKeeps(s: Store, d: Descriptor)
    requires DirectoryOk(s)
    ensures DirectoryOk(Open(s, d)) && Grows(s, Open(s, d))
  {
    var n, t := Preparation(d, s.unused), Open(s, d);
    forall j | j in t.inodes ensures InodeOk(t, j) {
      assert j in s.inodes ==> InodeOk(s, j) && Home(t, j) == Home(s, j);
      assert forall m :: m in s.names ==> NameOk(s, m);
    }
    forall m | m in t.names ensures NameOk(t, m) {
      assert m != n ==> NameOk(s, m) && Home(t, t.names[m]) == Home(s, s.names[m]);
    }
  }

  lemma AppendKeeps(s: Store, i: nat, size: nat)
    requires DirectoryOk(s) && i in s.inodes && s.inodes[i].written + size <= s.inodes[i].descriptor.Size()
    requires 1 <= size
    ensures DirectoryOk(Append(s, i, size)) && Grows(s, Append(s, i, size))
  {
    var t := Append(s, i, size);
    forall j | j in t.inodes ensures InodeOk(t, j) {
      assert InodeOk(s, j) && Home(t, j) == Home(s, j);
    }
    forall m | m in t.names ensures NameOk(t, m) {
      assert NameOk(s, m) && Home(t, t.names[m]) == Home(s, s.names[m]);
    }
  }

  lemma EffectKeeps(s: Store, me: Importer, size: nat)
    requires DirectoryOk(s) && ImporterOk(s, me)
    requires me.pc.Write? ==> Writable(s, me.pc.name, size)
    ensures DirectoryOk(Effect(s, me, size)) && Grows(s, Effect(s, me, size))
  {
    assert me.pc.LinkPrepared? && Bound(s, me.pc.name) ==> NameOk(s, me.pc.name);
    assert Bound(s, Prepared) ==> NameOk(s, Prepared);
    Unchanged(s);
    hide DirectoryOk, Grows, Link, Unlink, Open, Append;
    match me.pc {
      case PublishedUnlink => UnlinkKeeps(s, Prepared);
      case AliasUnlink(alias) => UnlinkKeeps(s, alias);
      case Create => OpenKeeps(s, me.external);
      case Write(n) => AppendKeeps(s, n.uuid, size);
      case LinkPrepared(n) =>
        if Bound(s, n) && Prepared !in s.names {
          LinkKeeps(s, n, Prepared);
        }
      case UnlinkPreparation(n) => UnlinkKeeps(s, n);
      case LinkTarget =>
        if Bound(s, Prepared) && Target !in s.names {
          LinkKeeps(s, Prepared, Target);
        }
      case _ =>
    }
  }

  lemma Unchanged(s: Store)
    ensures Grows(s, s)
  {
  }

  /** A prepared file with one link has lost its preparation name. */
  lemma LonelyPrepared(s: Store, d: Descriptor)
    requires DirectoryOk(s)
    ensures Reads(s, Prepared, 1, d) ==> Home(s, s.names[Prepared]) !in s.names
  {
    if Bound(s, Prepared) {
      assert InodeOk(s, s.names[Prepared]);
    }
  }

  lemma PublishedNext(s: Store, me: Importer)
    requires DirectoryOk(s) && ImporterOk(s, me) && PhaseOf(me.pc) == Publishing
    ensures ImporterOk(Effect(s, me, 0), me.(pc := AfterPublished(s, me)))
  {
    assert NameOk(s, Target);
    hide DirectoryOk;
  }

  lemma PreparedNext(s: Store, me: Importer)
    requires DirectoryOk(s) && ImporterOk(s, me) && PhaseOf(me.pc) == Reconciling
    ensures ImporterOk(Effect(s, me, 0), me.(pc := AfterPrepared(s, me)))
  {
    LonelyPrepared(s, me.external);
    hide DirectoryOk;
  }

  lemma BoundNameOk(s: Store, name: Name)
    requires DirectoryOk(s) && Bound(s, name)
    ensures NameOk(s, name)
  {
  }

  lemma PreparationNext(s: Store, me: Importer, size: nat, pick: Name)
    requires DirectoryOk(s) && ImporterOk(s, me) && CanAct(s, me, size, pick) && PhaseOf(me.pc) == Preparing
    ensures ImporterOk(Effect(s, me, size), me.(pc := AfterPreparation(s, me, size, pick)))
  {
    hide DirectoryOk;
    LonelyPrepared(s, me.external);
    if Bound(s, pick) { BoundNameOk(s, pick); }
    if me.pc.CheckPreparation? && Bound(s, me.pc.name) { BoundNameOk(s, me.pc.name); }
  }

  lemma OuterNext(s: Store, me: Importer)
    requires DirectoryOk(s) && ImporterOk(s, me) && PhaseOf(me.pc) == Outer
    ensures ImporterOk(Effect(s, me, 0), me.(pc := AfterOuter(s, me)))
  {
    hide DirectoryOk;
  }

  lemma ActKeeps(s: Store, me: Importer, size: nat, pick: Name)
    requires DirectoryOk(s) && ImporterOk(s, me) && CanAct(s, me, size, pick)
    ensures var t := Effect(s, me, size);
            && DirectoryOk(t) && Grows(s, t)
            && ImporterOk(t, me.(pc := NextPc(s, me, size, pick)))
  {
    EffectKeeps(s, me, size);
    if !me.pc.Write? {
      assert Effect(s, me, size) == Effect(s, me, 0);
    }
    hide DirectoryOk, Grows, ImporterOk, AfterPublished, AfterPrepared, AfterPreparation, AfterOuter, Effect;
    match PhaseOf(me.pc) {
      case Publishing => PublishedNext(s, me);
      case Reconciling => PreparedNext(s, me);
      case Preparing => PreparationNext(s, me, size, pick);
      case Outer => OuterNext(s, me);
    }
  }

  lemma StepKeepsInv(s: State, a: Action)
    requires Inv(s) && Enabled(s, a)
    ensures Inv(Step(s, a)) && Grows(s.store, Step(s, a).store)
  {
    var t := Step(s, a);
    hide DirectoryOk, Grows, ImporterOk, Effect, NextPc;
    Unchanged(s.store);
    if a.Act? {
      ActKeeps(s.store, s.importers[a.p], a.size, a.pick);
    }
    forall q | q in t.importers ensures ImporterOk(t.store, t.importers[q]) {
      if q != a.p {
        OthersKeep(s.store, t.store, s.importers[q]);
      } else {
        FreshImporter(t.store, t.importers[q].external);
      }
    }
  }

  lemma FreshImporter(s: Store, external: Descriptor)
    ensures ImporterOk(s, Importer(external, Start)) && ImporterOk(s, Importer(external, Failed))
  {
  }

  // ----- whole histories

  ghost predicate Run(s: State, actions: seq<Action>, t: State)
    decreases actions
  {
    if actions == [] then s == t
    else Enabled(s, actions[0]) && Run(Step(s, actions[0]), actions[1..], t)
  }

  const EMPTY_STORE := State(Store(map[], map[], 0), map[])

  lemma {:induction false} RunKeepsInv(s: State, actions: seq<Action>, t: State)
    requires Inv(s) && Run(s, actions, t)
    ensures Inv(t)
    decreases actions
  {
    if actions != [] {
      StepKeepsInv(s, actions[0]);
      RunKeepsInv(Step(s, actions[0]), actions[1..], t);
    }
  }

  /** Any number of importers, with any descriptors, interleaved and stopped anywhere, leave
      `descriptor.json` either unbound or bound to one complete descriptor. */
  lemma TargetIsComplete(actions: seq<Action>, t: State)
    requires Run(EMPTY_STORE, actions, t)
    ensures Inv(t)
    ensures Target in t.store.names ==>
            t.store.names[Target] in t.store.inodes && t.store.inodes[t.store.names[Target]].Complete()
  {
    RunKeepsInv(EMPTY_STORE, actions, t);
    assert Target in t.store.names ==> NameOk(t.store, Target);
  }

  /** Once bound, `descriptor.json` is the same file with the same contents in every later state. */
  lemma {:induction false} TargetWrittenOnce(s: State, actions: seq<Action>, t: State)
    requires Inv(s) && Run(s, actions, t) && Target in s.store.names
    ensures s.store.names[Target] in s.store.inodes && s.store.inodes[s.store.names[Target]].Complete()
    ensures Target in t.store.names && t.store.names[Target] == s.store.names[Target]
            && t.store.names[Target] in t.store.inodes
    ensures t.store.inodes[t.store.names[Target]].descriptor == s.store.inodes[s.store.names[Target]].descriptor
    ensures t.store.inodes[t.store.names[Target]].Complete()
    decreases actions
  {
    assert NameOk(s.store, Target);
    if actions != [] {
      StepKeepsInv(s, actions[0]);
      TargetWrittenOnce(Step(s, actions[0]), actions[1..], t);
    }
  }

  /** An importer that returns has the published descriptor, so two that return have the same one. */
  lemma SuccessfulImportersAgree(s: State, actions: seq<Action>, t: State, p: nat, q: nat)
    requires Inv(s) && p in s.importers && s.importers[p].pc.Done?
    requires Run(s, actions, t) && q in t.importers && t.importers[q].pc.Done?
    ensures t.importers[q].external == s.importers[p].external
    ensures Target in t.store.names && t.store.names[Target] in t.store.inodes
            && t.store.inodes[t.store.names[Target]].descriptor == s.importers[p].external
  {
    assert ImporterOk(s.store, s.importers[p]);
    RunKeepsInv(s, actions, t);
    assert ImporterOk(t.store, t.importers[q]);
    TargetWrittenOnce(s, actions, t);
  }

  // ----- what an importer has seen before it acts, in any directory

  /** The name is that of a file of so many links that holds this descriptor and its newline. */
  predicate IsFileOf(s: Store, n: Name, links: nat, d: Descriptor) {
    && n in s.names && s.names[n] in s.inodes
    && s.inodes[s.names[n]] == Inode(d, |d.text| + 1, links)
  }

  predicate SameFile(s: Store, a: Name, b: Name) {
    a in s.names && b in s.names && s.names[a] == s.names[b]
  }

  /** Whatever else is in the directory, reachable or not: an importer returns only on its own complete
      descriptor under the target with one link; it goes on to link or unlink a name only when it has
      seen its own complete descriptor there, and to unlink only the second name of such a file. */
  lemma SeenBeforeActing(s: Store, me: Importer, size: nat, pick: Name)
    requires CanAct(s, me, size, pick)
    ensures var next, d := NextPc(s, me, size, pick), me.external;
            && (next.Done? ==> IsFileOf(s, Target, 1, d))
            && (next.LinkTarget? ==>
                  || IsFileOf(s, Prepared, 1, d)
                  || (IsFileOf(s, Prepared, 2, d) && SameFile(s, Prepared, Target)))
            && (next.LinkPrepared? ==> IsFileOf(s, next.name, 1, d))
            && (next.PublishedUnlink? ==> IsFileOf(s, Prepared, 2, d) && SameFile(s, Prepared, Target))
            && (next.UnlinkPreparation? ==> IsFileOf(s, Prepared, 2, d) && SameFile(s, next.name, Prepared))
            && (next.AliasUnlink? ==> IsFileOf(s, next.alias, 2, d) && SameFile(s, next.alias, Prepared))
            && (me.pc.TargetCheck? && !next.Failed? ==>
                  IsFileOf(s, Target, 2, d) && SameFile(s, Prepared, Target))
  {
  }

  /** One call binds or unbinds at most one name: the one the importer is at. The target is bound only
      to the file prepared, and never unbound. */
  lemma TouchesOnlyItsName(s: Store, me: Importer, size: nat, pick: Name, n: Name)
    requires CanAct(s, me, size, pick)
    ensures var t, pc := Effect(s, me, size), me.pc;
            && (n in s.names && n !in t.names ==>
                  || (n == Prepared && pc.PublishedUnlink?) || (pc.AliasUnlink? && pc.alias == n)
                  || (pc.UnlinkPreparation? && pc.name == n))
            && (n !in s.names && n in t.names ==>
                  || (n == Target && pc.LinkTarget? && Prepared in s.names && t.names[n] == s.names[Prepared])
                  || (n == Prepared && pc.LinkPrepared? && pc.name in s.names && t.names[n] == s.names[pc.name])
                  || (n == Preparation(me.external, s.unused) && pc.Create?))
            && (n in s.names && n in t.names ==>
                  t.names[n] == s.names[n] || (pc.Create? && n == Preparation(me.external, s.unused)))
  {
  }
}
