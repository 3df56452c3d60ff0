/** Hard-link publication of the recovery authority descriptor
    (packages/workflow-engine/src/recovery-authority.ts): any number of importers, each call to the
    file system one step, any of which may be an importer's last.

    The chain is a preparation file, then `descriptor.prepare.json`, then `descriptor.json`. */
module RecoveryAuthority {
  import opened Results

  /** A descriptor, by its canonical text; the file holds the text and a newline. */
  datatype Descriptor = Descriptor(text: string) {
    function Size(): nat { |text| + 1 }
  }

  /** A preparation's name spells the descriptor's digest and a fresh UUID. */
  datatype Name = Preparation(descriptor: Descriptor, uuid: nat) | Prepared | Target

  /** The first `written` characters of a descriptor's file; only the whole file parses. */
  datatype Inode = Inode(descriptor: Descriptor, written: nat, links: nat) {
    predicate Complete() { written == descriptor.Size() }
  }

  /** Where an importer is: the file system call it makes next. */
  datatype Pc =
    | Start
    // reconcilePublishedDescriptor
    | PublishedStat | PublishedAlias | PublishedCheck | PublishedUnlink | PublishedVerify
    // ensureDurablePreparation and reconcilePreparedDescriptor
    | PreparedStat | PreparedCount | PreparedRead | PreparedTarget(inode: nat) | PreparedAliases(inode: nat)
    | AliasCheck(alias: Name) | AliasUnlink(alias: Name) | AliasVerify
    // selectExactPreparation and writePrivatePreparation
    | List | Inspect(remaining: set<Name>, selected: Option<Name>)
    | Create | Write(name: Name)
    | CheckPreparation(name: Name) | LinkPrepared(name: Name) | PairCheck(name: Name)
    | UnlinkPreparation(name: Name) | VerifyPrepared
    // importRecoveryAuthorityDescriptor
    | LinkTarget | TargetCheck
    | Done | Failed

  datatype Importer = Importer(external: Descriptor, pc: Pc)

  /** The store directory; `unused` is above every UUID and inode. An inode is numbered like the
      UUID it was created under. */
  datatype Store = Store(names: map<Name, nat>, inodes: map<nat, Inode>, unused: nat)

  datatype State = State(store: Store, importers: map<nat, Importer>)

  /** Start an importer, let one make its next call, or stop one for good. */
  datatype Action =
    | Spawn(p: nat, external: Descriptor)
    | Act(p: nat, size: nat, pick: Name)
    | Crash(p: nat)

  // ----- file system calls

  predicate At(s: Store, n: Name, i: nat) {
    n in s.names && s.names[n] == i
  }

  predicate Bound(s: Store, n: Name) {
    n in s.names && s.names[n] in s.inodes
  }

  /** A name with this many links whose file reads as exactly this descriptor. */
  predicate Reads(s: Store, n: Name, links: nat, d: Descriptor) {
    Bound(s, n) && s.inodes[s.names[n]].links == links && s.inodes[s.names[n]].Complete()
    && s.inodes[s.names[n]].descriptor == d
  }

  predicate ExactPair(s: Store, a: Name, b: Name) {
    Bound(s, a) && Bound(s, b) && s.names[a] == s.names[b] && s.inodes[s.names[a]].links == 2
  }

  function Link(s: Store, from: Name, to: Name): Store
    requires Bound(s, from)
  {
    var i := s.names[from];
    Store(s.names[to := i], s.inodes[i := s.inodes[i].(links := s.inodes[i].links + 1)], s.unused)
  }

  /** `unlink`, which an importer takes as done when the name is already gone. */
  function Unlink(s: Store, n: Name): Store {
    if Bound(s, n) && 1 <= s.inodes[s.names[n]].links then
      var i := s.names[n];
      Store(s.names - {n}, s.inodes[i := s.inodes[i].(links := s.inodes[i].links - 1)], s.unused)
    else s
  }

  /** `open` with O_CREAT | O_EXCL. */
  function Open(s: Store, d: Descriptor): Store {
    Store(s.names[Preparation(d, s.unused) := s.unused], s.inodes[s.unused := Inode(d, 0, 1)], s.unused + 1)
  }

  function Append(s: Store, i: nat, size: nat): Store
    requires i in s.inodes
  {
    s.(inodes := s.inodes[i := s.inodes[i].(written := s.inodes[i].written + size)])
  }

  function PreparationsIn(s: Store): set<Name> {
    set n | n in s.names && n.Preparation?
  }

  // ----- one step of an importer

  /** The file written to, and a number of characters it still lacks. */
  predicate Writable(s: Store, n: Name, size: nat) {
    n.Preparation? && n.uuid in s.inodes
    && 1 <= size && s.inodes[n.uuid].written + size <= s.inodes[n.uuid].descriptor.Size()
  }

  predicate CanAct(s: Store, me: Importer, size: nat, pick: Name) {
    match me.pc
    case Done | Failed => false
    case Inspect(remaining, _) => remaining == {} || pick in remaining
    case Write(n) => Writable(s, n, size)
    case _ => true
  }

  /** What the importer's next call does to the directory. */
  function Effect(s: Store, me: Importer, size: nat): Store
    requires me.pc.Write? ==> Writable(s, me.pc.name, size)
  {
    match me.pc
    case PublishedUnlink => Unlink(s, Prepared)
    case AliasUnlink(alias) => Unlink(s, alias)
    case Create => Open(s, me.external)
    case Write(n) => Append(s, n.uuid, size)
    case LinkPrepared(n) => if Bound(s, n) && Prepared !in s.names then Link(s, n, Prepared) else s
    case UnlinkPreparation(n) => Unlink(s, n)
    case LinkTarget => if Bound(s, Prepared) && Target !in s.names then Link(s, Prepared, Target) else s
    case _ => s
  }

  /** Where `reconcilePublishedDescriptor` goes next. */
  function AfterPublished(s: Store, me: Importer): Pc {
    match me.pc
    case PublishedStat =>
      if !Bound(s, Target) then Failed
      else if s.inodes[s.names[Target]].links == 1 then PublishedVerify
      else if s.inodes[s.names[Target]].links == 2 then PublishedAlias
      else Failed
    case PublishedAlias =>
      if Bound(s, Prepared) && At(s, Target, s.names[Prepared]) then PublishedCheck else Failed
    case PublishedCheck =>
      if ExactPair(s, Prepared, Target) && Reads(s, Prepared, 2, me.external) then PublishedUnlink else Failed
    case PublishedUnlink => PublishedVerify
    case _ => if Reads(s, Target, 1, me.external) then Done else Failed
  }

  /** Where `reconcilePreparedDescriptor` goes next. */
  function AfterPrepared(s: Store, me: Importer): Pc {
    match me.pc
    case PreparedStat => if Bound(s, Prepared) then PreparedCount else List
    case PreparedCount =>
      if !Bound(s, Prepared) then Failed
      else if s.inodes[s.names[Prepared]].links == 1 then PreparedRead
      else if s.inodes[s.names[Prepared]].links == 2 then PreparedTarget(s.names[Prepared])
      else Failed
    case PreparedTarget(i) =>
      if !At(s, Target, i) then PreparedAliases(i)
      else if ExactPair(s, Prepared, Target) && Reads(s, Prepared, 2, me.external) then LinkTarget
      else Failed
    case PreparedAliases(i) =>
      var aliases := set n | n in PreparationsIn(s) && s.names[n] == i;
      if aliases == {Preparation(me.external, i)} then AliasCheck(Preparation(me.external, i)) else Failed
    case AliasCheck(alias) =>
      if ExactPair(s, alias, Prepared) && Reads(s, alias, 2, me.external) then AliasUnlink(alias) else Failed
    case AliasUnlink(_) => AliasVerify
    case _ => if Reads(s, Prepared, 1, me.external) then LinkTarget else Failed
  }

  /** Where `selectExactPreparation`, `writePrivatePreparation` and their caller go next. */
  function AfterPreparation(s: Store, me: Importer, size: nat, pick: Name): Pc
    requires CanAct(s, me, size, pick)
  {
    match me.pc
    case List => Inspect(PreparationsIn(s), None)
    case Inspect(remaining, selected) =>
      if remaining == {} then if selected.Some? then CheckPreparation(selected.value) else Create
      else if !pick.Preparation? || pick.descriptor != me.external then Failed
      else if !Bound(s, pick) then Inspect(remaining - {pick}, selected)
      else if s.inodes[s.names[pick]].links != 1 then Failed
      else if !s.inodes[s.names[pick]].Complete() then Inspect(remaining - {pick}, selected)
      else Inspect(remaining - {pick}, if selected.Some? then selected else Some(pick))
    case Create => Write(Preparation(me.external, s.unused))
    case Write(n) =>
      if s.inodes[n.uuid].written + size == s.inodes[n.uuid].descriptor.Size() then CheckPreparation(n) else Write(n)
    case CheckPreparation(n) => if Reads(s, n, 1, me.external) then LinkPrepared(n) else Failed
    case LinkPrepared(n) =>
      if !Bound(s, n) then Failed else if Prepared in s.names then PreparedCount else PairCheck(n)
    case PairCheck(n) =>
      if ExactPair(s, n, Prepared) && Reads(s, Prepared, 2, me.external) then UnlinkPreparation(n) else Failed
    case UnlinkPreparation(n) => VerifyPrepared
    case _ => if Reads(s, Prepared, 1, me.external) then LinkTarget else Failed
  }

  datatype Phase = Publishing | Reconciling | Preparing | Outer

  function PhaseOf(pc: Pc): Phase {
    match pc
    case PublishedStat | PublishedAlias | PublishedCheck | PublishedUnlink | PublishedVerify => Publishing
    case PreparedStat | PreparedCount | PreparedRead | PreparedTarget(_) | PreparedAliases(_) | AliasCheck(_)
         | AliasUnlink(_) | AliasVerify => Reconciling
    case Start | LinkTarget | TargetCheck | Done | Failed => Outer
    case _ => Preparing
  }

  /** Where `importRecoveryAuthorityDescriptor` itself goes next. */
  function AfterOuter(s: Store, me: Importer): Pc {
    match me.pc
    case Start => if Bound(s, Target) then PublishedStat else PreparedStat
    case LinkTarget =>
      if !Bound(s, Prepared) then Failed else if Target in s.names then PublishedStat else TargetCheck
    case _ => if ExactPair(s, Prepared, Target) && Reads(s, Target, 2, me.external) then PublishedStat else Failed
  }

  function NextPc(s: Store, me: Importer, size: nat, pick: Name): Pc
    requires CanAct(s, me, size, pick)
  {
    match PhaseOf(me.pc)
    case Publishing => AfterPublished(s, me)
    case Reconciling => AfterPrepared(s, me)
    case Preparing => AfterPreparation(s, me, size, pick)
    case Outer => AfterOuter(s, me)
  }

  predicate Enabled(s: State, a: Action) {
    match a
    case Spawn(p, _) => p !in s.importers
    case Crash(p) => p in s.importers
    case Act(p, size, pick) => p in s.importers && CanAct(s.store, s.importers[p], size, pick)
  }

  function Step(s: State, a: Action): State
    requires Enabled(s, a)
  {
    match a
    case Spawn(p, external) => s.(importers := s.importers[p := Importer(external, Start)])
    case Crash(p) => s.(importers := s.importers[p := s.importers[p].(pc := Failed)])
    case Act(p, size, pick) =>
      var me := s.importers[p];
      State(Effect(s.store, me, size), s.importers[p := me.(pc := NextPc(s.store, me, size, pick))])
  }

  // ----- the invariant

  function One(b: bool): nat { if b then 1 else 0 }

  function Home(s: Store, i: nat): Name
    requires i in s.inodes
  {
    Preparation(s.inodes[i].descriptor, i)
  }

  predicate NameOk(s: Store, n: Name)
    requires n in s.names
  {
    var i := s.names[n];
    && i in s.inodes && i < s.unused
    && match n
       case Preparation(d, uuid) => i == uuid && s.inodes[i].descriptor == d
       case Prepared => s.inodes[i].Complete()
       case Target => s.inodes[i].Complete() && Home(s, i) !in s.names
  }

  /** The link count is the number of names, which can only be the inode's own preparation name,
      the prepared name and the target. */
  predicate InodeOk(s: Store, i: nat)
    requires i in s.inodes
  {
    && i < s.unused
    && s.inodes[i].written <= s.inodes[i].descriptor.Size()
    && s.inodes[i].links == One(Home(s, i) in s.names) + One(At(s, Prepared, i)) + One(At(s, Target, i))
  }

  ghost predicate DirectoryOk(s: Store) {
    (forall n :: n in s.names ==> NameOk(s, n)) && (forall i :: i in s.inodes ==> InodeOk(s, i))
  }

  predicate OwnPreparation(s: Store, importer: Importer, n: Name) {
    n.Preparation? && n.descriptor == importer.external && n.uuid in s.inodes
    && s.inodes[n.uuid].descriptor == n.descriptor
  }

  /** What holds of an importer that has got as far as its program counter says. */
  ghost predicate ImporterOk(s: Store, importer: Importer) {
    match importer.pc
    case PublishedStat | PublishedAlias | PublishedCheck | PublishedUnlink | PublishedVerify | TargetCheck =>
      Target in s.names
    case Inspect(remaining, selected) =>
      selected.Some? ==> OwnPreparation(s, importer, selected.value)
    case Write(n) => OwnPreparation(s, importer, n)
    case CheckPreparation(n) => OwnPreparation(s, importer, n)
    case LinkPrepared(n) => OwnPreparation(s, importer, n) && s.inodes[n.uuid].Complete()
    case PairCheck(n) => OwnPreparation(s, importer, n)
    case UnlinkPreparation(n) => OwnPreparation(s, importer, n)
    case AliasCheck(n) => n.Preparation?
    case AliasUnlink(n) => n.Preparation?
    case LinkTarget =>
      Target in s.names
      || (Prepared in s.names && s.names[Prepared] in s.inodes && Home(s, s.names[Prepared]) !in s.names)
    case Done =>
      Target in s.names && s.names[Target] in s.inodes && s.inodes[s.names[Target]].descriptor == importer.external
    case _ => true
  }

  ghost predicate Inv(s: State) {
    DirectoryOk(s.store) && forall p :: p in s.importers ==> ImporterOk(s.store, s.importers[p])
  }
}
