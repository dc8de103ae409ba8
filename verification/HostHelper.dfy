/** The access lease of the host helper: a journal file, a device node whose ACL and
    identity others can change, and the operations that grant, restore and reconcile. */
module HostHelper {
  import opened Outcomes
  import opened AclText
  import opened AclGrant

  // ---------------------------------------------------------------- data

  datatype Identity = Identity(dev: nat, ino: nat, rdev: nat, owner: nat, group: nat)

  datatype Field = Dev | Ino | Rdev | Owner | GroupOwner

  datatype Device = Device(identity: Identity, acl: Acl)

  datatype Phase = Preparing | Prepared | Granted | Reconciling | UnknownPhase

  /** The journal's JSON object. A key that may be absent is an Option. The original and
      expected texts stand for the ACLs they print: AclText.SameTextSameAcl shows that the
      helper's text comparisons decide equality of ACLs. */
  datatype Lease = Lease(
    version: int, uid: nat, phase: Phase, identity: Option<Identity>, original: Option<Acl>,
    expected: Option<Acl>, moduleLoadRequested: bool, repairIdentity: Option<Identity>)

  datatype Action = Status | GrantLease | Restore | RecoverPolicy

  datatype Failure =
    | Interrupted             // an operation raised, or the process died there
    | LeaseRejected
    | NeedsReview             // an unfinished or changed lease
    | ChangedDuringPreparation
    | VerificationFailed
    | RecoveryRequired
    | IdentityChanged
    | AclChanged
    | NotFirstRegistration
    | NotGroupRace
    | RecoveryMismatch

  datatype Reply =
    | Report(active: bool, phase: Option<Phase>, seen: Option<Observation>)
    | AlreadyGranted
    | NewlyGranted(moduleLoadRequested: bool)
    | AlreadyRestored
    | Restored
    | NothingToRecover
    | Reconciled

  datatype Observation =
    Observation(changed: set<Field>, matchesOriginal: bool, matchesGrant: bool)

  function ChangedFields(now: Identity, leased: Identity): set<Field> {
    (if now.dev != leased.dev then {Dev} else {})
    + (if now.ino != leased.ino then {Ino} else {})
    + (if now.rdev != leased.rdev then {Rdev} else {})
    + (if now.owner != leased.owner then {Owner} else {})
    + (if now.group != leased.group then {GroupOwner} else {})
  }

  /** Every component but the group is the leased one. */
  predicate OnlyGroupChanged(now: Identity, leased: Identity) {
    now.group != leased.group && now == leased.(group := now.group)
  }

  lemma ChangedFieldsMeaning(now: Identity, leased: Identity)
    ensures var changed := ChangedFields(now, leased);
            && (Dev in changed <==> now.dev != leased.dev)
            && (Ino in changed <==> now.ino != leased.ino)
            && (Rdev in changed <==> now.rdev != leased.rdev)
            && (Owner in changed <==> now.owner != leased.owner)
            && (GroupOwner in changed <==> now.group != leased.group)
    ensures ChangedFields(now, leased) == {} <==> now == leased
    ensures ChangedFields(now, leased) == {GroupOwner} <==>
              now.group != leased.group && now == leased.(group := now.group)
  {
    var changed := ChangedFields(now, leased);
    assert changed == {} || changed == {GroupOwner} ==>
             Dev !in changed && Ino !in changed && Rdev !in changed && Owner !in changed;
  }

  function FreshLease(uid: nat): Lease {
    Lease(1, uid, Preparing, None, None, None, false, None)
  }

  function PreparedLease(uid: nat, identity: Identity, original: Acl, expected: Acl,
                         loaded: bool): Lease {
    Lease(1, uid, Prepared, Some(identity), Some(original), Some(expected), loaded, None)
  }

  /** validate_lease: a journal that does not satisfy this makes every action fail. */
  predicate Accepted(lease: Lease, uid: nat) {
    && lease.version == 1
    && lease.uid == uid
    && !lease.phase.UnknownPhase?
    && (!lease.phase.Preparing? ==>
          && lease.identity.Some?
          && lease.original.Some?
          && lease.expected.Some?
          && Grant(lease.original.value, uid) == lease.expected.value)
  }

  /** The journal does not make an action fail. */
  predicate Usable(journal: Option<Lease>, uid: nat) {
    journal.Some? ==> Accepted(journal.value, uid)
  }

  predicate PastPreparing(journal: Option<Lease>) {
    journal.Some? && !journal.value.phase.Preparing?
  }

  function SimpleKeys(): set<Key> { {OWNER, OWNING_GROUP, OTHERS} }

  // ---------------------------------------------------------------- history

  datatype Operation =
    | ReadIdentity(identity: Identity)
    | ReadAcl(found: Acl)
    | WriteAcl(written: Acl)
    | Prepare
    | RefreshPolicy
    | Save(lease: Lease)
    | Clear

  /** An operation that took effect, and the journal at that moment. */
  datatype Event = Event(operation: Operation, journal: Option<Lease>)

  function JournalAfter(event: Event): Option<Lease> {
    match event.operation
    case Save(lease) => Some(lease)
    case Clear => None
    case _ => event.journal
  }

  /** The last two operations read this identity and then this ACL. */
  predicate JustRead(log: seq<Event>, identity: Identity, acl: Acl) {
    && |log| >= 2
    && log[|log| - 2].operation == ReadIdentity(identity)
    && log[|log| - 1].operation == ReadAcl(acl)
  }

  predicate JustReadLeased(log: seq<Event>, identity: Option<Identity>, acl: Option<Acl>) {
    identity.Some? && acl.Some? && JustRead(log, identity.value, acl.value)
  }

  /** The two reads may be separated from the present by one journal save. */
  predicate LatestReadLeased(log: seq<Event>, identity: Option<Identity>, acl: Option<Acl>) {
    || JustReadLeased(log, identity, acl)
    || (&& |log| >= 1 && log[|log| - 1].operation.Save?
        && JustReadLeased(log[..|log| - 1], identity, acl))
  }

  predicate SaveAllowed(log: seq<Event>, before: Option<Lease>, lease: Lease) {
    match before
    case None => lease == FreshLease(lease.uid)
    case Some(old') =>
      && lease.uid == old'.uid
      && match lease.phase
         case Prepared =>
           && old'.phase.Preparing?
           && JustReadLeased(log, lease.identity, lease.original)
           && lease.expected.Some?
           && Grant(lease.original.value, lease.uid) == lease.expected.value
         case Granted =>
           && old'.phase.Prepared?
           && lease == old'.(phase := Granted)
           && JustReadLeased(log, lease.identity, lease.expected)
         case Reconciling =>
           && old'.phase.Prepared?
           && lease == old'.(phase := Reconciling, repairIdentity := lease.repairIdentity)
           && JustReadLeased(log, lease.repairIdentity, lease.expected)
           && old'.identity.Some?
           && OnlyGroupChanged(lease.repairIdentity.value, old'.identity.value)
         case _ => false
  }

  predicate WriteAllowed(log: seq<Event>, lease: Lease, acl: Acl) {
    match lease.phase
    case Prepared =>
      || (Some(acl) == lease.expected && JustReadLeased(log, lease.identity, lease.original))
      || (Some(acl) == lease.original && JustReadLeased(log, lease.identity, lease.expected))
    case Granted =>
      Some(acl) == lease.original && JustReadLeased(log, lease.identity, lease.expected)
    case Reconciling =>
      Some(acl) == lease.original && LatestReadLeased(log, lease.repairIdentity, lease.expected)
    case _ => false
  }

  predicate ClearAllowed(log: seq<Event>, lease: Lease) {
    match lease.phase
    case Preparing => true
    case Prepared => JustReadLeased(log, lease.identity, lease.original)
    case Granted => JustReadLeased(log, lease.identity, lease.original)
    case Reconciling =>
      && |log| >= 2
      && lease.repairIdentity.Some?
      && log[|log| - 2].operation == RefreshPolicy
      && log[|log| - 1].operation == ReadIdentity(lease.repairIdentity.value)
    case UnknownPhase => false
  }

  /** The journal as the history leaves it. */
  predicate JournalIs(log: seq<Event>, journal: Option<Lease>) {
    log != [] ==> journal == JournalAfter(log[|log| - 1])
  }

  /** What the history must look like for the event to happen next. Only saving and clearing
      change the journal. */
  predicate Allowed(log: seq<Event>, event: Event) {
    && JournalIs(log, event.journal)
    && match event.operation
       case Save(lease) => SaveAllowed(log, event.journal, lease)
       case WriteAcl(acl) => event.journal.Some? && WriteAllowed(log, event.journal.value, acl)
       case Clear => event.journal.Some? && ClearAllowed(log, event.journal.value)
       case RefreshPolicy =>
         && event.journal.Some?
         && event.journal.value.phase.Reconciling?
         && JustReadLeased(log, event.journal.value.repairIdentity, event.journal.value.original)
       case _ => true
  }

  predicate Disciplined(log: seq<Event>) {
    forall i {:trigger Allowed(log[..i], log[i])} | 0 <= i < |log| :: Allowed(log[..i], log[i])
  }

  lemma DisciplinedAppend(log: seq<Event>, event: Event)
    requires Disciplined(log) && Allowed(log, event)
    ensures Disciplined(log + [event])
  {
    var longer := log + [event];
    forall i | 0 <= i < |longer| ensures Allowed(longer[..i], longer[i]) {
      if i < |log| {
        assert longer[..i] == log[..i];
        assert Allowed(log[..i], log[i]);
      } else {
        assert longer[..i] == log;
      }
    }
  }

  // ---------------------------------------------------------------- crash safety

  /** The device can be brought back to the base ACL: it has that ACL, or a journal names it
      as the original and the current ACL as the grant. */
  predicate Safe(journal: Option<Lease>, device: Device, base: Acl, node: Identity, uid: nat) {
    && device.identity == node
    && match journal
       case None => device.acl == base
       case Some(lease) =>
         && Accepted(lease, uid)
         && match lease.phase
            case Preparing => device.acl == base
            case Reconciling => false
            case _ =>
              && lease.identity == Some(node)
              && lease.original == Some(base)
              && lease.expected == Some(Grant(base, uid))
              && (device.acl == base || device.acl == Grant(base, uid))
  }

  /** Nothing happened since but reads of the node. */
  predicate OnlyReads(before: seq<Event>, after: seq<Event>) {
    && before <= after
    && forall i | |before| <= i < |after| ::
         after[i].operation.ReadIdentity? || after[i].operation.ReadAcl?
  }

  // ---------------------------------------------------------------- when an action succeeds

  predicate GrantAdmissible(journal: Option<Lease>, device: Device) {
    match journal
    case None => true
    case Some(lease) =>
      && lease.phase.Granted?
      && lease.identity == Some(device.identity)
      && lease.expected == Some(device.acl)
  }

  predicate RestoreAdmissible(journal: Option<Lease>, device: Device) {
    match journal
    case None => true
    case Some(lease) =>
      || lease.phase.Preparing?
      || (&& (lease.phase.Prepared? || lease.phase.Granted?)
          && lease.identity == Some(device.identity)
          && (lease.original == Some(device.acl) || lease.expected == Some(device.acl)))
  }

  /** The node has its leased identity but for the group, and carries the grant. */
  predicate GroupRace(lease: Lease, device: Device) {
    && lease.phase.Prepared?
    && lease.identity.Some?
    && OnlyGroupChanged(device.identity, lease.identity.value)
    && lease.expected == Some(device.acl)
  }

  predicate RecoveryAdmissible(journal: Option<Lease>, device: Device) {
    match journal
    case None => true
    case Some(lease) =>
      && lease.original.Some?
      && lease.original.value.Keys == SimpleKeys()
      && lease.moduleLoadRequested
      && (|| GroupRace(lease, device)
          || (&& lease.phase.Reconciling?
              && lease.repairIdentity == Some(device.identity)
              && (lease.original == Some(device.acl) || lease.expected == Some(device.acl))))
  }

  // ---------------------------------------------------------------- what an action answers

  /** The reply of an action that succeeds on this journal, whatever happened to the node. */
  predicate ReplyFits(action: Action, journal: Option<Lease>, reply: Reply, missing: bool) {
    match action
    case Status =>
      && reply.Report? && reply.active == journal.Some?
      && reply.phase == if journal.Some? then Some(journal.value.phase) else None
    case GrantLease => reply == if journal.Some? then AlreadyGranted else NewlyGranted(missing)
    case Restore => reply == if journal.Some? then Restored else AlreadyRestored
    case RecoverPolicy => reply == if journal.Some? then Reconciled else NothingToRecover
  }

  /** A report names the fields that differ now and compares the ACL with both of the lease. */
  predicate Sees(lease: Lease, device: Device, seen: Observation)
    requires lease.identity.Some?
  {
    && seen.changed == ChangedFields(device.identity, lease.identity.value)
    && seen.matchesOriginal == (lease.original == Some(device.acl))
    && seen.matchesGrant == (lease.expected == Some(device.acl))
  }

  /** A grant on no lease journals the loaded node's baseline and grants on it; a grant on a
      lease only checks it. */
  predicate GrantCompletes(journal: Option<Lease>, device: Device, loaded: Device, missing: bool,
                           uid: nat, r: Result<Reply, Failure>, after: Option<Lease>, left: Device) {
    && (r.Ok? <==> GrantAdmissible(journal, device))
    && if journal.Some? then
         after == journal && left == device && (r.Err? ==> r.error == NeedsReview)
       else
         && left == loaded.(acl := Grant(loaded.acl, uid))
         && after == Some(PreparedLease(uid, loaded.identity, loaded.acl, left.acl, missing)
                            .(phase := Granted))
  }

  /** A restore succeeds exactly on the leased node, with the baseline or the grant, and leaves
      the baseline and no journal; otherwise it touches nothing. */
  predicate RestoreCompletes(journal: Option<Lease>, device: Device,
                             r: Result<Reply, Failure>, after: Option<Lease>, left: Device)
    requires PastPreparing(journal) ==> journal.value.original.Some?
  {
    && (r.Ok? <==> RestoreAdmissible(journal, device))
    && if r.Err? then after == journal && left == device
       else
         && after.None?
         && left == if PastPreparing(journal) then device.(acl := journal.value.original.value)
                    else device
  }

  /** A repair reapplies the policy to the node with its baseline exactly when it is admissible,
      and clears the journal exactly when the policy keeps the identity. */
  predicate RecoveryCompletes(journal: Option<Lease>, device: Device, policy: Device -> Device,
                              r: Result<Reply, Failure>, after: Option<Lease>, left: Device) {
    if journal.None? then r.Ok? && after.None? && left == device
    else if !RecoveryAdmissible(journal, device) then r.Err? && after == journal && left == device
    else
      && left == policy(device.(acl := journal.value.original.value))
      && (r.Ok? <==> left.identity == device.identity)
      && after == if r.Ok? then None else Some(Entered(journal.value, device.identity))
  }

  // ---------------------------------------------------------------- the udev race

  /** A first-registration lease whose node changed its group after the grant, or whose
      repair was begun, with an ACL that the repair accepts. */
  predicate Racing(journal: Option<Lease>, device: Device, base: Acl, node: Identity, uid: nat) {
    && device.identity == node
    && journal.Some?
    && var lease := journal.value;
       && Accepted(lease, uid)
       && lease.original == Some(base)
       && lease.expected == Some(Grant(base, uid))
       && base.Keys == SimpleKeys()
       && lease.moduleLoadRequested
       && (|| GroupRace(lease, device)
           || (&& lease.phase.Reconciling?
               && lease.repairIdentity == Some(node)
               && (device.acl == base || device.acl == Grant(base, uid))))
  }

  /** The repair reapplied the udev policy but did not clear the journal. */
  predicate PolicyPending(journal: Option<Lease>, base: Acl, node: Identity, uid: nat) {
    && journal.Some?
    && Accepted(journal.value, uid)
    && journal.value.phase.Reconciling?
    && journal.value.repairIdentity == Some(node)
    && journal.value.original == Some(base)
    && journal.value.expected == Some(Grant(base, uid))
    && base.Keys == SimpleKeys()
    && journal.value.moduleLoadRequested
  }

  function Entered(lease: Lease, identity: Identity): Lease {
    lease.(phase := Reconciling, repairIdentity := Some(identity))
  }

  lemma EnteredIsPending(lease: Lease, device: Device, base: Acl, node: Identity, uid: nat)
    requires Racing(Some(lease), device, base, node, uid)
    ensures PolicyPending(Some(Entered(lease, node)), base, node, uid)
  {
  }

  /** How an interrupted repair of a racing lease can end. */
  predicate RepairOutcome(journal: Option<Lease>, device: Device, base: Acl, node: Identity,
                          uid: nat, repaired: Device) {
    || Racing(journal, device, base, node, uid)
    || (journal.None? && device == repaired)
    || (PolicyPending(journal, base, node, uid) && device == repaired)
  }

  /** The ACL of a private node, and one that gives the owning group access. */
  const PRIVATE: Acl :=
    map[OWNER := Perms(true, true, false), OWNING_GROUP := NOTHING, OTHERS := NOTHING]
  const SHARED: Acl := PRIVATE[OWNING_GROUP := Perms(true, true, false)]

  lemma PrivateAndShared(uid: nat)
    ensures PRIVATE.Keys == SHARED.Keys == SimpleKeys()
    ensures PRIVATE != Grant(PRIVATE, uid) && SHARED != PRIVATE && SHARED != Grant(PRIVATE, uid)
  {
    assert SHARED[OWNING_GROUP] != PRIVATE[OWNING_GROUP];
    assert MASK in Grant(PRIVATE, uid) && MASK !in SHARED && MASK !in PRIVATE;
  }

  // ---------------------------------------------------------------- write-ahead

  predicate SameBaseline(saved: Lease, lease: Lease) {
    && saved.phase.Prepared?
    && saved.identity == lease.identity
    && saved.original == lease.original
    && saved.expected == lease.expected
    && saved.uid == lease.uid
  }

  /** Event j journaled the baseline of the lease: the node's ACL as just read under the
      leased identity, and its grant; the journal was not cleared from then until event i. */
  ghost predicate Baseline(log: seq<Event>, j: nat, i: nat, lease: Lease) {
    && j < i <= |log|
    && log[j].operation.Save?
    && SameBaseline(log[j].operation.lease, lease)
    && JustReadLeased(log[..j], lease.identity, lease.original)
    && lease.expected == Some(Grant(lease.original.value, lease.uid))
    && forall k | j < k < i :: !log[k].operation.Clear?
  }

  lemma {:induction false} LeaseHasBaseline(log: seq<Event>, i: nat)
    requires Disciplined(log) && i < |log| && log[0].journal.None?
    requires log[i].journal.Some?
    requires !log[i].journal.value.phase.Preparing? && !log[i].journal.value.phase.UnknownPhase?
    ensures exists j :: Baseline(log, j, i, log[i].journal.value)
  {
    assert Allowed(log[..i], log[i]);
    var lease, before := log[i].journal.value, log[i - 1];
    assert log[..i][|log[..i]| - 1] == before;
    assert Allowed(log[..i - 1], before);
    if before.operation.Save? && lease.phase.Prepared? {
      assert Baseline(log, i - 1, i, lease);
    } else {
      LeaseHasBaseline(log, i - 1);
      var j :| Baseline(log, j, i - 1, before.journal.value);
      assert Baseline(log, j, i, lease);
    }
  }

  /** Write-ahead: before any ACL is written, the journal durably holds the ACL that the node
      had under the leased identity, and what is written is that ACL or its grant. */
  lemma WriteAhead(log: seq<Event>, i: nat)
    requires Disciplined(log) && i < |log| && log[0].journal.None?
    requires log[i].operation.WriteAcl?
    ensures log[i].journal.Some?
    ensures var lease := log[i].journal.value;
            && (exists j :: Baseline(log, j, i, lease))
            && (|| Some(log[i].operation.written) == lease.original
                || Some(log[i].operation.written) == lease.expected)
  {
    assert Allowed(log[..i], log[i]);
    LeaseHasBaseline(log, i);
  }

  // ---------------------------------------------------------------- the journal and the node

  datatype Fault = NoFault | RaisesBefore | RaisesAfter

  /** The state outside the helper's process, with every operation the helper performs on
      it. Just before operation n the node changes from d to outside(n, d), whatever others
      do; operation n raises before or after taking effect when faults(n) says so. Nothing
      in the helper handles such an error except the read-only status report, so a process
      that dies between two operations leaves the same state as one of these faults. */
  class Host {
    var journal: Option<Lease>
    var device: Device
    var operations: nat
    ghost var log: seq<Event>
    const outside: (nat, Device) -> Device
    const faults: nat -> Fault
    const moduleMissing: nat -> bool
    const udevPolicy: Device -> Device
    const registered: Device -> Device
    /** The node before the helper touched its ACL: as it was found, or as the last module load
        registered it. */
    ghost var untouched: Device

    /** The history tells how the journal came to be what it is. */
    ghost predicate Recorded()
      reads this
    {
      JournalIs(log, journal)
    }

    /** Nobody but the helper changes the node. */
    ghost predicate Undisturbed() { forall n, d :: outside(n, d) == d }

    /** From now on nothing fails, either. */
    ghost predicate Calm()
      reads this`operations
    {
      Undisturbed() && forall n | n >= operations :: faults(n).NoFault?
    }

    /** The next operations do not fail. */
    ghost predicate Quiet(count: nat)
      reads this`operations
    {
      Undisturbed() && forall n | operations <= n < operations + count :: faults(n).NoFault?
    }

    ghost predicate CrashSafe(uid: nat)
      reads this
    {
      Safe(journal, device, untouched.acl, untouched.identity, uid)
    }

    /** The node after the module was asked for at operation n. */
    ghost function Loaded(d: Device, n: nat): Device {
      if moduleMissing(n) then registered(d) else d
    }

    constructor (journal: Option<Lease>, device: Device, outside: (nat, Device) -> Device,
                 faults: nat -> Fault, moduleMissing: nat -> bool, registered: Device -> Device,
                 udevPolicy: Device -> Device)
      ensures this.journal == journal && log == [] && operations == 0 && Recorded()
      ensures this.device == untouched == device
      ensures this.outside == outside && this.faults == faults && this.udevPolicy == udevPolicy
      ensures this.moduleMissing == moduleMissing && this.registered == registered
    {
      this.journal, this.device, this.operations, this.log := journal, device, 0, [];
      this.outside, this.faults, this.udevPolicy := outside, faults, udevPolicy;
      this.moduleMissing, this.registered, this.untouched := moduleMissing, registered, device;
    }

    method Begin() returns (fault: Fault)
      modifies this`device, this`operations
      ensures device == outside(old(operations), old(device))
      ensures fault == faults(old(operations)) && operations == old(operations) + 1
    {
      fault := faults(operations);
      device := outside(operations, device);
      operations := operations + 1;
    }

    ghost method Record(operation: Operation)
      requires JournalIs(log, journal)
      modifies this`log
      ensures log == old(log) + [Event(operation, journal)]
      ensures Disciplined(old(log)) && Allowed(old(log), Event(operation, journal)) ==> Disciplined(log)
    {
      var event := Event(operation, journal);
      if Disciplined(log) && Allowed(log, event) {
        DisciplinedAppend(log, event);
      }
      log := log + [event];
    }

    method ReadIdentity() returns (r: Result<Identity, Failure>)
      requires Recorded()
      modifies this`device, this`operations, this`log
      ensures Recorded() && operations == old(operations) + 1
      ensures device == outside(old(operations), old(device))
      ensures r == if faults(old(operations)).NoFault? then Ok(device.identity) else Err(Interrupted)
      ensures log == old(log) + if r.Ok? then [Event(Operation.ReadIdentity(device.identity), journal)] else []
      ensures Disciplined(old(log)) ==> Disciplined(log)
    {
      var fault := Begin();
      if !fault.NoFault? {
        return Err(Interrupted);
      }
      Record(Operation.ReadIdentity(device.identity));
      return Ok(device.identity);
    }

    method ReadAcl() returns (r: Result<Acl, Failure>)
      requires Recorded()
      modifies this`device, this`operations, this`log
      ensures Recorded() && operations == old(operations) + 1
      ensures device == outside(old(operations), old(device))
      ensures r == if faults(old(operations)).NoFault? then Ok(device.acl) else Err(Interrupted)
      ensures log == old(log) + if r.Ok? then [Event(Operation.ReadAcl(device.acl), journal)] else []
      ensures Disciplined(old(log)) ==> Disciplined(log)
    {
      var fault := Begin();
      if !fault.NoFault? {
        return Err(Interrupted);
      }
      Record(Operation.ReadAcl(device.acl));
      return Ok(device.acl);
    }

    /** setfacl replaces the whole ACL by the entries of the given text. */
    method SetAcl(acl: Acl) returns (r: Result<(), Failure>)
      requires Recorded()
      modifies this`device, this`operations, this`log
      ensures Recorded() && operations == old(operations) + 1
      ensures r.Ok? <==> faults(old(operations)).NoFault?
      ensures r.Err? ==> r.error == Interrupted
      ensures var found := outside(old(operations), old(device));
              if faults(old(operations)).RaisesBefore? then device == found && log == old(log)
              else
                && device == found.(acl := acl)
                && log == old(log) + [Event(WriteAcl(acl), journal)]
      ensures Disciplined(old(log)) && Allowed(old(log), Event(WriteAcl(acl), journal)) ==>
              Disciplined(log)
    {
      var fault := Begin();
      if fault.RaisesBefore? {
        return Err(Interrupted);
      }
      device := device.(acl := acl);
      Record(WriteAcl(acl));
      return if fault.NoFault? then Ok(()) else Err(Interrupted);
    }

    /** Load the module unless its device is registered; loading registers the node. */
    method PrepareModule() returns (r: Result<bool, Failure>)
      requires Recorded()
      modifies this`device, this`operations, this`log, this`untouched
      ensures Recorded() && operations == old(operations) + 1
      ensures r.Ok? <==> faults(old(operations)).NoFault?
      ensures r.Ok? ==> r.value == moduleMissing(old(operations))
      ensures r.Err? ==> r.error == Interrupted
      ensures var found := outside(old(operations), old(device));
              if faults(old(operations)).RaisesBefore? then
                device == found && log == old(log) && untouched == old(untouched)
              else
                && device == Loaded(found, old(operations))
                && untouched == (if moduleMissing(old(operations)) then device else old(untouched))
                && log == old(log) + [Event(Prepare, journal)]
      ensures Disciplined(old(log)) ==> Disciplined(log)
    {
      var missing := moduleMissing(operations);
      var fault := Begin();
      if fault.RaisesBefore? {
        return Err(Interrupted);
      }
      if missing {
        device := registered(device);
        untouched := device;
      }
      Record(Prepare);
      return if fault.NoFault? then Ok(missing) else Err(Interrupted);
    }

    /** udev applies the host's own policy to the node again. */
    method RefreshPolicies() returns (r: Result<(), Failure>)
      requires Recorded()
      modifies this`device, this`operations, this`log
      ensures Recorded() && operations == old(operations) + 1
      ensures r.Ok? <==> faults(old(operations)).NoFault?
      ensures r.Err? ==> r.error == Interrupted
      ensures var found := outside(old(operations), old(device));
              if faults(old(operations)).RaisesBefore? then device == found && log == old(log)
              else device == udevPolicy(found) && log == old(log) + [Event(RefreshPolicy, journal)]
      ensures Disciplined(old(log)) && Allowed(old(log), Event(RefreshPolicy, journal)) ==>
              Disciplined(log)
    {
      var fault := Begin();
      if fault.RaisesBefore? {
        return Err(Interrupted);
      }
      device := udevPolicy(device);
      Record(RefreshPolicy);
      return if fault.NoFault? then Ok(()) else Err(Interrupted);
    }

    /** A save that fails leaves the old lease or the new one, which is what JournalFile.Directory.Save
        shows of the steps it is made of. */
    method SaveLease(lease: Lease) returns (r: Result<(), Failure>)
      requires Recorded()
      modifies this`journal, this`device, this`operations, this`log
      ensures Recorded() && operations == old(operations) + 1
      ensures device == outside(old(operations), old(device))
      ensures r.Ok? <==> faults(old(operations)).NoFault?
      ensures r.Err? ==> r.error == Interrupted
      ensures if faults(old(operations)).RaisesBefore?
              then journal == old(journal) && log == old(log)
              else journal == Some(lease) && log == old(log) + [Event(Save(lease), old(journal))]
      ensures Disciplined(old(log)) && Allowed(old(log), Event(Save(lease), old(journal))) ==>
              Disciplined(log)
    {
      var fault := Begin();
      if fault.RaisesBefore? {
        return Err(Interrupted);
      }
      Record(Save(lease));
      journal := Some(lease);
      return if fault.NoFault? then Ok(()) else Err(Interrupted);
    }

    method ClearLease() returns (r: Result<(), Failure>)
      requires Recorded()
      modifies this`journal, this`device, this`operations, this`log
      ensures Recorded() && operations == old(operations) + 1
      ensures device == outside(old(operations), old(device))
      ensures r.Ok? <==> faults(old(operations)).NoFault?
      ensures r.Err? ==> r.error == Interrupted
      ensures if faults(old(operations)).RaisesBefore?
              then journal == old(journal) && log == old(log)
              else journal == None && log == old(log) + [Event(Clear, old(journal))]
      ensures Disciplined(old(log)) && Allowed(old(log), Event(Clear, old(journal))) ==>
              Disciplined(log)
    {
      var fault := Begin();
      if fault.RaisesBefore? {
        return Err(Interrupted);
      }
      Record(Clear);
      journal := None;
      return if fault.NoFault? then Ok(()) else Err(Interrupted);
    }

    // -------------------------------------------------------------- the actions

    /** The check made before and after every ACL write: the identity first, and the ACL
        only when the identity agrees. */
    method Matches(identity: Identity, acl: Acl) returns (r: Result<bool, Failure>)
      requires Recorded()
      modifies this`device, this`operations, this`log
      ensures Recorded() && (Disciplined(old(log)) ==> Disciplined(log))
      ensures r == Ok(true) ==> JustRead(log, identity, acl)
      ensures r.Err? ==> r.error == Interrupted
      ensures OnlyReads(old(log), log)
      ensures Undisturbed() ==> device == old(device)
      ensures Undisturbed() && r.Ok? ==>
              (r.value <==> device.identity == identity && device.acl == acl)
      ensures old(Calm()) ==> r.Ok? && Calm()
      ensures old(Quiet(2)) ==> r.Ok?
      ensures r == Ok(true) ==> operations == old(operations) + 2
    {
      var found := ReadIdentity();
      if found.Err? {
        return Err(Interrupted);
      }
      if found.value != identity {
        return Ok(false);
      }
      var current := ReadAcl();
      if current.Err? {
        return Err(Interrupted);
      }
      return Ok(current.value == acl);
    }

    /** The start of a grant: journal the intent before the module is loaded. */
    method Announce(uid: nat) returns (r: Result<bool, Failure>)
      requires Recorded() && journal.None?
      modifies this
      ensures Recorded() && (Disciplined(old(log)) ==> Disciplined(log))
      ensures Undisturbed() && old(CrashSafe(uid)) ==> CrashSafe(uid)
      ensures untouched == old(untouched)
              || (moduleMissing(old(operations) + 1) && untouched == device)
      ensures r.Ok? ==> journal == Some(FreshLease(uid)) && r.value == moduleMissing(old(operations) + 1)
      ensures r.Err? ==> r.error == Interrupted
      ensures old(Calm()) ==> Calm() && device == Loaded(old(device), old(operations) + 1)
      ensures old(Calm()) ==> r == Ok(moduleMissing(old(operations) + 1))
    {
      assert Allowed(log, Event(Save(FreshLease(uid)), journal));
      var saved := SaveLease(FreshLease(uid));
      if saved.Err? {
        return Err(Interrupted);
      }
      r := PrepareModule();
    }

    /** The middle of a grant: journal the ACL and identity that it starts from. */
    method TakeBaseline(uid: nat, loaded: bool, ghost base: Acl, ghost node: Identity)
      returns (r: Result<Lease, Failure>)
      requires Recorded() && journal == Some(FreshLease(uid))
      modifies this`journal, this`device, this`operations, this`log
      ensures Recorded() && (Disciplined(old(log)) ==> Disciplined(log))
      ensures Undisturbed() && Safe(old(journal), old(device), base, node, uid) ==>
              Safe(journal, device, base, node, uid)
      ensures r.Ok? ==>
              && journal == Some(r.value)
              && Accepted(r.value, uid) && r.value.phase.Prepared? && r.value.uid == uid
              && r.value.moduleLoadRequested == loaded
      ensures r.Err? ==> r.error == Interrupted
      ensures old(Calm()) ==> Calm() && device == old(device)
      ensures old(Calm()) ==>
              r == Ok(PreparedLease(uid, device.identity, device.acl,
                        Grant(device.acl, uid), loaded))
    {
      var identity := ReadIdentity();
      if identity.Err? {
        return Err(Interrupted);
      }
      var original := ReadAcl();
      if original.Err? {
        return Err(Interrupted);
      }
      var expected := Grant(original.value, uid);
      var lease := PreparedLease(uid, identity.value, original.value, expected, loaded);
      assert JustRead(log, identity.value, original.value);
      assert Allowed(log, Event(Save(lease), journal));
      var saved := SaveLease(lease);
      return if saved.Ok? then Ok(lease) else Err(Interrupted);
    }

    /** The end of a grant: check, write, check again, and journal the success. */
    method InstallGrant(lease: Lease, ghost base: Acl, ghost node: Identity)
      returns (r: Result<Reply, Failure>)
      requires Recorded() && journal == Some(lease)
      requires Accepted(lease, lease.uid) && lease.phase.Prepared?
      modifies this`journal, this`device, this`operations, this`log
      ensures Recorded() && (Disciplined(old(log)) ==> Disciplined(log))
      ensures Undisturbed() && Safe(Some(lease), old(device), base, node, lease.uid) ==>
              Safe(journal, device, base, node, lease.uid)
      ensures r.Ok? ==> r.value == NewlyGranted(lease.moduleLoadRequested)
      ensures old(Calm()) && lease.identity == Some(old(device).identity)
                && lease.original == Some(old(device).acl) ==>
              && r.Ok?
              && device.identity == old(device).identity
              && Some(device.acl) == lease.expected
              && journal == Some(lease.(phase := Granted))
    {
      var same := Matches(lease.identity.value, lease.original.value);
      if same.Err? {
        return Err(Interrupted);
      }
      if !same.value {
        return Err(ChangedDuringPreparation);
      }
      assert Allowed(log, Event(WriteAcl(lease.expected.value), journal));
      var written := SetAcl(lease.expected.value);
      if written.Err? {
        return Err(Interrupted);
      }
      same := Matches(lease.identity.value, lease.expected.value);
      if same.Err? {
        return Err(Interrupted);
      }
      if !same.value {
        return Err(VerificationFailed);
      }
      assert Allowed(log, Event(Save(lease.(phase := Granted)), journal));
      var saved := SaveLease(lease.(phase := Granted));
      if saved.Err? {
        return Err(Interrupted);
      }
      return Ok(NewlyGranted(lease.moduleLoadRequested));
    }

    /** A grant on an existing lease only checks that it still holds. */
    method CheckGrant(lease: Lease) returns (r: Result<Reply, Failure>)
      requires Recorded() && journal == Some(lease) && Accepted(lease, lease.uid)
      modifies this`device, this`operations, this`log
      ensures Recorded() && (Disciplined(old(log)) ==> Disciplined(log))
      ensures OnlyReads(old(log), log) && (Undisturbed() ==> device == old(device))
      ensures r.Ok? ==> r.value == AlreadyGranted
      ensures old(Calm()) ==>
                if GrantAdmissible(journal, old(device)) then r.Ok? else r == Err(NeedsReview)
    {
      if lease.phase.Granted? {
        var same := Matches(lease.identity.value, lease.expected.value);
        if same.Err? {
          return Err(Interrupted);
        }
        if same.value {
          return Ok(AlreadyGranted);
        }
      }
      return Err(NeedsReview);
    }

    /** The grant branch of execute. */
    method ExecuteGrant(uid: nat, lease: Option<Lease>) returns (r: Result<Reply, Failure>)
      requires Recorded() && lease == journal
      requires Usable(lease, uid)
      modifies this
      ensures Recorded() && (Disciplined(old(log)) ==> Disciplined(log))
      ensures Undisturbed() && old(CrashSafe(uid)) ==> CrashSafe(uid)
      ensures untouched != old(untouched) ==>
                lease.None? && moduleMissing(old(operations) + 1)
      ensures r.Ok? ==>
                ReplyFits(GrantLease, old(journal), r.value, moduleMissing(old(operations) + 1))
      ensures old(journal).Some? ==> journal == old(journal) && OnlyReads(old(log), log)
      ensures old(Calm()) ==>
                GrantCompletes(old(journal), old(device), Loaded(old(device), old(operations) + 1),
                  moduleMissing(old(operations) + 1), uid, r, journal, device)
    {
      if lease.Some? {
        r := CheckGrant(lease.value);
        return;
      }
      var loaded := Announce(uid);
      if loaded.Err? {
        return Err(Interrupted);
      }
      var baseline := TakeBaseline(uid, loaded.value, untouched.acl, untouched.identity);
      if baseline.Err? {
        return Err(Interrupted);
      }
      r := InstallGrant(baseline.value, untouched.acl, untouched.identity);
    }

    /** The restore branch of execute. */
    method ExecuteRestore(uid: nat, lease: Option<Lease>, ghost base: Acl, ghost node: Identity)
      returns (r: Result<Reply, Failure>)
      requires Recorded() && lease == journal
      requires Usable(lease, uid)
      modifies this`journal, this`device, this`operations, this`log
      ensures Recorded() && (Disciplined(old(log)) ==> Disciplined(log))
      ensures Undisturbed() && Safe(old(journal), old(device), base, node, uid) ==>
              Safe(journal, device, base, node, uid)
      ensures r.Ok? ==> journal.None? && ReplyFits(Restore, old(journal), r.value, false)
      ensures old(Calm()) ==> RestoreCompletes(old(journal), old(device), r, journal, device)
    {
      if lease.None? {
        return Ok(AlreadyRestored);
      }
      if lease.value.phase.Reconciling? {
        return Err(RecoveryRequired);
      }
      if !lease.value.phase.Preparing? {
        var undone := UndoGrant(lease.value, base, node);
        if undone.Err? {
          return Err(undone.error);
        }
      }
      assert Allowed(log, Event(Clear, journal));
      var cleared := ClearLease();
      return if cleared.Ok? then Ok(Restored) else Err(Interrupted);
    }

    /** Read the node and refuse it unless it is the leased one with its baseline or its grant. */
    method ReadLeased(identity: Identity, original: Acl, expected: Acl)
      returns (r: Result<Acl, Failure>)
      requires Recorded()
      modifies this`device, this`operations, this`log
      ensures Recorded() && (Disciplined(old(log)) ==> Disciplined(log))
      ensures r.Ok? ==>
                JustRead(log, identity, r.value) && (r.value == original || r.value == expected)
      ensures Undisturbed() ==> device == old(device)
      ensures Undisturbed() && r.Ok? ==> device.identity == identity && device.acl == r.value
      ensures old(Calm()) ==>
                && Calm()
                && (r.Ok? <==> device.identity == identity
                               && (device.acl == original || device.acl == expected))
    {
      var found := ReadIdentity();
      if found.Err? {
        return Err(Interrupted);
      }
      if found.value != identity {
        return Err(IdentityChanged);
      }
      var current := ReadAcl();
      if current.Err? {
        return Err(Interrupted);
      }
      if current.value != original && current.value != expected {
        return Err(AclChanged);
      }
      r := Ok(current.value);
    }

    /** The body of the restore branch for a lease that recorded its baseline. */
    method UndoGrant(lease: Lease, ghost base: Acl, ghost node: Identity)
      returns (r: Result<(), Failure>)
      requires Recorded() && journal == Some(lease)
      requires Accepted(lease, lease.uid) && (lease.phase.Prepared? || lease.phase.Granted?)
      modifies this`device, this`operations, this`log
      ensures Recorded() && (Disciplined(old(log)) ==> Disciplined(log))
      ensures Undisturbed() && Safe(journal, old(device), base, node, lease.uid) ==>
              Safe(journal, device, base, node, lease.uid) && (r.Ok? ==> device.acl == base)
      ensures r.Ok? ==> JustRead(log, lease.identity.value, lease.original.value)
      ensures old(Calm()) ==> Calm() && (r.Ok? <==> RestoreAdmissible(journal, old(device)))
      ensures old(Calm()) ==>
              device == if r.Ok? then old(device).(acl := lease.original.value) else old(device)
    {
      var current := ReadLeased(lease.identity.value, lease.original.value, lease.expected.value);
      if current.Err? {
        return Err(current.error);
      }
      assert Undisturbed() ==> device == old(device);
      if current.value != lease.original.value {
        assert JustRead(log, lease.identity.value, lease.expected.value);
        assert Allowed(log, Event(WriteAcl(lease.original.value), journal));
        var written := SetAcl(lease.original.value);
        if written.Err? {
          return Err(Interrupted);
        }
      }
      var same := Matches(lease.identity.value, lease.original.value);
      if same.Err? {
        return Err(Interrupted);
      }
      return if same.value then Ok(()) else Err(VerificationFailed);
    }

    /** The identity and then the ACL. */
    method ReadNode() returns (r: Result<(Identity, Acl), Failure>)
      requires Recorded()
      modifies this`device, this`operations, this`log
      ensures Recorded() && (Disciplined(old(log)) ==> Disciplined(log))
      ensures r.Ok? ==> JustRead(log, r.value.0, r.value.1) && operations == old(operations) + 2
      ensures Undisturbed() ==> device == old(device)
      ensures Undisturbed() && r.Ok? ==> r.value == (device.identity, device.acl)
      ensures old(Calm()) ==> r.Ok? && Calm()
      ensures old(Quiet(2)) ==> r.Ok?
    {
      var identity := ReadIdentity();
      if identity.Err? {
        return Err(Interrupted);
      }
      var acl := ReadAcl();
      r := if acl.Ok? then Ok((identity.value, acl.value)) else Err(Interrupted);
    }

    /** A prepared lease becomes a reconciling one, if only the group of its node changed. */
    method EnterRepair(lease: Lease, identity: Identity, current: Acl)
      returns (r: Result<Lease, Failure>)
      requires Recorded() && journal == Some(lease) && Accepted(lease, lease.uid)
      requires JustRead(log, identity, current)
      modifies this`journal, this`device, this`operations, this`log
      ensures Recorded() && (Disciplined(old(log)) ==> Disciplined(log))
      ensures Undisturbed() ==> device == old(device)
      ensures r.Ok? ==> journal == Some(r.value)
      ensures r.Ok? ==> r.value == if lease.phase.Prepared? then Entered(lease, identity) else lease
      ensures r.Ok? ==> LatestReadLeased(log, Some(identity), Some(current))
      ensures r.Ok? && lease.phase.Prepared? ==> GroupRace(lease, Device(identity, current))
      ensures r.Err? ==> lease.phase.Prepared?
      ensures r.Err? ==> journal == Some(lease)
                         || (r.error == Interrupted && journal == Some(Entered(lease, identity))
                             && GroupRace(lease, Device(identity, current)))
      ensures old(Calm()) ==>
              && Calm()
              && (r.Ok? <==> !lease.phase.Prepared? || GroupRace(lease, Device(identity, current)))
              && (r.Err? ==> journal == Some(lease))
      ensures old(Quiet(1)) && GroupRace(lease, Device(identity, current)) ==>
              r.Ok? && operations == old(operations) + 1
    {
      if !lease.phase.Prepared? {
        return Ok(lease);
      }
      ChangedFieldsMeaning(identity, lease.identity.value);
      if ChangedFields(identity, lease.identity.value) != {GroupOwner}
         || current != lease.expected.value {
        return Err(NotGroupRace);
      }
      assert Allowed(log, Event(Save(Entered(lease, identity)), journal));
      var saved := SaveLease(Entered(lease, identity));
      return if saved.Ok? then Ok(Entered(lease, identity)) else Err(Interrupted);
    }

    /** The first part of recover_udev: the checks that need no write, and the phase change. */
    method BeginRepair(lease: Lease, ghost base: Acl, ghost node: Identity)
      returns (r: Result<(Identity, Acl, Lease), Failure>)
      requires Recorded() && journal == Some(lease) && Accepted(lease, lease.uid)
      modifies this`journal, this`device, this`operations, this`log
      ensures Recorded() && (Disciplined(old(log)) ==> Disciplined(log))
      ensures r.Ok? ==>
              && var (identity, current, entered) := r.value;
              && journal == Some(entered) && Accepted(entered, lease.uid)
              && entered == Entered(lease, identity)
              && LatestReadLeased(log, Some(identity), Some(current))
              && (current == entered.original.value || current == entered.expected.value)
      ensures r.Err? ==> journal == Some(lease) || r.error == Interrupted
      ensures Undisturbed() ==> device == old(device)
      ensures Undisturbed() && r.Ok? ==> r.value.0 == device.identity && r.value.1 == device.acl
      ensures Undisturbed() && Racing(Some(lease), old(device), base, node, lease.uid) ==>
              Racing(journal, device, base, node, lease.uid)
      ensures Undisturbed() && Safe(Some(lease), old(device), base, node, lease.uid) ==>
              r.Err? && journal == Some(lease)
      ensures old(Calm()) ==> Calm() && (r.Ok? <==> RecoveryAdmissible(Some(lease), old(device)))
      ensures r.Err? && old(Calm()) ==> journal == Some(lease)
      ensures old(Quiet(3)) && GroupRace(lease, old(device))
                && RecoveryAdmissible(Some(lease), old(device)) ==>
              r.Ok? && operations == old(operations) + 3
    {
      var found := ReadNode();
      if found.Err? {
        return Err(Interrupted);
      }
      var (identity, current) := found.value;
      if lease.original.None? || lease.original.value.Keys != SimpleKeys()
         || !lease.moduleLoadRequested {
        return Err(NotFirstRegistration);
      }
      var changed := EnterRepair(lease, identity, current);
      if changed.Err? {
        return Err(changed.error);
      }
      var entered := changed.value;
      r := if !entered.phase.Reconciling? || entered.repairIdentity != Some(identity) then
             Err(RecoveryMismatch)
           else if current != entered.original.value && current != entered.expected.value then
             Err(AclChanged)
           else Ok((identity, current, entered));
    }

    /** Write the baseline unless it is there, and check the node again. */
    method RemoveGrant(lease: Lease, identity: Identity, current: Acl) returns (r: Result<(), Failure>)
      requires Recorded() && journal == Some(lease) && Accepted(lease, lease.uid)
      requires lease.phase.Reconciling? && lease.repairIdentity == Some(identity)
      requires LatestReadLeased(log, Some(identity), Some(current))
      requires current == lease.original.value || current == lease.expected.value
      modifies this`device, this`operations, this`log
      ensures Recorded() && (Disciplined(old(log)) ==> Disciplined(log))
      ensures r.Ok? ==> JustRead(log, identity, lease.original.value)
      ensures Undisturbed() && old(device) == Device(identity, current) ==>
              && (device == old(device) || device == Device(identity, lease.original.value))
              && (r.Ok? ==> device == Device(identity, lease.original.value))
      ensures old(Calm()) ==> Calm() && (old(device) == Device(identity, current) ==> r.Ok?)
      ensures old(Quiet(3)) && old(device) == Device(identity, current)
                && current != lease.original.value ==>
              r.Ok? && operations == old(operations) + 3
    {
      if current != lease.original.value {
        assert Allowed(log, Event(WriteAcl(lease.original.value), journal));
        var written := SetAcl(lease.original.value);
        if written.Err? {
          return Err(Interrupted);
        }
      }
      var same := Matches(identity, lease.original.value);
      if same.Err? {
        return Err(Interrupted);
      }
      return if same.value then Ok(()) else Err(VerificationFailed);
    }

    /** The rest of recover_udev: remove the grant, reapply the udev policy, forget the lease. */
    method FinishRepair(lease: Lease, identity: Identity, current: Acl,
                        ghost base: Acl, ghost node: Identity)
      returns (r: Result<Reply, Failure>)
      requires Recorded() && journal == Some(lease) && Accepted(lease, lease.uid)
      requires lease.phase.Reconciling? && lease.repairIdentity == Some(identity)
      requires LatestReadLeased(log, Some(identity), Some(current))
      requires current == lease.original.value || current == lease.expected.value
      modifies this`journal, this`device, this`operations, this`log
      ensures Recorded() && (Disciplined(old(log)) ==> Disciplined(log))
      ensures Undisturbed() && Racing(Some(lease), old(device), base, node, lease.uid)
                && current == old(device).acl ==>
              RepairOutcome(journal, device, base, node, lease.uid, udevPolicy(Device(node, base)))
      ensures r.Ok? ==> journal.None? && r.value == Reconciled
      ensures old(Calm()) && old(device) == Device(identity, current) ==>
              && (r.Ok? <==> udevPolicy(Device(identity, lease.original.value)).identity == identity)
              && device == udevPolicy(Device(identity, lease.original.value))
              && Calm()
              && journal == if r.Ok? then None else Some(lease)
      ensures old(Quiet(3)) && faults(old(operations) + 3).RaisesAfter?
                && old(device) == Device(identity, current) && current != lease.original.value ==>
              && r.Err? && journal == Some(lease) && operations == old(operations) + 4
              && device == udevPolicy(Device(identity, lease.original.value))
    {
      var removed := RemoveGrant(lease, identity, current);
      if removed.Err? {
        return Err(removed.error);
      }
      assert Allowed(log, Event(RefreshPolicy, journal));
      r := ReapplyPolicy(lease, identity);
    }

    method ReapplyPolicy(lease: Lease, identity: Identity) returns (r: Result<Reply, Failure>)
      requires Recorded() && journal == Some(lease)
      requires lease.phase.Reconciling? && lease.repairIdentity == Some(identity)
      requires Allowed(log, Event(RefreshPolicy, journal))
      modifies this`journal, this`device, this`operations, this`log
      ensures Recorded() && (Disciplined(old(log)) ==> Disciplined(log))
      ensures journal.None? || journal == Some(lease)
      ensures Undisturbed() ==> device == old(device) || device == udevPolicy(old(device))
      ensures Undisturbed() && journal.None? ==> device == udevPolicy(old(device))
      ensures r.Ok? ==> journal.None?
      ensures old(Calm()) ==>
              && (r.Ok? <==> udevPolicy(old(device)).identity == identity)
              && Calm()
              && device == udevPolicy(old(device))
              && (r.Err? ==> journal == Some(lease))
      ensures r.Ok? ==> r.value == Reconciled
      ensures Undisturbed() && faults(old(operations)).RaisesAfter? ==>
              && r.Err? && journal == Some(lease) && operations == old(operations) + 1
              && device == udevPolicy(old(device))
    {
      var refreshed := RefreshPolicies();
      if refreshed.Err? {
        return Err(Interrupted);
      }
      var after := ReadIdentity();
      if after.Err? {
        return Err(Interrupted);
      }
      if after.value != identity {
        return Err(IdentityChanged);
      }
      assert Allowed(log, Event(Clear, journal));
      var cleared := ClearLease();
      return if cleared.Ok? then Ok(Reconciled) else Err(Interrupted);
    }

    method RecoverUdev(uid: nat, lease: Option<Lease>, ghost base: Acl, ghost node: Identity)
      returns (r: Result<Reply, Failure>)
      requires Recorded() && lease == journal
      requires Usable(lease, uid)
      modifies this`journal, this`device, this`operations, this`log
      ensures Recorded() && (Disciplined(old(log)) ==> Disciplined(log))
      ensures Undisturbed() && Safe(old(journal), old(device), base, node, uid) ==>
              Safe(journal, device, base, node, uid)
      ensures Undisturbed() && Racing(old(journal), old(device), base, node, uid) ==>
              RepairOutcome(journal, device, base, node, uid, udevPolicy(Device(node, base)))
      ensures r.Ok? ==> journal.None? && ReplyFits(RecoverPolicy, old(journal), r.value, false)
      ensures old(Calm()) ==>
              && Calm()
              && RecoveryCompletes(old(journal), old(device), udevPolicy, r, journal, device)
      ensures old(Calm()) && Racing(old(journal), old(device), base, node, uid)
                && udevPolicy(Device(node, base)).identity != node ==>
              && r.Err? && journal == Some(Entered(old(journal).value, node))
              && device == udevPolicy(Device(node, base))
      ensures old(Quiet(6)) && faults(old(operations) + 6).RaisesAfter?
                && Racing(old(journal), old(device), base, node, uid)
                && GroupRace(old(journal).value, old(device)) && base != Grant(base, uid) ==>
              && r.Err? && journal == Some(Entered(old(journal).value, node))
              && operations == old(operations) + 7
              && device == udevPolicy(Device(node, base))
    {
      if lease.None? {
        return Ok(NothingToRecover);
      }
      ghost var begins := Quiet(6) && RecoveryAdmissible(lease, device) && GroupRace(lease.value, device);
      var begun := BeginRepair(lease.value, base, node);
      assert begins ==> begun.Ok? && Quiet(3) && operations == old(operations) + 3;
      if begun.Err? {
        return Err(begun.error);
      }
      var (identity, current, entered) := begun.value;
      r := FinishRepair(entered, identity, current, base, node);
    }

    /** The repair branch of execute, for whatever race its lease is about. */
    method ExecuteRecover(uid: nat, lease: Option<Lease>) returns (r: Result<Reply, Failure>)
      requires Recorded() && lease == journal
      requires Usable(lease, uid)
      modifies this`journal, this`device, this`operations, this`log
      ensures Recorded() && (Disciplined(old(log)) ==> Disciplined(log))
      ensures Undisturbed() && old(CrashSafe(uid)) ==> CrashSafe(uid)
      ensures forall base, node | Racing(old(journal), old(device), base, node, uid) ::
                Undisturbed() ==>
                  RepairOutcome(journal, device, base, node, uid, udevPolicy(Device(node, base)))
      ensures r.Ok? ==> journal.None? && ReplyFits(RecoverPolicy, old(journal), r.value, false)
      ensures old(Calm()) ==>
                RecoveryCompletes(old(journal), old(device), udevPolicy, r, journal, device)
    {
      ghost var leased := lease.Some? && !lease.value.phase.Preparing?;
      ghost var base := if leased then lease.value.original.value else untouched.acl;
      ghost var node := device.identity;
      assert CrashSafe(uid) ==> base == untouched.acl && node == untouched.identity;
      r := RecoverUdev(uid, lease, base, node);
    }

    /** The status branch of execute: it changes nothing and survives an unreadable node. */
    method ReportStatus(lease: Option<Lease>, ghost uid: nat) returns (r: Result<Reply, Failure>)
      requires Recorded() && lease == journal
      requires Usable(lease, uid)
      modifies this`device, this`operations, this`log
      ensures Recorded() && (Disciplined(old(log)) ==> Disciplined(log))
      ensures OnlyReads(old(log), log) && (Undisturbed() ==> device == old(device))
      ensures r.Ok? && ReplyFits(Status, lease, r.value, false)
      ensures r.value.seen.Some? <==>
              && PastPreparing(lease)
              && faults(old(operations)).NoFault? && faults(old(operations) + 1).NoFault?
      ensures Undisturbed() && r.value.seen.Some? ==>
                Sees(lease.value, old(device), r.value.seen.value)
    {
      var phase := if lease.Some? then Some(lease.value.phase) else None;
      if lease.None? || lease.value.phase.Preparing? {
        return Ok(Report(lease.Some?, phase, None));
      }
      var identity := ReadIdentity();
      if identity.Err? {
        return Ok(Report(true, phase, None));
      }
      var acl := ReadAcl();
      if acl.Err? {
        return Ok(Report(true, phase, None));
      }
      return Ok(Report(true, phase, Some(Observation(
        ChangedFields(identity.value, lease.value.identity.value),
        lease.value.original == Some(acl.value), lease.value.expected == Some(acl.value)))));
    }

    /** What an action does to a usable journal and the node when nobody interferes and nothing
        fails, started at operation n. */
    ghost predicate Completes(action: Action, lease: Option<Lease>, found: Device, n: nat, uid: nat,
                              r: Result<Reply, Failure>)
      requires Usable(lease, uid)
      reads this`journal, this`device
    {
      match action
      case Status =>
        && r.Ok? && r.value.Report? && journal == lease && device == found
        && (r.value.seen.Some? <==> PastPreparing(lease))
        && (r.value.seen.Some? ==> Sees(lease.value, found, r.value.seen.value))
      case GrantLease =>
        GrantCompletes(lease, found, Loaded(found, n + 1), moduleMissing(n + 1), uid, r, journal, device)
      case Restore => RestoreCompletes(lease, found, r, journal, device)
      case RecoverPolicy => RecoveryCompletes(lease, found, udevPolicy, r, journal, device)
    }

    /** execute: load and validate the journal, then run one action to its end or to the
        operation that fails. */
    method Execute(action: Action, uid: nat) returns (r: Result<Reply, Failure>)
      requires Recorded()
      modifies this
      ensures Recorded() && (Disciplined(old(log)) ==> Disciplined(log))
      ensures Undisturbed() && old(CrashSafe(uid)) ==> CrashSafe(uid)
      ensures untouched != old(untouched) ==>
                action.GrantLease? && old(journal).None? && moduleMissing(old(operations) + 1)
      ensures forall base, node | Racing(old(journal), old(device), base, node, uid) ::
                Undisturbed() && action.RecoverPolicy? ==>
                  RepairOutcome(journal, device, base, node, uid, udevPolicy(Device(node, base)))
      ensures old(journal).Some? && !Accepted(old(journal).value, uid) ==>
              r == Err(LeaseRejected) && journal == old(journal) && device == old(device)
      ensures old(journal).Some?
                && (old(journal).value.version != 1 || old(journal).value.uid != uid
                    || old(journal).value.phase.UnknownPhase?) ==>
              r == Err(LeaseRejected)
      ensures action.Status? || (action.GrantLease? && old(journal).Some?) ==>
                journal == old(journal) && OnlyReads(old(log), log)
      ensures r.Ok? ==>
                ReplyFits(action, old(journal), r.value, moduleMissing(old(operations) + 1))
      ensures old(Calm()) && old(Usable(journal, uid)) ==>
                Completes(action, old(journal), old(device), old(operations), uid, r)
      ensures old(Calm()) && action.Restore? && old(CrashSafe(uid)) ==>
              r.Ok? && journal.None? && device == untouched
      ensures forall base, node | Racing(old(journal), old(device), base, node, uid) ::
                old(Calm()) && action.RecoverPolicy? && udevPolicy(Device(node, base)).identity == node ==>
                  r.Ok? && journal.None? && device == udevPolicy(Device(node, base))
    {
      var lease := journal;
      if lease.Some? && !Accepted(lease.value, uid) {
        return Err(LeaseRejected);
      }
      match action
      case RecoverPolicy => r := ExecuteRecover(uid, lease);
      case Status => r := ReportStatus(lease, uid);
      case GrantLease => r := ExecuteGrant(uid, lease);
      case Restore => r := ExecuteRestore(uid, lease, untouched.acl, untouched.identity);
    }

    /** Any sequence of actions, each one possibly cut short. */
    method RunActions(actions: seq<Action>, uid: nat)
      requires Recorded()
      modifies this
      ensures Recorded() && (Disciplined(old(log)) ==> Disciplined(log))
      ensures Undisturbed() && old(CrashSafe(uid)) ==> CrashSafe(uid)
      ensures (forall n :: !moduleMissing(n)) ==> untouched == old(untouched)
    {
      for i := 0 to |actions|
        invariant Recorded() && (Disciplined(old(log)) ==> Disciplined(log))
        invariant Undisturbed() && old(CrashSafe(uid)) ==> CrashSafe(uid)
        invariant (forall n :: !moduleMissing(n)) ==> untouched == old(untouched)
      {
        var _ := Execute(actions[i], uid);
      }
    }

    /** Whatever ran before and wherever it was cut short, one undisturbed restore leaves no
        journal and the node as it was found, or as the last module load registered it. */
    method RunThenRestore(actions: seq<Action>, uid: nat)
      returns (r: Result<Reply, Failure>, ghost resumed: nat)
      requires Recorded() && Undisturbed() && journal.None? && device == untouched
      modifies this
      ensures (forall n | n >= resumed :: faults(n).NoFault?) ==>
              r.Ok? && journal.None? && device == untouched
      ensures (forall n :: !moduleMissing(n)) ==> untouched == old(device)
    {
      RunActions(actions, uid);
      resumed := operations;
      r := Execute(Restore, uid);
    }

    // -------------------------------------------------------------- repeating a repair

    /** A repair that stopped between reapplying the policy and clearing the journal: the next
        one succeeds exactly when the node has the repair identity, with the baseline ACL or the
        grant, and the policy keeps that identity. Otherwise the journal stays. */
    method RepairAgain(uid: nat, ghost base: Acl, ghost node: Identity)
      returns (r: Result<Reply, Failure>)
      requires Recorded() && Calm()
      requires PolicyPending(journal, base, node, uid)
      modifies this`journal, this`device, this`operations, this`log
      ensures Recorded() && Calm()
      ensures r.Ok? <==>
              && old(device).identity == node
              && udevPolicy(Device(node, base)).identity == node
              && (old(device).acl == base || old(device).acl == Grant(base, uid))
      ensures r.Err? ==> PolicyPending(journal, base, node, uid)
      ensures old(device).identity != node ==> device == old(device)
    {
      r := RecoverUdev(uid, journal, base, node);
    }

    /** Even undisturbed and uninterrupted, the repair of a race is stuck for good when the
        policy gives the node another identity: however often it is repeated, it fails and the
        journal stays. */
    method KeepRepairing(times: nat, uid: nat, ghost base: Acl, ghost node: Identity)
      returns (replies: seq<Result<Reply, Failure>>)
      requires Recorded() && Calm() && Racing(journal, device, base, node, uid)
      requires udevPolicy(Device(node, base)).identity != node
      modifies this`journal, this`device, this`operations, this`log
      ensures |replies| == times && forall r | r in replies :: r.Err?
      ensures times > 0 ==>
              PolicyPending(journal, base, node, uid) && device == udevPolicy(Device(node, base))
    {
      replies := [];
      if times == 0 {
        return;
      }
      EnteredIsPending(journal.value, device, base, node, uid);
      var first := RecoverUdev(uid, journal, base, node);
      replies := [first];
      while |replies| < times
        invariant 1 <= |replies| <= times && forall r | r in replies :: r.Err?
        invariant Recorded() && Calm() && PolicyPending(journal, base, node, uid)
        invariant device == udevPolicy(Device(node, base))
      {
        var next := RepairAgain(uid, base, node);
        replies := replies + [next];
      }
    }
  }

  const CREATED := Identity(5, 1, 10, 0, 0)
  const RACED := Identity(5, 1, 10, 0, 7)

  function RacedLease(uid: nat): Lease {
    PreparedLease(uid, CREATED, PRIVATE, Grant(PRIVATE, uid), true)
  }

  lemma FirstRegistrationRace(uid: nat)
    ensures Racing(Some(RacedLease(uid)), Device(RACED, Grant(PRIVATE, uid)), PRIVATE, RACED, uid)
    ensures GroupRace(RacedLease(uid), Device(RACED, Grant(PRIVATE, uid)))
  {
    PrivateAndShared(uid);
  }

  /** A first-registration race under an ordinary policy that lets the owning group in. The
      repair is interrupted just after it reapplied the policy, and repeating it fails. */
  method StrandedRepair(uid: nat)
    returns (interrupted: Result<Reply, Failure>, repeated: Result<Reply, Failure>,
             journal: Option<Lease>)
    ensures interrupted.Err? && repeated.Err? && journal.Some?
  {
    PrivateAndShared(uid);
    FirstRegistrationRace(uid);
    var raced := RACED;
    var host := new Host(Some(RacedLease(uid)), Device(raced, Grant(PRIVATE, uid)), (n, d) => d,
                         n => if n == 6 then RaisesAfter else NoFault, n => false, d => d,
                         (d: Device) => d.(acl := SHARED));
    EnteredIsPending(RacedLease(uid), host.device, PRIVATE, raced, uid);
    interrupted := host.RecoverUdev(uid, host.journal, PRIVATE, raced);
    repeated := host.RepairAgain(uid, PRIVATE, raced);
    journal := host.journal;
  }
}
