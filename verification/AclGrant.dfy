/** grant_acl of the host helper: one user gains read and write access to a device node,
    and nobody else's access changes. The access check is the algorithm of the section
    "ACCESS CHECK ALGORITHM" of acl(5), that is of POSIX 1003.1e draft 17. */
module AclGrant {
  import opened Outcomes
  import opened AclText

  // ---------------------------------------------------------------- numeric identities

  function Digit(n: nat): char
    requires n < 10
  {
    '0' + n as char
  }

  /** str(uid). */
  function Decimal(n: nat): string {
    if n < 10 then [Digit(n)] else Decimal(n / 10) + [Digit(n % 10)]
  }

  lemma {:induction false} DecimalIsIdentity(n: nat)
    ensures Decimal(n) != "" && AllDigits(Decimal(n))
  {
    if n >= 10 {
      DecimalIsIdentity(n / 10);
    }
  }

  lemma {:induction false} DecimalInjective(m: nat, n: nat)
    requires Decimal(m) == Decimal(n)
    ensures m == n
  {
    var a, b := Decimal(m), Decimal(n);
    assert a[|a| - 1] == Digit(m % 10) && b[|b| - 1] == Digit(n % 10);
    if m >= 10 && n >= 10 {
      assert Decimal(m / 10) == a[..|a| - 1] && Decimal(n / 10) == b[..|b| - 1];
      DecimalInjective(m / 10, n / 10);
    } else {
      DecimalIsIdentity(m / 10);
      DecimalIsIdentity(n / 10);
    }
  }

  function UserKey(uid: nat): Key { Key(User, Decimal(uid)) }

  // ---------------------------------------------------------------- grant_acl

  function Clamp(p: Perms, mask: Perms): Perms {
    Perms(p.read && mask.read, p.write && mask.write, p.execute && mask.execute)
  }

  /** The entries whose effective permissions the mask limits. */
  predicate Masked(key: Key) { key.kind.Group? || (key.kind.User? && key.id != "") }

  const NOTHING := Perms(false, false, false)

  function OldMask(acl: Acl): Perms {
    if MASK in acl then acl[MASK] else acl[OWNING_GROUP]
  }

  function Clamped(acl: Acl): Entries {
    map key | key in acl :: if Masked(key) then Clamp(acl[key], OldMask(acl)) else acl[key]
  }

  /** The dictionary that grant_acl prints. */
  function Grant(acl: Acl, uid: nat): (granted: Acl)
  {
    var clamped := Clamped(acl);
    var existing := if UserKey(uid) in clamped then clamped[UserKey(uid)] else NOTHING;
    DecimalIsIdentity(uid);
    clamped[UserKey(uid) := Perms(true, true, existing.execute)]
           [MASK := Perms(true, true, OldMask(acl).execute)]
  }

  function GrantText(original: string, uid: nat): Result<string, ParseError> {
    match Parse(original)
    case Err(e) => Err(e)
    case Ok(acl) => ParsedIsWellFormed(original); Ok(Text(Grant(acl, uid)))
  }

  /** grant_acl as written: clamp every masked entry in place, then overwrite two. */
  method GrantAcl(original: string, uid: nat) returns (r: Result<string, ParseError>)
    ensures r == GrantText(original, uid)
  {
    var parsed := ParseAcl(original);
    if parsed.Err? {
      return Err(parsed.error);
    }
    ParsedIsWellFormed(original);
    var acl: Acl := parsed.value;
    var entries: Entries := acl;
    var oldMask := if MASK in entries then entries[MASK] else entries[OWNING_GROUP];
    var todo := acl.Keys;
    while todo != {}
      invariant todo <= acl.Keys && entries.Keys == acl.Keys
      invariant forall k | k in todo :: entries[k] == acl[k]
      invariant forall k | k in acl.Keys - todo :: entries[k] == Clamped(acl)[k]
    {
      var key :| key in todo;
      if Masked(key) {
        entries := entries[key := Clamp(entries[key], oldMask)];
      }
      todo := todo - {key};
    }
    assert entries == Clamped(acl);
    var existing := if UserKey(uid) in entries then entries[UserKey(uid)] else NOTHING;
    entries := entries[UserKey(uid) := Perms(true, true, existing.execute)];
    entries := entries[MASK := Perms(true, true, oldMask.execute)];
    assert entries == Grant(acl, uid);
    return Ok(Text(entries));
  }

  // ---------------------------------------------------------------- access checks

  /** The owner and owning group of the device node. */
  datatype Node = Node(owner: nat, group: nat)

  datatype Process = Process(uid: nat, groups: set<nat>)

  /** The entry holds every requested permission. */
  predicate Holds(p: Perms, want: Perms) {
    (want.read ==> p.read) && (want.write ==> p.write) && (want.execute ==> p.execute)
  }

  function Effective(acl: Acl, key: Key): Perms
    requires key in acl
  {
    if Masked(key) && MASK in acl then Clamp(acl[key], acl[MASK]) else acl[key]
  }

  ghost predicate InGroup(node: Node, process: Process, key: Key) {
    && key.kind.Group?
    && (if key.id == "" then node.group in process.groups
        else exists g | g in process.groups :: key.id == Decimal(g))
  }

  /** A process that is not found by its user identity. */
  ghost predicate GroupAccess(acl: Acl, node: Node, process: Process, want: Perms) {
    if exists key | key in acl :: InGroup(node, process, key)
    then exists key | key in acl :: InGroup(node, process, key) && Holds(Effective(acl, key), want)
    else Holds(acl[OTHERS], want)
  }

  ghost predicate Access(acl: Acl, node: Node, process: Process, want: Perms) {
    if process.uid == node.owner then Holds(acl[OWNER], want)
    else if UserKey(process.uid) in acl then Holds(Effective(acl, UserKey(process.uid)), want)
    else GroupAccess(acl, node, process, want)
  }

  // ---------------------------------------------------------------- what a grant changes

  /** Entry by entry: everyone keeps their effective permissions except the granted user,
      who gets read and write, keeps an effective execute permission and gains none. */
  lemma GrantedEntries(acl: Acl, uid: nat)
    ensures UserKey(uid) in Grant(acl, uid)
    ensures forall key | key != UserKey(uid) && key != MASK ::
              && (key in Grant(acl, uid) <==> key in acl)
              && (key in acl ==> Effective(Grant(acl, uid), key) == Effective(acl, key))
    ensures var p := Effective(Grant(acl, uid), UserKey(uid));
            && p.read && p.write
            && (p.execute <==> UserKey(uid) in acl && Effective(acl, UserKey(uid)).execute)
  {
    DecimalIsIdentity(uid);
    forall key | key in acl && key.id != ""
      ensures MASK in acl
    {
      assert HasNamed(acl);
    }
  }

  lemma UserKeyInjective(m: nat, n: nat)
    ensures UserKey(m) == UserKey(n) <==> m == n
  {
    if UserKey(m) == UserKey(n) {
      DecimalInjective(m, n);
    }
  }

  /** An entry is there on both sides or on neither, with the same effective permissions. */
  predicate SameEntry(a: Acl, b: Acl, key: Key) {
    (key in a <==> key in b) && (key in a ==> Effective(a, key) == Effective(b, key))
  }

  lemma SameGroupAccess(a: Acl, b: Acl, node: Node, process: Process, want: Perms)
    requires SameEntry(a, b, OTHERS) && forall key: Key | key.kind.Group? :: SameEntry(a, b, key)
    ensures GroupAccess(a, node, process, want) ==> GroupAccess(b, node, process, want)
  {
    if key :| key in a && InGroup(node, process, key) && Holds(Effective(a, key), want) {
      assert SameEntry(a, b, key);
    }
    if key :| key in a && InGroup(node, process, key) {
      assert SameEntry(a, b, key);
    } else {
      forall key | key in b ensures !InGroup(node, process, key) {
        if key.kind.Group? {
          assert SameEntry(a, b, key);
        }
      }
    }
  }

  /** No other process gains or loses any permission, nor does the node's owner, whatever
      the ACL, the owner, the groups and the request are. */
  lemma GrantKeepsEveryoneElse(acl: Acl, uid: nat, node: Node, process: Process, want: Perms)
    requires process.uid != uid || process.uid == node.owner
    ensures Access(Grant(acl, uid), node, process, want) == Access(acl, node, process, want)
  {
    GrantedEntries(acl, uid);
    UserKeyInjective(process.uid, uid);
    if process.uid == node.owner {
      assert SameEntry(acl, Grant(acl, uid), OWNER) by {
        DecimalIsIdentity(uid);
      }
    } else if UserKey(process.uid) in acl {
      assert SameEntry(acl, Grant(acl, uid), UserKey(process.uid));
    } else {
      SameGroupAccess(acl, Grant(acl, uid), node, process, want);
      SameGroupAccess(Grant(acl, uid), acl, node, process, want);
    }
  }

  /** The granted user can read and write, and can execute only if that was so before. */
  lemma GrantGivesReadWrite(acl: Acl, uid: nat, node: Node, groups: set<nat>)
    requires uid != node.owner
    ensures Access(Grant(acl, uid), node, Process(uid, groups), Perms(true, true, false))
    ensures Access(Grant(acl, uid), node, Process(uid, groups), Perms(false, false, true)) ==>
            Access(acl, node, Process(uid, groups), Perms(false, false, true))
  {
  }

  /** Granting twice is granting once. */
  lemma GrantIdempotent(acl: Acl, uid: nat)
    ensures Grant(Grant(acl, uid), uid) == Grant(acl, uid)
  {
    var once := Grant(acl, uid);
    var twice := Grant(once, uid);
    DecimalIsIdentity(uid);
    assert twice.Keys == once.Keys;
    forall key | key in once ensures twice[key] == once[key] {
    }
  }

  /** One entry after a grant, from the entry before. */
  lemma GrantedEntry(acl: Acl, uid: nat, key: Key)
    ensures key in Grant(acl, uid) <==> key in acl || key == UserKey(uid) || key == MASK
    ensures OldMask(Grant(acl, uid)) == Perms(true, true, OldMask(acl).execute)
    ensures key != UserKey(uid) && key != MASK && key in acl ==>
            Grant(acl, uid)[key] == Clamped(acl)[key]
    ensures Grant(acl, uid)[UserKey(uid)] == Perms(true, true,
            UserKey(uid) in acl && acl[UserKey(uid)].execute && OldMask(acl).execute)
  {
  }

  /** The order of two grants does not matter. */
  lemma GrantsCommute(acl: Acl, u: nat, v: nat)
    ensures Grant(Grant(acl, u), v) == Grant(Grant(acl, v), u)
  {
    var a, b := Grant(Grant(acl, u), v), Grant(Grant(acl, v), u);
    DecimalIsIdentity(u);
    DecimalIsIdentity(v);
    UserKeyInjective(u, v);
    forall key
      ensures (key in a <==> key in b) && (key in a ==> a[key] == b[key])
    {
      GrantedEntry(acl, u, key);
      GrantedEntry(acl, v, key);
      GrantedEntry(acl, u, UserKey(v));
      GrantedEntry(acl, v, UserKey(u));
      GrantedEntry(Grant(acl, u), v, key);
      GrantedEntry(Grant(acl, v), u, key);
      GrantedEntry(Grant(acl, u), v, UserKey(u));
      GrantedEntry(Grant(acl, v), u, UserKey(v));
    }
  }

  /** The same two laws for the texts that the helper stores in its journal. */
  lemma GrantTextLaws(acl: Acl, u: nat, v: nat)
    ensures GrantText(Text(acl), u) == Ok(Text(Grant(acl, u)))
    ensures GrantText(Text(Grant(acl, u)), u) == GrantText(Text(acl), u)
    ensures GrantText(Text(Grant(acl, u)), v) == GrantText(Text(Grant(acl, v)), u)
  {
    RoundTrip(acl);
    RoundTrip(Grant(acl, u));
    RoundTrip(Grant(acl, v));
    GrantIdempotent(acl, u);
    GrantsCommute(acl, u, v);
  }
}
