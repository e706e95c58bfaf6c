/**
 Permissions on the edges of the block graph and the default derivations of
 femu-ocssd/block.c (bdrv_default_perms and its variants).
 */
module BlockPermissions {

  /** The BLK_PERM_* bits; a bit mask is the set of its bits. */
  datatype Perm = ConsistentRead | Write | WriteUnchanged | Resize | GraphMod

  type Perms = set<Perm>

  const ALL: Perms := {ConsistentRead, Write, WriteUnchanged, Resize, GraphMod}

  lemma {:induction false} AllIsAll(s: Perms)
    ensures s <= ALL
  {
    forall p | p in s
      ensures p in ALL
    {
      match p
      case ConsistentRead =>
      case Write =>
      case WriteUnchanged =>
      case Resize =>
      case GraphMod =>
    }
  }

  /** DEFAULT_PERM_PASSTHROUGH and DEFAULT_PERM_UNCHANGED. */
  const PASSTHROUGH: Perms := {ConsistentRead, Write, WriteUnchanged, Resize}
  const UNCHANGED: Perms := {GraphMod}

  /** What one user takes (`perm`) and what it lets others take (`shared`). */
  datatype RawGrant = Grant(perm: Perms, shared: Perms)

  /**
   bdrv_check_update_perm asserts that every user tolerates WRITE_UNCHANGED; as a type, the
   assertion is checked wherever a grant is made.
   */
  type Grant = g: RawGrant | WriteUnchanged in g.shared witness Grant({}, {WriteUnchanged})

  /** a takes no more than b and shares no less. */
  predicate Looser(a: Grant, b: Grant) {
    a.perm <= b.perm && b.shared <= a.shared
  }

  /** Two users can coexist. */
  predicate Compatible(a: Grant, b: Grant) {
    a.perm <= b.shared && b.perm <= a.shared
  }

  /** The cumulative permissions of two users. */
  function Join(a: Grant, b: Grant): Grant {
    Grant(a.perm + b.perm, a.shared * b.shared)
  }

  // ---------------------------------------------------------------- bdrv_default_perms

  /** The BdrvChildRole bits that matter for permissions. */
  datatype Role = Role(filtered: bool, cow: bool, metadata: bool, data: bool)

  /** The combinations the assertions of bdrv_default_perms admit. */
  predicate ValidRole(r: Role) {
    if r.filtered then !r.data && !r.metadata && !r.cow
    else if r.cow then !r.data && !r.metadata
    else r.metadata || r.data
  }

  /** The flags of the parent node that the derivations read. */
  datatype Flags = Flags(writable: bool, inactive: bool, noIo: bool)

  function FilterDefaultPerms(g: Grant): Grant {
    Grant(g.perm * PASSTHROUGH, g.shared * PASSTHROUGH + UNCHANGED)
  }

  function DefaultPermsForCow(f: Flags, g: Grant): Grant {
    var shared := (if Write in g.shared then {Write, Resize} else {}) + {ConsistentRead, GraphMod, WriteUnchanged};
    Grant(g.perm * {ConsistentRead}, if f.inactive then shared + {Write, Resize} else shared)
  }

  /** The permission half of bdrv_default_perms_for_storage. */
  function StoragePerm(f: Flags, r: Role, perm: Perms): Perms {
    var p1 := if r.metadata && f.writable then perm + {Write, Resize} else perm;
    var p2 := if r.metadata && !f.noIo then p1 + {ConsistentRead} else p1;
    var p3 := if r.data && WriteUnchanged in p2 then p2 + {Write} else p2;
    if r.data && Write in p3 then p3 + {Resize} else p3
  }

  /** The sharing half. */
  function StorageShared(f: Flags, r: Role, shared: Perms): Perms {
    var s1 := if r.metadata then shared - {Write, Resize} else shared;
    var s2 := if r.data then s1 - {Resize} else s1;
    if f.inactive then s2 + {Write, Resize} else s2
  }

  function DefaultPermsForStorage(f: Flags, r: Role, g: Grant): Grant {
    var base := FilterDefaultPerms(g);
    Grant(StoragePerm(f, r, base.perm), StorageShared(f, r, base.shared))
  }

  function DefaultPerms(f: Flags, r: Role, g: Grant): Grant
    requires ValidRole(r)
  {
    if r.filtered then FilterDefaultPerms(g)
    else if r.cow then DefaultPermsForCow(f, g)
    else DefaultPermsForStorage(f, r, g)
  }

  /** Every default derivation is monotone: a parent that needs less asks for less of its children. */
  lemma {:induction false} DefaultPermsMonotone(f: Flags, r: Role, a: Grant, b: Grant)
    requires ValidRole(r) && Looser(a, b)
    ensures Looser(DefaultPerms(f, r, a), DefaultPerms(f, r, b))
  {
    StorageMonotone(f, r, FilterDefaultPerms(a), FilterDefaultPerms(b));
  }

  lemma {:induction false} StorageMonotone(f: Flags, r: Role, a: Grant, b: Grant)
    requires Looser(a, b)
    ensures StoragePerm(f, r, a.perm) <= StoragePerm(f, r, b.perm)
    ensures StorageShared(f, r, b.shared) <= StorageShared(f, r, a.shared)
  {
  }

  /**
   What a format driver asks of its storage, whoever its parents are: while it is active nobody else
   may resize the file, nobody else may write to metadata, and a driver that writes data may grow it.
   */
  lemma {:induction false} StorageIsProtected(f: Flags, r: Role, g: Grant)
    requires ValidRole(r) && !r.filtered && !r.cow
    ensures !f.inactive ==> Resize !in DefaultPerms(f, r, g).shared
    ensures !f.inactive && r.metadata ==> Write !in DefaultPerms(f, r, g).shared
    ensures r.data && Write in g.perm ==> Resize in DefaultPerms(f, r, g).perm
    ensures r.data && WriteUnchanged in g.perm ==> Write in DefaultPerms(f, r, g).perm
    ensures r.metadata && f.writable ==> {Write, Resize} <= DefaultPerms(f, r, g).perm
  {
  }

  /** A backing file is only ever read. */
  lemma {:induction false} BackingIsReadOnly(f: Flags, r: Role, g: Grant)
    requires ValidRole(r) && r.cow
    ensures DefaultPerms(f, r, g).perm <= {ConsistentRead}
    ensures Write in DefaultPerms(f, r, g).shared <==> Write in g.shared || f.inactive
  {
  }
}
