/** Block layer permissions (include/block/block.h) and the default ways of block.c to derive what a
node needs from a child from what its own parents need from it.
*/
module Permissions {

  datatype Perm = ConsistentRead | Write | WriteUnchanged | Resize | GraphMod

  type Perms = set<Perm>

  const ALL: Perms := {ConsistentRead, Write, WriteUnchanged, Resize, GraphMod}
  const PASSTHROUGH: Perms := {ConsistentRead, Write, WriteUnchanged, Resize}
  const UNCHANGED: Perms := ALL - PASSTHROUGH

  lemma AllPerms(p: Perm)
    ensures p in ALL
  {
  }

  /** What a user of a node does with it, and what it lets others do. */
  datatype Need = Need(perm: Perms, shared: Perms)

  const NO_NEED := Need({}, ALL)

  /** a asks for no more than b. */
  predicate Looser(a: Need, b: Need) {
    a.perm <= b.perm && b.shared <= a.shared
  }

  /** Two users of the same node get along. */
  predicate Compatible(a: Need, b: Need) {
    a.perm <= b.shared && b.perm <= a.shared
  }

  function Join(a: Need, b: Need): Need {
    Need(a.perm + b.perm, a.shared * b.shared)
  }

  // ---------------------------------------------------------------- the default functions

  datatype Role = Data | Metadata | Filtered | Cow | Primary

  /** The open flags that matter: BDRV_O_RDWR, BDRV_O_INACTIVE and BDRV_O_NO_IO. */
  datatype Flags = Flags(rdwr: bool, inactive: bool, noIo: bool) {
    /** bdrv_is_writable */
    predicate Writable() {
      rdwr && !inactive
    }
  }

  /** bdrv_filter_default_perms */
  function FilterPerms(n: Need): Need {
    Need(n.perm * PASSTHROUGH, n.shared * PASSTHROUGH + UNCHANGED)
  }

  /** bdrv_default_perms_for_cow */
  function CowPerms(flags: Flags, n: Need): Need {
    var shared := if Write in n.shared then {Write, Resize} else {};
    Need(n.perm * {ConsistentRead},
         shared + {ConsistentRead, GraphMod, WriteUnchanged} + if flags.inactive then {Write, Resize} else {})
  }

  function ForMetadata(flags: Flags, n: Need): Need {
    Need(n.perm + (if flags.Writable() then {Write, Resize} else {}) + (if flags.noIo then {} else {ConsistentRead}),
         n.shared - {Write, Resize})
  }

  function ForData(n: Need): Need {
    var perm := n.perm + if WriteUnchanged in n.perm then {Write} else {};
    Need(perm + (if Write in perm then {Resize} else {}), n.shared - {Resize})
  }

  /** bdrv_default_perms_for_storage */
  function StoragePerms(flags: Flags, role: set<Role>, n: Need): Need {
    var n0 := FilterPerms(n);
    var n1 := if Metadata in role then ForMetadata(flags, n0) else n0;
    var n2 := if Data in role then ForData(n1) else n1;
    Need(n2.perm, n2.shared + if flags.inactive then {Write, Resize} else {})
  }

  /** The roles that bdrv_default_perms accepts. */
  predicate RoleOk(role: set<Role>) {
    if Filtered in role then role !! {Data, Metadata, Cow}
    else if Cow in role then role !! {Data, Metadata}
    else Metadata in role || Data in role
  }

  /** bdrv_default_perms */
  function DefaultPerms(flags: Flags, role: set<Role>, n: Need): Need
    requires RoleOk(role)
  {
    if Filtered in role then FilterPerms(n)
    else if Cow in role then CowPerms(flags, n)
    else StoragePerms(flags, role, n)
  }

  /** Parents that need less never make a node need more from a child. */
  lemma DefaultPermsMonotone(flags: Flags, role: set<Role>, a: Need, b: Need)
    requires RoleOk(role) && Looser(a, b)
    ensures Looser(DefaultPerms(flags, role, a), DefaultPerms(flags, role, b))
  {
  }

  /** Everyone can tolerate others writing what is there already: no default function stops sharing it. */
  lemma DefaultPermsShareUnchanged(flags: Flags, role: set<Role>, n: Need)
    requires RoleOk(role) && WriteUnchanged in n.shared
    ensures WriteUnchanged in DefaultPerms(flags, role, n).shared
  {
  }

  /** A writable format node tolerates no second active format node on its file, writable or not,
      whatever the parents of the two need. */
  lemma OneFormatNode(flags: Flags, role: set<Role>, n: Need, flags': Flags, role': set<Role>, n': Need)
    requires RoleOk(role) && Metadata in role && flags.Writable()
    requires RoleOk(role') && Metadata in role' && !flags'.inactive
    ensures !Compatible(DefaultPerms(flags, role, n), DefaultPerms(flags', role', n'))
  {
    assert Write in DefaultPerms(flags, role, n).perm;
    assert Write !in DefaultPerms(flags', role', n').shared;
  }

  /** A filter's child is used for what the filter is used for, and shared alike; changing the graph below
      it concerns nobody else. */
  lemma FilteredChild(flags: Flags, role: set<Role>, n: Need, p: Perm)
    requires RoleOk(role) && Filtered in role
    ensures p in DefaultPerms(flags, role, n).perm <==> p in n.perm && p != GraphMod
    ensures p in DefaultPerms(flags, role, n).shared <==> p in n.shared || p == GraphMod
  {
  }

  /** A backing file is at most read, if its overlay is; others may write and resize it exactly if the
      overlay's users bear changing data, or the overlay is inactive. */
  lemma BackingChild(flags: Flags, role: set<Role>, n: Need, p: Perm)
    requires RoleOk(role) && Cow in role
    ensures p in DefaultPerms(flags, role, n).perm <==> p == ConsistentRead && p in n.perm
    ensures p in DefaultPerms(flags, role, n).shared <==> (p == Write || p == Resize ==> Write in n.shared || flags.inactive)
  {
  }

  /** What a format node needs of a file.  It reads metadata unless it does no I/O, and writes and resizes
      it as long as it is writable itself; data that is written, even if that does not change it, is written
      and may grow.  Nobody else may write metadata or resize the file, unless the node is inactive. */
  lemma StorageChild(flags: Flags, role: set<Role>, n: Need)
    requires RoleOk(role) && Filtered !in role && Cow !in role
    ensures var a := DefaultPerms(flags, role, n);
            && (ConsistentRead in a.perm <==> ConsistentRead in n.perm || (Metadata in role && !flags.noIo))
            && (Write in a.perm <==>
                  || Write in n.perm || (Metadata in role && flags.rdwr && !flags.inactive)
                  || (Data in role && WriteUnchanged in n.perm))
            && (WriteUnchanged in a.perm <==> WriteUnchanged in n.perm)
            && (Resize in a.perm <==>
                  || Resize in n.perm || (Metadata in role && flags.rdwr && !flags.inactive)
                  || (Data in role && (Write in n.perm || WriteUnchanged in n.perm)))
            && GraphMod !in a.perm && GraphMod in a.shared
            && (ConsistentRead in a.shared <==> ConsistentRead in n.shared)
            && (WriteUnchanged in a.shared <==> WriteUnchanged in n.shared)
            && (Write in a.shared <==> flags.inactive || (Write in n.shared && Metadata !in role))
            && (Resize in a.shared <==> flags.inactive)
  {
  }
}
