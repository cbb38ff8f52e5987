/** Permission masks and the checks made against them. */
module Permissions {

  /** A set of flags in the bits of an int. */
  type Permission = bv32

  const FILE_READ: Permission := 1
  const FILE_WRITE: Permission := 2
  const FILE_APPEND: Permission := 4
  const FILE_DELETE: Permission := 8
  const FILE_RENAME: Permission := 16
  const DIR_LIST: Permission := 32
  const DIR_CREATE: Permission := 64
  const DIR_DELETE: Permission := 128
  const DIR_RENAME: Permission := 256

  const ALL: Permission := FILE_READ | FILE_WRITE | FILE_APPEND | FILE_DELETE | FILE_RENAME
                           | DIR_LIST | DIR_CREATE | DIR_DELETE | DIR_RENAME
  const READ_ONLY: Permission := FILE_READ | DIR_LIST

  /** The flags that let a command change something. */
  const CHANGING: set<Permission> :=
    {FILE_WRITE, FILE_APPEND, FILE_DELETE, FILE_RENAME, DIR_CREATE, DIR_DELETE, DIR_RENAME}

  /** The check before most commands: at least one of the wanted flags is set. */
  predicate Grants(mask: Permission, wanted: Permission) {
    mask & wanted != 0
  }

  /** The check before a rename: all required flags are set. */
  predicate Covers(mask: Permission, required: Permission) {
    mask & required == required
  }

  predicate IsFlag(flag: Permission) {
    flag in {FILE_READ, FILE_WRITE, FILE_APPEND, FILE_DELETE, FILE_RENAME, DIR_LIST, DIR_CREATE, DIR_DELETE, DIR_RENAME}
  }

  predicate LacksAll(mask: Permission, flags: set<Permission>) {
    forall flag | flag in flags :: !Grants(mask, flag)
  }

  /** For a single flag the two kinds of check agree. */
  lemma CoversFlag(mask: Permission, flag: Permission)
    requires IsFlag(flag)
    ensures Covers(mask, flag) <==> Grants(mask, flag)
  {
    assert flag == 1 || flag == 2 || flag == 4 || flag == 8 || flag == 16
           || flag == 32 || flag == 64 || flag == 128 || flag == 256;
  }

  /** Combining masks with | and & ~ adds and removes exactly the flags named. */
  lemma MaskAlgebra(mask: Permission, change: Permission, flag: Permission)
    requires IsFlag(flag)
    ensures Grants(mask | change, flag) <==> Grants(mask, flag) || Grants(change, flag)
    ensures Grants(mask & !change, flag) <==> Grants(mask, flag) && !Grants(change, flag)
  {
    assert flag == 1 || flag == 2 || flag == 4 || flag == 8 || flag == 16
           || flag == 32 || flag == 64 || flag == 128 || flag == 256;
  }

  /** The full mask grants everything; read-only grants nothing that changes anything, and everything that does not. */
  lemma ReadOnlyChangesNothing(flag: Permission)
    requires IsFlag(flag)
    ensures Grants(READ_ONLY, flag) <==> flag !in CHANGING
    ensures LacksAll(READ_ONLY, CHANGING) && Grants(ALL, flag)
  {
    forall f | f in CHANGING ensures !Grants(READ_ONLY, f) {
    }
  }

  /** The bits of the flags and of the named masks; a check for either of two flags, and one for both. */
  lemma FlagBits(mask: Permission)
    ensures FILE_READ == 0x1 && FILE_WRITE == 0x2 && FILE_APPEND == 0x4 && FILE_DELETE == 0x8 && FILE_RENAME == 0x10
    ensures DIR_LIST == 0x20 && DIR_CREATE == 0x40 && DIR_DELETE == 0x80 && DIR_RENAME == 0x100
    ensures ALL == 0x1FF && READ_ONLY == 0x21
    ensures Grants(mask, FILE_READ | DIR_LIST) <==> mask & 0x1 != 0 || mask & 0x20 != 0
    ensures Covers(mask, FILE_RENAME) <==> mask & 0x10 != 0
    ensures Covers(mask, DIR_RENAME) <==> mask & 0x100 != 0
    ensures Covers(mask, FILE_RENAME | DIR_RENAME) <==> mask & 0x10 != 0 && mask & 0x100 != 0
  {
  }
}
