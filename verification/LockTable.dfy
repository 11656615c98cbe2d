/** The kernel's advisory locks. Each open file holds at most one lock, on the inode it was opened on. */
module LockTable {

  datatype Inode = Root | Directory(id: nat) | LockFile(id: nat)

  /** The four files a call may keep open while it works. */
  datatype Slot = GlobalSlot | DirectorySlot | ReadSlot | ExclusiveSlot

  datatype File = File(owner: nat, slot: Slot)

  datatype Lock = Lock(inode: Inode, exclusive: bool)

  type Table = map<File, Lock>

  /** flock can grant the lock now: nothing on the inode conflicts with it. */
  predicate Grantable(table: Table, lock: Lock) {
    forall f | f in table :: table[f].inode == lock.inode ==> !lock.exclusive && !table[f].exclusive
  }

  function Grant(table: Table, f: File, lock: Lock): Table { table[f := lock] }

  /** LOCK_UN followed by close, or close alone: the file holds nothing afterwards. */
  function Unlock(table: Table, f: File): Table { table - {f} }

  /** The process died: the kernel closes every file that belongs to one of its calls. */
  function Release(table: Table, owners: set<nat>): Table {
    map f | f in table && f.owner !in owners :: table[f]
  }

  /** On each inode there are many shared locks or one exclusive lock. */
  ghost predicate Consistent(table: Table) {
    forall f, g | f in table && g in table && f != g && table[f].inode == table[g].inode ::
      !table[f].exclusive && !table[g].exclusive
  }

  lemma GrantKeepsConsistent(table: Table, f: File, lock: Lock)
    requires Consistent(table) && Grantable(table, lock) && f !in table
    ensures Consistent(Grant(table, f, lock))
  {
  }
}
