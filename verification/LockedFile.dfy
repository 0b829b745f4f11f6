/** What a QtLockedFile promises on every platform. */
module LockedFile {

  type Pid = nat

  datatype LockMode = NoLock | ReadLock | WriteLock

  /** Seen through its holders, a step does nothing, releases the lock of its process, adds it to the
      readers while there is no writer, or makes it the writer while there is no holder. */
  predicate AtomicStep(readers: set<Pid>, writers: set<Pid>, readers': set<Pid>, writers': set<Pid>, p: Pid) {
    || (readers' == readers && writers' == writers)
    || (readers' == readers - {p} && writers' == writers - {p})
    || (p !in readers && readers' == readers + {p} && writers == writers' == {})
    || (readers == writers == {} && readers' == {} && writers' == {p})
  }

  /** There is no writer, or one writer and no reader. */
  ghost predicate Exclusive(readers: set<Pid>, writers: set<Pid>) {
    forall p, q :: p in writers && (q in writers || q in readers) ==> p == q && q !in readers
  }

  /** No sequence of steps of the lock lets two processes in at once. */
  lemma AtomicStepExcludes(readers: set<Pid>, writers: set<Pid>, readers': set<Pid>, writers': set<Pid>, p: Pid)
    requires Exclusive(readers, writers) && AtomicStep(readers, writers, readers', writers', p)
    ensures Exclusive(readers', writers')
  {
    forall a, b | a in writers' && (b in writers' || b in readers') ensures a == b && b !in readers' {
    }
  }
}
