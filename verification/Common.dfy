/** Types shared by the models. */
module Common {
  datatype Option<+T> = None | Some(value: T)

  /** Threads are named by number. */
  type Tid = nat

  datatype Status = Running | Runnable | Blocked

  const MAX_VM_NUM := 16

  ghost predicate NoDup(q: seq<Tid>) {
    forall i, j :: 0 <= i < j < |q| ==> q[i] != q[j]
  }
}
