/** What the process table (kernel/proc.h) gives both process models. */
module ProcTable {

  type Pid = nat

  datatype Option<T> = None | Some(value: T)

  datatype PState = Unused | Sleeping | Runnable | Running | Zombie
}
