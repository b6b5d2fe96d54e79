/** What several models share: processes, who holds a lock, and lists without repeats. */
module Common {

  type Proc = nat

  datatype Holder = Free | HeldBy(p: Proc)

  predicate Distinct(s: seq<int>) {
    forall i, j :: 0 <= i < j < |s| ==> s[i] != s[j]
  }
}
