/** The one optional-value type that every module of the project shares. */
module Wrappers {
  datatype Option<+T> = None | Some(value: T) {
    function GetOr(default: T): T {
      if Some? then value else default
    }
  }

  /** 1 when `b` holds and 0 otherwise, to count semaphore posts. */
  function Count(b: bool): nat {
    if b then 1 else 0
  }

  /** No element occurs twice. */
  ghost predicate NoDuplicates<T>(s: seq<T>) {
    forall i, j :: 0 <= i < j < |s| ==> s[i] != s[j]
  }
}
