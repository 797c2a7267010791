/** Failure-compatible values shared by every module. */
module Wrappers {

  datatype Option<+T> = None | Some(value: T) {
    predicate IsFailure() {
      None?
    }

    function PropagateFailure<U>(): Option<U>
      requires None?
    {
      None
    }

    function Extract(): T
      requires Some?
    {
      value
    }
  }

  /** The error codes a control-plane request can end with. */
  datatype Status =
    | Ok
    | InvalidArgument
    | NotFound
    | AlreadyExists
    | GraphInvalid
    | SharedDependency
    | ParameterUnsupported
    | ResourceExhausted
    | PluginRetired
    | PluginUnloadUnsafe
    | WouldBlock
    | Internal

  predicate NoRepeats<T(==)>(s: seq<T>) {
    forall i, j :: 0 <= i < j < |s| ==> s[i] != s[j]
  }

  function Without<T>(s: seq<T>, k: nat): (r: seq<T>)
    requires k < |s|
    ensures |r| == |s| - 1
    ensures forall x :: x in r ==> x in s
    ensures forall x :: x in s ==> x == s[k] || x in r
  {
    s[..k] + s[k + 1..]
  }
}
