/** Small generic datatypes shared by the model. */
module Wrappers {

  datatype Option<+T> = None | Some(value: T)
  {
    function UnwrapOr(default_: T): T {
      if Some? then value else default_
    }
  }

  /** A Go slice as `encoding/json` shows it: nil is `null`, empty is `[]`.
      Fields tagged `omitempty` cannot tell the two apart and are plain `seq`s instead. */
  datatype Slice<+T> = Nil | Of(elems: seq<T>)
  {
    function Elems(): seq<T> {
      if Nil? then [] else elems
    }
  }

  /** `m[k]` in Go: the zero value for a missing key. */
  function Lookup(m: map<string, string>, k: string): string {
    if k in m then m[k] else ""
  }

  /** What becomes of one API call: it works, or an error is reported although the call may
      nevertheless have taken effect. */
  datatype Fault = Fine | Fail(err: string, applied: bool)
  {
    predicate Applied() {
      Fine? || applied
    }
  }

  /** The phases both custom resources use; `NoPhase` is the unset string. */
  datatype Phase = NoPhase | Pending | Failed | Ready | Paused

  /** What a reconciler hands back: the zero result, a requeue, an error, or a recovered panic. */
  datatype Outcome = Zero | Requeue | Error | Panicked
}
