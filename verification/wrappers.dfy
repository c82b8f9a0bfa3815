/** Failure-compatible wrappers shared by every module of the model.

    The source reports failure by raising; the class of the exception matters
    because several callers catch one class and let the others through.  A
    raised exception is modelled as `Err(Error(cls, msg))`.
 */
module Wrappers {

  /** Python's `None` or a present value. */
  datatype Option<+T> = None | Some(value: T) {

    predicate IsFailure() {
      None?
    }

    function PropagateFailure<U>(): Option<U>
      requires None?
    {
      None
    }

    function Extract(): T
      requires Some?
    {
      value
    }

    function GetOr(default: T): T {
      match this
      case Some(v) => v
      case None => default
    }
  }

  /** The exception classes the source raises.  `Builtin` stands for the
      interpreter's own exceptions (TypeError, KeyError, AttributeError,
      NameError, ValueError, OSError, IOError, AssertionError) and for
      ConfigParser's NoSectionError, none of which any caller catches
      selectively. */
  datatype ErrClass =
    | UpdaterError     // mdl_updater.Error
    | UtilsError       // utils.Error
    | KeyringError     // keyring.Error
    | KeyringUseError  // keyring_use.Error
    | OsdError         // osd.Error
    | MonError         // mon.Error
    | InitError        // service.init_exception*
    | RadosError       // rados_client.Error
    | MdsError         // mds.Error
    | RgwError         // rgw.Error
    | RemoteError      // mdl_updater_remote.Error
    | PurgerError      // purger.Error
    | QueryError       // mdl_query.Error
    | Builtin

  datatype Error = Error(cls: ErrClass, msg: string)

  /** Either a returned value or a raised exception. */
  datatype Result<+T> = Ok(value: T) | Err(error: Error) {

    predicate IsFailure() {
      Err?
    }

    function PropagateFailure<U>(): Result<U>
      requires Err?
    {
      Err(error)
    }

    function Extract(): T
      requires Ok?
    {
      value
    }
  }

  function Raise<T>(cls: ErrClass, msg: string): (r: Result<T>)
    ensures r.Err? && r.error.cls == cls
  {
    Err(Error(cls, msg))
  }

  /** Two results that are equal, or that raise the same message, the first
      with class `c1` and the second with class `c2`. */
  predicate SameUpToClass<T(==)>(r1: Result<T>, r2: Result<T>, c1: ErrClass, c2: ErrClass) {
    r1 == r2 || (r1.Err? && r2.Err? && r1.error == Error(c1, r2.error.msg) && r2.error.cls == c2)
  }

  /** `d.get(k)`: the value under `k`, or None. */
  function Lookup<K, V>(d: map<K, V>, k: K): (r: Option<V>)
    ensures r.Some? <==> k in d
    ensures r.Some? ==> r.value == d[k]
  {
    if k in d then Some(d[k]) else None
  }
}
