/** Values shared by the admin panel's views: optional values (JavaScript's
    `undefined`, `null` and `NaN` all become `None`), the outcome of a write to
    the hosted backend, and the notices a view shows to the user. */
module Common {

  datatype Option<+T> = None | Some(value: T) {
    /** The value, or `default` when there is none. */
    function GetOr(default: T): T {
      match this
      case Some(v) => v
      case None => default
    }
  }

  /** What the backend answers to an insert, update or delete. */
  datatype WriteResult = WriteOk | WriteErr(message: string)

  /** A toast (with its type: 'success', 'error' or 'info') or a blocking browser alert. */
  datatype Notice = Toast(message: string, toastType: string) | Alert(message: string)

  /** The toast every view shows when a save is refused by the backend. */
  function SaveFailed(message: string): Notice {
    Toast("Gagal simpan: " + message, "error")
  }
}
