/** The toast queue of `ToastProvider`: `showToast` appends a toast whose id
    is the clock reading of the moment it was shown, and a toast leaves the
    queue when its close button is clicked or when its 3-second timer fires;
    both filter out every toast with that id. */
module Toast {
  import opened Common

  datatype ToastItem = ToastItem(id: int, message: string, toastType: string)

  /** `toasts.filter(t => t.id !== id)`. */
  function WithoutId(toasts: seq<ToastItem>, id: int): (r: seq<ToastItem>)
    ensures |r| <= |toasts|
    ensures forall t :: t in r <==> t in toasts && t.id != id
  {
    if toasts == [] then []
    else (if toasts[0].id == id then [] else [toasts[0]]) + WithoutId(toasts[1..], id)
  }

  /** The heading of a toast. */
  function Title(toastType: string): (title: string)
    ensures title == "Berhasil" <==> toastType == "success"
    ensures title == "Gagal" <==> toastType == "error"
    ensures title == "Info" <==> toastType != "success" && toastType != "error"
  {
    if toastType == "success" then "Berhasil" else if toastType == "error" then "Gagal" else "Info"
  }

  /** The colour of a toast's border and icon. */
  function Accent(toastType: string): (colour: string)
    ensures colour == "#10b981" <==> toastType == "success"
    ensures colour == "#ef4444" <==> toastType == "error"
    ensures colour == "#3b82f6" <==> toastType != "success" && toastType != "error"
  {
    if toastType == "success" then "#10b981" else if toastType == "error" then "#ef4444" else "#3b82f6"
  }

  class ToastProvider {
    var toasts: seq<ToastItem>

    constructor ()
      ensures toasts == []
    {
      toasts := [];
    }

    /** `showToast(message, type = 'success')` at clock reading `now`
        (`Date.now()`); the toast's id is returned so that its timer can
        later expire it. */
    method ShowToast(message: string, toastType: Option<string>, now: int) returns (id: int)
      modifies this
      ensures id == now
      ensures toasts == old(toasts) + [ToastItem(now, message, toastType.GetOr("success"))]
    {
      id := now;
      toasts := toasts + [ToastItem(id, message, toastType.GetOr("success"))];
    }

    /** `removeToast(id)`, run by the toast's close button. */
    method RemoveToast(id: int)
      modifies this
      ensures toasts == WithoutId(old(toasts), id)
    {
      toasts := WithoutId(toasts, id);
    }

    /** The 3-second timer of the toast shown with id `id` firing. */
    method Expire(id: int)
      modifies this
      ensures toasts == WithoutId(old(toasts), id)
    {
      RemoveToast(id);
    }
  }

  // ---------------------------------------------------------------------
  // Lemmas

  /** Filtering distributes over concatenation, so the surviving toasts keep their order. */
  lemma {:induction false} WithoutIdOfConcat(a: seq<ToastItem>, b: seq<ToastItem>, id: int)
    ensures WithoutId(a + b, id) == WithoutId(a, id) + WithoutId(b, id)
  {
    if a != [] {
      assert (a + b)[1..] == a[1..] + b;
      WithoutIdOfConcat(a[1..], b, id);
    } else {
      assert a + b == b;
    }
  }

  /** Removing an id that no toast has changes nothing. */
  lemma {:induction false} WithoutAbsentId(toasts: seq<ToastItem>, id: int)
    requires forall t :: t in toasts ==> t.id != id
    ensures WithoutId(toasts, id) == toasts
  {
    if toasts != [] {
      WithoutAbsentId(toasts[1..], id);
    }
  }

  /** Removing twice is removing once. */
  lemma WithoutIdIsIdempotent(toasts: seq<ToastItem>, id: int)
    ensures WithoutId(WithoutId(toasts, id), id) == WithoutId(toasts, id)
  {
    WithoutAbsentId(WithoutId(toasts, id), id);
  }

  /** Removals of different ids commute. */
  lemma {:induction false} WithoutIdCommutes(toasts: seq<ToastItem>, i: int, j: int)
    ensures WithoutId(WithoutId(toasts, i), j) == WithoutId(WithoutId(toasts, j), i)
  {
    if toasts != [] {
      var h := [toasts[0]];
      assert toasts == h + toasts[1..];
      WithoutIdOfConcat(h, toasts[1..], i);
      WithoutIdOfConcat(h, toasts[1..], j);
      WithoutIdOfConcat(WithoutId(h, i), WithoutId(toasts[1..], i), j);
      WithoutIdOfConcat(WithoutId(h, j), WithoutId(toasts[1..], j), i);
      WithoutIdCommutes(toasts[1..], i, j);
    }
  }

  /** A toast shown at a clock reading no earlier toast has is the only one
      its expiry removes: the queue returns to what it was before it was shown. */
  lemma ExpiryRemovesOnlyThatToast(toasts: seq<ToastItem>, t: ToastItem)
    requires forall u :: u in toasts ==> u.id != t.id
    ensures WithoutId(toasts + [t], t.id) == toasts
  {
    WithoutIdOfConcat(toasts, [t], t.id);
    WithoutAbsentId(toasts, t.id);
  }

  /** Two toasts shown in the same millisecond share an id, so the first
      one's expiry also removes the second, early. */
  lemma ExpiryRemovesSameMillisecondToasts(toasts: seq<ToastItem>, t: ToastItem, u: ToastItem)
    requires t.id == u.id
    ensures u !in WithoutId(toasts + [t] + [u], t.id)
  {
  }
}
