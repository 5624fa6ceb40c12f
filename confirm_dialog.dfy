/** The confirmation dialog of `ConfirmProvider`.  `confirm(message, title,
    options)` fills the dialog from its arguments and their defaults and
    opens it; the confirm button, the cancel button and a click on the
    backdrop settle the pending request with true, false and false, and
    close the dialog without touching its other fields. */
module ConfirmDialog {
  import opened Common

  /** The `options` argument of `confirm`; `None` is a property left out. */
  datatype Options = Options(variant: Option<string>, confirmLabel: Option<string>)

  /** The dialog record (the two callbacks are `ConfirmProvider`'s fields). */
  datatype Dialog = Dialog(open: bool, title: string, message: string, variant: string, confirmLabel: string)

  /** The dialog before any `confirm`. */
  const Initial := Dialog(false, "", "", "danger", "Konfirmasi")

  /** The default confirm label, which depends on the variant in force. */
  function DefaultLabel(variant: string): (text: string)
    ensures text == "Hapus" <==> variant == "danger"
    ensures text == "Ya, Lanjutkan" <==> variant != "danger"
  {
    if variant == "danger" then "Hapus" else "Ya, Lanjutkan"
  }

  /** The dialog `confirm(message, title, options)` opens: the title defaults
      to 'Konfirmasi', the variant to 'danger', the label to the default for
      the variant in force; a given value always wins. */
  function Opened(message: string, title: Option<string>, options: Options): (d: Dialog)
    ensures d.open && d.message == message
    ensures title.Some? ==> d.title == title.value
    ensures options.variant.Some? ==> d.variant == options.variant.value
    ensures options.confirmLabel.Some? ==> d.confirmLabel == options.confirmLabel.value
    ensures title.None? ==> d.title == "Konfirmasi"
    ensures options.variant.None? ==> d.variant == "danger"
    ensures options.confirmLabel.None? ==> d.confirmLabel == DefaultLabel(d.variant)
  {
    var variant := options.variant.GetOr("danger");
    Dialog(true, title.GetOr("Konfirmasi"), message, variant, options.confirmLabel.GetOr(DefaultLabel(variant)))
  }

  /** The dialog with only `open` cleared: `{ ...prev, open: false }`. */
  function Closed(d: Dialog): (c: Dialog)
    ensures !c.open
    ensures c.title == d.title && c.message == d.message
    ensures c.variant == d.variant && c.confirmLabel == d.confirmLabel
  {
    d.(open := false)
  }

  datatype Icon = CheckCircleIcon | InfoIcon | TrashIcon

  /** The colours and icon of a dialog variant. */
  datatype Style = Style(bg: string, colour: string, buttonBg: string, icon: Icon)

  const ConfirmStyle := Style("#e0f2fe", "#0284c7", "#0284c7", CheckCircleIcon)
  const InfoStyle := Style("#f3f4f6", "#4b5563", "#4b5563", InfoIcon)
  const DangerStyle := Style("#fee2e2", "#ef4444", "#ef4444", TrashIcon)

  /** `getStyles(variant)`: 'confirm' and 'info' have their own style, every
      other variant ('danger' and unknown ones such as 'warning') the danger style. */
  function GetStyles(variant: string): (s: Style)
    ensures s == ConfirmStyle <==> variant == "confirm"
    ensures s == InfoStyle <==> variant == "info"
    ensures s == DangerStyle <==> variant != "confirm" && variant != "info"
  {
    if variant == "confirm" then ConfirmStyle
    else if variant == "info" then InfoStyle
    else DangerStyle
  }

  class ConfirmProvider {
    /** The `dialog` state. */
    var dialog: Dialog
    /** Whether `dialog` carries the `onConfirm`/`onCancel` callbacks (it has none before the first `confirm`). */
    var hasCallbacks: bool
    /** Whether the promise returned by the latest `confirm` is still unsettled. */
    var pending: bool

    constructor ()
      ensures dialog == Initial && !hasCallbacks && !pending
    {
      dialog := Initial;
      hasCallbacks := false;
      pending := false;
    }

    /** `confirm(message, title, options)`: opens the dialog and leaves a new
        request pending (an earlier unsettled request is never settled). */
    method Confirm(message: string, title: Option<string>, options: Options)
      modifies this
      ensures dialog == Opened(message, title, options)
      ensures hasCallbacks && pending
    {
      dialog := Opened(message, title, options);
      hasCallbacks := true;
      pending := true;
    }

    /** The confirm button: `onConfirm`.  `answer` is the value the pending
        request settles with now, `None` when nothing is settled. */
    method OnConfirm() returns (answer: Option<bool>)
      modifies this
      ensures hasCallbacks == old(hasCallbacks) && !pending
      ensures old(hasCallbacks) ==> dialog == Closed(old(dialog))
      ensures !old(hasCallbacks) ==> dialog == old(dialog)
      ensures answer == if old(hasCallbacks) && old(pending) then Some(true) else None
    {
      answer := Settle(true);
    }

    /** The cancel button: `onCancel`. */
    method OnCancel() returns (answer: Option<bool>)
      modifies this
      ensures hasCallbacks == old(hasCallbacks) && !pending
      ensures old(hasCallbacks) ==> dialog == Closed(old(dialog))
      ensures !old(hasCallbacks) ==> dialog == old(dialog)
      ensures answer == if old(hasCallbacks) && old(pending) then Some(false) else None
    {
      answer := Settle(false);
    }

    /** A click on the backdrop, whose handler is `onCancel` itself. */
    method OnBackdropClick() returns (answer: Option<bool>)
      modifies this
      ensures hasCallbacks == old(hasCallbacks) && !pending
      ensures old(hasCallbacks) ==> dialog == Closed(old(dialog))
      ensures !old(hasCallbacks) ==> dialog == old(dialog)
      ensures answer == if old(hasCallbacks) && old(pending) then Some(false) else None
    {
      answer := OnCancel();
    }

    /** What both callbacks do: resolve the request (a no-op once it is
        settled) and close the dialog. */
    method Settle(value: bool) returns (answer: Option<bool>)
      modifies this
      ensures hasCallbacks == old(hasCallbacks) && !pending
      ensures old(hasCallbacks) ==> dialog == Closed(old(dialog))
      ensures !old(hasCallbacks) ==> dialog == old(dialog)
      ensures answer == if old(hasCallbacks) && old(pending) then Some(value) else None
    {
      if hasCallbacks {
        answer := if pending then Some(value) else None;
        pending := false;
        dialog := Closed(dialog);
      } else {
        answer := None;
        pending := false;
      }
    }
  }

  // ---------------------------------------------------------------------
  // Lemmas

  /** `confirm(message)` alone asks a 'danger' question titled 'Konfirmasi' with a 'Hapus' button. */
  lemma DefaultsOfBareConfirm(message: string)
    ensures Opened(message, None, Options(None, None)) == Dialog(true, "Konfirmasi", message, "danger", "Hapus")
  {
  }

  /** A variant other than 'danger' without a label gets the 'Ya, Lanjutkan' button. */
  lemma DefaultLabelOfOtherVariant(message: string, title: Option<string>, variant: string)
    requires variant != "danger"
    ensures Opened(message, title, Options(Some(variant), None)).confirmLabel == "Ya, Lanjutkan"
  {
  }
}
