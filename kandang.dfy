/** The cage view (`KandangManager`): a table of cages with a create/update
    form, deletion, and a two-step population reduction that first writes
    the reduced head count to one cage and then, separately, appends a row
    to the population history (`riwayat_populasi`).  The backend tables are
    the class's sequences; every write's outcome and the user's answer to
    the confirmation dialog are parameters. */
module Kandang {
  import opened Common
  import opened Js
  import opened ConfirmDialog

  /** A row of the `kandang` table. */
  datatype Cage = Cage(id: int, namaKandang: string, kapasitas: int, jumlahPuyuh: int)

  /** A numeric form field: the text an input produced, or the number
      `handleEdit` copied from a cage row. */
  datatype Field = Text(text: string) | Number(value: int)

  /** The create/update form `formData`. */
  datatype CageForm = CageForm(namaKandang: string, kapasitas: Field, jumlahPuyuh: Field)

  /** The form before any input, and after `resetForm`. */
  const EmptyForm := CageForm("", Text(""), Text(""))

  /** The reduction modal `reduceModal`: whether it is open and which cage it is about. */
  datatype ReduceModal = ReduceModal(open: bool, kandangId: Option<int>, namaKandang: string)

  const ClosedModal := ReduceModal(false, None, "")

  /** The reduction form `reduceData`. */
  datatype ReduceData = ReduceData(jumlah: string, alasan: string, keterangan: string)

  /** The reduction form as every opening of the modal leaves it. */
  const FreshReduceData := ReduceData("", "Mati", "")

  /** The signed-in user: `user_metadata.full_name` and `email`. */
  datatype User = User(fullName: Option<string>, email: Option<string>)

  /** A row of the `riwayat_populasi` table. */
  datatype LogEntry = LogEntry(kandangId: int, jumlah: int, jenisPerubahan: string, alasan: string,
                               keterangan: string, userInput: string, createdAt: int)

  // ---------------------------------------------------------------------
  // The toasts of the view

  const CageUpdated := Toast("Kandang berhasil diupdate", "success")
  const CageAdded := Toast("Kandang baru ditambahkan", "success")
  const CageDeleted := Toast("Kandang berhasil dihapus", "success")
  const AmountRefused := Toast("Jumlah harus > 0", "error")
  const OverPopulation := Toast("Jumlah pengurangan melebihi populasi saat ini!", "error")
  const ReductionSaved := Toast("Data pengurangan berhasil disimpan!", "success")
  const ReductionNotLogged := Toast("Populasi berkurang, namun gagal mencatat riwayat.", "info")

  function DeleteFailed(message: string): Notice {
    Toast("Gagal hapus: " + message, "error")
  }

  function UpdateFailed(message: string): Notice {
    Toast("Gagal update kandang: " + message, "error")
  }

  // ---------------------------------------------------------------------
  // The cage table

  /** Cage ids strictly ascend: the table as `order('id')` returns it, with unique ids. */
  predicate IdsAscending(cages: seq<Cage>) {
    forall i, j :: 0 <= i < j < |cages| ==> cages[i].id < cages[j].id
  }

  /** `cages.find(c => c.id === kandangId)`; a `null` id matches no cage. */
  function FindCage(cages: seq<Cage>, id: Option<int>): (r: Option<Cage>)
    ensures r.Some? ==> id.Some? && r.value in cages && r.value.id == id.value
    ensures r.None? <==> id.None? || forall c :: c in cages ==> c.id != id.value
  {
    if id.None? || cages == [] then None
    else if cages[0].id == id.value then Some(cages[0])
    else FindCage(cages[1..], id)
  }

  /** The table after `update({ jumlah_puyuh: n }).eq('id', id)`; what it
      changes is stated by `SetPopulationChangesOnlyCount`. */
  function SetPopulation(cages: seq<Cage>, id: int, n: int): seq<Cage> {
    if cages == [] then []
    else [if cages[0].id == id then cages[0].(jumlahPuyuh := n) else cages[0]] + SetPopulation(cages[1..], id, n)
  }

  /** The table after `update(formData).eq('id', id)` with the coerced form values.
      The row-by-row ensures are what `SameIdsKeepBounds` and `Submit`'s kept
      invariant rely on: ids stay put, matching rows take the form, others stay. */
  function SetRow(cages: seq<Cage>, id: int, nama: string, kapasitas: int, jumlah: int): (r: seq<Cage>)
    ensures |r| == |cages|
    ensures forall i :: 0 <= i < |r| ==> r[i].id == cages[i].id
    ensures forall i :: 0 <= i < |r| ==> cages[i].id == id ==> r[i] == Cage(id, nama, kapasitas, jumlah)
    ensures forall i :: 0 <= i < |r| ==> cages[i].id != id ==> r[i] == cages[i]
  {
    seq(|cages|, i requires 0 <= i < |cages| =>
      if cages[i].id == id then Cage(id, nama, kapasitas, jumlah) else cages[i])
  }

  /** The table after `delete().eq('id', id)`, in the order it had; what it
      keeps is stated by `WithoutCageKeepsTheRest` and `DeleteRemovesOneRow`. */
  function WithoutCage(cages: seq<Cage>, id: int): seq<Cage> {
    if cages == [] then []
    else if cages[0].id == id then WithoutCage(cages[1..], id)
    else [cages[0]] + WithoutCage(cages[1..], id)
  }

  // ---------------------------------------------------------------------
  // The create/update form

  /** `!!x` for a form field: '' is falsy, and so is the number 0. */
  predicate FieldTruthy(f: Field) {
    match f
    case Text(s) => StringTruthy(s)
    case Number(n) => n != 0
  }

  /** The guard of `handleSubmit`: a name and a capacity must be filled in. */
  predicate Submittable(form: CageForm) {
    StringTruthy(form.namaKandang) && FieldTruthy(form.kapasitas)
  }

  /** `editingId ? … : …`: `null` and id 0 mean a new cage. */
  predicate Editing(editingId: Option<int>) {
    editingId.Some? && editingId.value != 0
  }

  /** The form `handleEdit(item)` fills in. */
  function EditForm(item: Cage): CageForm {
    CageForm(item.namaKandang, Number(item.kapasitas), Number(item.jumlahPuyuh))
  }

  /** How the backend reads a form value into an integer column: a number
      as it is, text only when it is an optional minus sign followed by
      decimal digits. */
  function IntColumn(f: Field): (r: Option<int>)
    ensures f.Number? ==> r == Some(f.value)
  {
    match f
    case Number(n) => Some(n)
    case Text(s) =>
      if |s| >= 2 && s[0] == '-' && AllDigits(s[1..]) then Some(-DigitsValue(s[1..], 10))
      else if |s| >= 1 && AllDigits(s) then Some(DigitsValue(s, 10))
      else None
  }

  /** The error the backend reports for a value that is no integer. */
  function ColumnError(f: Field): string {
    match f
    case Text(s) => "invalid input syntax for type integer: \"" + s + "\""
    case Number(_) => ""
  }

  /** The two integer columns of a form as the backend stores them, or the
      error it rejects the write with (capacity is read first). */
  datatype Columns = Columns(kapasitas: int, jumlahPuyuh: int) | Rejected(message: string)

  function Coerce(form: CageForm): (r: Columns)
    ensures r.Columns? <==> IntColumn(form.kapasitas).Some? && IntColumn(form.jumlahPuyuh).Some?
    ensures r.Columns? ==>
              r.kapasitas == IntColumn(form.kapasitas).value && r.jumlahPuyuh == IntColumn(form.jumlahPuyuh).value
    ensures IntColumn(form.kapasitas).None? ==> r == Rejected(ColumnError(form.kapasitas))
  {
    var k := IntColumn(form.kapasitas);
    var j := IntColumn(form.jumlahPuyuh);
    if k.None? then Rejected(ColumnError(form.kapasitas))
    else if j.None? then Rejected(ColumnError(form.jumlahPuyuh))
    else Columns(k.value, j.value)
  }

  /** The question `handleSubmit` asks. */
  function SubmitQuestion(editing: bool): (d: Dialog)
    ensures d.open
    ensures d.title == if editing then "Update Data" else "Tambah Kandang"
    ensures d.confirmLabel == if editing then "Update" else "Simpan"
    ensures GetStyles(d.variant) == ConfirmStyle
  {
    var action := if editing then "Update Data" else "Tambah Kandang";
    var lower := if editing then "update data" else "tambah kandang";
    Opened("Yakin ingin " + lower + "?", Some(action),
           Options(Some("confirm"), Some(if editing then "Update" else "Simpan")))
  }

  // ---------------------------------------------------------------------
  // The population reduction

  /** `parseInt(reduceData.jumlah)` when it passes `!amount || amount <= 0`. */
  function ReductionAmount(text: string): (r: Option<int>)
    ensures r.Some? <==> ParseInt(text).Some? && ParseInt(text).value > 0
    ensures r.Some? ==> r.value == ParseInt(text).value
  {
    match ParseInt(text)
    case Some(a) => if a > 0 then Some(a) else None
    case None => None
  }

  /** The question `handleReduceSubmit` asks before it writes anything. */
  function ReduceQuestion(amount: int): (d: Dialog)
    ensures d.open && d.title == "Konfirmasi Pengurangan" && d.confirmLabel == "Kurangi"
    ensures |d.message| > 34 && ParseInt(d.message[34..]) == Some(amount)
    ensures GetStyles(d.variant) == DangerStyle
  {
    var text := DecimalText(amount) + " ekor?";
    ParseIntOfDecimalText(amount, " ekor?");
    var message := "Yakin mengurangi populasi sebesar " + text;
    assert message[34..] == text;
    Opened(message, Some("Konfirmasi Pengurangan"), Options(Some("warning"), Some("Kurangi")))
  }

  /** `user?.user_metadata?.full_name || user?.email || 'Unknown'`. */
  function Actor(user: Option<User>): (name: string)
    ensures name != ""
    ensures user.Some? && OrElse(user.value.fullName, "") != "" ==> name == user.value.fullName.value
    ensures (user.Some? && OrElse(user.value.fullName, "") == "" && OrElse(user.value.email, "") != "")
              ==> name == user.value.email.value
    ensures (user.None? || (OrElse(user.value.fullName, "") == "" && OrElse(user.value.email, "") == ""))
              ==> name == "Unknown"
  {
    match user
    case None => "Unknown"
    case Some(u) => OrElse(u.fullName, OrElse(u.email, "Unknown"))
  }

  /** The history row a reduction of `amount` on cage `kandangId` appends. */
  function ReductionEntry(kandangId: int, amount: int, data: ReduceData, user: Option<User>, now: int): (e: LogEntry)
    ensures e.kandangId == kandangId && e.jumlah == amount && e.createdAt == now
    ensures e.jenisPerubahan == "pengurangan" && e.alasan == data.alasan
    ensures e.keterangan == if data.keterangan == "" then "-" else data.keterangan
    ensures e.userInput != "" && e.userInput == Actor(user)
  {
    LogEntry(kandangId, amount, "pengurangan", data.alasan, OrElse(Some(data.keterangan), "-"), Actor(user), now)
  }

  // ---------------------------------------------------------------------
  // Rendering

  /** The colours of a cage's population badge. */
  datatype Badge = Badge(background: string, colour: string)

  const OverBadge := Badge("#fef2f2", "#ef4444")
  const WithinBadge := Badge("#f0fdf4", "#15803d")

  /** The badge is red exactly when the cage holds more quail than its capacity. */
  function PopulationBadge(c: Cage): (b: Badge)
    ensures b == OverBadge <==> c.jumlahPuyuh > c.kapasitas
    ensures b == WithinBadge <==> c.jumlahPuyuh <= c.kapasitas
  {
    if c.jumlahPuyuh > c.kapasitas then OverBadge else WithinBadge
  }

  /** The change column of a history row: '-' for a reduction, '+' for
      anything else, then the amount. */
  function ChangeText(jenisPerubahan: string, jumlah: int): (text: string)
    ensures |text| >= 2
    ensures text[0] == '-' <==> jenisPerubahan == "pengurangan"
    ensures text[0] == '+' <==> jenisPerubahan != "pengurangan"
    ensures ParseInt(text[1..]) == Some(jumlah)
  {
    var sign := if jenisPerubahan == "pengurangan" then "-" else "+";
    ParseIntRoundTrip(jumlah);
    assert (sign + DecimalText(jumlah))[1..] == DecimalText(jumlah);
    sign + DecimalText(jumlah)
  }

  /** A history row as `HistoryRows` shows it. */
  datatype HistoryLine = HistoryLine(cageName: string, change: string, alasan: string,
                                     keterangan: Option<string>, userInput: string)

  /** The row for `e`, whose cage name comes from the cage it refers to. */
  function ShowHistory(e: LogEntry, cages: seq<Cage>): (line: HistoryLine)
    ensures line.cageName != "" && line.alasan != ""
    ensures FindCage(cages, Some(e.kandangId)).None? ==> line.cageName == "Unknown"
    ensures FindCage(cages, Some(e.kandangId)).Some? ==>
              line.cageName == OrElse(Some(FindCage(cages, Some(e.kandangId)).value.namaKandang), "Unknown")
    ensures e.alasan != "" ==> line.alasan == e.alasan
    ensures e.alasan == "" ==> line.alasan == "-"
    ensures line.keterangan.Some? <==> e.keterangan != ""
    ensures e.keterangan != "" ==> line.keterangan == Some(e.keterangan)
    ensures line.userInput == e.userInput
    ensures |line.change| >= 2 && (line.change[0] == '-' <==> e.jenisPerubahan == "pengurangan")
    ensures ParseInt(line.change[1..]) == Some(e.jumlah)
  {
    var name := match FindCage(cages, Some(e.kandangId))
                case Some(c) => Some(c.namaKandang)
                case None => None;
    HistoryLine(OrElse(name, "Unknown"), ChangeText(e.jenisPerubahan, e.jumlah), OrElse(Some(e.alasan), "-"),
                if e.keterangan != "" then Some(e.keterangan) else None, e.userInput)
  }

  // ---------------------------------------------------------------------
  // The view

  /** Ids ascend and lie between 1 and the next id the backend hands out. */
  predicate TableInvariant(cages: seq<Cage>, nextId: int) {
    nextId >= 1 && IdsAscending(cages) && forall c :: c in cages ==> 1 <= c.id < nextId
  }

  class KandangManager {
    /** The `kandang` table, which `cages` mirrors after every fetch. */
    var cages: seq<Cage>
    /** The `riwayat_populasi` table. */
    var history: seq<LogEntry>
    /** The id the backend gives the next inserted cage. */
    var nextId: int
    var form: CageForm
    var editingId: Option<int>
    var reduceModal: ReduceModal
    var reduceData: ReduceData

    predicate Valid()
      reads this
    {
      TableInvariant(cages, nextId)
    }

    /** The view as it is mounted on the tables `cages0` and `history0`. */
    constructor (cages0: seq<Cage>, history0: seq<LogEntry>, nextId0: int)
      requires TableInvariant(cages0, nextId0)
      ensures Valid()
      ensures cages == cages0 && history == history0 && nextId == nextId0
      ensures form == EmptyForm && editingId == None
      ensures reduceModal == ClosedModal && reduceData == FreshReduceData
    {
      cages := cages0;
      history := history0;
      nextId := nextId0;
      form := EmptyForm;
      editingId := None;
      reduceModal := ClosedModal;
      reduceData := FreshReduceData;
    }

    /** Typing into the name input. */
    method TypeName(text: string)
      modifies this
      ensures form == old(form).(namaKandang := text)
      ensures cages == old(cages) && history == old(history) && nextId == old(nextId)
      ensures editingId == old(editingId) && reduceModal == old(reduceModal) && reduceData == old(reduceData)
    {
      form := form.(namaKandang := text);
    }

    /** Typing into the capacity input. */
    method TypeCapacity(text: string)
      modifies this
      ensures form == old(form).(kapasitas := Text(text))
      ensures cages == old(cages) && history == old(history) && nextId == old(nextId)
      ensures editingId == old(editingId) && reduceModal == old(reduceModal) && reduceData == old(reduceData)
    {
      form := form.(kapasitas := Text(text));
    }

    /** Typing into the initial-population input. */
    method TypePopulation(text: string)
      modifies this
      ensures form == old(form).(jumlahPuyuh := Text(text))
      ensures cages == old(cages) && history == old(history) && nextId == old(nextId)
      ensures editingId == old(editingId) && reduceModal == old(reduceModal) && reduceData == old(reduceData)
    {
      form := form.(jumlahPuyuh := Text(text));
    }

    /** `handleSubmit`: nothing happens unless the form is submittable and the
        user confirms; then the cage being edited is updated, or a new cage is
        inserted, and on success the form is reset. */
    method Submit(confirmed: bool, result: WriteResult) returns (notice: Option<Notice>)
      requires Valid()
      modifies this
      ensures Valid()
      ensures history == old(history) && reduceModal == old(reduceModal) && reduceData == old(reduceData)
      ensures !Submittable(old(form)) || !confirmed ==>
                notice == None && cages == old(cages) && nextId == old(nextId)
                && form == old(form) && editingId == old(editingId)
      ensures Submittable(old(form)) && confirmed && (Coerce(old(form)).Rejected? || result.WriteErr?) ==>
                notice == Some(SaveFailed(if Coerce(old(form)).Rejected? then Coerce(old(form)).message else result.message))
                && cages == old(cages) && nextId == old(nextId) && form == old(form) && editingId == old(editingId)
      ensures Submittable(old(form)) && confirmed && Coerce(old(form)).Columns? && result.WriteOk? ==>
                form == EmptyForm && editingId == None
                && (Editing(old(editingId)) ==>
                      cages == SetRow(old(cages), old(editingId.value), old(form.namaKandang),
                                      Coerce(old(form)).kapasitas, Coerce(old(form)).jumlahPuyuh)
                      && nextId == old(nextId)
                      && notice == Some(CageUpdated))
                && (!Editing(old(editingId)) ==>
                      cages == old(cages) + [Cage(old(nextId), old(form.namaKandang),
                                                  Coerce(old(form)).kapasitas, Coerce(old(form)).jumlahPuyuh)]
                      && nextId == old(nextId) + 1
                      && notice == Some(CageAdded))
    {
      if !Submittable(form) || !confirmed {
        return None;
      }
      var columns := Coerce(form);
      if columns.Rejected? {
        return Some(SaveFailed(columns.message));
      }
      if result.WriteErr? {
        return Some(SaveFailed(result.message));
      }
      if Editing(editingId) {
        cages := SetRow(cages, editingId.value, form.namaKandang, columns.kapasitas, columns.jumlahPuyuh);
        notice := Some(CageUpdated);
        SameIdsKeepBounds(old(cages), cages, nextId);
      } else {
        AppendKeepsBounds(cages, Cage(nextId, form.namaKandang, columns.kapasitas, columns.jumlahPuyuh), nextId);
        cages := cages + [Cage(nextId, form.namaKandang, columns.kapasitas, columns.jumlahPuyuh)];
        nextId := nextId + 1;
        notice := Some(CageAdded);
      }
      ResetForm();
    }

    /** `handleEdit(item)`: the form takes the cage's values and the cage becomes the one being edited. */
    method Edit(item: Cage)
      modifies this
      ensures form == EditForm(item) && editingId == Some(item.id)
      ensures cages == old(cages) && history == old(history) && nextId == old(nextId)
      ensures reduceModal == old(reduceModal) && reduceData == old(reduceData)
    {
      form := EditForm(item);
      editingId := Some(item.id);
    }

    /** `resetForm`, also the "Batal Edit" button. */
    method ResetForm()
      modifies this
      ensures form == EmptyForm && editingId == None
      ensures cages == old(cages) && history == old(history) && nextId == old(nextId)
      ensures reduceModal == old(reduceModal) && reduceData == old(reduceData)
    {
      form := EmptyForm;
      editingId := None;
    }

    /** `handleDelete(id)`: after confirmation the cage is deleted; the form
        is left as it is, even when it is editing that cage. */
    method Delete(id: int, confirmed: bool, result: WriteResult) returns (notice: Option<Notice>)
      requires Valid()
      modifies this
      ensures Valid()
      ensures history == old(history) && nextId == old(nextId) && form == old(form) && editingId == old(editingId)
      ensures reduceModal == old(reduceModal) && reduceData == old(reduceData)
      ensures !confirmed ==> notice == None && cages == old(cages)
      ensures confirmed && result.WriteOk? ==>
                cages == WithoutCage(old(cages), id) && notice == Some(CageDeleted)
      ensures confirmed && result.WriteErr? ==>
                cages == old(cages) && notice == Some(DeleteFailed(result.message))
    {
      if !confirmed {
        return None;
      }
      if result.WriteOk? {
        WithoutCageKeepsTheRest(cages, id);
        cages := WithoutCage(cages, id);
        notice := Some(CageDeleted);
      } else {
        notice := Some(DeleteFailed(result.message));
      }
    }

    /** `openReduceModal(kandang)`: the modal opens on that cage with a fresh form. */
    method OpenReduceModal(kandang: Cage)
      modifies this
      ensures reduceModal == ReduceModal(true, Some(kandang.id), kandang.namaKandang)
      ensures reduceData == FreshReduceData
      ensures cages == old(cages) && history == old(history) && nextId == old(nextId)
      ensures form == old(form) && editingId == old(editingId)
    {
      reduceModal := ReduceModal(true, Some(kandang.id), kandang.namaKandang);
      reduceData := FreshReduceData;
    }

    /** The modal's close and cancel buttons: only `open` changes. */
    method CloseReduceModal()
      modifies this
      ensures reduceModal == old(reduceModal).(open := false)
      ensures reduceData == old(reduceData)
      ensures cages == old(cages) && history == old(history) && nextId == old(nextId)
      ensures form == old(form) && editingId == old(editingId)
    {
      reduceModal := reduceModal.(open := false);
    }

    /** Filling in the reduction form (amount, reason, note). */
    method FillReduceData(data: ReduceData)
      modifies this
      ensures reduceData == data
      ensures reduceModal == old(reduceModal)
      ensures cages == old(cages) && history == old(history) && nextId == old(nextId)
      ensures form == old(form) && editingId == old(editingId)
    {
      reduceData := data;
    }

    /** `handleReduceSubmit` by `user` at clock reading `now`, with `update`
        the outcome of the cage update and `logWrite` that of the history
        insert.  A rejected or unconfirmed reduction, or one about a cage
        that is not loaded, writes nothing; an accepted one lowers the
        cage's count by the amount and then tries to log it, and a failed
        log leaves the count lowered. */
    method ReduceSubmit(confirmed: bool, user: Option<User>, now: int, update: WriteResult, logWrite: WriteResult)
      returns (notice: Option<Notice>)
      requires Valid()
      modifies this
      ensures Valid()
      ensures nextId == old(nextId) && form == old(form) && editingId == old(editingId) && reduceData == old(reduceData)
      // the amount is not a positive number
      ensures ReductionAmount(old(reduceData.jumlah)).None? ==>
                notice == Some(AmountRefused)
                && cages == old(cages) && history == old(history) && reduceModal == old(reduceModal)
      // the user cancels, or the cage is not in the loaded list
      ensures ReductionAmount(old(reduceData.jumlah)).Some?
              && (!confirmed || FindCage(old(cages), old(reduceModal.kandangId)).None?) ==>
                notice == None && cages == old(cages) && history == old(history) && reduceModal == old(reduceModal)
      // the amount exceeds the cage's population
      ensures ReductionAmount(old(reduceData.jumlah)).Some? && confirmed
              && FindCage(old(cages), old(reduceModal.kandangId)).Some?
              && FindCage(old(cages), old(reduceModal.kandangId)).value.jumlahPuyuh < ReductionAmount(old(reduceData.jumlah)).value ==>
                notice == Some(OverPopulation)
                && cages == old(cages) && history == old(history) && reduceModal == old(reduceModal)
      // accepted, but the cage update fails: no history row is attempted
      ensures Accepted(confirmed, old(cages), old(reduceModal), old(reduceData)) && update.WriteErr? ==>
                notice == Some(UpdateFailed(update.message))
                && cages == old(cages) && history == old(history) && reduceModal == old(reduceModal)
      // accepted and the cage is updated: the count drops by the amount, then the history row is written if it can be
      ensures Accepted(confirmed, old(cages), old(reduceModal), old(reduceData)) && update.WriteOk? ==>
                var kandang := FindCage(old(cages), old(reduceModal.kandangId)).value;
                var amount := ReductionAmount(old(reduceData.jumlah)).value;
                cages == SetPopulation(old(cages), kandang.id, kandang.jumlahPuyuh - amount)
                && reduceModal == ClosedModal
                && (logWrite.WriteOk? ==>
                      history == old(history) + [ReductionEntry(kandang.id, amount, old(reduceData), user, now)]
                      && notice == Some(ReductionSaved))
                && (logWrite.WriteErr? ==>
                      history == old(history)
                      && notice == Some(ReductionNotLogged))
    {
      var amount := ReductionAmount(reduceData.jumlah);
      if amount.None? {
        return Some(AmountRefused);
      }
      if !confirmed {
        return None;
      }
      notice := ReduceConfirmed(amount.value, user, now, update, logWrite);
    }

    /** The part of `handleReduceSubmit` after the amount was read as
        `amount` and the user confirmed: the cage is looked up in the
        loaded list, checked against its population, and updated. */
    method ReduceConfirmed(amount: int, user: Option<User>, now: int, update: WriteResult, logWrite: WriteResult)
      returns (notice: Option<Notice>)
      requires Valid()
      modifies this
      ensures Valid()
      ensures nextId == old(nextId) && form == old(form) && editingId == old(editingId) && reduceData == old(reduceData)
      ensures FindCage(old(cages), old(reduceModal.kandangId)).None? ==>
                notice == None && cages == old(cages) && history == old(history) && reduceModal == old(reduceModal)
      ensures FindCage(old(cages), old(reduceModal.kandangId)).Some?
              && FindCage(old(cages), old(reduceModal.kandangId)).value.jumlahPuyuh < amount ==>
                notice == Some(OverPopulation)
                && cages == old(cages) && history == old(history) && reduceModal == old(reduceModal)
      ensures FindCage(old(cages), old(reduceModal.kandangId)).Some?
              && FindCage(old(cages), old(reduceModal.kandangId)).value.jumlahPuyuh >= amount
              && update.WriteErr? ==>
                notice == Some(UpdateFailed(update.message))
                && cages == old(cages) && history == old(history) && reduceModal == old(reduceModal)
      ensures FindCage(old(cages), old(reduceModal.kandangId)).Some?
              && FindCage(old(cages), old(reduceModal.kandangId)).value.jumlahPuyuh >= amount
              && update.WriteOk? ==>
                var kandang := FindCage(old(cages), old(reduceModal.kandangId)).value;
                cages == SetPopulation(old(cages), kandang.id, kandang.jumlahPuyuh - amount)
                && reduceModal == ClosedModal
                && (logWrite.WriteOk? ==>
                      history == old(history) + [ReductionEntry(kandang.id, amount, old(reduceData), user, now)]
                      && notice == Some(ReductionSaved))
                && (logWrite.WriteErr? ==>
                      history == old(history)
                      && notice == Some(ReductionNotLogged))
    {
      var target := FindCage(cages, reduceModal.kandangId);
      if target.None? {
        return None;
      }
      var kandang := target.value;
      if kandang.jumlahPuyuh < amount {
        return Some(OverPopulation);
      }
      if update.WriteErr? {
        return Some(UpdateFailed(update.message));
      }
      notice := CommitReduction(kandang, amount, user, now, logWrite);
    }

    /** The part of `handleReduceSubmit` after the cage update succeeded: the
        loaded list takes the new count, the history row is written if it
        can be, and the modal closes. */
    method CommitReduction(kandang: Cage, amount: int, user: Option<User>, now: int, logWrite: WriteResult)
      returns (notice: Option<Notice>)
      requires Valid()
      modifies this
      ensures Valid()
      ensures nextId == old(nextId) && form == old(form) && editingId == old(editingId) && reduceData == old(reduceData)
      ensures cages == SetPopulation(old(cages), kandang.id, kandang.jumlahPuyuh - amount)
      ensures reduceModal == ClosedModal
      ensures logWrite.WriteOk? ==>
                history == old(history) + [ReductionEntry(kandang.id, amount, old(reduceData), user, now)]
                && notice == Some(ReductionSaved)
      ensures logWrite.WriteErr? ==>
                history == old(history)
                && notice == Some(ReductionNotLogged)
    {
      var newCount := kandang.jumlahPuyuh - amount;
      SetPopulationKeepsInvariant(cages, kandang.id, newCount, nextId);
      cages := SetPopulation(cages, kandang.id, newCount);
      if logWrite.WriteErr? {
        notice := Some(ReductionNotLogged);
      } else {
        history := history + [ReductionEntry(kandang.id, amount, reduceData, user, now)];
        notice := Some(ReductionSaved);
      }
      reduceModal := ClosedModal;
    }
  }

  /** A reduction that passes every check of `handleReduceSubmit` before the writes. */
  predicate Accepted(confirmed: bool, cages: seq<Cage>, modal: ReduceModal, data: ReduceData) {
    ReductionAmount(data.jumlah).Some? && confirmed
    && FindCage(cages, modal.kandangId).Some?
    && FindCage(cages, modal.kandangId).value.jumlahPuyuh >= ReductionAmount(data.jumlah).value
  }

  // ---------------------------------------------------------------------
  // Lemmas

  /** The amount text of a positive number is accepted as that number; zero
      and negative numbers are rejected. */
  lemma ReductionAmountOfDecimal(n: int)
    ensures ReductionAmount(DecimalText(n)) == if n > 0 then Some(n) else None
  {
    ParseIntRoundTrip(n);
  }

  /** Setting the count of the cages with id `id` changes nothing else, and
      nothing about the other cages. */
  lemma {:induction false} SetPopulationChangesOnlyCount(cages: seq<Cage>, id: int, n: int)
    ensures |SetPopulation(cages, id, n)| == |cages|
    ensures forall i :: 0 <= i < |cages| ==>
              SetPopulation(cages, id, n)[i] == if cages[i].id == id then cages[i].(jumlahPuyuh := n) else cages[i]
  {
    if cages != [] {
      SetPopulationChangesOnlyCount(cages[1..], id, n);
    }
  }

  /** A cage with an id no other cage has: lowering its count by an amount
      it can afford leaves it with a count that is not negative, and leaves
      every other cage as it was. */
  lemma ReductionOnlyLowersTarget(cages: seq<Cage>, kandang: Cage, amount: int)
    requires IdsAscending(cages) && kandang in cages && 0 < amount <= kandang.jumlahPuyuh
    ensures var after := SetPopulation(cages, kandang.id, kandang.jumlahPuyuh - amount);
            |after| == |cages| && forall i :: 0 <= i < |cages| ==>
              (cages[i] != kandang ==> after[i] == cages[i])
              && (cages[i] == kandang ==> after[i] == kandang.(jumlahPuyuh := kandang.jumlahPuyuh - amount)
                                          && after[i].jumlahPuyuh >= 0)
  {
    var after := SetPopulation(cages, kandang.id, kandang.jumlahPuyuh - amount);
    SetPopulationChangesOnlyCount(cages, kandang.id, kandang.jumlahPuyuh - amount);
    forall i | 0 <= i < |cages|
      ensures cages[i] != kandang ==> after[i] == cages[i]
    {
      if cages[i] != kandang {
        IdsAreUnique(cages, i, kandang);
      }
    }
  }

  /** Deleting an id that no cage has changes nothing. */
  lemma {:induction false} WithoutAbsentCage(cages: seq<Cage>, id: int)
    requires forall c :: c in cages ==> c.id != id
    ensures WithoutCage(cages, id) == cages
  {
    if cages != [] {
      assert cages[0] in cages;
      assert forall c :: c in cages[1..] ==> c in cages;
      WithoutAbsentCage(cages[1..], id);
    }
  }

  /** In a table with ascending ids, deleting the id of row `k` removes that
      row and no other, and keeps the order of the rest. */
  lemma {:induction false} DeleteRemovesOneRow(cages: seq<Cage>, k: int)
    requires IdsAscending(cages) && 0 <= k < |cages|
    ensures WithoutCage(cages, cages[k].id) == cages[..k] + cages[k + 1..]
  {
    var id := cages[k].id;
    var tail := cages[1..];
    AscendingTail(cages);
    if k == 0 {
      WithoutAbsentCage(tail, id);
      assert cages[..k] + cages[k + 1..] == tail;
    } else {
      assert tail[k - 1] == cages[k];
      DeleteRemovesOneRow(tail, k - 1);
      assert cages[..k] + cages[k + 1..] == [cages[0]] + (tail[..k - 1] + tail[k..]);
    }
  }

  /** Deleting an id keeps exactly the cages with other ids, and keeps the
      ids ascending. */
  lemma {:induction false} WithoutCageKeepsTheRest(cages: seq<Cage>, id: int)
    ensures forall c :: c in WithoutCage(cages, id) <==> c in cages && c.id != id
    ensures IdsAscending(cages) ==> IdsAscending(WithoutCage(cages, id))
  {
    if cages != [] {
      var rest := WithoutCage(cages[1..], id);
      WithoutCageKeepsTheRest(cages[1..], id);
      assert forall c :: c in cages <==> c == cages[0] || c in cages[1..] by {
        assert cages == [cages[0]] + cages[1..];
      }
      if IdsAscending(cages) && cages[0].id != id {
        AscendingTail(cages);
        AscendingCons(cages[0], rest);
      }
    }
  }

  /** A cage in front of larger ids keeps the ids ascending. */
  lemma AscendingCons(c: Cage, rest: seq<Cage>)
    requires IdsAscending(rest) && forall d :: d in rest ==> c.id < d.id
    ensures IdsAscending([c] + rest)
  {
    var r := [c] + rest;
    forall i, j | 0 <= i < j < |r| ensures r[i].id < r[j].id {
      assert r[j] == rest[j - 1];
      if i > 0 {
        assert r[i] == rest[i - 1];
      }
    }
  }

  /** Behind the first cage of a table with ascending ids come only larger
      ids, in ascending order. */
  lemma AscendingTail(cages: seq<Cage>)
    requires IdsAscending(cages) && cages != []
    ensures IdsAscending(cages[1..])
    ensures forall c :: c in cages[1..] ==> cages[0].id < c.id
  {
    forall c | c in cages[1..] ensures cages[0].id < c.id {
      var j :| 0 <= j < |cages[1..]| && cages[1..][j] == c;
      assert cages[j + 1] == c;
    }
  }

  /** In a table with ascending ids, the id determines the cage. */
  lemma IdsAreUnique(cages: seq<Cage>, i: int, kandang: Cage)
    requires IdsAscending(cages) && kandang in cages && 0 <= i < |cages| && cages[i] != kandang
    ensures cages[i].id != kandang.id
  {
    var k :| 0 <= k < |cages| && cages[k] == kandang;
    if i < k {
      assert cages[i].id < cages[k].id;
    } else {
      assert cages[k].id < cages[i].id;
    }
  }

  /** Setting a population keeps the table invariant. */
  lemma SetPopulationKeepsInvariant(cages: seq<Cage>, id: int, n: int, nextId: int)
    requires TableInvariant(cages, nextId)
    ensures TableInvariant(SetPopulation(cages, id, n), nextId)
  {
    SetPopulationChangesOnlyCount(cages, id, n);
    SameIdsKeepBounds(cages, SetPopulation(cages, id, n), nextId);
  }

  /** A table rewritten row by row without touching the ids keeps the table invariant. */
  lemma SameIdsKeepBounds(before: seq<Cage>, after: seq<Cage>, nextId: int)
    requires IdsAscending(before) && forall c :: c in before ==> 1 <= c.id < nextId
    requires |after| == |before| && forall i :: 0 <= i < |after| ==> after[i].id == before[i].id
    ensures IdsAscending(after) && forall c :: c in after ==> 1 <= c.id < nextId
  {
    forall c | c in after ensures 1 <= c.id < nextId {
      var i :| 0 <= i < |after| && after[i] == c;
      assert before[i] in before;
    }
  }

  /** Appending a cage whose id is above every other keeps the table invariant. */
  lemma AppendKeepsBounds(cages: seq<Cage>, c: Cage, nextId: int)
    requires IdsAscending(cages) && forall d :: d in cages ==> 1 <= d.id < nextId
    requires c.id == nextId && nextId >= 1
    ensures IdsAscending(cages + [c]) && forall d :: d in cages + [c] ==> 1 <= d.id < nextId + 1
  {
    var r := cages + [c];
    forall i, j | 0 <= i < j < |r| ensures r[i].id < r[j].id {
      assert r[i] in cages;
      if j < |cages| {
        assert r[i] == cages[i] && r[j] == cages[j];
      }
    }
  }

  /** The history row of a reduction shows '-' and then the amount. */
  lemma LoggedReductionShowsMinus(kandangId: int, amount: int, data: ReduceData, user: Option<User>, now: int, cages: seq<Cage>)
    ensures var line := ShowHistory(ReductionEntry(kandangId, amount, data, user, now), cages);
            |line.change| >= 2 && line.change[0] == '-' && ParseInt(line.change[1..]) == Some(amount)
            && line.keterangan.Some? && line.userInput == Actor(user)
  {
  }

  /** The empty form is never submitted. */
  lemma EmptyFormIsNotSubmittable()
    ensures !Submittable(EmptyForm)
  {
  }

  /** A cage put into the form by `handleEdit` can be submitted again exactly
      when it has a name and a capacity other than 0, and it is stored back
      with its own values. */
  lemma EditedFormRoundTrip(item: Cage)
    ensures Submittable(EditForm(item)) <==> item.namaKandang != "" && item.kapasitas != 0
    ensures Coerce(EditForm(item)) == Columns(item.kapasitas, item.jumlahPuyuh)
  {
  }

  /** The decimal text of an integer is accepted by an integer column as that integer. */
  lemma IntColumnOfDecimalText(n: int)
    ensures IntColumn(Text(DecimalText(n))) == Some(n)
  {
    if n < 0 {
      var s := DecimalText(n);
      assert s[1..] == DecimalDigits(-n);
      DecimalDigitsValue(-n);
    } else {
      DecimalDigitsValue(n);
    }
  }

  /** Text an integer column accepts is read by `parseInt` as the same number. */
  lemma IntColumnAgreesWithParseInt(s: string)
    requires IntColumn(Text(s)).Some?
    ensures ParseInt(s) == IntColumn(Text(s))
  {
    if |s| >= 2 && s[0] == '-' && AllDigits(s[1..]) {
      var u := s[1..];
      assert s == "-" + u;
      DigitRunOfDigits(u, []);
      assert u + [] == u && u[..|u|] == u;
      ParseIntNegative(u);
    } else {
      DigitRunOfDigits(s, []);
      assert s + [] == s && s[..|s|] == s;
      TrimStartWithoutSpace(s);
    }
  }

  /** An empty initial population is refused by the integer column, so a
      new cage must be given one. */
  lemma EmptyPopulationIsRejected(nama: string, kapasitas: Field)
    requires IntColumn(kapasitas).Some?
    ensures Coerce(CageForm(nama, kapasitas, Text(""))) == Rejected("invalid input syntax for type integer: \"\"")
  {
  }
}
