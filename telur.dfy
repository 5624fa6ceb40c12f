/** The egg-harvest view (`TelurManager`): a day's harvest is entered as a
    total and a damaged count, checked against negative numbers, confirmed
    and stored with its good count; the view totals the stored rows and
    estimates the revenue of the good eggs at Rp 300 each. */
module Telur {
  import opened Common
  import opened Js
  import opened ConfirmDialog
  import opened IsoDate

  /** The form `formData`; `jumahTelur` keeps the field's own spelling. */
  datatype EggForm = EggForm(jumahTelur: string, telurRusak: string, tanggal: string)

  /** A row of the `produksi_telur` table; `None` is a count stored as
      `null`, which is what JSON makes of `NaN`. */
  datatype ProductionRow = ProductionRow(tanggal: string, jumlahTotal: Option<int>,
                                         jumlahRusak: Option<int>, jumlahBagus: Option<int>)

  /** The estimated price of one good egg, in rupiah. */
  const EggPrice := 300

  /** `x < 0` for a parsed count; `NaN < 0` is false. */
  predicate Negative(x: Option<int>) {
    x.Some? && x.value < 0
  }

  /** The check of `handleSubmit` that ends in the alert 'Jumlah tidak boleh minus'. */
  predicate Refused(form: EggForm) {
    Negative(ParseInt(form.jumahTelur)) || Negative(ParseInt(form.telurRusak))
  }

  /** `a - b` on parsed counts: `NaN` on either side gives `NaN`. */
  function Difference(a: Option<int>, b: Option<int>): (r: Option<int>)
    ensures r.Some? <==> a.Some? && b.Some?
    ensures r.Some? ==> r.value + b.value == a.value
  {
    if a.Some? && b.Some? then Some(a.value - b.value) else None
  }

  /** A row whose good count is its total less its damaged count, all three present. */
  predicate Balanced(r: ProductionRow) {
    r.jumlahTotal.Some? && r.jumlahRusak.Some? && r.jumlahBagus.Some?
    && r.jumlahBagus.value + r.jumlahRusak.value == r.jumlahTotal.value
  }

  /** The row `handleSubmit` inserts. */
  function StoredRow(form: EggForm): (r: ProductionRow)
    ensures r.tanggal == form.tanggal
    ensures r.jumlahTotal == ParseInt(form.jumahTelur) && r.jumlahRusak == ParseInt(form.telurRusak)
    ensures Balanced(r) <==> ParseInt(form.jumahTelur).Some? && ParseInt(form.telurRusak).Some?
    ensures !Balanced(r) ==> r.jumlahBagus.None?
  {
    var total := ParseInt(form.jumahTelur);
    var rusak := ParseInt(form.telurRusak);
    ProductionRow(form.tanggal, total, rusak, Difference(total, rusak))
  }

  /** A count as a template literal writes it. */
  function CountText(x: Option<int>): string {
    if x.Some? then DecimalText(x.value) else "NaN"
  }

  /** The question `handleSubmit` asks. */
  function HarvestQuestion(total: Option<int>, rusak: Option<int>): (d: Dialog)
    ensures d.open && d.title == "Konfirmasi Panen" && d.confirmLabel == "Simpan"
    ensures GetStyles(d.variant) == ConfirmStyle
    ensures d.message == HarvestMessage(total, rusak)
  {
    Opened(HarvestMessage(total, rusak), Some("Konfirmasi Panen"), Options(Some("confirm"), Some("Simpan")))
  }

  /** The text of that question; the total is written first, after the 19
      characters of 'Simpan data panen: ', and the damaged count after the
      8 characters of ' butir (' that follow it. */
  function HarvestMessage(total: Option<int>, rusak: Option<int>): (message: string)
    ensures |message| > 19 && ParseInt(message[19..]) == total
    ensures |message| > 19 + |CountText(total)| + 8 && ParseInt(message[19 + |CountText(total)| + 8..]) == rusak
  {
    var tail := " butir (" + CountText(rusak) + " rusak)?";
    var text := CountText(total) + tail;
    CountTextReadsBack(total, tail);
    CountTextReadsBack(rusak, " rusak)?");
    assert ("Simpan data panen: " + text)[19..] == text;
    assert ("Simpan data panen: " + text)[19 + |CountText(total)| + 8..] == CountText(rusak) + " rusak)?";
    "Simpan data panen: " + text
  }

  /** A count written into a text, followed by a space, reads back as itself. */
  lemma CountTextReadsBack(x: Option<int>, tail: string)
    requires tail != [] && tail[0] == ' '
    ensures ParseInt(CountText(x) + tail) == x
  {
    if x.Some? {
      ParseIntOfDecimalText(x.value, tail);
    } else {
      NaNReadsAsNaN(tail);
    }
  }

  /** The good count the form previews: `parseInt(field || 0)`, so an empty
      field counts as 0 here although it is `NaN` when submitted. */
  function PreviewGood(form: EggForm): Option<int> {
    Difference(ParseInt(OrElse(Some(form.jumahTelur), "0")), ParseInt(OrElse(Some(form.telurRusak), "0")))
  }

  // ---------------------------------------------------------------------
  // The statistics

  datatype Column = Total | Rusak | Bagus

  /** `row.column || 0`: a `null` count adds nothing. */
  function Value(r: ProductionRow, c: Column): int {
    match c
    case Total => r.jumlahTotal.GetOr(0)
    case Rusak => r.jumlahRusak.GetOr(0)
    case Bagus => r.jumlahBagus.GetOr(0)
  }

  /** `logs.reduce((acc, curr) => acc + (curr.column || 0), 0)`. */
  function SumColumn(logs: seq<ProductionRow>, c: Column): int {
    if logs == [] then 0 else SumColumn(logs[..|logs| - 1], c) + Value(logs[|logs| - 1], c)
  }

  /** `totalTelur`. */
  function TotalTelur(logs: seq<ProductionRow>): int {
    SumColumn(logs, Total)
  }

  /** `totalRusak`. */
  function TotalRusak(logs: seq<ProductionRow>): int {
    SumColumn(logs, Rusak)
  }

  /** `estimasiPendapatan`: the undamaged eggs at Rp 300 each. */
  function EstimasiPendapatan(logs: seq<ProductionRow>): int {
    (TotalTelur(logs) - TotalRusak(logs)) * EggPrice
  }

  // ---------------------------------------------------------------------
  // The view

  class TelurManager {
    /** The `produksi_telur` table as the view lists it. */
    var logs: seq<ProductionRow>
    var form: EggForm

    /** The view as it is mounted at clock reading `nowMs` on the list `logs0`. */
    constructor (nowMs: int, logs0: seq<ProductionRow>)
      ensures logs == logs0 && form == EggForm("", "0", TodayText(nowMs))
    {
      logs := logs0;
      form := EggForm("", "0", TodayText(nowMs));
    }

    /** Editing the form's inputs. */
    method Fill(f: EggForm)
      modifies this
      ensures form == f && logs == old(logs)
    {
      form := f;
    }

    /** `handleSubmit`: a negative count is refused before anything is
        asked; a confirmed harvest is inserted with its good count, and on
        success the counts are reset and the date is kept.  `result` is the
        outcome of the insert. */
    method Submit(confirmed: bool, result: WriteResult) returns (notice: Option<Notice>)
      modifies this
      ensures Refused(old(form)) ==>
                notice == Some(Alert("Jumlah tidak boleh minus")) && logs == old(logs) && form == old(form)
      ensures !Refused(old(form)) && !confirmed ==> notice == None && logs == old(logs) && form == old(form)
      ensures !Refused(old(form)) && confirmed && result.WriteErr? ==>
                notice == Some(SaveFailed(result.message)) && logs == old(logs) && form == old(form)
      ensures !Refused(old(form)) && confirmed && result.WriteOk? ==>
                logs == old(logs) + [StoredRow(old(form))]
                && form == old(form).(jumahTelur := "", telurRusak := "0")
                && notice == Some(Toast("Data Panen Telur Tersimpan!", "success"))
    {
      var total := ParseInt(form.jumahTelur);
      var rusak := ParseInt(form.telurRusak);
      if Negative(total) || Negative(rusak) {
        return Some(Alert("Jumlah tidak boleh minus"));
      }
      if !confirmed {
        return None;
      }
      if result.WriteErr? {
        return Some(SaveFailed(result.message));
      }
      logs := logs + [ProductionRow(form.tanggal, total, rusak, Difference(total, rusak))];
      form := form.(jumahTelur := "", telurRusak := "0");
      notice := Some(Toast("Data Panen Telur Tersimpan!", "success"));
    }
  }

  // ---------------------------------------------------------------------
  // Lemmas

  /** Counts written out in decimal are refused exactly when one is negative. */
  lemma RefusedOfDecimal(total: int, rusak: int, tanggal: string)
    ensures Refused(EggForm(DecimalText(total), DecimalText(rusak), tanggal)) <==> total < 0 || rusak < 0
  {
    ParseIntRoundTrip(total);
    ParseIntRoundTrip(rusak);
  }

  /** More damaged eggs than eggs passes the check and is stored with a
      negative good count. */
  lemma NegativeGoodCountIsStored(total: nat, rusak: nat, tanggal: string)
    requires total < rusak
    ensures var form := EggForm(DecimalText(total), DecimalText(rusak), tanggal);
            !Refused(form) && StoredRow(form).jumlahBagus == Some(total - rusak) && total - rusak < 0
  {
    ParseIntRoundTrip(total);
    ParseIntRoundTrip(rusak);
  }

  /** A total that is not a number passes the check and is stored as `null`,
      and so is the good count. */
  lemma UnreadableTotalIsStoredAsNull(form: EggForm)
    requires ParseInt(form.jumahTelur).None? && !Negative(ParseInt(form.telurRusak))
    ensures !Refused(form) && StoredRow(form).jumlahTotal.None? && StoredRow(form).jumlahBagus.None?
  {
  }

  /** With both fields filled in, the preview shows the good count that is stored. */
  lemma PreviewAgreesWithStoredRow(form: EggForm)
    requires form.jumahTelur != "" && form.telurRusak != ""
    ensures PreviewGood(form) == StoredRow(form).jumlahBagus
  {
  }

  /** The fresh form previews 0 good eggs. */
  lemma FreshFormPreviewsZero(tanggal: string)
    ensures PreviewGood(EggForm("", "0", tanggal)) == Some(0)
  {
    ParseIntRoundTrip(0);
    assert DecimalText(0) == "0";
  }

  /** The sums split over a concatenation. */
  lemma {:induction false} SumColumnOfConcat(a: seq<ProductionRow>, b: seq<ProductionRow>, c: Column)
    ensures SumColumn(a + b, c) == SumColumn(a, c) + SumColumn(b, c)
    decreases |b|
  {
    if b == [] {
      assert a + b == a;
    } else {
      var n := |b|;
      assert (a + b)[..|a + b| - 1] == a + b[..n - 1];
      assert (a + b)[|a + b| - 1] == b[n - 1];
      SumColumnOfConcat(a, b[..n - 1], c);
    }
  }

  /** The totals do not depend on the order of the list. */
  lemma {:induction false} SumColumnOfPermutation(a: seq<ProductionRow>, b: seq<ProductionRow>, c: Column)
    requires multiset(a) == multiset(b)
    ensures SumColumn(a, c) == SumColumn(b, c)
    decreases |a|
  {
    if a == [] {
      assert |multiset(b)| == 0;
    } else {
      var i := PermutationWithoutLast(a, b);
      SumWithoutAt(b, i, c);
      SumColumnOfPermutation(a[..|a| - 1], b[..i] + b[i + 1..], c);
    }
  }

  /** The last row of `a` sits at some `i` in its permutation `b`, and the
      rest of `a` is a permutation of the rest of `b`. */
  lemma PermutationWithoutLast(a: seq<ProductionRow>, b: seq<ProductionRow>) returns (i: int)
    requires a != [] && multiset(a) == multiset(b)
    ensures 0 <= i < |b| && b[i] == a[|a| - 1]
    ensures multiset(a[..|a| - 1]) == multiset(b[..i] + b[i + 1..])
  {
    var x := a[|a| - 1];
    assert a == a[..|a| - 1] + [x];
    assert x in multiset(b) by {
      assert x in multiset(a);
    }
    i :| 0 <= i < |b| && b[i] == x;
    assert b == b[..i] + [x] + b[i + 1..];
    assert multiset(b[..i] + b[i + 1..]) == multiset(b) - multiset{x};
  }

  /** Taking out the row at `i` takes its value out of the sum. */
  lemma SumWithoutAt(b: seq<ProductionRow>, i: int, c: Column)
    requires 0 <= i < |b|
    ensures SumColumn(b, c) == SumColumn(b[..i] + b[i + 1..], c) + Value(b[i], c)
  {
    var x := b[i];
    assert b == b[..i] + [x] + b[i + 1..];
    SumColumnOfConcat(b[..i] + [x], b[i + 1..], c);
    SumColumnOfConcat(b[..i], [x], c);
    SumColumnOfConcat(b[..i], b[i + 1..], c);
    assert SumColumn([x], c) == Value(x, c) by {
      assert [x][..0] == [];
    }
  }

  /** On balanced rows the revenue estimate is the good eggs at Rp 300 each. */
  lemma {:induction false} RevenueCountsGoodEggs(logs: seq<ProductionRow>)
    requires forall r :: r in logs ==> Balanced(r)
    ensures EstimasiPendapatan(logs) == EggPrice * SumColumn(logs, Bagus)
  {
    if logs != [] {
      var n := |logs|;
      assert forall r :: r in logs[..n - 1] ==> r in logs;
      assert logs[n - 1] in logs;
      RevenueCountsGoodEggs(logs[..n - 1]);
    }
  }

  /** A saved harvest raises the totals by its own counts (a count that is
      not a number adds nothing) and the estimate by Rp 300 per good egg. */
  lemma SavedHarvestAddsToStats(logs: seq<ProductionRow>, form: EggForm)
    ensures TotalTelur(logs + [StoredRow(form)]) == TotalTelur(logs) + ParseInt(form.jumahTelur).GetOr(0)
    ensures TotalRusak(logs + [StoredRow(form)]) == TotalRusak(logs) + ParseInt(form.telurRusak).GetOr(0)
    ensures EstimasiPendapatan(logs + [StoredRow(form)]) ==
              EstimasiPendapatan(logs) + EggPrice * (ParseInt(form.jumahTelur).GetOr(0) - ParseInt(form.telurRusak).GetOr(0))
  {
    var r := logs + [StoredRow(form)];
    assert r[..|r| - 1] == logs;
  }
}
