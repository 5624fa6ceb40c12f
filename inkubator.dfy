/** The incubator view (`InkubatorManager`): a batch of quail eggs goes into
    the incubator on an intake date and is expected to hatch 17 calendar days
    later; the list of batches, ordered by that expected date, shows for each
    how many days remain and whether it is ready. */
module Inkubator {
  import opened Common
  import opened Js
  import opened CivilDate
  import opened IsoDate

  /** Quail eggs hatch after 17 days. */
  const IncubationDays := 17

  /** The intake form `formData`: date text, egg count text, and source ('produksi' or 'beli'). */
  datatype IncubationForm = IncubationForm(tanggalMasuk: string, jumlahTelur: string, sumber: string)

  /** A row of the `inkubator` table; `jumlahTelur` is `None` when the count
      was not a number (JSON writes `NaN` as `null`). */
  datatype Batch = Batch(tanggalMasuk: string, jumlahTelur: Option<int>, sumber: string,
                         estimasiMenetas: Date, status: string)

  /** The expected hatch date of eggs taken in on `d`: `setDate(getDate() + 17)`. */
  function HatchDate(d: Date): Date {
    AddDays(d, IncubationDays)
  }

  /** The row `handleSubmit` inserts for the form; `None` when the intake date
      is an Invalid Date, on which `toISOString` throws before anything is
      asked or written. */
  function Payload(form: IncubationForm): (r: Option<Batch>)
    ensures r.Some? <==> Parse(form.tanggalMasuk).Some?
    ensures r.Some? ==> r.value.status == "inkubasi" && r.value.jumlahTelur == ParseInt(form.jumlahTelur)
                        && r.value.tanggalMasuk == form.tanggalMasuk && r.value.sumber == form.sumber
    ensures r.Some? ==> IsValid(r.value.estimasiMenetas)
                        && ToDays(r.value.estimasiMenetas) == ToDays(Parse(form.tanggalMasuk).value) + IncubationDays
  {
    match Parse(form.tanggalMasuk)
    case None => None
    case Some(d) =>
      AddDaysIsDayShift(d, IncubationDays);
      Some(Batch(form.tanggalMasuk, ParseInt(form.jumlahTelur), form.sumber, HatchDate(d), "inkubasi"))
  }

  /** `Math.ceil(ms / (1000 * 60 * 60 * 24))` for a whole number of milliseconds. */
  function CeilDays(ms: int): (q: int)
    ensures (q - 1) * MsPerDay < ms <= q * MsPerDay
  {
    -((-ms) / MsPerDay)
  }

  /** `getDaysRemaining(target)` at clock reading `nowMs`: `None` is `NaN`,
      from a target that is an Invalid Date. */
  function DaysRemaining(target: string, nowMs: int): Option<int> {
    match Parse(target)
    case Some(d) => Some(CeilDays(ToDays(d) * MsPerDay - nowMs))
    case None => None
  }

  /** `daysLeft <= 0`; `NaN <= 0` is false. */
  predicate IsHatching(target: string, nowMs: int) {
    DaysRemaining(target, nowMs).Some? && DaysRemaining(target, nowMs).value <= 0
  }

  /** The status line of a batch. */
  function StatusText(target: string, nowMs: int): (text: string)
    ensures IsHatching(target, nowMs) ==> text == "SIAP MENETAS / SUDAH MENETAS"
    ensures !IsHatching(target, nowMs) ==> |text| > 14 && text[..14] == "Menetas dalam "
    ensures !IsHatching(target, nowMs) ==> ParseInt(text[14..]) == DaysRemaining(target, nowMs)
    ensures DaysRemaining(target, nowMs).None? ==> text[14..] == "NaN hari"
  {
    if IsHatching(target, nowMs) then "SIAP MENETAS / SUDAH MENETAS"
    else if DaysRemaining(target, nowMs).Some? then
      var n := DaysRemaining(target, nowMs).value;
      ParseIntOfDecimalText(n, " hari");
      Countdown(DecimalText(n))
    else
      NaNReadsAsNaN(" hari");
      Countdown("NaN")
  }

  /** 'Menetas dalam <days> hari'. */
  function Countdown(days: string): (text: string)
    ensures |text| > 14 && text[..14] == "Menetas dalam " && text[14..] == days + " hari"
  {
    Halves("Menetas dalam ", days + " hari");
    "Menetas dalam " + (days + " hari")
  }

  /** The label of a batch's source: only 'beli' reads as bought. */
  function SourceLabel(sumber: string): (label_: string)
    ensures label_ == "Beli" <==> sumber == "beli"
    ensures label_ == "Produksi" <==> sumber != "beli"
  {
    if sumber == "beli" then "Beli" else "Produksi"
  }

  // ---------------------------------------------------------------------
  // The batch list

  /** `order('estimasi_menetas', { ascending: true })`. */
  predicate SortedByHatch(batches: seq<Batch>) {
    forall i, j :: 0 <= i < j < |batches| ==> NotAfter(batches[i].estimasiMenetas, batches[j].estimasiMenetas)
  }

  /** The list as it is fetched again after `b` is inserted: `b` goes after
      every batch that hatches no later than it. */
  function InsertByHatch(batches: seq<Batch>, b: Batch): (r: seq<Batch>)
    ensures |r| == |batches| + 1
    ensures multiset(r) == multiset(batches) + multiset{b}
    ensures SortedByHatch(batches) ==> SortedByHatch(r)
  {
    if batches == [] then [b]
    else if NotAfter(batches[0].estimasiMenetas, b.estimasiMenetas) then
      var rest := InsertByHatch(batches[1..], b);
      InsertAfterHead(batches, b, rest);
      [batches[0]] + rest
    else
      InsertBeforeHead(batches, b);
      [b] + batches
  }

  /** A sorted list with a head no later than anything behind it is sorted. */
  lemma SortedCons(h: Batch, rest: seq<Batch>)
    requires SortedByHatch(rest)
    requires forall x :: x in rest ==> NotAfter(h.estimasiMenetas, x.estimasiMenetas)
    ensures SortedByHatch([h] + rest)
  {
    var r := [h] + rest;
    forall i, j | 0 <= i < j < |r| ensures NotAfter(r[i].estimasiMenetas, r[j].estimasiMenetas) {
      if i == 0 {
        assert r[j] == rest[j - 1];
      } else {
        assert r[i] == rest[i - 1] && r[j] == rest[j - 1];
      }
    }
  }

  /** The head of a sorted list is no later than anything behind it, and what is behind it is sorted. */
  lemma SortedTail(batches: seq<Batch>)
    requires batches != [] && SortedByHatch(batches)
    ensures SortedByHatch(batches[1..])
    ensures forall x :: x in batches[1..] ==> NotAfter(batches[0].estimasiMenetas, x.estimasiMenetas)
  {
    forall x | x in batches[1..] ensures NotAfter(batches[0].estimasiMenetas, x.estimasiMenetas) {
      var j :| 0 <= j < |batches[1..]| && batches[1..][j] == x;
      assert batches[j + 1] == x;
    }
    forall i, j | 0 <= i < j < |batches[1..]|
      ensures NotAfter(batches[1..][i].estimasiMenetas, batches[1..][j].estimasiMenetas)
    {
      assert batches[1..][i] == batches[i + 1] && batches[1..][j] == batches[j + 1];
    }
  }

  /** The step of `InsertByHatch` that keeps the head and inserts behind it. */
  lemma InsertAfterHead(batches: seq<Batch>, b: Batch, rest: seq<Batch>)
    requires batches != [] && NotAfter(batches[0].estimasiMenetas, b.estimasiMenetas)
    requires multiset(rest) == multiset(batches[1..]) + multiset{b}
    requires SortedByHatch(batches[1..]) ==> SortedByHatch(rest)
    ensures multiset([batches[0]] + rest) == multiset(batches) + multiset{b}
    ensures SortedByHatch(batches) ==> SortedByHatch([batches[0]] + rest)
  {
    assert batches == [batches[0]] + batches[1..];
    if SortedByHatch(batches) {
      SortedTail(batches);
      forall x | x in rest ensures NotAfter(batches[0].estimasiMenetas, x.estimasiMenetas) {
        assert x in multiset(rest);
        if x != b {
          assert x in multiset(batches[1..]);
        }
      }
      SortedCons(batches[0], rest);
    }
  }

  /** The step of `InsertByHatch` that puts the new batch first. */
  lemma InsertBeforeHead(batches: seq<Batch>, b: Batch)
    requires batches != [] && !NotAfter(batches[0].estimasiMenetas, b.estimasiMenetas)
    ensures SortedByHatch(batches) ==> SortedByHatch([b] + batches)
  {
    if SortedByHatch(batches) {
      forall x | x in batches ensures NotAfter(b.estimasiMenetas, x.estimasiMenetas) {
        var j :| 0 <= j < |batches| && batches[j] == x;
        assert NotAfter(batches[0].estimasiMenetas, batches[j].estimasiMenetas);
      }
      SortedCons(b, batches);
    }
  }

  // ---------------------------------------------------------------------
  // The view

  class InkubatorManager {
    /** The `inkubator` table as the view lists it. */
    var batches: seq<Batch>
    var form: IncubationForm

    predicate Valid()
      reads this
    {
      SortedByHatch(batches)
    }

    /** The view as it is mounted at clock reading `nowMs` on the sorted list `batches0`. */
    constructor (nowMs: int, batches0: seq<Batch>)
      requires SortedByHatch(batches0)
      ensures Valid()
      ensures batches == batches0 && form == IncubationForm(TodayText(nowMs), "", "produksi")
    {
      batches := batches0;
      form := IncubationForm(TodayText(nowMs), "", "produksi");
    }

    /** Editing the form's inputs. */
    method Fill(f: IncubationForm)
      modifies this
      ensures form == f && batches == old(batches)
    {
      form := f;
    }

    /** `handleSubmit`: the payload is built first (an Invalid Date stops
        everything there); after confirmation it is inserted, and on success
        only the egg count is cleared from the form. */
    method Submit(confirmed: bool, result: WriteResult) returns (notice: Option<Notice>)
      requires Valid()
      modifies this
      ensures Valid()
      ensures Payload(old(form)).None? || !confirmed ==> notice == None && batches == old(batches) && form == old(form)
      ensures Payload(old(form)).Some? && confirmed && result.WriteErr? ==>
                notice == Some(SaveFailed(result.message)) && batches == old(batches) && form == old(form)
      ensures Payload(old(form)).Some? && confirmed && result.WriteOk? ==>
                batches == InsertByHatch(old(batches), Payload(old(form)).value)
                && form == old(form).(jumlahTelur := "")
                && notice == Some(Toast("Telur masuk inkubator! (Hatch: " + Format(Payload(old(form)).value.estimasiMenetas) + ")", "success"))
    {
      var payload := Payload(form);
      if payload.None? || !confirmed {
        return None;
      }
      if result.WriteErr? {
        return Some(SaveFailed(result.message));
      }
      var hatch := Format(payload.value.estimasiMenetas);
      batches := InsertByHatch(batches, payload.value);
      form := form.(jumlahTelur := "");
      notice := Some(Toast("Telur masuk inkubator! (Hatch: " + hatch + ")", "success"));
    }
  }

  // ---------------------------------------------------------------------
  // Lemmas

  /** The hatch date is exactly 17 days after intake, on the calendar: the
      same month when the month has room, otherwise the next month (or the
      January of the next year). */
  lemma HatchDateIsSeventeenDaysLater(d: Date)
    requires IsValid(d)
    ensures IsValid(HatchDate(d)) && ToDays(HatchDate(d)) == ToDays(d) + 17
    ensures HatchDate(d) ==
      if d.day + 17 <= MonthLength(d.year, d.month) then Date(d.year, d.month, d.day + 17)
      else if d.month < 12 then Date(d.year, d.month + 1, d.day + 17 - MonthLength(d.year, d.month))
      else Date(d.year + 1, 1, d.day - 14)
  {
    AddDaysIsDayShift(d, 17);
    AddDaysOnCalendar(d, 17);
  }

  /** The hatch date sent with the payload reads back as the same date, for
      intake years before 9999. */
  lemma SentHatchDateReadsBack(form: IncubationForm)
    requires Payload(form).Some? && Parse(form.tanggalMasuk).value.year < 9999
    ensures Parse(Format(Payload(form).value.estimasiMenetas)) == Some(Payload(form).value.estimasiMenetas)
  {
    var d := Parse(form.tanggalMasuk).value;
    FormatOfParse(form.tanggalMasuk);
    HatchDateIsSeventeenDaysLater(d);
    var h := HatchDate(d);
    assert IsValid(h) && 0 <= h.year <= 9999;
    ParseOfFormat(h);
  }

  /** Days remaining is the hatch day less today's UTC day number: the
      ceiling only discards the time of day. */
  lemma DaysRemainingIsDayDifference(target: string, nowMs: int)
    requires Parse(target).Some?
    ensures DaysRemaining(target, nowMs) == Some(ToDays(Parse(target).value) - nowMs / MsPerDay)
  {
    var t := ToDays(Parse(target).value);
    var f, r := nowMs / MsPerDay, nowMs % MsPerDay;
    var q := CeilDays(t * MsPerDay - nowMs);
    assert nowMs == f * MsPerDay + r && 0 <= r < MsPerDay;
    assert t * MsPerDay - nowMs == (t - f) * MsPerDay - r;
    assert (q - 1) * MsPerDay < (t - f) * MsPerDay - r <= q * MsPerDay;
    assert q - 1 < t - f;
    assert t - f <= q;
  }

  /** A batch is shown as hatching exactly when today (in UTC) is its hatch
      day or later. */
  lemma HatchingIffHatchDayReached(target: string, nowMs: int)
    ensures IsHatching(target, nowMs) <==> Parse(target).Some? && nowMs / MsPerDay >= ToDays(Parse(target).value)
  {
    if Parse(target).Some? {
      DaysRemainingIsDayDifference(target, nowMs);
    }
  }

  /** Once hatching, a batch stays hatching as the clock advances. */
  lemma HatchingIsMonotone(target: string, now1: int, now2: int)
    requires now1 <= now2 && IsHatching(target, now1)
    ensures IsHatching(target, now2)
  {
    HatchingIffHatchDayReached(target, now1);
    HatchingIffHatchDayReached(target, now2);
    assert now1 / MsPerDay <= now2 / MsPerDay;
  }

  /** A batch taken in on 2024-01-01 is expected on 2024-01-18; at the
      start of 2024-01-10 it has 8 days to go and is not hatching; on
      2024-01-20 it is hatching. */
  lemma IncubationExample(intake: Date, now1: int, now2: int)
    requires intake == Date(2024, 1, 1)
    requires now1 == ToDays(Date(2024, 1, 10)) * MsPerDay && now2 == ToDays(Date(2024, 1, 20)) * MsPerDay
    ensures HatchDate(intake) == Date(2024, 1, 18)
    ensures DaysRemaining(Format(HatchDate(intake)), now1) == Some(8)
    ensures !IsHatching(Format(HatchDate(intake)), now1)
    ensures IsHatching(Format(HatchDate(intake)), now2)
  {
    HatchDateIsSeventeenDaysLater(intake);
    ExampleCountdown(HatchDate(intake), now1);
    ExampleHatched(HatchDate(intake), now2);
  }

  /** On 2024-01-10 a batch due on 2024-01-18 has 8 days to go. */
  lemma ExampleCountdown(h: Date, now1: int)
    requires h == Date(2024, 1, 18) && now1 == ToDays(Date(2024, 1, 10)) * MsPerDay
    ensures DaysRemaining(Format(h), now1) == Some(8) && !IsHatching(Format(h), now1)
  {
    ParseOfFormat(h);
    WholeDays(ToDays(Date(2024, 1, 10)));
    DaysRemainingIsDayDifference(Format(h), now1);
  }

  /** On 2024-01-20 a batch due on 2024-01-18 is hatching. */
  lemma ExampleHatched(h: Date, now2: int)
    requires h == Date(2024, 1, 18) && now2 == ToDays(Date(2024, 1, 20)) * MsPerDay
    ensures IsHatching(Format(h), now2)
  {
    ParseOfFormat(h);
    WholeDays(ToDays(Date(2024, 1, 20)));
    HatchingIffHatchDayReached(Format(h), now2);
  }

  /** A whole number of days in milliseconds is that many days. */
  lemma WholeDays(n: int)
    ensures (n * MsPerDay) / MsPerDay == n
  {
  }
}
