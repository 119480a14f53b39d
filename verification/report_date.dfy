/** The run's report date and the names derived from it: the report page URL, the
    ISO form written into every record, and the compact form used in the local file
    name (main_script_cf.py:72-75, 81). The run date is a parameter; reading the
    clock is left to the caller. */
module ReportDate {
  import opened Wrappers
  import opened Strings
  import opened CivilDate

  /** The report covers the day two days before the run. */
  const ReportLag: nat := 2

  /** Python's `OverflowError` text when date arithmetic leaves the year range. */
  const OverflowMessage := "date value out of range"

  const ReportPageBase := "https://virtualoz.com.au/report/total-tv-overnight-top-30-programs/?date="
  const TempPathPrefix := "/tmp/daily_overnight_programs_reach_"
  const PdfExtension := ".pdf"

  /** `datetime.now() - timedelta(days=2)` for a run on day `run`: the day two days
      earlier, or the overflow error when that day precedes year 1. */
  function ReportDay(run: Date): (r: Result<Date, string>)
    requires InRange(run)
    ensures r.Success? <==> Ordinal(run) > ReportLag
    ensures r.Success? ==> InRange(r.value) && Ordinal(r.value) == Ordinal(run) - ReportLag
    ensures r.Failure? ==> r.error == OverflowMessage
  {
    var d := MinusDays(run, ReportLag);
    OrdinalPositive(d);
    if d.year < MinYear then Failure(OverflowMessage) else Success(d)
  }

  /** Any representable day exactly two days before the run is the report day. */
  lemma ReportDayUnique(run: Date, d: Date)
    requires InRange(run) && InRange(d) && Ordinal(d) == Ordinal(run) - ReportLag
    ensures ReportDay(run) == Success(d)
  {
    OrdinalPositive(d);
    var r := ReportDay(run);
    OrdinalInjective(r.value, d);
  }

  /** `strftime('%Y-%m-%d')` */
  function Iso(d: Date): (s: string)
    requires InRange(d)
    ensures |s| == 10 && s[4] == '-' && s[7] == '-'
    ensures ParseIso(s) == Some(d)
  {
    PaddedFieldsRoundTrip(d);
    PadDigits(d.year, 4) + "-" + PadDigits(d.month, 2) + "-" + PadDigits(d.day, 2)
  }

  /** `iso.replace('-', '')` */
  function Compact(iso: string): (s: string)
    ensures '-' !in s
    ensures |s| <= |iso|
    ensures '-' !in iso ==> s == iso
  {
    RemoveChar(iso, '-')
  }

  /** Reads a `YYYY-MM-DD` string back into a day, if it is one. */
  function ParseIso(s: string): Option<Date> {
    if |s| == 10 && s[4] == '-' && s[7] == '-'
       && AllDigits(s[..4]) && AllDigits(s[5..7]) && AllDigits(s[8..])
    then
      var d := Date(DigitsValue(s[..4]), DigitsValue(s[5..7]), DigitsValue(s[8..]));
      if InRange(d) then Some(d) else None
    else None
  }

  /** Reads a `YYYYMMDD` string back into a day, if it is one. */
  function ParseCompact(s: string): Option<Date> {
    if |s| == 8 && AllDigits(s) then
      var d := Date(DigitsValue(s[..4]), DigitsValue(s[4..6]), DigitsValue(s[6..]));
      if InRange(d) then Some(d) else None
    else None
  }

  /** The three zero-padded fields joined by dashes have ten characters, dashes at
      positions 4 and 7, digits elsewhere, and read back as the same day. */
  lemma PaddedFieldsRoundTrip(d: Date)
    requires InRange(d)
    ensures var s := PadDigits(d.year, 4) + "-" + PadDigits(d.month, 2) + "-" + PadDigits(d.day, 2);
      |s| == 10 && s[4] == '-' && s[7] == '-' && ParseIso(s) == Some(d)
  {
    var s := PadDigits(d.year, 4) + "-" + PadDigits(d.month, 2) + "-" + PadDigits(d.day, 2);
    assert s[..4] == PadDigits(d.year, 4);
    assert s[5..7] == PadDigits(d.month, 2);
    assert s[8..] == PadDigits(d.day, 2);
    PadDigitsRoundTrip(d.year, 4);
    PadDigitsRoundTrip(d.month, 2);
    PadDigitsRoundTrip(d.day, 2);
  }

  /** The compact form is the ISO form without its two dashes: eight digits that read
      back as the same day. */
  lemma CompactRoundTrip(d: Date)
    requires InRange(d)
    ensures Compact(Iso(d)) == PadDigits(d.year, 4) + PadDigits(d.month, 2) + PadDigits(d.day, 2)
    ensures |Compact(Iso(d))| == 8 && AllDigits(Compact(Iso(d)))
    ensures ParseCompact(Compact(Iso(d))) == Some(d)
  {
    CompactDropsDashes(d);
    PaddedDigitsRoundTrip(d);
  }

  /** Removing the dashes of the ISO form runs its three fields together. */
  lemma CompactDropsDashes(d: Date)
    requires InRange(d)
    ensures Compact(Iso(d)) == PadDigits(d.year, 4) + PadDigits(d.month, 2) + PadDigits(d.day, 2)
  {
    var y, m, dd := PadDigits(d.year, 4), PadDigits(d.month, 2), PadDigits(d.day, 2);
    assert '-' !in y && '-' !in m && '-' !in dd by {
      assert AllDigits(y) && AllDigits(m) && AllDigits(dd);
    }
    RemoveSeparator(y + "-" + m, dd, '-');
    RemoveSeparator(y, m, '-');
  }

  /** The three padded fields run together are eight digits that read back as the
      day. */
  lemma PaddedDigitsRoundTrip(d: Date)
    requires InRange(d)
    ensures var c := PadDigits(d.year, 4) + PadDigits(d.month, 2) + PadDigits(d.day, 2);
      |c| == 8 && AllDigits(c) && ParseCompact(c) == Some(d)
  {
    var y, m, dd := PadDigits(d.year, 4), PadDigits(d.month, 2), PadDigits(d.day, 2);
    var c := y + m + dd;
    assert c[..4] == y && c[4..6] == m && c[6..] == dd;
    PadDigitsRoundTrip(d.year, 4);
    PadDigitsRoundTrip(d.month, 2);
    PadDigitsRoundTrip(d.day, 2);
  }

  /** The report page for the day (main_script_cf.py:74). */
  function ReportUrl(d: Date): (url: string)
    requires InRange(d)
    ensures |url| == |ReportPageBase| + 10
    ensures url[..|ReportPageBase|] == ReportPageBase
    ensures ParseIso(url[|ReportPageBase|..]) == Some(d)
  {
    var url := ReportPageBase + Iso(d);
    assert url[|ReportPageBase|..] == Iso(d);
    url
  }

  /** The local copy of the report (main_script_cf.py:81). */
  function TempPath(d: Date): (path: string)
    requires InRange(d)
    ensures |path| == |TempPathPrefix| + 8 + |PdfExtension|
    ensures path[..|TempPathPrefix|] == TempPathPrefix
    ensures EndsWith(path, PdfExtension)
    ensures ParseCompact(path[|TempPathPrefix|..|TempPathPrefix| + 8]) == Some(d)
  {
    CompactRoundTrip(d);
    var path := TempPathPrefix + Compact(Iso(d)) + PdfExtension;
    assert path[|TempPathPrefix|..|TempPathPrefix| + 8] == Compact(Iso(d));
    path
  }

  /** A run on 2 March 2024 reports on the leap day. */
  lemma LeapDayExample()
    ensures ReportDay(Date(2024, 3, 2)) == Success(Date(2024, 2, 29))
  {
    assert DaysBeforeMonth(2024, 2) == 31;
    assert DaysBeforeMonth(2024, 3) == 60;
    ReportDayUnique(Date(2024, 3, 2), Date(2024, 2, 29));
  }

  /** The padded fields of the leap day of 2024. */
  lemma LeapDayFields()
    ensures PadDigits(2024, 4) == "2024" && PadDigits(2, 2) == "02" && PadDigits(29, 2) == "29"
  {
    assert PadDigits(2, 1) == "2";
    assert PadDigits(20, 2) == "20";
    assert PadDigits(202, 3) == "202";
  }

  /** The leap day of 2024 is written `2024-02-29` in the records. */
  lemma LeapDayIso()
    ensures Iso(Date(2024, 2, 29)) == "2024-02-29"
  {
    LeapDayFields();
  }

  /** The leap day of 2024 names the local file `..._20240229.pdf`. */
  lemma LeapDayTempPath()
    ensures TempPath(Date(2024, 2, 29)) == TempPathPrefix + "20240229" + PdfExtension
  {
    var d := Date(2024, 2, 29);
    CompactRoundTrip(d);
    LeapDayFields();
    assert Compact(Iso(d)) == "20240229" by {
      assert "2024" + "02" + "29" == "20240229";
    }
  }

  /** The local path holds the three padded fields of the day, without dashes. */
  lemma TempPathFields(d: Date)
    requires InRange(d)
    ensures TempPath(d) == TempPathPrefix + PadDigits(d.year, 4) + PadDigits(d.month, 2) + PadDigits(d.day, 2) + PdfExtension
  {
    CompactRoundTrip(d);
  }

  /** A run on 1 January 2025 reports on 30 December 2024. */
  lemma YearBoundaryExample()
    ensures ReportDay(Date(2025, 1, 1)) == Success(Date(2024, 12, 30))
  {
    DaysBeforeDecember(2024);
    DaysBeforeNextYear(2024);
    ReportDayUnique(Date(2025, 1, 1), Date(2024, 12, 30));
  }
}
