/**
 * `generateReportTitle` (src/utils/chat.js): the mode label, a dash and the
 * local time as `YYYY-MM-DD HH:mm`. The clock's fields are inputs.
 */
module ReportTitle {
  import opened JsText
  import Modes

  /** What `new Date()` reports: `getFullYear`, zero-based `getMonth`, `getDate`, `getHours`, `getMinutes`. */
  datatype DateFields = DateFields(year: nat, monthIndex: nat, day: nat, hours: nat, minutes: nat)

  /** The ranges the `Date` getters keep to. */
  predicate ValidDate(d: DateFields) {
    d.monthIndex < 12 && 1 <= d.day <= 31 && d.hours < 24 && d.minutes < 60
  }

  /** `${y}-${mo}-${dd} ${hh}:${mi}`. */
  function Template(y: string, mo: string, dd: string, hh: string, mi: string): string {
    y + "-" + mo + "-" + dd + " " + hh + ":" + mi
  }

  function Stamp(d: DateFields): string {
    Template(NatToString(d.year), Pad2(d.monthIndex + 1), Pad2(d.day), Pad2(d.hours), Pad2(d.minutes))
  }

  function GenerateReportTitle(mode: string, d: DateFields): string {
    Modes.GetModeLabel(mode) + "-" + Stamp(d)
  }

  /** `s` is `y`, then the four two-character fields behind their separators `-`, `-`, ` ` and `:`. */
  predicate Layout(s: string, y: string, mo: string, dd: string, hh: string, mi: string) {
    var n := |y|;
    |s| == n + 12 && s[..n] == y
    && s[n] == '-' && s[n + 3] == '-' && s[n + 6] == ' ' && s[n + 9] == ':'
    && s[n + 1..n + 3] == mo && s[n + 4..n + 6] == dd && s[n + 7..n + 9] == hh && s[n + 10..n + 12] == mi
  }

  /** Where the pieces of a `Y-MM-DD HH:mm` template land, for any two-character fields. */
  lemma TemplateLayout(y: string, mo: string, dd: string, hh: string, mi: string)
    requires |mo| == 2 && |dd| == 2 && |hh| == 2 && |mi| == 2
    ensures Layout(Template(y, mo, dd, hh, mi), y, mo, dd, hh, mi)
  {
    var n := |y|;
    var s1 := y + "-";
    var s2 := s1 + mo;
    var s3 := s2 + "-";
    var s4 := s3 + dd;
    var s5 := s4 + " ";
    var s6 := s5 + hh;
    var s7 := s6 + ":";
    var s := s7 + mi;
    assert s[..n] == s1[..n] == y;
    assert s[n + 1..n + 3] == s2[n + 1..n + 3] == mo;
    assert s[n + 4..n + 6] == s4[n + 4..n + 6] == dd;
    assert s[n + 7..n + 9] == s6[n + 7..n + 9] == hh;
    assert s[n + 10..n + 12] == mi;
  }

  /** Each printed field reads back as its value; the month printed is the zero-based month plus one. */
  lemma FieldsPadded(d: DateFields)
    requires ValidDate(d)
    ensures DigitsValue(NatToString(d.year)) == d.year
    ensures |Pad2(d.monthIndex + 1)| == 2 && AllDigits(Pad2(d.monthIndex + 1))
      && DigitsValue(Pad2(d.monthIndex + 1)) == d.monthIndex + 1
    ensures |Pad2(d.day)| == 2 && AllDigits(Pad2(d.day)) && DigitsValue(Pad2(d.day)) == d.day
    ensures |Pad2(d.hours)| == 2 && AllDigits(Pad2(d.hours)) && DigitsValue(Pad2(d.hours)) == d.hours
    ensures |Pad2(d.minutes)| == 2 && AllDigits(Pad2(d.minutes)) && DigitsValue(Pad2(d.minutes)) == d.minutes
  {
    NatToStringValue(d.year);
    Pad2Digits(d.monthIndex + 1);
    Pad2Digits(d.day);
    Pad2Digits(d.hours);
    Pad2Digits(d.minutes);
  }

  /** The title is the mode label (the unknown-mode label for anything else), a dash, then the stamp. */
  lemma TitleShape(mode: string, d: DateFields)
    ensures var t := GenerateReportTitle(mode, d); var name := Modes.GetModeLabel(mode);
      t[..|name|] == name && t[|name|] == '-' && t[|name| + 1..] == Stamp(d)
    ensures !Modes.IsValidMode(mode) ==> StartsWith(GenerateReportTitle(mode, d), Modes.UnknownLabel)
  {
    DashJoin(Modes.GetModeLabel(mode), Stamp(d));
  }

  /** `a + "-" + b` reads back as `a`, the dash, and `b`. */
  lemma DashJoin(a: string, b: string)
    ensures var t := a + "-" + b; t[..|a|] == a && t[|a|] == '-' && t[|a| + 1..] == b
  {
    var t := a + "-" + b;
    assert t == a + ("-" + b);
  }
}
