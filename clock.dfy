/**
 * Wall-clock instants as Python's `datetime` holds them, and the two
 * `strftime` formats the servers write into the log: the UTC stamp
 * `%Y-%m-%dT%H:%M:%SZ` and the older servers' local `%Y-%m-%d %I:%M:%S %p`.
 * The clock itself is an input; only the formatting is modelled.
 */
module Clock {
  import opened Text

  /** Four-digit years: `%Y` pads differently across C libraries below 1000. */
  type Year = y: int | 1000 <= y <= 9999 witness 2025
  type Month = m: int | 1 <= m <= 12 witness 1
  type Day = d: int | 1 <= d <= 31 witness 1
  type Hour = h: int | 0 <= h < 24
  type Minute = m: int | 0 <= m < 60
  type Second = s: int | 0 <= s < 60

  datatype DateTime = DateTime(year: Year, month: Month, day: Day, hour: Hour, minute: Minute, second: Second)

  /** `isoformat()` of a naive `datetime` with no fractional seconds. */
  function FormatIso(t: DateTime): string {
    PadNat(t.year, 4) + "-" + PadNat(t.month, 2) + "-" + PadNat(t.day, 2)
    + "T" + PadNat(t.hour, 2) + ":" + PadNat(t.minute, 2) + ":" + PadNat(t.second, 2)
  }

  /** `strftime("%Y-%m-%dT%H:%M:%SZ")`: the ISO form with a literal `Z` appended. */
  function FormatIsoZ(t: DateTime): string {
    FormatIso(t) + "Z"
  }

  /** `%I`: the hour on a 12-hour clock, 12 for midnight and noon. */
  function Hour12(h: Hour): (r: int)
    ensures 1 <= r <= 12
    ensures r % 12 == h % 12
  {
    if h % 12 == 0 then 12 else h % 12
  }

  /** `strftime("%Y-%m-%d %I:%M:%S %p")` in the C locale. */
  function FormatLocal12(t: DateTime): string {
    PadNat(t.year, 4) + "-" + PadNat(t.month, 2) + "-" + PadNat(t.day, 2)
    + " " + PadNat(Hour12(t.hour), 2) + ":" + PadNat(t.minute, 2) + ":" + PadNat(t.second, 2)
    + " " + (if t.hour < 12 then "AM" else "PM")
  }

  /** `strftime("%-m/%-d/%y %I:%M %p")`: unpadded month and day, two-digit year. */
  function FormatShortDisplay(t: DateTime): string {
    NatStr(t.month) + "/" + NatStr(t.day) + "/" + PadNat(t.year % 100, 2)
    + " " + PadNat(Hour12(t.hour), 2) + ":" + PadNat(t.minute, 2) + " " + (if t.hour < 12 then "AM" else "PM")
  }

  /** `strftime("%I:%M:%S %p %m/%-d")`: the older servers' history label. */
  function FormatHistory12(t: DateTime): string {
    PadNat(Hour12(t.hour), 2) + ":" + PadNat(t.minute, 2) + ":" + PadNat(t.second, 2)
    + " " + (if t.hour < 12 then "AM" else "PM") + " " + PadNat(t.month, 2) + "/" + NatStr(t.day)
  }

  lemma FieldWidths(t: DateTime)
    ensures |PadNat(t.year, 4)| == 4 && |PadNat(t.month, 2)| == 2 && |PadNat(t.day, 2)| == 2
    ensures |PadNat(t.hour, 2)| == 2 && |PadNat(t.minute, 2)| == 2 && |PadNat(t.second, 2)| == 2
    ensures |PadNat(Hour12(t.hour), 2)| == 2
  {
    assert Pow10(2) == 100 && Pow10(4) == 10000;
    PadNatLength(t.year, 4);
    PadNatLength(t.month, 2);
    PadNatLength(t.day, 2);
    PadNatLength(t.hour, 2);
    PadNatLength(t.minute, 2);
    PadNatLength(t.second, 2);
    PadNatLength(Hour12(t.hour), 2);
  }

  /**
   * The UTC stamp is always 20 characters `YYYY-MM-DDTHH:MM:SSZ`: digits in
   * the numeric positions, the separators in theirs, and a literal `Z` last.
   */
  lemma {:induction false} IsoZShape(t: DateTime)
    ensures var s := FormatIsoZ(t);
      && |s| == 20
      && s[4] == '-' && s[7] == '-' && s[10] == 'T' && s[13] == ':' && s[16] == ':' && s[19] == 'Z'
      && (forall i :: i in {0, 1, 2, 3, 5, 6, 8, 9, 11, 12, 14, 15, 17, 18} ==> '0' <= s[i] <= '9')
      && EndsWith(s, "Z")
  {
    FieldWidths(t);
  }

  /** The 12-hour stamp is 22 characters and ends in `AM` exactly for the hours before noon. */
  lemma {:induction false} Local12Shape(t: DateTime)
    ensures var s := FormatLocal12(t);
      && |s| == 22
      && s[4] == '-' && s[7] == '-' && s[10] == ' ' && s[13] == ':' && s[16] == ':' && s[19] == ' '
      && (s[20..] == "AM" <==> t.hour < 12)
      && (s[20..] == "PM" <==> t.hour >= 12)
  {
    FieldWidths(t);
  }

  /** Removing every `Z` from the UTC stamp leaves exactly its ISO form. */
  lemma IsoZWithoutZ(t: DateTime)
    ensures Without(FormatIsoZ(t), 'Z') == FormatIso(t)
  {
    var s := FormatIso(t);
    assert 'Z' !in s by {
      forall i | 0 <= i < |s| ensures s[i] != 'Z' {
        FieldWidths(t);
      }
    }
    WithoutAppend(s, "Z", 'Z');
    assert Without("Z", 'Z') == [];
  }
}
