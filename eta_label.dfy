/**
 * The label each stop of the list shows: whole minutes until the first
 * recorded arrival, never negative, or the no-service sentinel.
 */
module EtaLabel {

  import opened Wrappers
  import opened EtaGrouping

  const MsPerMinute: int := 60000

  /** The sentinel shown for a stop without arrivals ("no service"). */
  const NoServiceText: string := "暫無班次"

  /** What follows the number of minutes. */
  const MinuteSuffix: string := " 分鐘"

  datatype Label = Minutes(n: nat) | NoService

  /**
   * max(0, floor((arrival - now) / 60000)), on instants in milliseconds.
   * Dafny's division by a positive divisor is floor division.
   */
  function MinutesUntil(arrival: int, now: int): (n: nat)
    ensures arrival - now < MsPerMinute ==> n == 0
    ensures arrival >= now ==> n * MsPerMinute <= arrival - now < (n + 1) * MsPerMinute
  {
    var d := (arrival - now) / MsPerMinute;
    if d < 0 then 0 else d
  }

  /** An arrival k whole minutes and r milliseconds ahead reads k. */
  lemma MinutesExact(now: int, k: nat, r: int)
    requires 0 <= r < MsPerMinute
    ensures MinutesUntil(now + k * MsPerMinute + r, now) == k
  {
  }

  /** The label of one stop: minutes until the head of its list, or the sentinel when it has none. */
  function StopLabel(m: EtaMap, stop: string, now: int): (l: Label)
    ensures l == NoService <==> stop !in m || m[stop] == []
  {
    if stop in m && |m[stop]| > 0 then Minutes(MinutesUntil(m[stop][0], now)) else NoService
  }

  /**
   * In terms of the ETA records: a stop that has records gets the minutes
   * until the arrival of the first record for it in list order (not the
   * earliest of its arrivals).
   */
  lemma LabelFromRecords(rs: seq<EtaRecord>, i: nat, now: int)
    requires i < |rs|
    requires forall j :: 0 <= j < i ==> rs[j].stop != rs[i].stop
    ensures StopLabel(Grouping(rs), rs[i].stop, now) == Minutes(MinutesUntil(rs[i].eta, now))
  {
    FirstArrival(rs, i);
  }

  /** In terms of the ETA records: a stop gets the sentinel exactly when no record is for it. */
  lemma NoServiceIff(rs: seq<EtaRecord>, stop: string, now: int)
    ensures StopLabel(Grouping(rs), stop, now) == NoService <==> stop !in StopsOf(rs)
  {
    NoEmptyList(rs);
  }

  /** Two arrivals for one stop, the later one listed first: the label follows the first record. */
  lemma FirstNotEarliest(now: int)
    ensures var rs := [EtaRecord("S", now + 2 * MsPerMinute), EtaRecord("S", now + MsPerMinute)];
            StopLabel(Grouping(rs), "S", now) == Minutes(2)
  {
    var rs := [EtaRecord("S", now + 2 * MsPerMinute), EtaRecord("S", now + MsPerMinute)];
    LabelFromRecords(rs, 0, now);
    MinutesExact(now, 2, 0);
  }

  predicate IsDigits(s: string)
  {
    forall i :: 0 <= i < |s| ==> '0' <= s[i] <= '9'
  }

  function DigitChar(d: nat): (c: char)
    requires d < 10
  {
    ('0' as int + d) as char
  }

  /** The number a string of decimal digits denotes. */
  function DecimalValue(s: string): nat
    requires IsDigits(s)
  {
    if s == [] then 0 else DecimalValue(s[..|s| - 1]) * 10 + (s[|s| - 1] as int - '0' as int)
  }

  /** A whole number written in decimal, as JavaScript turns a number into a string. */
  function Decimal(n: nat): (s: string)
    ensures |s| >= 1 && IsDigits(s)
    ensures s[0] != '0' || |s| == 1
    ensures DecimalValue(s) == n
    decreases n
  {
    if n < 10 then [DigitChar(n)]
    else
      var s := Decimal(n / 10) + [DigitChar(n % 10)];
      assert s[..|s| - 1] == Decimal(n / 10);
      s
  }

  /** The text of the label's span. */
  function LabelText(l: Label): (t: string)
    ensures l.NoService? ==> t == NoServiceText
    ensures l.Minutes? ==> |t| > |MinuteSuffix| && t[|t| - |MinuteSuffix|..] == MinuteSuffix
    ensures l.Minutes? ==> IsDigits(t[..|t| - |MinuteSuffix|]) && DecimalValue(t[..|t| - |MinuteSuffix|]) == l.n
  {
    match l
    case Minutes(n) => Decimal(n) + MinuteSuffix
    case NoService => NoServiceText
  }

  /** Reading a label back from its text. */
  function ParseLabel(text: string): Option<Label>
  {
    if text == NoServiceText then Some(NoService)
    else if |text| > |MinuteSuffix| && text[|text| - |MinuteSuffix|..] == MinuteSuffix
            && IsDigits(text[..|text| - |MinuteSuffix|])
    then Some(Minutes(DecimalValue(text[..|text| - |MinuteSuffix|])))
    else None
  }

  /** The text determines the label: the sentinel is never a number and distinct counts read differently. */
  lemma LabelRoundTrip(l: Label)
    ensures ParseLabel(LabelText(l)) == Some(l)
  {
    if l.Minutes? {
      var d := Decimal(l.n);
      var t := d + MinuteSuffix;
      assert t[|t| - 1] == '鐘';
      assert NoServiceText[|NoServiceText| - 1] == '次';
      assert t[|t| - |MinuteSuffix|..] == MinuteSuffix;
      assert t[..|t| - |MinuteSuffix|] == d;
    }
  }
}
