/**
 Identifiers and instants as a restore snapshot writes them: the hyphenated hexadecimal text of
 a UUID, and the ISO text of an instant in UTC, whose fraction is left out when it is zero.
 */
module SnapshotText {
  import opened Wrappers
  import opened FixedDigits
  import opened RetentionCalendar

  /** A UUID is a number of 32 hexadecimal digits. */
  type OrganizationId = n: nat | n < Power(16, 32)

  type Instant = t: Timestamp | ValidTimestamp(t) witness Timestamp(Date(1, 1, 1), 0)

  // ---- identifiers

  function Hyphenated(s: string): string
    requires |s| == 32
  {
    s[..8] + ("-" + (s[8..12] + ("-" + (s[12..16] + ("-" + (s[16..20] + ("-" + s[20..])))))))
  }

  function IdText(id: OrganizationId): (text: string)
    ensures |text| == 36
  {
    Hyphenated(Digits(id, 32, 16))
  }

  function ReadId(text: string): Option<OrganizationId> {
    if |text| != 36 || text[8] != '-' || text[13] != '-' || text[18] != '-' || text[23] != '-' then None
    else
      var digits := text[..8] + text[9..13] + text[14..18] + text[19..23] + text[24..];
      var n := Number(digits, 16);
      if n.None? then None
      else
        NumberWritesBack(digits, 16);
        Some(n.value)
  }

  lemma HyphensOut(s: string)
    requires |s| == 32
    ensures var t := Hyphenated(s);
            && |t| == 36 && t[8] == t[13] == t[18] == t[23] == '-'
            && t[..8] + t[9..13] + t[14..18] + t[19..23] + t[24..] == s
  {
    var t := Hyphenated(s);
    assert t[..8] == s[..8] && t[9..13] == s[8..12] && t[14..18] == s[12..16];
    assert t[19..23] == s[16..20] && t[24..] == s[20..];
  }

  lemma IdReadsBack(id: OrganizationId)
    ensures ReadId(IdText(id)) == Some(id)
  {
    HyphensOut(Digits(id, 32, 16));
    DigitsReadBack(id, 32, 16);
  }

  lemma HyphenAfter(a: string, b: string, c: string, d: string)
    requires |a| == |b| && |c| == |d|
    ensures TextBelow(a + ("-" + c), b + ("-" + d)) <==> TextBelow(a, b) || (a == b && TextBelow(c, d))
    ensures TextBelow(a + c, b + d) <==> TextBelow(a + ("-" + c), b + ("-" + d))
  {
    BelowConcat(a, b, "-" + c, "-" + d);
    BelowConcat("-", "-", c, d);
    BelowConcat(a, b, c, d);
  }

  lemma HyphensKeepOrder(s: string, t: string)
    requires |s| == |t| == 32
    ensures |Hyphenated(s)| == |Hyphenated(t)| && (TextBelow(Hyphenated(s), Hyphenated(t)) <==> TextBelow(s, t))
  {
    var s4, t4 := s[16..20] + ("-" + s[20..]), t[16..20] + ("-" + t[20..]);
    var s3, t3 := s[12..16] + ("-" + s4), t[12..16] + ("-" + t4);
    var s2, t2 := s[8..12] + ("-" + s3), t[8..12] + ("-" + t3);
    HyphenAfter(s[16..20], t[16..20], s[20..], t[20..]);
    HyphenAfter(s[12..16], t[12..16], s4, t4);
    HyphenAfter(s[8..12], t[8..12], s3, t3);
    HyphenAfter(s[..8], t[..8], s2, t2);
    Pieces(s, t);
  }

  lemma Pieces(s: string, t: string)
    requires |s| == |t| == 32
    ensures TextBelow(s, t) <==>
              || TextBelow(s[..8], t[..8])
              || (s[..8] == t[..8] &&
                  (|| TextBelow(s[8..12], t[8..12])
                   || (s[8..12] == t[8..12] &&
                       (|| TextBelow(s[12..16], t[12..16])
                        || (s[12..16] == t[12..16] &&
                            (|| TextBelow(s[16..20], t[16..20])
                             || (s[16..20] == t[16..20] && TextBelow(s[20..], t[20..]))))))))
  {
    assert s[0..] == s && t[0..] == t && s[0..8] == s[..8] && t[0..8] == t[..8];
    Cut(s, t, 0, 8);
    Cut(s, t, 8, 12);
    Cut(s, t, 12, 16);
    Cut(s, t, 16, 20);
  }

  lemma Cut(s: string, t: string, i: nat, k: nat)
    requires i <= k <= |s| == |t|
    ensures TextBelow(s[i..], t[i..]) <==>
              TextBelow(s[i..k], t[i..k]) || (s[i..k] == t[i..k] && TextBelow(s[k..], t[k..]))
  {
    assert s[i..] == s[i..k] + s[k..] && t[i..] == t[i..k] + t[k..];
    BelowConcat(s[i..k], t[i..k], s[k..], t[k..]);
  }

  /** Sorting by the text of the identifier is sorting by the identifier. */
  lemma IdOrderIsTextOrder(a: OrganizationId, b: OrganizationId)
    ensures TextBelow(IdText(a), IdText(b)) <==> a < b
  {
    HyphensKeepOrder(Digits(a, 32, 16), Digits(b, 32, 16));
    DigitsOrder(a, b, 32, 16);
  }

  // ---- instants

  datatype Clock = Clock(hour: nat, minute: nat, second: nat, micro: nat)

  predicate ValidClock(c: Clock) {
    c.hour < 24 && c.minute < 60 && c.second < 60 && c.micro < 1_000_000
  }

  function ClockOf(time: nat): Clock {
    var seconds := time / 1_000_000;
    Clock(seconds / 3600, seconds / 60 % 60, seconds % 60, time % 1_000_000)
  }

  function TimeOf(c: Clock): nat {
    ((c.hour * 60 + c.minute) * 60 + c.second) * 1_000_000 + c.micro
  }

  lemma ClockKeepsTime(time: nat)
    requires time < MICROSECONDS_PER_DAY
    ensures ValidClock(ClockOf(time)) && TimeOf(ClockOf(time)) == time
  {
    var seconds := time / 1_000_000;
    assert seconds / 60 / 60 == seconds / 3600;
  }

  function DateText(d: Date): (s: string)
    requires ValidDate(d)
    ensures |s| == 10
  {
    Digits(d.year, 4, 10) + "-" + Digits(d.month, 2, 10) + "-" + Digits(d.day, 2, 10)
  }

  function ReadDate(s: string): Option<Date>
    requires |s| == 10
  {
    var year, month, day := Number(s[..4], 10), Number(s[5..7], 10), Number(s[8..], 10);
    if s[4] != '-' || s[7] != '-' || year.None? || month.None? || day.None? then None
    else if !ValidDate(Date(year.value, month.value, day.value)) then None
    else Some(Date(year.value, month.value, day.value))
  }

  lemma Powers()
    ensures Power(10, 2) == 100 && Power(10, 4) == 10_000 && Power(10, 6) == 1_000_000
  {
    assert Power(10, 2) == Times(Power(10, 1), 10) == 100;
    assert Power(10, 4) == Times(Power(10, 3), 10);
    assert Power(10, 6) == Times(Power(10, 5), 10);
  }

  lemma DateReadsBack(d: Date)
    requires ValidDate(d)
    ensures ReadDate(DateText(d)) == Some(d)
  {
    Powers();
    DatePieces(d);
    assert d.year < 10_000 && d.month < 100 && d.day < 100;
    DigitsReadBack(d.year, 4, 10);
    DigitsReadBack(d.month, 2, 10);
    DigitsReadBack(d.day, 2, 10);
    assert Date(d.year, d.month, d.day) == d;
  }

  lemma DatePieces(d: Date)
    requires ValidDate(d)
    ensures var s := DateText(d);
            && s[..4] == Digits(d.year, 4, 10) && s[4] == '-' && s[5..7] == Digits(d.month, 2, 10)
            && s[7] == '-' && s[8..] == Digits(d.day, 2, 10)
  {
  }

  function SecondsText(c: Clock): (s: string)
    ensures |s| == 8
  {
    Digits(c.hour, 2, 10) + ":" + Digits(c.minute, 2, 10) + ":" + Digits(c.second, 2, 10)
  }

  function ReadSeconds(s: string): Option<(nat, nat, nat)>
    requires |s| == 8
  {
    var hour, minute, second := Number(s[..2], 10), Number(s[3..5], 10), Number(s[6..], 10);
    if s[2] != ':' || s[5] != ':' || hour.None? || minute.None? || second.None? then None
    else Some((hour.value, minute.value, second.value))
  }

  lemma SecondsReadBack(c: Clock)
    requires ValidClock(c)
    ensures ReadSeconds(SecondsText(c)) == Some((c.hour, c.minute, c.second))
  {
    Powers();
    SecondsPieces(c);
    DigitsReadBack(c.hour, 2, 10);
    DigitsReadBack(c.minute, 2, 10);
    DigitsReadBack(c.second, 2, 10);
  }

  lemma SecondsPieces(c: Clock)
    ensures var s := SecondsText(c);
            && s[..2] == Digits(c.hour, 2, 10) && s[2] == ':' && s[3..5] == Digits(c.minute, 2, 10)
            && s[5] == ':' && s[6..] == Digits(c.second, 2, 10)
  {
  }

  function FractionText(micro: nat): (s: string)
    ensures |s| == 0 || |s| == 7
  {
    if micro == 0 then "" else "." + Digits(micro, 6, 10)
  }

  function ReadFraction(s: string): Option<nat> {
    if s == "" then Some(0)
    else if |s| != 7 || s[0] != '.' then None
    else Number(s[1..], 10)
  }

  lemma FractionReadsBack(micro: nat)
    requires micro < 1_000_000
    ensures ReadFraction(FractionText(micro)) == Some(micro)
  {
    Powers();
    DigitsReadBack(micro, 6, 10);
    if micro != 0 {
      assert FractionText(micro)[1..] == Digits(micro, 6, 10);
    }
  }

  function InstantText(at: Instant): string {
    var clock := ClockOf(at.time);
    DateText(at.date) + "T" + SecondsText(clock) + FractionText(clock.micro) + "Z"
  }

  /** Reads a text of exactly this layout. */
  function ReadInstant(text: string): Option<Instant> {
    if |text| < 20 || text[10] != 'T' || text[|text| - 1] != 'Z' then None
    else
      var date, seconds := ReadDate(text[..10]), ReadSeconds(text[11..19]);
      var micro := ReadFraction(text[19..|text| - 1]);
      if date.None? || seconds.None? || micro.None? then None
      else
        var clock := Clock(seconds.value.0, seconds.value.1, seconds.value.2, micro.value);
        if !ValidClock(clock) then None else Some(Timestamp(date.value, TimeOf(clock)))
  }

  lemma InstantReadsBack(at: Instant)
    ensures ReadInstant(InstantText(at)) == Some(at)
  {
    var clock := ClockOf(at.time);
    ClockKeepsTime(at.time);
    DateReadsBack(at.date);
    SecondsReadBack(clock);
    FractionReadsBack(clock.micro);
    InstantPieces(at);
  }

  lemma InstantPieces(at: Instant)
    ensures var text, clock := InstantText(at), ClockOf(at.time);
            && |text| >= 20 && text[10] == 'T' && text[|text| - 1] == 'Z'
            && text[..10] == DateText(at.date) && text[11..19] == SecondsText(clock)
            && text[19..|text| - 1] == FractionText(clock.micro)
  {
  }
}
