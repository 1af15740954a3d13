/** CP56Time2a time tags: the layout of section 7.2.6.18 of IEC 60870-5-101 and the reader in print_messages.py. */
module TimeTag {
  import opened Calendar
  import opened Messages

  /** The years two digits can name. */
  predicate InCentury(t: DateTime) {
    && 2000 <= t.year <= 2099 && 1 <= t.month <= 12 && 1 <= t.day <= 31
    && 0 <= t.hour < 24 && 0 <= t.minute < 60 && 0 <= t.second < 60 && 0 <= t.millisecond < 1000
  }

  function Bit(b: bool): int { if b then 1 else 0 }

  function EncodeCp56(t: DateTime, x: TagBits): Stamp
    requires InCentury(t)
  {
    var millis := t.second * 1000 + t.millisecond;
    [ millis % 256,
      millis / 256,
      t.minute + 64 * (Bit(x.substituted) + 2 * Bit(x.invalid)),
      t.hour + 32 * (x.hourSpare + 4 * Bit(x.summerTime)),
      t.day + 32 * x.dayOfWeek,
      t.month + 16 * x.monthSpare,
      t.year - YEAR_BASE + 128 * Bit(x.yearSpare) ]
  }

  const YEAR_BASE: int := 2000

  function DecodeCp56(raw: Stamp): DateTime {
    var millis := Le2(raw[0], raw[1]);
    DateTime(
      raw[6] % 128 + YEAR_BASE, raw[5] % 16, raw[4] % 32, raw[3] % 32, raw[2] % 64,
      millis / 1000, millis % 1000)
  }

  /** The low bits of an octet do not depend on what stands above them. */
  lemma Low4(low: int, above: int)
    requires 0 <= low < 16
    ensures (low + 16 * above) % 16 == low
  {
  }

  lemma Low5(low: int, above: int)
    requires 0 <= low < 32
    ensures (low + 32 * above) % 32 == low
  {
  }

  lemma Low6(low: int, above: int)
    requires 0 <= low < 64
    ensures (low + 64 * above) % 64 == low
  {
  }

  lemma Low7(low: int, above: int)
    requires 0 <= low < 128
    ensures (low + 128 * above) % 128 == low
  {
  }

  lemma Thousands(seconds: int, millis: int)
    requires 0 <= millis < 1000 && 0 <= seconds < 60
    ensures Le2((seconds * 1000 + millis) % 256, (seconds * 1000 + millis) / 256) == seconds * 1000 + millis
    ensures (seconds * 1000 + millis) / 1000 == seconds && (seconds * 1000 + millis) % 1000 == millis
  {
  }

  /** Reading a time tag gives back the date and time whatever the other bits say. */
  lemma DecodeInvertsCp56(t: DateTime, x: TagBits)
    requires InCentury(t)
    ensures DecodeCp56(EncodeCp56(t, x)) == t
  {
    Thousands(t.second, t.millisecond);
    Low6(t.minute, Bit(x.substituted) + 2 * Bit(x.invalid));
    Low5(t.hour, x.hourSpare + 4 * Bit(x.summerTime));
    Low5(t.day, x.dayOfWeek);
    Low4(t.month, x.monthSpare);
    Low7(t.year - YEAR_BASE, Bit(x.yearSpare));
  }

  /** A time tag has two digits for the year. */
  function TwoDigitYear(t: DateTime): DateTime {
    t.(year := YEAR_BASE + t.year % 100)
  }

  /** The tag of a millisecond count, its spare bits left to the library. */
  function StampFor(p: Platform, millis: nat): Stamp {
    DatesFitTags(DateOf(millis));
    EncodeCp56(TwoDigitYear(DateOf(millis)), p.tagBits(millis))
  }

  lemma DatesFitTags(t: DateTime)
    requires IsDate(t)
    ensures InCentury(TwoDigitYear(t))
  {
  }

  /** Reading the tag of a count gives its date exactly when the date lies in 2000 to 2099; never any other year. */
  lemma StampReadsIff(p: Platform, millis: nat)
    ensures DecodeCp56(StampFor(p, millis)) == TwoDigitYear(DateOf(millis))
    ensures DecodeCp56(StampFor(p, millis)) == DateOf(millis) <==> MILLENNIUM <= millis < CENTURY_END
  {
    DatesFitTags(DateOf(millis));
    DecodeInvertsCp56(TwoDigitYear(DateOf(millis)), p.tagBits(millis));
    CenturyOf(millis);
    TwoDigitsKeep(DateOf(millis));
  }

  lemma TwoDigitsKeep(t: DateTime)
    ensures TwoDigitYear(t) == t <==> 2000 <= t.year <= 2099
  {
  }
}
