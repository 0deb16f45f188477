/** Rendering an instant as the text the server parses (src/timestamp.rs). */
module Timestamp {
  import opened Calendar

  /** The working values of `CivilFromDays`, named as in the source. */
  datatype Civil = Civil(z: int, era: int, doe: int, yoe: int, doy: int, mp: int)

  /** Every quotient below has a nonnegative numerator (`WorkingRanges`), where Rust's truncating
      division and Dafny's Euclidean one agree; `era` uses `div_euclid` in the source. */
  function CivilWork(days: int): Civil {
    var z := days + 719468;
    var era := (if z >= 0 then z else z - 146096) / 146097;
    var doe := z - era * 146097;
    var yoe := (doe - doe / 1460 + doe / 36524 - doe / 146096) / 365;
    var doy := doe - (365 * yoe + yoe / 4 - yoe / 100);
    var mp := (5 * doy + 2) / 153;
    Civil(z, era, doe, yoe, doy, mp)
  }

  function CivilFromDays(days: int): Date {
    var w := CivilWork(days);
    var day := w.doy - (153 * w.mp + 2) / 5 + 1;
    var month := w.mp + if w.mp < 10 then 3 else -9;
    var year := w.yoe + w.era * 400 + if month <= 2 then 1 else 0;
    Date(year, month, day)
  }

  /** `SystemTime::duration_since(UNIX_EPOCH)`: the distance, on one side or the other. */
  datatype SinceEpoch = After(distance: nat) | Earlier(distance: nat)

  function DurationSinceEpoch(time: int): SinceEpoch {
    if time >= 0 then After(time) else Earlier(-time)
  }

  function SignedNanos(since: SinceEpoch): int {
    var distance: int := since.distance;
    if since.After? then distance else -distance
  }

  /** `time` counts nanoseconds from the epoch, negative before it. */
  function FormatUtc(time: int): string {
    var nanos := SignedNanos(DurationSinceEpoch(time));
    var totalMillis := nanos / 1000000;
    var millis := totalMillis % 1000;
    var secs := totalMillis / 1000;
    var days := secs / 86400;
    var secsOfDay := secs % 86400;
    var date := CivilFromDays(days);
    var hour, minute, second := secsOfDay / 3600, secsOfDay % 3600 / 60, secsOfDay % 60;
    ZeroPad(date.year, 4) + "-" + ZeroPad(date.month, 2) + "-" + ZeroPad(date.day, 2)
    + "T" + ZeroPad(hour, 2) + ":" + ZeroPad(minute, 2) + ":" + ZeroPad(second, 2)
    + "." + ZeroPad(millis, 3)
  }

  function DigitChar(digit: nat): char
    requires digit < 10
  {
    ('0' as int + digit) as char
  }

  function Digits(n: nat): string {
    if n < 10 then [DigitChar(n)] else Digits(n / 10) + [DigitChar(n % 10)]
  }

  function LeftPad(text: string, width: nat): string
    decreases width - |text|
  {
    if |text| >= width then text else LeftPad("0" + text, width)
  }

  /** Rust's `{:0width}`: zeros go between the sign and the digits, and the sign counts. */
  function ZeroPad(n: int, width: nat): string
    requires width > 0
  {
    if n >= 0 then LeftPad(Digits(n), width) else "-" + LeftPad(Digits(-n), width - 1)
  }
}
