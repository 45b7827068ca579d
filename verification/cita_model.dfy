/**
 * The appointment record (app/Models/Cita.php and the `citas` table) and
 * the generator of its human-readable key `clave_cita`.
 *
 * A key is "CITA-" + date('Ymd') + "-" + the first six characters of an
 * md5 hex digest, upper-cased. The clock date and the successive md5
 * digests are parameters: the model does not compute md5.
 */
module CitaModel {
  import opened Common

  /** The `estatus` enumeration of the `citas` table. */
  datatype Estatus = Programada | Atendida | Cancelada

  /** The text the API sends for each status. */
  function EstatusName(e: Estatus): string
  {
    match e
    case Programada => "programada"
    case Atendida => "atendida"
    case Cancelada => "cancelada"
  }

  lemma EstatusNamesDistinct(a: Estatus, b: Estatus)
    ensures EstatusName(a) == EstatusName(b) ==> a == b
  {
  }

  datatype Date = Date(year: int, month: int, day: int)

  /** `hora_cita`, an `H:i` time of day. */
  datatype Time = Time(hour: int, minute: int)

  /** A calendar date with month and day in range, as the `date` validation rule accepts. */
  predicate CalendarDate(d: Date)
  {
    1 <= d.month <= 12 && 1 <= d.day <= 31
  }

  /** The date as one number that sorts like the date: year, then month, then day. */
  function DateRank(d: Date): int
  {
    d.year * 10000 + d.month * 100 + d.day
  }

  /** Minutes since midnight: sorts like hour, then minute, for `H:i` times. */
  function TimeRank(t: Time): int
  {
    t.hour * 60 + t.minute
  }

  /** An `H:i` time: hour below 24 and minute below 60, as the `date_format:H:i` rule accepts. */
  predicate ClockTime(t: Time)
  {
    0 <= t.hour < 24 && 0 <= t.minute < 60
  }

  /** For `H:i` times, comparing ranks is comparing hour, then minute. */
  lemma TimeRankOrdersTimes(a: Time, b: Time)
    requires ClockTime(a) && ClockTime(b)
    ensures TimeRank(a) < TimeRank(b) <==> a.hour < b.hour || (a.hour == b.hour && a.minute < b.minute)
    ensures TimeRank(a) == TimeRank(b) <==> a == b
  {
  }

  /** For calendar dates, comparing ranks is comparing year, then month, then day. */
  lemma DateRankOrdersDates(a: Date, b: Date)
    requires CalendarDate(a) && CalendarDate(b)
    ensures DateRank(a) < DateRank(b) <==>
      a.year < b.year || (a.year == b.year && (a.month < b.month || (a.month == b.month && a.day < b.day)))
    ensures DateRank(a) == DateRank(b) <==> a == b
  {
  }

  /** One row of the `citas` table (the id is the key of the table map). */
  datatype Cita = Cita(
    claveCita: string,
    alumnoId: Id,
    doctorId: Option<Id>,
    fechaCita: Date,
    horaCita: Time,
    motivo: Option<string>,
    estatus: Estatus,
    fechaHoraAtencion: Option<Timestamp>,
    notas: Option<string>)

  // ---------------------------------------------------------------------
  // Decimal digits
  // ---------------------------------------------------------------------

  function Pow10(n: nat): (p: nat)
    ensures p >= 1
  {
    if n == 0 then 1 else 10 * Pow10(n - 1)
  }

  predicate IsDigit(c: char)
  {
    '0' <= c <= '9'
  }

  function DigitChar(d: int): (c: char)
    requires 0 <= d < 10
    ensures IsDigit(c)
  {
    ('0' as int + d) as char
  }

  /** `n` written in decimal, left-padded with zeros to exactly `width` characters. */
  function Digits(n: nat, width: nat): (s: string)
    requires n < Pow10(width)
    ensures |s| == width
    ensures forall i :: 0 <= i < |s| ==> IsDigit(s[i])
  {
    if width == 0 then "" else Digits(n / 10, width - 1) + [DigitChar(n % 10)]
  }

  /** The number a string of decimal digits denotes. */
  function DigitsValue(s: string): nat
    requires forall i :: 0 <= i < |s| ==> IsDigit(s[i])
  {
    if s == [] then 0
    else
      assert IsDigit(s[|s| - 1]);
      DigitsValue(s[..|s| - 1]) * 10 + (s[|s| - 1] as int - '0' as int)
  }

  /** Reading back a padded decimal gives the number that was written. */
  lemma {:induction false} DigitsRoundTrip(n: nat, width: nat)
    requires n < Pow10(width)
    ensures DigitsValue(Digits(n, width)) == n
  {
    if width > 0 {
      var s := Digits(n, width);
      assert n / 10 < Pow10(width - 1);
      DigitsRoundTrip(n / 10, width - 1);
      assert s[..|s| - 1] == Digits(n / 10, width - 1);
    }
  }

  // ---------------------------------------------------------------------
  // The key format
  // ---------------------------------------------------------------------

  /** A date the server clock can show with a four-digit year. */
  predicate ClockDate(d: Date)
  {
    0 <= d.year <= 9999 && 1 <= d.month <= 12 && 1 <= d.day <= 31
  }

  /** PHP's `date('Ymd')`: four-digit year, two-digit month, two-digit day. */
  function Ymd(d: Date): (s: string)
    requires ClockDate(d)
    ensures |s| == 8 && forall i :: 0 <= i < 8 ==> IsDigit(s[i])
  {
    Digits(d.year, 4) + Digits(d.month, 2) + Digits(d.day, 2)
  }

  predicate IsLowerHex(c: char)
  {
    '0' <= c <= '9' || 'a' <= c <= 'f'
  }

  predicate IsUpperHex(c: char)
  {
    '0' <= c <= '9' || 'A' <= c <= 'F'
  }

  /** What `md5()` returns: 32 lower-case hexadecimal characters. */
  predicate IsMd5Hex(h: string)
  {
    |h| == 32 && forall i :: 0 <= i < |h| ==> IsLowerHex(h[i])
  }

  /** `strtolower` on one character: ASCII letters only. */
  function Lower(c: char): (l: char)
    ensures IsUpperHex(c) ==> IsLowerHex(l)
    ensures IsLowerHex(c) ==> l == c
  {
    if 'A' <= c <= 'Z' then (c as int + 32) as char else c
  }

  /** `strtoupper` on one character: ASCII letters only. */
  function Upper(c: char): (u: char)
    // A hex digit becomes an upper-case one that lower-casing turns back into it.
    ensures IsLowerHex(c) ==> IsUpperHex(u) && Lower(u) == c
    ensures IsUpperHex(c) ==> u == c
  {
    if 'a' <= c <= 'z' then (c as int - 32) as char else c
  }

  /** `strtoupper(substr(h, 0, 6))`: the first six digest characters, upper-cased. */
  function Suffix(h: string): (s: string)
    requires IsMd5Hex(h)
    ensures |s| == 6
    ensures forall i :: 0 <= i < 6 ==> IsUpperHex(s[i]) && Lower(s[i]) == h[i]
  {
    seq(6, i requires 0 <= i < 6 => Upper(h[i]))
  }

  /** The key the generator builds from the clock date and one md5 digest. */
  function ClaveFor(today: Date, h: string): string
    requires ClockDate(today) && IsMd5Hex(h)
  {
    "CITA-" + Ymd(today) + "-" + Suffix(h)
  }

  /** The shape of every generated key: `CITA-`, eight digits, `-`, six upper-case hex characters. */
  predicate WellFormedClave(k: string)
  {
    && |k| == 20
    && k[..5] == "CITA-"
    && (forall i :: 5 <= i < 13 ==> IsDigit(k[i]))
    && k[13] == '-'
    && (forall i :: 14 <= i < 20 ==> IsUpperHex(k[i]))
  }

  /** The date a well-formed key carries. */
  function ClaveDate(k: string): Date
    requires WellFormedClave(k)
  {
    Date(DigitsValue(k[5..9]), DigitsValue(k[9..11]), DigitsValue(k[11..13]))
  }

  /** Every generated key is well formed, and its date and suffix read back as built. */
  lemma ClaveRoundTrip(today: Date, h: string)
    requires ClockDate(today) && IsMd5Hex(h)
    ensures WellFormedClave(ClaveFor(today, h))
    ensures ClaveDate(ClaveFor(today, h)) == today
    ensures ClaveFor(today, h)[14..] == Suffix(h)
  {
    var k := ClaveFor(today, h);
    assert k[5..9] == Digits(today.year, 4);
    assert k[9..11] == Digits(today.month, 2);
    assert k[11..13] == Digits(today.day, 2);
    assert k[14..] == Suffix(h);
    DigitsRoundTrip(today.year, 4);
    DigitsRoundTrip(today.month, 2);
    DigitsRoundTrip(today.day, 2);
  }

  /** Keys made on different dates never collide, whatever the digests. */
  lemma ClavesOfDifferentDaysDiffer(d1: Date, h1: string, d2: Date, h2: string)
    requires ClockDate(d1) && IsMd5Hex(h1) && ClockDate(d2) && IsMd5Hex(h2)
    requires d1 != d2
    ensures ClaveFor(d1, h1) != ClaveFor(d2, h2)
  {
    ClaveRoundTrip(d1, h1);
    ClaveRoundTrip(d2, h2);
  }

  /**
   * Keys made on the same date collide exactly when the two digests agree
   * on their first six characters.
   */
  lemma SameDayClavesCollideIff(d: Date, h1: string, h2: string)
    requires ClockDate(d) && IsMd5Hex(h1) && IsMd5Hex(h2)
    ensures ClaveFor(d, h1) == ClaveFor(d, h2) <==> h1[..6] == h2[..6]
  {
    ClaveRoundTrip(d, h1);
    ClaveRoundTrip(d, h2);
    if ClaveFor(d, h1) == ClaveFor(d, h2) {
      assert Suffix(h1) == Suffix(h2);
      forall i | 0 <= i < 6
        ensures h1[i] == h2[i]
      {
        assert Lower(Suffix(h1)[i]) == h1[i];
      }
    }
    if h1[..6] == h2[..6] {
      forall i | 0 <= i < 6
        ensures Suffix(h1)[i] == Suffix(h2)[i]
      {
        assert h1[i] == h1[..6][i];
      }
    }
  }

  // ---------------------------------------------------------------------
  // generarClaveCita
  // ---------------------------------------------------------------------

  /** Some row of the table already holds key `k`. */
  predicate Taken(citas: map<Id, Cita>, k: string)
  {
    exists id :: id in citas && citas[id].claveCita == k
  }

  /** Some digest of `hashes` gives a key no row holds. */
  predicate FreeCandidate(citas: map<Id, Cita>, today: Date, hashes: seq<string>)
    requires ClockDate(today)
    requires forall i :: 0 <= i < |hashes| ==> IsMd5Hex(hashes[i])
  {
    exists j :: 0 <= j < |hashes| && !Taken(citas, ClaveFor(today, hashes[j]))
  }

  /**
   * `generarClaveCita`: draw a key from each successive digest and stop at
   * the first one no row holds. `attempts` is the number of digests drawn.
   * When every supplied digest gives a taken key the source would keep
   * looping; the model then answers None.
   */
  method GenerarClaveCita(citas: map<Id, Cita>, today: Date, hashes: seq<string>)
      returns (clave: Option<string>, attempts: nat)
    requires ClockDate(today)
    requires forall i :: 0 <= i < |hashes| ==> IsMd5Hex(hashes[i])
    ensures attempts <= |hashes|
    ensures forall j :: 0 <= j < attempts - 1 ==> Taken(citas, ClaveFor(today, hashes[j]))
    ensures clave.Some? ==>
      && 0 < attempts
      && clave.value == ClaveFor(today, hashes[attempts - 1])
      && !Taken(citas, clave.value)
      && WellFormedClave(clave.value)
      && ClaveDate(clave.value) == today
    ensures clave.Some? <==> FreeCandidate(citas, today, hashes)
    ensures clave.None? ==>
      attempts == |hashes| && forall j :: 0 <= j < |hashes| ==> Taken(citas, ClaveFor(today, hashes[j]))
  {
    attempts := 0;
    while attempts < |hashes|
      invariant attempts <= |hashes|
      invariant forall j :: 0 <= j < attempts ==> Taken(citas, ClaveFor(today, hashes[j]))
    {
      var candidate := ClaveFor(today, hashes[attempts]);
      attempts := attempts + 1;
      if !Taken(citas, candidate) {
        ClaveRoundTrip(today, hashes[attempts - 1]);
        return Some(candidate), attempts;
      }
    }
    clave := None;
  }
}
