/**
 * Dates of the task list. The model counts calendar days as integers and
 * takes "today" as a parameter. The second half of the module models, at
 * millisecond granularity, the comparisons the browser code actually makes,
 * and relates them to the day-number model.
 */
module Fechas {
  import opened Wrappers

  /** A due date strictly before today's calendar day; adding such a task is refused. */
  predicate FechaPasada(fecha: Option<int>, hoy: int) {
    fecha.Some? && fecha.value < hoy
  }

  /** The "upcoming" cue over calendar days: due today or within the next six days. */
  predicate Proximo(fecha: Option<int>, hoy: int) {
    fecha.Some? && 0 <= fecha.value - hoy < 7
  }

  /** The cue holds exactly on the seven days starting today, and never without a date. */
  lemma ProximoDias(hoy: int)
    ensures !Proximo(None, hoy)
    ensures Proximo(Some(hoy), hoy) && Proximo(Some(hoy + 6), hoy)
    ensures !Proximo(Some(hoy + 7), hoy) && !Proximo(Some(hoy - 1), hoy)
  {
  }

  // ---------------------------------------------------------------------
  // Millisecond level: the comparisons as the browser evaluates them.
  // ---------------------------------------------------------------------

  /** Milliseconds in a day, the divisor `1000*60*60*24`. */
  const MsPorDia: int := 86400000

  /**
   * `new Date().setHours(0,0,0,0)` on calendar day `dia`, for a clock whose
   * local time is UTC plus `desfaseMs` milliseconds: the instant at which the
   * local clock reads midnight of that day.
   */
  function MedianocheLocal(dia: int, desfaseMs: int): int {
    dia * MsPorDia - desfaseMs
  }

  /**
   * `new Date("YYYY-MM-DD")` for calendar day `dia`: a date-only string is
   * read as midnight UTC, whatever the local time zone.
   */
  function FechaComoUtc(dia: int): int {
    dia * MsPorDia
  }

  /** `(new Date(tarea.fecha) - hoy) / (1000*60*60*24)`: the distance in (fractional) days. */
  function DiferenciaDias(fechaMs: int, hoyMs: int): real {
    (fechaMs - hoyMs) as real / MsPorDia as real
  }

  /** `diferencia >= 0 && diferencia < 7`, on instants. */
  predicate ProximoMs(fechaMs: int, hoyMs: int) {
    var d := DiferenciaDias(fechaMs, hoyMs);
    d >= 0.0 && d < 7.0
  }

  /** The cue on instants holds iff the due instant lies in the week-long window starting at `hoyMs`. */
  lemma ProximoMsVentana(fechaMs: int, hoyMs: int)
    ensures ProximoMs(fechaMs, hoyMs) <==> hoyMs <= fechaMs < hoyMs + 7 * MsPorDia
  {
    var d := DiferenciaDias(fechaMs, hoyMs);
    assert d * MsPorDia as real == (fechaMs - hoyMs) as real;
  }

  /** When both instants are midnights of the same clock, the instant test is the day test. */
  lemma ProximoMsEnDias(fecha: int, hoy: int)
    ensures ProximoMs(fecha * MsPorDia, hoy * MsPorDia) == Proximo(Some(fecha), hoy)
  {
    ProximoMsVentana(fecha * MsPorDia, hoy * MsPorDia);
  }

  /** The past-date test as written: the due date read as UTC, compared with local midnight. */
  predicate RechazaTalCual(fecha: int, hoy: int, desfaseMs: int) {
    FechaComoUtc(fecha) < MedianocheLocal(hoy, desfaseMs)
  }

  /** The upcoming test as written: the due date read as UTC, measured from local midnight. */
  predicate ProximoTalCual(fecha: int, hoy: int, desfaseMs: int) {
    ProximoMs(FechaComoUtc(fecha), MedianocheLocal(hoy, desfaseMs))
  }

  /**
   * At UTC or east of it (offset below one day), the tests as written agree
   * with the calendar-day tests on every date.
   */
  lemma TalCualAlEste(fecha: int, hoy: int, desfaseMs: int)
    requires 0 <= desfaseMs < MsPorDia
    ensures RechazaTalCual(fecha, hoy, desfaseMs) == FechaPasada(Some(fecha), hoy)
    ensures ProximoTalCual(fecha, hoy, desfaseMs) == Proximo(Some(fecha), hoy)
  {
    ProximoMsVentana(FechaComoUtc(fecha), MedianocheLocal(hoy, desfaseMs));
  }

  /** West of UTC, today's own date is refused as a past date. */
  lemma RechazaHoyAlOeste(hoy: int, desfaseMs: int)
    requires desfaseMs < 0
    ensures RechazaTalCual(hoy, hoy, desfaseMs)
    ensures !FechaPasada(Some(hoy), hoy)
  {
  }

  /**
   * West of UTC (by less than a day), the cue as written is off by one day:
   * it is missing for a task due today and shown for one due in seven days.
   */
  lemma ProximoDesplazadoAlOeste(hoy: int, desfaseMs: int)
    requires -MsPorDia < desfaseMs < 0
    ensures !ProximoTalCual(hoy, hoy, desfaseMs) && Proximo(Some(hoy), hoy)
    ensures ProximoTalCual(hoy + 7, hoy, desfaseMs) && !Proximo(Some(hoy + 7), hoy)
  {
    ProximoMsVentana(FechaComoUtc(hoy), MedianocheLocal(hoy, desfaseMs));
    ProximoMsVentana(FechaComoUtc(hoy + 7), MedianocheLocal(hoy, desfaseMs));
  }
}
