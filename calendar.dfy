/** Calendar dates and the date windows the weather sources are queried with. */
module Calendar {

  /** A `datetime.date`, as (year, month, day). */
  datatype Date = Date(year: int, month: int, day: int)

  predicate IsLeapYear(y: int) {
    (y % 4 == 0 && y % 100 != 0) || y % 400 == 0
  }

  function DaysInMonth(y: int, m: int): int
    requires 1 <= m <= 12
  {
    if m == 2 then (if IsLeapYear(y) then 29 else 28)
    else if m == 4 || m == 6 || m == 9 || m == 11 then 30
    else 31
  }

  /** A date that exists on the Gregorian calendar. */
  predicate ValidDate(d: Date) {
    1 <= d.month <= 12 && 1 <= d.day <= DaysInMonth(d.year, d.month)
  }

  /** Chronological order: `a` is on or before `b`. */
  predicate NotAfter(a: Date, b: Date) {
    a.year < b.year
    || (a.year == b.year && (a.month < b.month || (a.month == b.month && a.day <= b.day)))
  }

  /** An inclusive range of days, as sent to a weather API (`data_inicio`, `data_fim`). */
  datatype Window = Window(inicio: Date, fim: Date)

  predicate InWindow(d: Date, w: Window) {
    NotAfter(w.inicio, d) && NotAfter(d, w.fim)
  }

  /** The whole year `ano`, from 1 January to 31 December. */
  function AnoInteiro(ano: int): Window {
    Window(Date(ano, 1, 1), Date(ano, 12, 31))
  }

  /** The two half-year windows the ground-station command queries: January to June, then
      July to December. */
  function Semestres(ano: int): (ws: seq<Window>)
    ensures |ws| == 2
    ensures ws[0].inicio == AnoInteiro(ano).inicio && ws[1].fim == AnoInteiro(ano).fim
  {
    [Window(Date(ano, 1, 1), Date(ano, 6, 30)), Window(Date(ano, 7, 1), Date(ano, 12, 31))]
  }

  /** A real date lies in the full-year window of `ano` exactly when it is a date of `ano`. */
  lemma AnoInteiroCovers(ano: int, d: Date)
    requires ValidDate(d)
    ensures InWindow(d, AnoInteiro(ano)) <==> d.year == ano
  {
  }

  /** The half-year windows split the year with neither gap nor overlap: every real date of
      `ano` lies in exactly one of them, and no other date lies in either. */
  lemma SemestresPartitionYear(ano: int, d: Date)
    requires ValidDate(d)
    ensures (InWindow(d, Semestres(ano)[0]) || InWindow(d, Semestres(ano)[1])) <==> d.year == ano
    ensures !(InWindow(d, Semestres(ano)[0]) && InWindow(d, Semestres(ano)[1]))
  {
  }
}
