/** The library parsers the ingestion code calls, taken as given functions: Python's `float`
    on a string and `datetime.strptime(...).date()` with the two formats the sources use.
    Each yields `None` where the library raises `ValueError`. */
module Parsing {
  import opened Wrappers
  import opened Calendar

  datatype Parsers = Parsers(
    float: string -> Option<real>,       // float(s)
    isoDate: string -> Option<Date>,     // strptime(s, '%Y-%m-%d')
    compactDate: string -> Option<Date>) // strptime(s, '%Y%m%d')
}
