/**
  Shared vocabulary of the exporter: the error kinds the Python code raises,
  result wrappers, metadata/sample values and the channel-record model.
*/
module Base {

  datatype Option<+T> = None | Some(value: T)

  /** The exceptions the modelled code raises (or lets propagate). */
  datatype Error =
    | KeyError(key: string)          // dict lookup or construct build of a missing key
    | IndexError                     // indexing an empty list
    | ValueError                     // list.index of an absent value, numpy reshape
    | ZeroDivisionError              // division by a zero rate or channel count
    | OverflowError                  // a value that does not fit its integer column or field
    | PathOccupied(path: seq<string>) // creating an HDF5 object where one exists
    | NotAGroup(path: seq<string>)   // creating an HDF5 object below a dataset

  datatype Result<+T> = Ok(value: T) | Err(error: Error) {
    predicate IsFailure() { Err? }
    function PropagateFailure<U>(): Result<U>
      requires Err?
    {
      Err(error)
    }
    function Extract(): T
      requires Ok?
    {
      value
    }
    function ToOutcome(): Outcome {
      if Ok? then Pass else Fail(error)
    }
  }

  datatype Outcome = Pass | Fail(error: Error)

  predicate IsLeapYear(y: int) {
    y % 4 == 0 && (y % 100 != 0 || y % 400 == 0)
  }

  function DaysInMonth(y: int, m: int): int
    requires 1 <= m <= 12
  {
    if m == 2 then (if IsLeapYear(y) then 29 else 28)
    else if m == 4 || m == 6 || m == 9 || m == 11 then 30
    else 31
  }

  /** Calendar date and time of day with microseconds, as a naive datetime.datetime holds it. */
  datatype CivilTime = CivilTime(year: int, month: int, day: int,
                                 hour: int, minute: int, second: int,
                                 microsecond: int)

  /** The values datetime.datetime accepts (MINYEAR = 1, MAXYEAR = 9999). */
  predicate ValidCivilTime(t: CivilTime) {
    && 1 <= t.year <= 9999
    && 1 <= t.month <= 12
    && 1 <= t.day <= DaysInMonth(t.year, t.month)
    && 0 <= t.hour < 24
    && 0 <= t.minute < 60
    && 0 <= t.second < 60
    && 0 <= t.microsecond < 1000000
  }

  type DateTime = t: CivilTime | ValidCivilTime(t) witness CivilTime(1970, 1, 1, 0, 0, 0, 0)

  /** A scalar held in a metadata dict or a sample array. */
  datatype Value =
    | IntVal(i: int)
    | RealVal(r: real)
    | StrVal(s: string)
    | TimeVal(t: DateTime)

  /** An insertion-ordered Python dict with string keys. */
  type Dict<V> = seq<(string, V)>

  type Samples = seq<Value>

  /**
    One channel record: {"meta": {...}, "data": {"<channel>": [...], "time": [...]}}.
  */
  datatype Record = Record(meta: Dict<Value>, data: Dict<Samples>)

  /** A dataset is a list of channel records. */
  type Dataset = seq<Record>

  predicate Distinct<T(==)>(s: seq<T>) {
    forall i, j :: 0 <= i < j < |s| ==> s[i] != s[j]
  }

  /** The keys of a dict, in insertion order. */
  function Keys<V>(d: Dict<V>): seq<string> {
    seq(|d|, i requires 0 <= i < |d| => d[i].0)
  }

  // ---- sample arrays of one kind ----

  function IntVals(s: seq<int>): (r: seq<Value>)
    ensures |r| == |s| && forall k :: 0 <= k < |s| ==> r[k] == IntVal(s[k])
  {
    seq(|s|, k requires 0 <= k < |s| => IntVal(s[k]))
  }

  function StrVals(s: seq<string>): (r: seq<Value>)
    ensures |r| == |s| && forall k :: 0 <= k < |s| ==> r[k] == StrVal(s[k])
  {
    seq(|s|, k requires 0 <= k < |s| => StrVal(s[k]))
  }

  function RealVals(s: seq<real>): (r: seq<Value>)
    ensures |r| == |s| && forall k :: 0 <= k < |s| ==> r[k] == RealVal(s[k])
  {
    seq(|s|, k requires 0 <= k < |s| => RealVal(s[k]))
  }
}
