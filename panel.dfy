/**
 * Panel loading (`load_and_prepare`): a raw table is turned into the price
 * panel, a list of (ticker, date, close) records. Column names are stripped and
 * lower-cased, `timestamp` and `symbol` are renamed to `date` and `ticker`, a
 * table still lacking `date` or `close` is refused with its column list, a
 * missing ticker column becomes the ticker "UNK" on every row, rows whose
 * date does not parse or whose ticker or close cell is missing are dropped and
 * the rest is sorted by (ticker, date). Rows with the same (ticker, date) are
 * all kept, and the ticker and close cells are kept raw (the close is
 * converted to a float only by the forecast pipeline).
 */
module Panel {
  import opened Wrappers
  import opened Strings

  /** A raw table cell: missing (None/NaN/NaT), text, a number or an already-parsed day. */
  datatype Cell = Null | Text(s: string) | Number(x: real) | Stamp(day: int)

  /** A raw table: its column names as read, and its rows of cells. */
  datatype Frame = Frame(columns: seq<string>, rows: seq<seq<Cell>>)

  /** Every row of a table has one cell per column. */
  predicate WellFormed(f: Frame) {
    forall r :: r in f.rows ==> |r| == |f.columns|
  }

  /**
   * One row of the prepared panel: the raw ticker and close cells (neither
   * missing) and the parsed day.
   */
  datatype Record = Record(ticker: Cell, date: int, close: Cell)

  /** Raised when `date` or `close` is missing; carries the normalised column names. */
  datatype SchemaError = SchemaError(columns: seq<string>)

  const DefaultTicker: string := "UNK"

  /** DataFrame.rename(columns={from: to}): every column named `from` is renamed. */
  function Rename(cols: seq<string>, from: string, to: string): (r: seq<string>)
    ensures |r| == |cols|
    ensures forall i :: 0 <= i < |cols| ==> r[i] == if cols[i] == from then to else cols[i]
  {
    seq(|cols|, i requires 0 <= i < |cols| => if cols[i] == from then to else cols[i])
  }

  /** The column names after stripping, lower-casing and the two renamings. */
  function NormalizeColumns(cols: seq<string>): (r: seq<string>)
    ensures |r| == |cols|
  {
    var lowered := seq(|cols|, i requires 0 <= i < |cols| => Lower(Strip(cols[i])));
    Rename(Rename(lowered, "timestamp", "date"), "symbol", "ticker")
  }

  predicate HasRequired(cols: seq<string>) {
    "date" in cols && "close" in cols
  }

  /** Position of the first column with the given name. */
  function IndexOf(cols: seq<string>, name: string): (i: nat)
    requires name in cols
    ensures i < |cols| && cols[i] == name
    ensures forall j :: 0 <= j < i ==> cols[j] != name
  {
    if cols[0] == name then 0 else 1 + IndexOf(cols[1..], name)
  }

  /**
   * pd.to_datetime(errors="coerce") on one cell: a missing cell is NaT, and
   * `toDate` is the parser for the others (None when it gives NaT).
   */
  function ParsedDate(c: Cell, toDate: Cell -> Option<int>): (d: Option<int>)
    ensures c.Null? ==> d.None?
    ensures !c.Null? ==> d == toDate(c)
  {
    if c.Null? then None else toDate(c)
  }

  /** The ticker cell of a row: the raw cell, or "UNK" when the table has no ticker column. */
  function TickerCell(row: seq<Cell>, cols: seq<string>): Cell
    requires |row| == |cols|
  {
    if "ticker" in cols then row[IndexOf(cols, "ticker")] else Text(DefaultTicker)
  }

  /**
   * The record a row becomes, or None when dropna drops it. dropna drops a
   * row only for a missing (NA) cell: the ticker and close cells are kept
   * as they are, whatever their kind.
   */
  function RecordOf(row: seq<Cell>, cols: seq<string>, toDate: Cell -> Option<int>): (r: Option<Record>)
    requires |row| == |cols| && HasRequired(cols)
    ensures r.None? <==>
      || ParsedDate(row[IndexOf(cols, "date")], toDate).None?
      || row[IndexOf(cols, "close")].Null?
      || ("ticker" in cols && row[IndexOf(cols, "ticker")].Null?)
    ensures r.Some? ==>
      && r.value.date == ParsedDate(row[IndexOf(cols, "date")], toDate).value
      && r.value.close == row[IndexOf(cols, "close")]
      && r.value.ticker == (if "ticker" in cols then row[IndexOf(cols, "ticker")] else Text(DefaultTicker))
      && !r.value.ticker.Null? && !r.value.close.Null?
  {
    var ticker := TickerCell(row, cols);
    var date := ParsedDate(row[IndexOf(cols, "date")], toDate);
    var close := row[IndexOf(cols, "close")];
    if !ticker.Null? && date.Some? && !close.Null? then Some(Record(ticker, date.value, close)) else None
  }

  /** The records of the rows dropna keeps, in row order. */
  function KeptRecords(rows: seq<seq<Cell>>, cols: seq<string>, toDate: Cell -> Option<int>): (r: seq<Record>)
    requires HasRequired(cols)
    requires forall row :: row in rows ==> |row| == |cols|
    ensures |r| <= |rows|
    ensures "ticker" !in cols ==> forall i :: 0 <= i < |r| ==> r[i].ticker == Text(DefaultTicker)
    ensures forall i :: 0 <= i < |r| ==> !r[i].ticker.Null? && !r[i].close.Null?
  {
    if |rows| == 0 then []
    else
      var front := KeptRecords(rows[..|rows| - 1], cols, toDate);
      match RecordOf(rows[|rows| - 1], cols, toDate)
      case Some(rec) => front + [rec]
      case None => front
  }

  /** A row with no missing date, ticker or close cell always survives dropna. */
  lemma {:induction false} CompleteRowsKept(rows: seq<seq<Cell>>, cols: seq<string>, toDate: Cell -> Option<int>)
    requires HasRequired(cols)
    requires forall row :: row in rows ==> |row| == |cols|
    requires forall row :: row in rows ==> RecordOf(row, cols, toDate).Some?
    ensures |KeptRecords(rows, cols, toDate)| == |rows|
  {
    if |rows| > 0 {
      CompleteRowsKept(rows[..|rows| - 1], cols, toDate);
    }
  }

  /**
   * Where a kind of cell sorts in an object column: numbers before text
   * (pandas orders a mixed column that way), then day stamps.
   */
  function Rank(c: Cell): nat {
    match c
    case Number(_) => 0
    case Text(_) => 1
    case Stamp(_) => 2
    case Null => 3
  }

  /** Strict order of ticker cells: by kind, then numbers by value, text as Python strings, days by day. */
  predicate CellLess(a: Cell, b: Cell) {
    Rank(a) < Rank(b) ||
    (Rank(a) == Rank(b) &&
      match (a, b)
      case (Number(x), Number(y)) => x < y
      case (Text(s), Text(t)) => StrLess(s, t)
      case (Stamp(d), Stamp(e)) => d < e
      case _ => false)
  }

  lemma CellLessTransitive(a: Cell, b: Cell, c: Cell)
    requires CellLess(a, b) && CellLess(b, c)
    ensures CellLess(a, c)
  {
    if a.Text? && b.Text? && c.Text? {
      StrLessTransitive(a.s, b.s, c.s);
    }
  }

  lemma CellLessTotal(a: Cell, b: Cell)
    requires a != b
    ensures CellLess(a, b) || CellLess(b, a)
  {
    if a.Text? && b.Text? {
      StrLessTotal(a.s, b.s);
    }
  }

  /** Strict (ticker, date) order. */
  predicate KeyLess(a: Record, b: Record) {
    CellLess(a.ticker, b.ticker) || (a.ticker == b.ticker && a.date < b.date)
  }

  predicate KeyLe(a: Record, b: Record) {
    CellLess(a.ticker, b.ticker) || (a.ticker == b.ticker && a.date <= b.date)
  }

  predicate SortedByKey(s: seq<Record>) {
    forall i, j :: 0 <= i < j < |s| ==> KeyLe(s[i], s[j])
  }

  lemma KeyLeTransitive(a: Record, b: Record, c: Record)
    requires KeyLe(a, b) && KeyLe(b, c)
    ensures KeyLe(a, c)
  {
    if CellLess(a.ticker, b.ticker) && CellLess(b.ticker, c.ticker) {
      CellLessTransitive(a.ticker, b.ticker, c.ticker);
    }
  }

  lemma KeyLeWhenNotLess(a: Record, b: Record)
    requires !KeyLess(a, b)
    ensures KeyLe(b, a)
  {
    if a.ticker != b.ticker {
      CellLessTotal(a.ticker, b.ticker);
    }
  }

  lemma PrependSorted(x: Record, s: seq<Record>)
    requires SortedByKey(s)
    requires |s| > 0 ==> KeyLe(x, s[0])
    ensures SortedByKey([x] + s)
  {
    forall j | 0 <= j < |s|
      ensures KeyLe(x, s[j])
    {
      if j > 0 {
        KeyLeTransitive(x, s[0], s[j]);
      }
    }
  }

  /** Places x after every record whose key is not greater than its own. */
  function Insert(x: Record, s: seq<Record>): (r: seq<Record>)
    ensures multiset(r) == multiset(s) + multiset{x}
    ensures |r| == |s| + 1
    decreases |s|
  {
    if |s| == 0 then [x]
    else if KeyLess(x, s[0]) then [x] + s
    else
      var rest := Insert(x, s[1..]);
      assert s == [s[0]] + s[1..];
      [s[0]] + rest
  }

  lemma {:induction false} InsertSorted(x: Record, s: seq<Record>)
    requires SortedByKey(s)
    ensures SortedByKey(Insert(x, s))
    decreases |s|
  {
    if |s| == 0 {
    } else if KeyLess(x, s[0]) {
      PrependSorted(x, s);
    } else {
      var rest := Insert(x, s[1..]);
      InsertSorted(x, s[1..]);
      assert rest[0] in multiset(s[1..]) + multiset{x};
      if rest[0] == x {
        KeyLeWhenNotLess(x, s[0]);
      } else {
        assert rest[0] in s[1..];
      }
      PrependSorted(s[0], rest);
    }
  }

  lemma MultisetOfLast(s: seq<Record>)
    requires |s| > 0
    ensures multiset(s) == multiset(s[..|s| - 1]) + multiset{s[|s| - 1]}
  {
    assert s == s[..|s| - 1] + [s[|s| - 1]];
  }

  /** A property of every record survives a reordering. */
  lemma PermutationKeeps(a: seq<Record>, b: seq<Record>, p: Record -> bool)
    requires multiset(a) == multiset(b)
    requires forall i :: 0 <= i < |b| ==> p(b[i])
    ensures forall i :: 0 <= i < |a| ==> p(a[i])
  {
    forall i | 0 <= i < |a|
      ensures p(a[i])
    {
      assert a[i] in multiset(b);
      var j :| 0 <= j < |b| && b[j] == a[i];
    }
  }

  /** sort_values(["ticker", "date"]): an ordered permutation of the records. */
  function SortByKey(s: seq<Record>): (r: seq<Record>)
    ensures SortedByKey(r)
    ensures multiset(r) == multiset(s)
    ensures |r| == |s|
    decreases |s|
  {
    if |s| == 0 then []
    else
      var front := SortByKey(s[..|s| - 1]);
      InsertSorted(s[|s| - 1], front);
      MultisetOfLast(s);
      Insert(s[|s| - 1], front)
  }

  /**
   * load_and_prepare on an already-read table. The result lists every kept
   * row once (no deduplication), ordered by (ticker, date).
   */
  method LoadAndPrepare(frame: Frame, toDate: Cell -> Option<int>) returns (r: Result<seq<Record>, SchemaError>)
    requires WellFormed(frame)
    ensures r.Failure? <==> !HasRequired(NormalizeColumns(frame.columns))
    ensures r.Failure? ==> r.error == SchemaError(NormalizeColumns(frame.columns))
    ensures r.Success? ==> r.value == SortByKey(KeptRecords(frame.rows, NormalizeColumns(frame.columns), toDate))
    ensures r.Success? ==> SortedByKey(r.value)
    ensures r.Success? ==> multiset(r.value) == multiset(KeptRecords(frame.rows, NormalizeColumns(frame.columns), toDate))
    ensures r.Success? && "ticker" !in NormalizeColumns(frame.columns) ==>
      forall i :: 0 <= i < |r.value| ==> r.value[i].ticker == Text(DefaultTicker)
    ensures r.Success? ==> forall i :: 0 <= i < |r.value| ==> !r.value[i].ticker.Null? && !r.value[i].close.Null?
  {
    var columns := seq(|frame.columns|, i requires 0 <= i < |frame.columns| => Lower(Strip(frame.columns[i])));
    columns := Rename(columns, "timestamp", "date");
    columns := Rename(columns, "symbol", "ticker");
    assert columns == NormalizeColumns(frame.columns);
    if !HasRequired(columns) {
      return Failure(SchemaError(columns));
    }
    var rows := KeptRecords(frame.rows, columns, toDate);
    ghost var kept := rows;
    rows := SortByKey(rows);
    PermutationKeeps(rows, kept, (rec: Record) => !rec.ticker.Null? && !rec.close.Null?);
    if "ticker" !in columns {
      PermutationKeeps(rows, kept, (rec: Record) => rec.ticker == Text(DefaultTicker));
    }
    return Success(rows);
  }
}
