/** The seed-puzzle loader (`LoadPuzzles` in logic/puzlogic.go), modelled as
    a scanner over the lines of the file. A record is nine lines of nine digit
    characters; records are separated by blank lines. */
module Loader {
  import opened Grids

  /** Why a load fails. `RowOverflow` stands for the index-out-of-range panic
      raised when a tenth row is written into the nine-row buffer. */
  datatype LoadError =
    | BadLength(line: string, length: int)
    | BadChar(ch: char)
    | RowOverflow

  datatype Result<T> = Ok(value: T) | Err(error: LoadError)

  datatype Option<T> = None | Some(value: T)

  /** White space as `strings.TrimSpace` sees it, restricted to Latin-1:
      tab, newline, vertical tab, form feed, carriage return, space, NEL, NBSP. */
  predicate IsSpace(ch: char) {
    ch == ' ' || (9 <= ch as int <= 13) || ch as int == 0x85 || ch as int == 0xA0
  }

  /** The line without its leading white space. */
  function TrimLeft(s: string): (t: string)
    ensures |t| <= |s|
    ensures t == [] || !IsSpace(t[0])
  {
    if |s| > 0 && IsSpace(s[0]) then TrimLeft(s[1..]) else s
  }

  /** The line without its trailing white space. */
  function TrimRight(s: string): (t: string)
    ensures |t| <= |s| && (t != [] ==> t[0] == s[0])
    ensures t == [] || !IsSpace(t[|t| - 1])
  {
    if |s| > 0 && IsSpace(s[|s| - 1]) then TrimRight(s[..|s| - 1]) else s
  }

  /** `TrimLeft` drops a run of white space from the front and keeps the rest. */
  lemma {:induction false} TrimLeftSuffix(s: string)
    ensures TrimLeft(s) == s[|s| - |TrimLeft(s)|..]
    ensures forall k :: 0 <= k < |s| - |TrimLeft(s)| ==> IsSpace(s[k])
  {
    if |s| > 0 && IsSpace(s[0]) {
      TrimLeftSuffix(s[1..]);
    }
  }

  /** `TrimRight` drops a run of white space from the back and keeps the rest. */
  lemma {:induction false} TrimRightPrefix(s: string)
    ensures TrimRight(s) == s[..|TrimRight(s)|]
    ensures forall k :: |TrimRight(s)| <= k < |s| ==> IsSpace(s[k])
  {
    if |s| > 0 && IsSpace(s[|s| - 1]) {
      TrimRightPrefix(s[..|s| - 1]);
    }
  }

  /** `t` is the part of `s` starting at `i`, and everything of `s` before
      and after it is white space. */
  predicate TrimmedAt(s: string, i: int, t: string) {
    0 <= i <= |s| - |t| && t == s[i..i + |t|] &&
    (forall k :: 0 <= k < i ==> IsSpace(s[k])) &&
    (forall k :: i + |t| <= k < |s| ==> IsSpace(s[k]))
  }

  /** `strings.TrimSpace`: the line with its leading and trailing white space
      removed and nothing else changed. */
  function TrimSpace(s: string): (t: string)
    ensures exists i :: TrimmedAt(s, i, t)
    ensures t == [] || (!IsSpace(t[0]) && !IsSpace(t[|t| - 1]))
  {
    var l := TrimLeft(s);
    var t := TrimRight(l);
    var i := |s| - |l|;
    TrimLeftSuffix(s);
    TrimRightPrefix(l);
    assert t == s[i..i + |t|];
    assert forall k :: i + |t| <= k < |s| ==> s[k] == l[k - i];
    assert TrimmedAt(s, i, t);
    t
  }

  predicate IsDigit(ch: char) {
    '0' <= ch <= '9'
  }

  /** `int(char - '0')` */
  function DigitValue(ch: char): int {
    ch as int - '0' as int
  }

  /** Index of the first character that is not a digit, or the length. */
  function FirstNonDigit(line: string): (k: nat)
    ensures k <= |line|
    ensures forall j :: 0 <= j < k ==> IsDigit(line[j])
    ensures k < |line| ==> !IsDigit(line[k])
  {
    if line == [] then 0
    else if !IsDigit(line[0]) then 0
    else 1 + FirstNonDigit(line[1..])
  }

  /** A line of nine digits read as a grid row. */
  function DigitRow(line: string): (row: seq<int>)
    requires |line| == Size && FirstNonDigit(line) == Size
    ensures |row| == Size && forall c :: 0 <= c < Size ==> 0 <= row[c] <= 9
  {
    seq(Size, c requires 0 <= c < Size => DigitValue(line[c]))
  }

  /** What the scanning loop keeps between lines: the rows read so far of the
      current record (their number is the `row` counter) and the finished
      puzzles. */
  datatype Scan = Scan(rows: seq<seq<int>>, puzzles: seq<Grid>)

  /** The invariant of the scanner state. */
  predicate ValidScan(s: Scan) {
    |s.rows| <= Size &&
    (forall r :: 0 <= r < |s.rows| ==>
       |s.rows[r]| == Size && forall c :: 0 <= c < Size ==> 0 <= s.rows[r][c] <= 9) &&
    forall k :: 0 <= k < |s.puzzles| ==> IsPuzzle(s.puzzles[k])
  }

  /** One iteration of the scanning loop on one raw line. */
  function ScanLine(s: Scan, raw: string): (r: Result<Scan>)
    ensures ValidScan(s) && r.Ok? ==> ValidScan(r.value)
  {
    var line := TrimSpace(raw);
    if line == [] then
      // a blank line closes a record only once nine rows have been read
      if |s.rows| == Size then Ok(Scan([], s.puzzles + [s.rows])) else Ok(s)
    else if |line| != Size then
      Err(BadLength(line, |line|))
    else if FirstNonDigit(line) < Size && (|s.rows| < Size || FirstNonDigit(line) == 0) then
      Err(BadChar(line[FirstNonDigit(line)]))
    else if |s.rows| >= Size then
      Err(RowOverflow)
    else
      Ok(Scan(s.rows + [DigitRow(line)], s.puzzles))
  }

  /** The scanning loop over the remaining lines. */
  function ScanAll(s: Scan, lines: seq<string>): Result<Scan>
    decreases |lines|
  {
    if lines == [] then Ok(s)
    else match ScanLine(s, lines[0])
      case Err(e) => Err(e)
      case Ok(s') => ScanAll(s', lines[1..])
  }

  /** After the last line a complete record is kept even without a blank line. */
  function Finish(s: Scan): seq<Grid> {
    if |s.rows| == Size then s.puzzles + [s.rows] else s.puzzles
  }

  /** The puzzles a file holds, or why it cannot be loaded. */
  function Parse(lines: seq<string>): Result<seq<Grid>> {
    match ScanAll(Scan([], []), lines)
    case Err(e) => Err(e)
    case Ok(s) => Ok(Finish(s))
  }

  /** `LoadPuzzles`: the loop of logic/puzlogic.go over the lines of the file,
      with its reused nine-row buffer and its `row` counter. */
  method LoadPuzzles(lines: seq<string>) returns (result: Result<seq<Grid>>)
    ensures result == Parse(lines)
  {
    var puzzles: seq<Grid> := [];
    var currentPuzzle := new int[Size, Size];
    var row := 0;
    ghost var rows: seq<seq<int>> := [];
    var i := 0;
    while i < |lines|
      invariant 0 <= i <= |lines|
      invariant row == |rows| <= Size
      invariant BufferHolds(currentPuzzle, rows)
      invariant ScanAll(Scan(rows, puzzles), lines[i..]) == ScanAll(Scan([], []), lines)
    {
      ScanAllStep(Scan(rows, puzzles), lines, i);
      var failure;
      failure, row, puzzles, rows := ReadLine(currentPuzzle, lines[i], row, puzzles, rows);
      if failure.Some? {
        return Err(failure.value);
      }
      i := i + 1;
    }
    if row == Size {
      BufferHoldsRows(currentPuzzle, rows);
      puzzles := puzzles + [Cells(currentPuzzle)];
    }
    return Ok(puzzles);
  }


  /** One pass of the loop of `LoadPuzzles` on the raw line `raw`: a blank
      line closes a complete record, any other line is checked and stored as
      the next buffer row. */
  method ReadLine(currentPuzzle: array2<int>, raw: string, row: int, puzzles: seq<Grid>, ghost rows: seq<seq<int>>)
    returns (failure: Option<LoadError>, row': int, puzzles': seq<Grid>, ghost rows': seq<seq<int>>)
    requires BufferHolds(currentPuzzle, rows) && row == |rows|
    modifies currentPuzzle
    ensures failure.Some? ==> ScanLine(Scan(rows, puzzles), raw) == Err(failure.value)
    ensures failure.None? ==>
      ScanLine(Scan(rows, puzzles), raw) == Ok(Scan(rows', puzzles')) &&
      BufferHolds(currentPuzzle, rows') && row' == |rows'|
  {
    ghost var step := ScanLine(Scan(rows, puzzles), raw);
    var line := TrimSpace(raw);
    if line == [] {
      if row == Size {
        BufferHoldsRows(currentPuzzle, rows);
        return None, 0, puzzles + [Cells(currentPuzzle)], [];
      }
      return None, row, puzzles, rows;
    }
    if |line| != Size {
      return Some(BadLength(line, |line|)), row, puzzles, rows;
    }
    failure := StoreRow(currentPuzzle, row, line, rows);
    if failure.Some? {
      return failure, row, puzzles, rows;
    }
    ghost var newRow := DigitRow(line);
    assert step == Ok(Scan(rows + [newRow], puzzles));
    BufferExtend(currentPuzzle, rows, newRow);
    return None, row + 1, puzzles, rows + [newRow];
  }

  /** The inner loop `for col, char := range line` of `LoadPuzzles`: checks
      each character and writes its digit into buffer row `row`. */
  method StoreRow(currentPuzzle: array2<int>, row: int, line: string, ghost rows: seq<seq<int>>)
    returns (failure: Option<LoadError>)
    requires BufferHolds(currentPuzzle, rows) && row == |rows| && |line| == Size
    modifies currentPuzzle
    ensures BufferHolds(currentPuzzle, rows)
    ensures failure.None? ==>
      (row < Size && FirstNonDigit(line) == Size &&
       forall c :: 0 <= c < Size ==> currentPuzzle[row, c] == DigitValue(line[c]))
    ensures failure.Some? ==>
      if FirstNonDigit(line) < Size && (row < Size || FirstNonDigit(line) == 0)
      then failure == Some(BadChar(line[FirstNonDigit(line)]))
      else row >= Size && failure == Some(RowOverflow)
  {
    var col := 0;
    while col < Size
      invariant 0 <= col <= Size
      invariant forall j :: 0 <= j < col ==> IsDigit(line[j])
      invariant row < Size ==> forall c :: 0 <= c < col ==> currentPuzzle[row, c] == DigitValue(line[c])
      invariant BufferHolds(currentPuzzle, rows)
      invariant row == Size ==> col == 0
    {
      var ch := line[col];
      if ch < '0' || ch > '9' {
        assert FirstNonDigit(line) == col;
        return Some(BadChar(ch));
      }
      if row == Size {
        // currentPuzzle[9][col]: index out of range
        return Some(RowOverflow);
      }
      currentPuzzle[row, col] := DigitValue(ch);
      col := col + 1;
    }
    assert FirstNonDigit(line) == Size;
    return None;
  }

  lemma ScanAllStep(s: Scan, lines: seq<string>, i: int)
    requires 0 <= i < |lines|
    ensures ScanAll(s, lines[i..]) ==
      match ScanLine(s, lines[i])
      case Err(e) => Err(e)
      case Ok(s') => ScanAll(s', lines[i + 1..])
  {
    assert lines[i..][0] == lines[i];
    assert lines[i..][1..] == lines[i + 1..];
  }

  /** The first |rows| rows of the buffer hold `rows`. */
  ghost predicate BufferHolds(a: array2<int>, rows: seq<seq<int>>)
    reads a
  {
    Is9x9(a) && |rows| <= Size &&
    (forall r :: 0 <= r < |rows| ==> |rows[r]| == Size) &&
    forall r, c :: 0 <= r < |rows| && 0 <= c < Size ==> a[r, c] == rows[r][c]
  }

  lemma BufferExtend(a: array2<int>, rows: seq<seq<int>>, newRow: seq<int>)
    requires BufferHolds(a, rows) && |rows| < Size && |newRow| == Size
    requires forall c :: 0 <= c < Size ==> a[|rows|, c] == newRow[c]
    ensures BufferHolds(a, rows + [newRow])
  {
  }

  lemma BufferHoldsRows(a: array2<int>, rows: seq<seq<int>>)
    requires BufferHolds(a, rows) && |rows| == Size
    ensures Cells(a) == rows
  {
    forall r | 0 <= r < Size ensures Cells(a)[r] == rows[r] { }
  }
}
