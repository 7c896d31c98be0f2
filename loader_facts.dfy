/** What the seed-file scanner accepts and produces: every loaded cell is a
    digit, only well-formed lines get through, a file written record by record
    reads back as the same puzzles, and the edge cases of the `row` counter. */
module LoaderFacts {
  import opened Grids
  import opened Loader

  /** A trimmed line the scanner can accept: blank, or nine digits. */
  predicate WellFormedLine(t: string) {
    t == [] || (|t| == Size && FirstNonDigit(t) == Size)
  }

  /** A grid row written as nine digit characters. */
  function RowText(row: seq<int>): (t: string)
    requires |row| == Size && forall c :: 0 <= c < Size ==> 0 <= row[c] <= 9
    ensures |t| == Size
  {
    seq(Size, c requires 0 <= c < Size => DigitChar(row[c]))
  }

  /** The character of a digit 0..9. */
  function DigitChar(v: int): (ch: char)
    requires 0 <= v <= 9
  {
    (v + '0' as int) as char
  }

  lemma DigitCharReadsBack(v: int)
    requires 0 <= v <= 9
    ensures IsDigit(DigitChar(v)) && !IsSpace(DigitChar(v)) && DigitValue(DigitChar(v)) == v
  {
  }

  /** A grid written as its nine row lines. */
  function GridLines(g: Grid): (ls: seq<string>)
    requires IsPuzzle(g)
    ensures |ls| == Size
  {
    seq(Size, r requires 0 <= r < Size => RowText(g[r]))
  }

  predicate AllPuzzles(pool: seq<Grid>) {
    forall k :: 0 <= k < |pool| ==> IsPuzzle(pool[k])
  }

  /** A seed file: every record followed by a blank line. */
  function Render(pool: seq<Grid>): seq<string>
    requires AllPuzzles(pool)
  {
    if pool == [] then [] else GridLines(pool[0]) + [""] + Render(pool[1..])
  }

  lemma {:induction false} ScanAllValid(s: Scan, lines: seq<string>)
    requires ValidScan(s) && ScanAll(s, lines).Ok?
    ensures ValidScan(ScanAll(s, lines).value)
    decreases |lines|
  {
    if lines != [] {
      ScanAllValid(ScanLine(s, lines[0]).value, lines[1..]);
    }
  }

  /** Every cell of every loaded puzzle is in 0..9. */
  lemma ParseYieldsPuzzles(lines: seq<string>)
    requires Parse(lines).Ok?
    ensures AllPuzzles(Parse(lines).value)
  {
    ScanAllValid(Scan([], []), lines);
  }

  lemma {:induction false} ScanAllWellFormed(s: Scan, lines: seq<string>)
    requires ScanAll(s, lines).Ok?
    ensures forall i :: 0 <= i < |lines| ==> WellFormedLine(TrimSpace(lines[i]))
    decreases |lines|
  {
    if lines != [] {
      ScanAllWellFormed(ScanLine(s, lines[0]).value, lines[1..]);
      assert forall i :: 1 <= i < |lines| ==> lines[i] == lines[1..][i - 1];
    }
  }

  /** A load succeeds only if every line, once trimmed, is blank or nine digits:
      a wrong length or a non-digit character always fails the load. */
  lemma ParseRejectsMalformed(lines: seq<string>, i: int)
    requires 0 <= i < |lines| && !WellFormedLine(TrimSpace(lines[i]))
    ensures Parse(lines).Err?
  {
    if Parse(lines).Ok? {
      ScanAllWellFormed(Scan([], []), lines);
    }
  }

  /** The converse on the scanner: when every line is blank or nine digits
      once trimmed, the only way the loop can fail is a tenth row. */
  lemma {:induction false} WellFormedScan(s: Scan, lines: seq<string>)
    requires forall i :: 0 <= i < |lines| ==> WellFormedLine(TrimSpace(lines[i]))
    ensures ScanAll(s, lines).Ok? || ScanAll(s, lines) == Err(RowOverflow)
    decreases |lines|
  {
    if lines != [] {
      WellFormedLineScans(s, lines[0]);
      var r := ScanLine(s, lines[0]);
      if r.Ok? {
        assert forall i :: 0 <= i < |lines[1..]| ==> lines[1..][i] == lines[i + 1];
        WellFormedScan(r.value, lines[1..]);
      }
    }
  }

  /** One well-formed line fails the scanner only by overflowing the buffer. */
  lemma WellFormedLineScans(s: Scan, raw: string)
    requires WellFormedLine(TrimSpace(raw))
    ensures ScanLine(s, raw).Ok? || ScanLine(s, raw) == Err(RowOverflow)
  {
  }

  /** A file whose lines are all blank or nine digits after trimming loads,
      unless some record runs to a tenth row. */
  lemma ParseAcceptsWellFormed(lines: seq<string>)
    requires forall i :: 0 <= i < |lines| ==> WellFormedLine(TrimSpace(lines[i]))
    ensures Parse(lines).Ok? || Parse(lines) == Err(RowOverflow)
  {
    WellFormedScan(Scan([], []), lines);
  }

  lemma {:induction false} ScanAllAppend(s: Scan, a: seq<string>, b: seq<string>)
    ensures ScanAll(s, a + b) ==
      match ScanAll(s, a)
      case Err(e) => Err(e)
      case Ok(s') => ScanAll(s', b)
    decreases |a|
  {
    if a == [] {
      assert a + b == b;
    } else {
      assert (a + b)[0] == a[0];
      assert (a + b)[1..] == a[1..] + b;
      if ScanLine(s, a[0]).Ok? {
        ScanAllAppend(ScanLine(s, a[0]).value, a[1..], b);
      }
    }
  }

  lemma RowTextReadsBack(row: seq<int>)
    requires |row| == Size && forall c :: 0 <= c < Size ==> 0 <= row[c] <= 9
    ensures TrimSpace(RowText(row)) == RowText(row)
    ensures FirstNonDigit(RowText(row)) == Size
    ensures DigitRow(RowText(row)) == row
  {
    var t := RowText(row);
    forall c | 0 <= c < Size
      ensures IsDigit(t[c]) && !IsSpace(t[c]) && DigitValue(t[c]) == row[c]
    {
      DigitCharReadsBack(row[c]);
    }
    assert TrimLeft(t) == t;
    assert TrimRight(t) == t;
    FirstNonDigitOfDigits(t);
    assert DigitRow(t) == row;
  }

  lemma {:induction false} FirstNonDigitOfDigits(t: string)
    requires forall c :: 0 <= c < |t| ==> IsDigit(t[c])
    ensures FirstNonDigit(t) == |t|
  {
    if t != [] {
      FirstNonDigitOfDigits(t[1..]);
    }
  }

  /** Scanning the rows k..8 of a record on top of its first k rows. */
  lemma {:induction false} ScanRows(g: Grid, k: nat, p: seq<Grid>)
    requires IsPuzzle(g) && k <= Size
    ensures ScanAll(Scan(g[..k], p), GridLines(g)[k..]) == Ok(Scan(g, p))
    decreases Size - k
  {
    if k == Size {
      assert g[..k] == g;
    } else {
      var ls := GridLines(g)[k..];
      RowTextReadsBack(g[k]);
      assert ls[0] == RowText(g[k]);
      assert g[..k] + [g[k]] == g[..k + 1];
      assert ScanLine(Scan(g[..k], p), ls[0]) == Ok(Scan(g[..k + 1], p));
      assert ls[1..] == GridLines(g)[k + 1..];
      ScanRows(g, k + 1, p);
    }
  }

  lemma ScanRecord(g: Grid, p: seq<Grid>)
    requires IsPuzzle(g)
    ensures ScanAll(Scan([], p), GridLines(g) + [""]) == Ok(Scan([], p + [g]))
  {
    ScanRows(g, 0, p);
    assert g[..0] == [] && GridLines(g)[0..] == GridLines(g);
    ScanAllAppend(Scan([], p), GridLines(g), [""]);
  }

  lemma {:induction false} ScanRender(pool: seq<Grid>, p: seq<Grid>)
    requires AllPuzzles(pool)
    ensures ScanAll(Scan([], p), Render(pool)) == Ok(Scan([], p + pool))
    decreases |pool|
  {
    if pool == [] {
      assert p + pool == p;
    } else {
      var head, rest := GridLines(pool[0]) + [""], Render(pool[1..]);
      calc {
        ScanAll(Scan([], p), Render(pool));
      == { assert Render(pool) == head + rest; }
        ScanAll(Scan([], p), head + rest);
      == { ScanRecord(pool[0], p); ScanAllAppend(Scan([], p), head, rest); }
        ScanAll(Scan([], p + [pool[0]]), rest);
      == { ScanRender(pool[1..], p + [pool[0]]); }
        Ok(Scan([], p + [pool[0]] + pool[1..]));
      == { assert p + [pool[0]] + pool[1..] == p + pool; }
        Ok(Scan([], p + pool));
      }
    }
  }

  /** Round trip: a file written record by record loads back as the same puzzles. */
  lemma ParseRender(pool: seq<Grid>)
    requires AllPuzzles(pool)
    ensures Parse(Render(pool)) == Ok(pool)
  {
    ScanRender(pool, []);
    assert [] + pool == pool;
  }

  /** The last record needs no trailing blank line. */
  lemma LastRecordWithoutBlank(pool: seq<Grid>, g: Grid)
    requires AllPuzzles(pool) && IsPuzzle(g)
    ensures Parse(Render(pool) + GridLines(g)) == Ok(pool + [g])
  {
    ScanRender(pool, []);
    assert [] + pool == pool;
    ScanAllAppend(Scan([], []), Render(pool), GridLines(g));
    ScanRows(g, 0, pool);
    assert g[..0] == [] && GridLines(g)[0..] == GridLines(g);
  }

  /** A trailing record of fewer than nine rows is dropped without an error. */
  lemma PartialRecordDropped(pool: seq<Grid>, g: Grid, k: nat)
    requires AllPuzzles(pool) && IsPuzzle(g) && k < Size
    ensures Parse(Render(pool) + GridLines(g)[..k]) == Ok(pool)
  {
    ScanRender(pool, []);
    assert [] + pool == pool;
    ScanAllAppend(Scan([], []), Render(pool), GridLines(g)[..k]);
    PrefixRows(g, 0, k, pool);
    assert g[..0] == [] && GridLines(g)[0..k] == GridLines(g)[..k];
  }

  /** Scanning rows j..k-1 of a record on top of its first j rows. */
  lemma {:induction false} PrefixRows(g: Grid, j: nat, k: nat, p: seq<Grid>)
    requires IsPuzzle(g) && j <= k <= Size
    ensures ScanAll(Scan(g[..j], p), GridLines(g)[j..k]) == Ok(Scan(g[..k], p))
    decreases k - j
  {
    if j < k {
      var ls := GridLines(g)[j..k];
      RowTextReadsBack(g[j]);
      assert ls[0] == RowText(g[j]);
      assert g[..j] + [g[j]] == g[..j + 1];
      assert ScanLine(Scan(g[..j], p), ls[0]) == Ok(Scan(g[..j + 1], p));
      assert ls[1..] == GridLines(g)[j + 1..k];
      PrefixRows(g, j + 1, k, p);
    }
  }

  lemma ScanBlank(s: Scan)
    ensures ScanLine(s, "") == Ok(if |s.rows| == Size then Scan([], s.puzzles + [s.rows]) else s)
  {
    assert TrimSpace("") == "";
  }

  /** A blank line inside a record neither ends nor resets it: the rows on
      both sides of it still form one puzzle. */
  lemma BlankInsideRecord(g: Grid, k: nat)
    requires IsPuzzle(g) && k <= Size
    ensures Parse(GridLines(g)[..k] + [""] + GridLines(g)[k..]) == Ok([g])
  {
    var front, back := GridLines(g)[..k], GridLines(g)[k..];
    PrefixRows(g, 0, k, []);
    assert g[..0] == [] && GridLines(g)[0..k] == front;
    assert front + [""] + back == front + ([""] + back);
    ScanAllAppend(Scan([], []), front, [""] + back);
    ScanAllAppend(Scan(g[..k], []), [""], back);
    ScanBlank(Scan(g[..k], []));
    assert ScanAll(Scan(g[..k], []), [""]) == ScanLine(Scan(g[..k], []), "");
    if k < Size {
      ScanRows(g, k, []);
      assert ScanAll(Scan([], []), front + [""] + back) == Ok(Scan(g, []));
      assert [] + [g] == [g];
    } else {
      assert g[..k] == g && back == [];
      assert [] + [g] == [g];
    }
  }

  /** A tenth digit row with no blank line after a nine-row record writes past
      the nine-row buffer: the load fails instead of starting a new record. */
  lemma TenthRowOverflows(g: Grid, extra: seq<int>)
    requires IsPuzzle(g) && |extra| == Size && forall c :: 0 <= c < Size ==> 0 <= extra[c] <= 9
    ensures Parse(GridLines(g) + [RowText(extra)]) == Err(RowOverflow)
  {
    ScanRows(g, 0, []);
    assert g[..0] == [] && GridLines(g)[0..] == GridLines(g);
    ScanAllAppend(Scan([], []), GridLines(g), [RowText(extra)]);
    RowTextReadsBack(extra);
  }
}
