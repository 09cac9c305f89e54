/** The hexdump formatter: rows of sixteen columns aligned on sixteen-byte addresses, written through two reused buffers. */
module Hexdump {
  import opened Bytes

  const BYTES_PER_LINE := 16
  const MAX_HEX_LENGTH := 80

  /** One printed line: row address, hex columns, character columns. */
  datatype Row = Row(addr: nat, hex: string, text: string)

  datatype Cell = Absent | Present(value: Byte)

  /** What memory holds at address a when dump was taken at start. */
  function CellAt(start: nat, dump: seq<Byte>, a: nat): Cell
  {
    if start <= a < start + |dump| then Present(dump[a - start]) else Absent
  }

  function Digit(n: nat): char
    requires n < 16
  {
    "0123456789ABCDEF"[n]
  }

  /** "%02X " for a byte, ".. " for a column outside the dump. */
  function HexCell(c: Cell): (s: string)
    ensures |s| == 3
  {
    match c
    case Absent => ".. "
    case Present(b) => [Digit(b / 16), Digit(b % 16), ' ']
  }

  function TextCell(c: Cell): char
  {
    match c
    case Absent => ' '
    case Present(b) => if ' ' as int <= b <= '~' as int then b as char else '.'
  }

  /** The first n columns of the row at addr, as hex and as characters. */
  function HexLine(start: nat, dump: seq<Byte>, addr: nat, n: nat): (s: string)
    ensures |s| == 3 * n
  {
    if n == 0 then [] else HexLine(start, dump, addr, n - 1) + HexCell(CellAt(start, dump, addr + n - 1))
  }

  function TextLine(start: nat, dump: seq<Byte>, addr: nat, n: nat): (s: string)
    ensures |s| == n
  {
    if n == 0 then [] else TextLine(start, dump, addr, n - 1) + [TextCell(CellAt(start, dump, addr + n - 1))]
  }

  function RowAt(start: nat, dump: seq<Byte>, addr: nat): Row
  {
    Row(addr, HexLine(start, dump, addr, BYTES_PER_LINE), TextLine(start, dump, addr, BYTES_PER_LINE))
  }

  /** The row containing start, and the number of rows from there to the end of the dump. */
  function Base(start: nat): nat { start - start % BYTES_PER_LINE }

  function RowCount(start: nat, len: nat): nat
  {
    (start % BYTES_PER_LINE + len + BYTES_PER_LINE - 1) / BYTES_PER_LINE
  }

  /** The first n rows from address base on. */
  function Rows(start: nat, dump: seq<Byte>, base: nat, n: nat): (rows: seq<Row>)
    ensures |rows| == n
  {
    if n == 0 then [] else Rows(start, dump, base, n - 1) + [RowAt(start, dump, base + BYTES_PER_LINE * (n - 1))]
  }

  function DumpOf(start: nat, dump: seq<Byte>): seq<Row>
  {
    Rows(start, dump, Base(start), RowCount(start, |dump|))
  }

  /** sprintf of a three-character string with its terminating NUL. */
  method Print3(buf: array<char>, at: nat, s: string)
    requires |s| == 3 && at + 3 < buf.Length
    modifies buf
    ensures buf[..] == old(buf[..at]) + s + ['\0'] + old(buf[at + 4..])
  {
    buf[at], buf[at + 1], buf[at + 2], buf[at + 3] := s[0], s[1], s[2], '\0';
  }

  /** The C string a buffer holds. */
  function CString(s: seq<char>): string
  {
    if s == [] || s[0] == '\0' then [] else [s[0]] + CString(s[1..])
  }

  lemma {:induction false} CStringIs(s: seq<char>, n: nat)
    requires n < |s| && s[n] == '\0' && forall i :: 0 <= i < n ==> s[i] != '\0'
    ensures CString(s) == s[..n]
  {
    if n > 0 {
      CStringIs(s[1..], n - 1);
      assert s[..n] == [s[0]] + s[1..][..n - 1];
    }
  }

  lemma {:induction false} LinesHaveNoNul(start: nat, dump: seq<Byte>, addr: nat, n: nat)
    ensures forall i :: 0 <= i < 3 * n ==> HexLine(start, dump, addr, n)[i] != '\0'
    ensures forall i :: 0 <= i < n ==> TextLine(start, dump, addr, n)[i] != '\0'
  {
    if n > 0 {
      LinesHaveNoNul(start, dump, addr, n - 1);
    }
  }

  /** The buffers hold the first n columns. */
  ghost predicate Filled(hexBuff: array<char>, charBuff: array<char>, start: nat, dump: seq<Byte>, addr: nat, n: nat)
    requires hexBuff.Length == MAX_HEX_LENGTH + 1 && charBuff.Length == BYTES_PER_LINE + 1 && n <= BYTES_PER_LINE
    reads hexBuff, charBuff
  {
    hexBuff[..3 * n] == HexLine(start, dump, addr, n) && charBuff[..n] == TextLine(start, dump, addr, n)
  }

  lemma NothingFilled(hexBuff: array<char>, charBuff: array<char>, start: nat, dump: seq<Byte>, addr: nat)
    requires hexBuff.Length == MAX_HEX_LENGTH + 1 && charBuff.Length == BYTES_PER_LINE + 1
    ensures Filled(hexBuff, charBuff, start, dump, addr, 0)
  {}

  /** Writing one more column extends Filled; the NUL sprintf leaves lies outside the columns written so far. */
  method PutColumn(hexBuff: array<char>, charBuff: array<char>, column: nat,
                   ghost start: nat, ghost dump: seq<Byte>, ghost addr: nat, cell: Cell)
    requires hexBuff.Length == MAX_HEX_LENGTH + 1 && charBuff.Length == BYTES_PER_LINE + 1 && hexBuff != charBuff
    requires column < BYTES_PER_LINE && cell == CellAt(start, dump, addr + column)
    requires Filled(hexBuff, charBuff, start, dump, addr, column)
    modifies hexBuff, charBuff
    ensures Filled(hexBuff, charBuff, start, dump, addr, column + 1)
    ensures hexBuff[3 * column + 3] == '\0'
  {
    Print3(hexBuff, 3 * column, HexCell(cell));
    charBuff[column] := TextCell(cell);
    assert hexBuff[..3 * (column + 1)] == old(hexBuff[..3 * column]) + HexCell(cell);
    assert charBuff[..column + 1] == old(charBuff[..column]) + [TextCell(cell)];
  }

  method FinishRow(hexBuff: array<char>, charBuff: array<char>, ghost start: nat, ghost dump: seq<Byte>, addr: nat)
    returns (row: Row)
    requires hexBuff.Length == MAX_HEX_LENGTH + 1 && charBuff.Length == BYTES_PER_LINE + 1 && hexBuff != charBuff
    requires Filled(hexBuff, charBuff, start, dump, addr, BYTES_PER_LINE)
    requires hexBuff[3 * BYTES_PER_LINE] == '\0'
    modifies hexBuff, charBuff
    ensures row == RowAt(start, dump, addr)
  {
    ghost var hex, text := hexBuff[..3 * BYTES_PER_LINE], charBuff[..BYTES_PER_LINE];
    hexBuff[MAX_HEX_LENGTH] := '\0';
    charBuff[BYTES_PER_LINE] := '\0';
    assert hexBuff[..][..3 * BYTES_PER_LINE] == hex && charBuff[..][..BYTES_PER_LINE] == text;
    LinesHaveNoNul(start, dump, addr, BYTES_PER_LINE);
    CStringIs(hexBuff[..], 3 * BYTES_PER_LINE);
    CStringIs(charBuff[..], BYTES_PER_LINE);
    row := Row(addr, CString(hexBuff[..]), CString(charBuff[..]));
  }

  /** The lead-in and lead-out loops: columns from..upto lie outside the dump. */
  method PrintBlanks(hexBuff: array<char>, charBuff: array<char>, from: nat, upto: nat,
                     ghost start: nat, ghost dump: seq<Byte>, ghost addr: nat)
    requires hexBuff.Length == MAX_HEX_LENGTH + 1 && charBuff.Length == BYTES_PER_LINE + 1 && hexBuff != charBuff
    requires from <= upto <= BYTES_PER_LINE
    requires addr + upto <= start || start + |dump| <= addr + from
    requires Filled(hexBuff, charBuff, start, dump, addr, from)
    modifies hexBuff, charBuff
    ensures Filled(hexBuff, charBuff, start, dump, addr, upto)
    ensures from < upto ==> hexBuff[3 * upto] == '\0'
  {
    var i := from;
    while i < upto
      invariant from <= i <= upto
      invariant Filled(hexBuff, charBuff, start, dump, addr, i)
      invariant from < i ==> hexBuff[3 * i] == '\0'
    {
      PutColumn(hexBuff, charBuff, i, start, dump, addr, Absent);
      i := i + 1;
    }
  }

  /** The rows finished when the next byte to print is at address `at`, and the column it goes to. */
  ghost predicate Progress(rows: seq<Row>, start: nat, dump: seq<Byte>, at: nat, rowStart: nat, column: nat)
  {
    && column < BYTES_PER_LINE && rowStart + column == at
    && rowStart == Base(start) + BYTES_PER_LINE * |rows|
    && rows == Rows(start, dump, Base(start), |rows|)
  }

  /** A full line moves on to the next row. */
  lemma NextRow(rows: seq<Row>, start: nat, dump: seq<Byte>, at: nat, rowStart: nat)
    requires Progress(rows, start, dump, at, rowStart, BYTES_PER_LINE - 1)
    ensures Progress(rows + [RowAt(start, dump, rowStart)], start, dump, at + 1, rowStart + BYTES_PER_LINE, 0)
  {}

  /** After the last byte the rows are complete, but for one partly filled line. */
  lemma RowsDone(rows: seq<Row>, start: nat, dump: seq<Byte>, rowStart: nat, column: nat)
    requires Progress(rows, start, dump, start + |dump|, rowStart, column)
    ensures DumpOf(start, dump) ==
            if column == 0 then rows else rows + [RowAt(start, dump, rowStart)]
  {
    assert start % BYTES_PER_LINE + |dump| == BYTES_PER_LINE * |rows| + column;
    assert RowCount(start, |dump|) == if column == 0 then |rows| else |rows| + 1;
  }

  /** The formatter itself. The array bounds Dafny checks are the two malloc sizes of the source. */
  method LogHexdump(pri: int, loglevel: int, start: nat, dump: seq<Byte>) returns (rows: seq<Row>)
    ensures pri <= loglevel ==> rows == DumpOf(start, dump)
    ensures pri > loglevel ==> rows == []
  {
    rows := [];
    var hexBuff := new char[MAX_HEX_LENGTH + 1];
    var charBuff := new char[BYTES_PER_LINE + 1];
    if pri <= loglevel {
      rows := PrintRows(hexBuff, charBuff, start, dump);
    }
  }

  method PrintRows(hexBuff: array<char>, charBuff: array<char>, start: nat, dump: seq<Byte>) returns (rows: seq<Row>)
    requires hexBuff.Length == MAX_HEX_LENGTH + 1 && charBuff.Length == BYTES_PER_LINE + 1 && hexBuff != charBuff
    modifies hexBuff, charBuff
    ensures rows == DumpOf(start, dump)
  {
    hide RowAt, Filled;
    rows := [];
    var rowStart: nat := Base(start);
    var column: nat := start % BYTES_PER_LINE;
    var left: nat := |dump|;
    NothingFilled(hexBuff, charBuff, start, dump, rowStart);
    PrintBlanks(hexBuff, charBuff, 0, column, start, dump, rowStart);
    while left > 0
      invariant left <= |dump|
      invariant Progress(rows, start, dump, start + |dump| - left, rowStart, column)
      invariant Filled(hexBuff, charBuff, start, dump, rowStart, column)
    {
      PutColumn(hexBuff, charBuff, column, start, dump, rowStart, Present(dump[|dump| - left]));
      if column + 1 >= BYTES_PER_LINE {
        NextRow(rows, start, dump, start + |dump| - left, rowStart);
        var row := FinishRow(hexBuff, charBuff, start, dump, rowStart);
        rows := rows + [row];
        rowStart := rowStart + BYTES_PER_LINE;
        column := 0;
        NothingFilled(hexBuff, charBuff, start, dump, rowStart);
      } else {
        column := column + 1;
      }
      left := left - 1;
    }
    RowsDone(rows, start, dump, rowStart, column);
    if column > 0 {
      PrintBlanks(hexBuff, charBuff, column, BYTES_PER_LINE, start, dump, rowStart);
      var row := FinishRow(hexBuff, charBuff, start, dump, rowStart);
      rows := rows + [row];
    }
  }

  // Reading a dump back

  function DigitValue(c: char): nat
  {
    if '0' <= c <= '9' then c as int - '0' as int
    else if 'A' <= c <= 'F' then c as int - 'A' as int + 10
    else 0
  }

  function ParseCell(s: string): Cell
    requires |s| == 3
  {
    if s[0] == '.' then Absent else Present((16 * DigitValue(s[0]) + DigitValue(s[1])) % 256)
  }

  /** Column c of a row, read back. */
  function Column(row: Row, c: nat): Cell
  {
    if |row.hex| < 3 * c + 3 then Absent else ParseCell(row.hex[3 * c..3 * c + 3])
  }

  function PairOf(c: Cell, a: nat): seq<(nat, Byte)>
  {
    match c
    case Absent => []
    case Present(b) => [(a, b)]
  }

  /** The (address, byte) pairs a reader finds in the first n columns of a row. */
  function ReadRow(row: Row, n: nat): seq<(nat, Byte)>
  {
    if n == 0 then [] else ReadRow(row, n - 1) + PairOf(Column(row, n - 1), row.addr + n - 1)
  }

  function ReadBack(rows: seq<Row>): seq<(nat, Byte)>
  {
    if rows == [] then [] else ReadBack(rows[..|rows| - 1]) + ReadRow(rows[|rows| - 1], |rows[|rows| - 1].text|)
  }

  /** The pairs of the dump with addresses in lo..hi, in address order. */
  function PairsIn(start: nat, dump: seq<Byte>, lo: nat, hi: nat): seq<(nat, Byte)>
    decreases hi
  {
    if hi <= lo then [] else PairsIn(start, dump, lo, hi - 1) + PairOf(CellAt(start, dump, hi - 1), hi - 1)
  }

  lemma ParseHexCell(c: Cell)
    ensures ParseCell(HexCell(c)) == c
  {
    if c.Present? {
      var hi, lo := c.value / 16, c.value % 16;
      assert DigitValue(Digit(hi)) == hi && DigitValue(Digit(lo)) == lo;
      assert Digit(hi) != '.';
    }
  }

  lemma {:induction false} HexLineColumn(start: nat, dump: seq<Byte>, addr: nat, n: nat, c: nat)
    requires c < n
    ensures HexLine(start, dump, addr, n)[3 * c..3 * c + 3] == HexCell(CellAt(start, dump, addr + c))
  {
    var line := HexLine(start, dump, addr, n - 1);
    if c < n - 1 {
      HexLineColumn(start, dump, addr, n - 1, c);
      assert HexLine(start, dump, addr, n)[3 * c..3 * c + 3] == line[3 * c..3 * c + 3];
    }
  }

  /** Every column of the row parses to what memory holds there. */
  ghost predicate Parses(row: Row, start: nat, dump: seq<Byte>, addr: nat)
  {
    && row.addr == addr
    && forall c: nat :: c < BYTES_PER_LINE ==> Column(row, c) == CellAt(start, dump, addr + c)
  }

  lemma RowParses(start: nat, dump: seq<Byte>, addr: nat)
    ensures Parses(RowAt(start, dump, addr), start, dump, addr)
  {
    forall c: nat | c < BYTES_PER_LINE
      ensures Column(RowAt(start, dump, addr), c) == CellAt(start, dump, addr + c)
    {
      HexLineColumn(start, dump, addr, BYTES_PER_LINE, c);
      ParseHexCell(CellAt(start, dump, addr + c));
    }
  }

  lemma {:induction false} ReadRowIs(row: Row, start: nat, dump: seq<Byte>, n: nat)
    requires Parses(row, start, dump, row.addr) && n <= BYTES_PER_LINE
    ensures ReadRow(row, n) == PairsIn(start, dump, row.addr, row.addr + n)
  {
    if n > 0 {
      ReadRowIs(row, start, dump, n - 1);
      assert Column(row, n - 1) == CellAt(start, dump, row.addr + (n - 1));
    }
  }

  lemma {:induction false} PairsConcat(start: nat, dump: seq<Byte>, lo: nat, mid: nat, hi: nat)
    requires lo <= mid <= hi
    ensures PairsIn(start, dump, lo, hi) == PairsIn(start, dump, lo, mid) + PairsIn(start, dump, mid, hi)
  {
    if mid < hi {
      PairsConcat(start, dump, lo, mid, hi - 1);
    }
  }

  ghost predicate RowMeans(row: Row, start: nat, dump: seq<Byte>, addr: nat)
  {
    ReadRow(row, |row.text|) == PairsIn(start, dump, addr, addr + BYTES_PER_LINE)
  }

  lemma RowReads(start: nat, dump: seq<Byte>, addr: nat)
    ensures RowMeans(RowAt(start, dump, addr), start, dump, addr)
  {
    RowParses(start, dump, addr);
    ReadRowIs(RowAt(start, dump, addr), start, dump, BYTES_PER_LINE);
  }

  /** Row by row, the rows read back as the memory from base on. */
  ghost predicate Means(rows: seq<Row>, start: nat, dump: seq<Byte>, base: nat)
  {
    rows == [] ||
    var n := |rows| - 1;
    Means(rows[..n], start, dump, base) && RowMeans(rows[n], start, dump, base + BYTES_PER_LINE * n)
  }

  lemma AddRow(rows: seq<Row>, row: Row, start: nat, dump: seq<Byte>, base: nat)
    requires Means(rows, start, dump, base) && RowMeans(row, start, dump, base + BYTES_PER_LINE * |rows|)
    ensures Means(rows + [row], start, dump, base)
  {
    assert (rows + [row])[..|rows|] == rows;
  }

  lemma {:induction false} RowsMean(start: nat, dump: seq<Byte>, base: nat, n: nat)
    ensures Means(Rows(start, dump, base, n), start, dump, base)
  {
    hide RowMeans;
    if n > 0 {
      RowsMean(start, dump, base, n - 1);
      var row := RowAt(start, dump, base + BYTES_PER_LINE * (n - 1));
      RowReads(start, dump, base + BYTES_PER_LINE * (n - 1));
      AddRow(Rows(start, dump, base, n - 1), row, start, dump, base);
    }
  }

  lemma {:induction false} ReadBackIs(rows: seq<Row>, start: nat, dump: seq<Byte>, base: nat)
    requires Means(rows, start, dump, base)
    ensures ReadBack(rows) == PairsIn(start, dump, base, base + BYTES_PER_LINE * |rows|)
  {
    hide ReadRow, CellAt;
    if rows != [] {
      var addr := base + BYTES_PER_LINE * (|rows| - 1);
      ReadBackIs(rows[..|rows| - 1], start, dump, base);
      PairsConcat(start, dump, base, addr, addr + BYTES_PER_LINE);
    }
  }

  lemma {:induction false} PairsInside(start: nat, dump: seq<Byte>, hi: nat)
    requires start <= hi <= start + |dump|
    ensures |PairsIn(start, dump, start, hi)| == hi - start
    ensures forall i :: 0 <= i < hi - start ==> PairsIn(start, dump, start, hi)[i] == (start + i, dump[i])
  {
    if start < hi {
      PairsInside(start, dump, hi - 1);
    }
  }

  lemma {:induction false} PairsOutside(start: nat, dump: seq<Byte>, lo: nat, hi: nat)
    requires hi <= start || start + |dump| <= lo
    ensures PairsIn(start, dump, lo, hi) == []
    decreases hi
  {
    if lo < hi {
      PairsOutside(start, dump, lo, hi - 1);
    }
  }

  lemma CoversDump(start: nat, len: nat)
    ensures BYTES_PER_LINE * RowCount(start, len) >= start % BYTES_PER_LINE + len
  {}

  lemma AllPairs(start: nat, dump: seq<Byte>, lo: nat, hi: nat)
    requires lo <= start && start + |dump| <= hi
    ensures PairsIn(start, dump, lo, hi) == PairsIn(start, dump, start, start + |dump|)
  {
    hide PairsIn;
    PairsConcat(start, dump, lo, start, hi);
    PairsConcat(start, dump, start, start + |dump|, hi);
    PairsOutside(start, dump, lo, start);
    PairsOutside(start, dump, start + |dump|, hi);
  }

  /** Round trip: a dump read back is exactly the dumped bytes at their addresses, in order, for every start address and
      length. */
  lemma DumpRoundTrip(start: nat, dump: seq<Byte>)
    ensures var read := ReadBack(DumpOf(start, dump));
            |read| == |dump| && forall i :: 0 <= i < |dump| ==> read[i] == (start + i, dump[i])
  {
    hide Rows, RowMeans, PairsIn;
    var n := RowCount(start, |dump|);
    RowsMean(start, dump, Base(start), n);
    ReadBackIs(DumpOf(start, dump), start, dump, Base(start));
    CoversDump(start, |dump|);
    AllPairs(start, dump, Base(start), Base(start) + BYTES_PER_LINE * n);
    PairsInside(start, dump, start + |dump|);
  }

  // The rows, character by character

  lemma {:induction false} RowsAt(start: nat, dump: seq<Byte>, base: nat, n: nat, i: nat)
    requires i < n
    ensures Rows(start, dump, base, n)[i] == RowAt(start, dump, base + BYTES_PER_LINE * i)
  {
    if i < n - 1 {
      RowsAt(start, dump, base, n - 1, i);
    }
  }

  lemma {:induction false} TextLineColumn(start: nat, dump: seq<Byte>, addr: nat, n: nat, c: nat)
    requires c < n
    ensures TextLine(start, dump, addr, n)[c] == TextCell(CellAt(start, dump, addr + c))
  {
    if c < n - 1 {
      TextLineColumn(start, dump, addr, n - 1, c);
    }
  }

  /** There are as many rows as touch the dump, each on a multiple of sixteen and sixteen columns wide. Column c of a row
      shows the byte at that address as two upper-case hex digits and, if it is a printable ASCII character, as itself,
      otherwise as a dot; a column outside the dump shows dots for digits and a blank for the character. */
  lemma RowShows(start: nat, dump: seq<Byte>, i: nat, c: nat)
    requires i < |DumpOf(start, dump)| && c < 16
    ensures var row := DumpOf(start, dump)[i];
            var a := start - start % 16 + 16 * i + c;
            && row.addr == a - c && |row.hex| == 48 && |row.text| == 16
            && (if start <= a < start + |dump| then
                  var b := dump[a - start];
                  && row.hex[3 * c..3 * c + 3] == ["0123456789ABCDEF"[b / 16], "0123456789ABCDEF"[b % 16], ' ']
                  && row.text[c] == (if 32 <= b <= 126 then b as char else '.')
                else row.hex[3 * c..3 * c + 3] == ".. " && row.text[c] == ' ')
    ensures 16 * |DumpOf(start, dump)| - 16 < start % 16 + |dump| <= 16 * |DumpOf(start, dump)|
  {
    hide CellAt, HexCell, TextCell, HexLine, TextLine, RowCount, Rows;
    var addr := Base(start) + BYTES_PER_LINE * i;
    CellShows(start, dump, addr + c);
    RowsTouch(start, |dump|);
    RowsAt(start, dump, Base(start), RowCount(start, |dump|), i);
    HexLineColumn(start, dump, addr, BYTES_PER_LINE, c);
    TextLineColumn(start, dump, addr, BYTES_PER_LINE, c);
  }

  lemma CellShows(start: nat, dump: seq<Byte>, a: nat)
    ensures var cell := CellAt(start, dump, a);
            if start <= a < start + |dump| then
              var b := dump[a - start];
              && HexCell(cell) == ["0123456789ABCDEF"[b / 16], "0123456789ABCDEF"[b % 16], ' ']
              && TextCell(cell) == (if 32 <= b <= 126 then b as char else '.')
            else HexCell(cell) == ".. " && TextCell(cell) == ' '
  {}

  lemma RowsTouch(start: nat, len: nat)
    ensures var n := RowCount(start, len); 16 * n - 16 < start % 16 + len <= 16 * n
  {}
}
