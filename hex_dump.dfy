/**
  The debug formatter `hex_dump`: bytes become rows of sixteen, each row an
  offset, the bytes in hexadecimal and the bytes as printable ASCII.
*/
module HexDump {
  import opened Bytes

  /** `length`: bytes per row (the default, and the only value any caller passes). */
  const ROW_LENGTH: nat := 16
  /** `digits`: hexadecimal digits per byte. */
  const DIGITS: nat := 2
  /** `length * (digits + 1)`: the width the hex column is left-justified to. */
  const HEX_WIDTH: nat := 48
  /** The `4` of `%04X`: the minimum width of the offset column. */
  const OFFSET_WIDTH: nat := 4
  /** The three spaces between columns in `"%04X   %-*s   %s"`. */
  const GAP: string := "   "

  // ---------------------------------------------------------------------
  // Hexadecimal numerals, as Python's `%X` and `%0*X` produce them
  // ---------------------------------------------------------------------

  predicate IsHexChar(c: char) {
    ('0' <= c <= '9') || ('A' <= c <= 'F')
  }

  predicate IsHexString(s: string) {
    forall i :: 0 <= i < |s| ==> IsHexChar(s[i])
  }

  /** The upper-case digit of value `d`. */
  function HexDigit(d: nat): (c: char)
    requires d < 16
    ensures IsHexChar(c)
  {
    if d < 10 then ('0' as int + d) as char else ('A' as int + d - 10) as char
  }

  function DigitValue(c: char): (d: nat)
    requires IsHexChar(c)
    ensures d < 16 && HexDigit(d) == c
  {
    if c <= '9' then c as int - '0' as int else c as int - 'A' as int + 10
  }

  /** The number a string of hexadecimal digits denotes (most significant first). */
  function HexValue(s: string): nat
    requires IsHexString(s)
  {
    if s == [] then 0 else HexValue(s[..|s| - 1]) * 16 + DigitValue(s[|s| - 1])
  }

  /** The value of a digit is the one it was made from. */
  lemma DigitRoundTrip(d: nat)
    requires d < 16
    ensures DigitValue(HexDigit(d)) == d
  {
  }

  /** `%X`: the shortest upper-case hexadecimal numeral of `n`. */
  function Hex(n: nat): (s: string)
    ensures |s| >= 1 && IsHexString(s)
    ensures |s| == 1 || s[0] != '0'
    decreases n
  {
    if n < 16 then [HexDigit(n)] else Hex(n / 16) + [HexDigit(n % 16)]
  }

  /** `%X` denotes the number it formats. */
  lemma {:induction false} HexRoundTrip(n: nat)
    ensures HexValue(Hex(n)) == n
    decreases n
  {
    var s := Hex(n);
    DigitRoundTrip(n % 16);
    if n >= 16 {
      assert s[..|s| - 1] == Hex(n / 16);
      HexRoundTrip(n / 16);
    }
  }

  /** `n` copies of the character `c`. */
  function Repeat(c: char, n: nat): (z: string)
    ensures |z| == n
  {
    if n == 0 then "" else [c] + Repeat(c, n - 1)
  }

  /** Every character of `Repeat(c, n)` is `c`. */
  lemma {:induction false} AllRepeated(c: char, n: nat)
    ensures forall i :: 0 <= i < n ==> Repeat(c, n)[i] == c
  {
    if n > 0 {
      AllRepeated(c, n - 1);
      assert forall i :: 1 <= i < n ==> Repeat(c, n)[i] == Repeat(c, n - 1)[i - 1];
    }
  }

  /** A leading zero does not change the value of a numeral. */
  lemma {:induction false} LeadingZero(s: string)
    requires IsHexString(s)
    ensures IsHexString("0" + s) && HexValue("0" + s) == HexValue(s)
  {
    if s != [] {
      var t := "0" + s;
      assert t[..|t| - 1] == "0" + s[..|s| - 1];
      LeadingZero(s[..|s| - 1]);
    }
  }

  /** Any number of leading zeros does not change the value of a numeral. */
  lemma {:induction false} LeadingZeros(n: nat, s: string)
    requires IsHexString(s)
    ensures IsHexString(Repeat('0', n) + s) && HexValue(Repeat('0', n) + s) == HexValue(s)
  {
    if n == 0 {
      assert Repeat('0', n) + s == s;
    } else {
      LeadingZeros(n - 1, s);
      assert Repeat('0', n) + s == "0" + (Repeat('0', n - 1) + s);
      LeadingZero(Repeat('0', n - 1) + s);
    }
  }

  /** `%0*X` with the given width: upper-case hexadecimal, padded on the left with zeros. */
  function FormatHex(n: nat, width: nat): (s: string)
    ensures IsHexString(s)
    ensures |s| == if |Hex(n)| >= width then |Hex(n)| else width
  {
    var h := Hex(n);
    if |h| >= width then h
    else
      LeadingZeros(width - |h|, h);
      Repeat('0', width - |h|) + h
  }

  /** Zero padding keeps the number: `%0*X` denotes the number it formats. */
  lemma FormatHexRoundTrip(n: nat, width: nat)
    ensures HexValue(FormatHex(n, width)) == n
  {
    var h := Hex(n);
    var k := |FormatHex(n, width)| - |h|;
    assert FormatHex(n, width) == Repeat('0', k) + h by {
      if k == 0 {
        assert Repeat('0', 0) + h == h;
      }
    }
    assert HexValue(Repeat('0', k) + h) == HexValue(h) by {
      LeadingZeros(k, h);
    }
    assert HexValue(h) == n by {
      HexRoundTrip(n);
    }
  }

  /** `'%0*X' % (digits, x)` for one byte: its high and its low digit. */
  function ByteHex(b: Byte): string
  {
    [HexDigit(b / 16), HexDigit(b % 16)]
  }

  /** The two digits of a byte are `%02X` of it, and they denote the byte. */
  lemma ByteHexFormat(b: Byte)
    ensures ByteHex(b) == FormatHex(b, DIGITS)
    ensures HexValue(ByteHex(b)) == b
  {
    assert b < 16 ==> Hex(b) == [HexDigit(b)] && Repeat('0', 1) == "0";
    assert b >= 16 ==> Hex(b) == [HexDigit(b / 16)] + [HexDigit(b % 16)];
    FormatHexRoundTrip(b, DIGITS);
  }

  // ---------------------------------------------------------------------
  // Strings: join, split, justification
  // ---------------------------------------------------------------------

  /** `sep.join(parts)`. */
  function Join(sep: string, parts: seq<string>): string
  {
    if |parts| == 0 then ""
    else if |parts| == 1 then parts[0]
    else parts[0] + sep + Join(sep, parts[1..])
  }

  /** `s.split(sep)` for a one-character separator. */
  function Split(s: string, sep: char): (parts: seq<string>)
    ensures |parts| >= 1
  {
    if s == [] then [""]
    else
      var rest := Split(s[1..], sep);
      if s[0] == sep then [""] + rest else [[s[0]] + rest[0]] + rest[1..]
  }

  /** Splitting at a separator that occurs nowhere gives back the whole string. */
  lemma {:induction false} SplitWithout(s: string, sep: char)
    requires sep !in s
    ensures Split(s, sep) == [s]
  {
    if s != [] {
      SplitWithout(s[1..], sep);
      assert [s[0]] + s[1..] == s;
    }
  }

  /** Splitting peels off everything before the first separator. */
  lemma {:induction false} SplitAtFirst(a: string, sep: char, b: string)
    requires sep !in a
    ensures Split(a + [sep] + b, sep) == [a] + Split(b, sep)
  {
    var s := a + [sep] + b;
    if a == [] {
      assert s[1..] == b;
    } else {
      assert s[1..] == a[1..] + [sep] + b;
      SplitAtFirst(a[1..], sep, b);
      assert [a[0]] + a[1..] == a;
    }
  }

  /** `s.split(sep)` undoes `sep.join(parts)` when no part contains the separator. */
  lemma {:induction false} SplitJoin(parts: seq<string>, sep: char)
    requires |parts| >= 1
    requires forall i :: 0 <= i < |parts| ==> sep !in parts[i]
    ensures Split(Join([sep], parts), sep) == parts
  {
    if |parts| == 1 {
      SplitWithout(parts[0], sep);
    } else {
      SplitJoin(parts[1..], sep);
      SplitAtFirst(parts[0], sep, Join([sep], parts[1..]));
      assert [parts[0]] + parts[1..] == parts;
    }
  }

  /** A join contains no newline when neither the separator nor any part does. */
  lemma {:induction false} JoinNoNewline(sep: string, parts: seq<string>)
    requires '\n' !in sep
    requires forall i :: 0 <= i < |parts| ==> '\n' !in parts[i]
    ensures '\n' !in Join(sep, parts)
  {
    if |parts| > 1 {
      JoinNoNewline(sep, parts[1..]);
    }
  }

  /** `'%-*s' % (width, s)`: pad on the right with spaces to at least `width`. */
  function LeftJustified(s: string, width: nat): string
  {
    if |s| >= width then s else s + Repeat(' ', width - |s|)
  }


  // ---------------------------------------------------------------------
  // The rows of the dump
  // ---------------------------------------------------------------------

  /** The ASCII column shows a byte as itself when printable, else as a dot. */
  function Printable(b: Byte): char
  {
    if 0x20 <= b < 0x7F then b as char else '.'
  }

  function HexBytes(chunk: seq<Byte>): seq<string>
  {
    if chunk == [] then [] else [ByteHex(chunk[0])] + HexBytes(chunk[1..])
  }

  /** `' '.join(['%0*X' % (digits, x) for x in s])`. */
  function HexColumn(chunk: seq<Byte>): string
  {
    Join(" ", HexBytes(chunk))
  }

  /** `''.join([chr(x) if 0x20 <= x < 0x7F else '.' for x in s])`. */
  function TextColumn(chunk: seq<Byte>): string
  {
    if chunk == [] then "" else [Printable(chunk[0])] + TextColumn(chunk[1..])
  }

  /** `"%04X   %-*s   %s" % (i, length * (digits + 1), hexa, text)`. */
  function Row(offset: nat, chunk: seq<Byte>): string
  {
    FormatHex(offset, OFFSET_WIDTH) + (GAP + (LeftJustified(HexColumn(chunk), HEX_WIDTH) + (GAP + TextColumn(chunk))))
  }

  function Min(a: int, b: int): int { if a <= b then a else b }

  /** `data[i:i + length]`: Python clamps the slice to the end of the data. */
  function Chunk(data: seq<Byte>, i: nat): seq<Byte>
    requires i <= |data|
  {
    data[i..Min(i + ROW_LENGTH, |data|)]
  }

  /** The number of offsets in `range(0, n, length)`: n / 16 rounded up. */
  function NumRows(n: int): (rows: nat)
    ensures n <= 16 * rows
    ensures rows == 0 || 16 * (rows - 1) < n
  {
    if n <= 0 then 0 else 1 + NumRows(n - ROW_LENGTH)
  }

  /** The rows the loop of `hex_dump` appends to `result`: row `j` shows the chunk at offset `16 * j`. */
  function Rows(data: seq<Byte>): (rows: seq<string>)
    ensures |rows| == NumRows(|data|)
  {
    seq(NumRows(|data|), j requires 0 <= j < NumRows(|data|) => Row(16 * j, Chunk(data, 16 * j)))
  }

  /** `hex_dump(data)`: the loop over offsets, then `"\n".join(result)`. */
  method HexDump(data: seq<Byte>) returns (dump: string)
    ensures dump == Join("\n", Rows(data))
    ensures |data| == 0 ==> dump == ""
  {
    var result: seq<string> := [];
    var i: nat := 0;
    while i < |data|
      invariant i == 16 * |result| && (|result| == 0 || 16 * (|result| - 1) < |data|)
      invariant forall j :: 0 <= j < |result| ==> result[j] == Row(16 * j, Chunk(data, 16 * j))
    {
      var s := data[i..Min(i + ROW_LENGTH, |data|)];
      ghost var k := |result|;
      assert s == Chunk(data, 16 * k);
      var row := Row(i, s);
      assert row == Row(16 * k, Chunk(data, 16 * k));
      result := result + [row];
      assert result[k] == row;
      i := i + ROW_LENGTH;
    }
    NumRowsUnique(|data|, |result|);
    assert result == Rows(data);
    dump := Join("\n", result);
  }

  /** The row count is the only one that covers the data without an empty row. */
  lemma {:induction false} NumRowsUnique(n: nat, r: nat)
    requires n <= 16 * r && (r == 0 || 16 * (r - 1) < n)
    ensures r == NumRows(n)
  {
    if n > 0 {
      NumRowsUnique(if n < 16 then 0 else n - 16, r - 1);
    }
  }

  // ---------------------------------------------------------------------
  // Layout of the dump
  // ---------------------------------------------------------------------

  /** Character `k` (0, 1 or 2) of the three that byte `b` occupies in the hex column. */
  function HexColumnChar(b: Byte, k: nat): char
  {
    if k == 0 then HexDigit(b / 16) else if k == 1 then HexDigit(b % 16) else ' '
  }

  /** Removing the first byte of a chunk removes the first three characters of its hex column. */
  lemma HexColumnShift(chunk: seq<Byte>)
    requires |chunk| > 1
    ensures var h := HexColumn(chunk); var t := HexColumn(chunk[1..]);
      |h| == 3 + |t| && h[..3] == ByteHex(chunk[0]) + " " && forall q :: 3 <= q < |h| ==> h[q] == t[q - 3]
  {
    assert HexBytes(chunk)[1..] == HexBytes(chunk[1..]);
    assert HexColumn(chunk) == ByteHex(chunk[0]) + " " + HexColumn(chunk[1..]);
  }

  /** The hex column: two upper-case digits per byte, a single space between bytes. */
  lemma {:induction false} HexColumnLayout(chunk: seq<Byte>)
    ensures |HexColumn(chunk)| == if chunk == [] then 0 else 3 * |chunk| - 1
    ensures forall j, k {:trigger HexColumnChar(chunk[j], k)} ::
      0 <= j < |chunk| && 0 <= k < 3 && 3 * j + k < |HexColumn(chunk)| ==>
        HexColumn(chunk)[3 * j + k] == HexColumnChar(chunk[j], k)
  {
    var h := HexColumn(chunk);
    if |chunk| == 1 {
      assert HexBytes(chunk) == [ByteHex(chunk[0])] + HexBytes(chunk[1..]);
      assert chunk[1..] == [];
      assert h == ByteHex(chunk[0]);
    } else if |chunk| > 1 {
      var rest := chunk[1..];
      var t := HexColumn(rest);
      HexColumnShift(chunk);
      HexColumnLayout(rest);
      forall j, k | 0 <= j < |chunk| && 0 <= k < 3 && 3 * j + k < |h|
        ensures h[3 * j + k] == HexColumnChar(chunk[j], k)
      {
        if j == 0 {
          assert h[k] == h[..3][k];
        } else {
          assert h[3 * j + k] == t[3 * (j - 1) + k];
          assert rest[j - 1] == chunk[j];
          assert t[3 * (j - 1) + k] == HexColumnChar(rest[j - 1], k);
        }
      }
    }
  }

  /** The text column: one character per byte, the byte itself when printable, else a dot. */
  lemma {:induction false} TextColumnLayout(chunk: seq<Byte>)
    ensures |TextColumn(chunk)| == |chunk|
    ensures forall j :: 0 <= j < |chunk| ==> TextColumn(chunk)[j] == Printable(chunk[j])
  {
    if chunk != [] {
      TextColumnLayout(chunk[1..]);
      assert forall j :: 1 <= j < |chunk| ==> chunk[1..][j - 1] == chunk[j];
    }
  }

  /** The padded hex column: the hex column, then spaces up to 48 characters. */
  lemma PaddedHexColumn(chunk: seq<Byte>)
    requires 1 <= |chunk| <= ROW_LENGTH
    ensures var lj := LeftJustified(HexColumn(chunk), HEX_WIDTH);
      && |lj| == HEX_WIDTH
      && (forall j, k {:trigger HexColumnChar(chunk[j], k)} :: 0 <= j < |chunk| && 0 <= k < 3 && 3 * j + k < 3 * |chunk| - 1 ==>
            lj[3 * j + k] == HexColumnChar(chunk[j], k))
      && (forall q :: 3 * |chunk| - 1 <= q < HEX_WIDTH ==> lj[q] == ' ')
  {
    HexColumnLayout(chunk);
    var h := HexColumn(chunk);
    var lj := LeftJustified(h, HEX_WIDTH);
    assert lj == h + Repeat(' ', HEX_WIDTH - |h|);
    AllRepeated(' ', HEX_WIDTH - |h|);
    forall j, k | 0 <= j < |chunk| && 0 <= k < 3 && 3 * j + k < 3 * |chunk| - 1
      ensures lj[3 * j + k] == HexColumnChar(chunk[j], k)
    {
      assert lj[3 * j + k] == h[3 * j + k];
    }
  }

  /** Where the fields of a row start and end. */
  lemma RowFields(offset: nat, chunk: seq<Byte>)
    requires 1 <= |chunk| <= ROW_LENGTH
    ensures var row := Row(offset, chunk); var o := FormatHex(offset, OFFSET_WIDTH); var w := |o|;
      && |row| == w + 54 + |chunk|
      && row[..w] == o
      && row[w..w + 3] == GAP
      && row[w + 3..] == LeftJustified(HexColumn(chunk), HEX_WIDTH) + (GAP + TextColumn(chunk))
      && row[w + 51..w + 54] == GAP
      && row[w + 54..] == TextColumn(chunk)
  {
    var o := FormatHex(offset, OFFSET_WIDTH);
    var lj := LeftJustified(HexColumn(chunk), HEX_WIDTH);
    var text := TextColumn(chunk);
    var row := Row(offset, chunk);
    var w := |o|;
    assert |lj| == HEX_WIDTH by {
      PaddedHexColumn(chunk);
    }
    assert |text| == |chunk| by {
      TextColumnLayout(chunk);
    }
    Fields(o, GAP, lj, GAP, text);
  }

  /** The pieces of a concatenation are its slices at the running lengths. */
  lemma Fields<T>(a: seq<T>, b: seq<T>, c: seq<T>, d: seq<T>, e: seq<T>)
    ensures var x := a + (b + (c + (d + e)));
      && x[..|a|] == a
      && x[|a|..|a| + |b|] == b
      && x[|a| + |b|..] == c + (d + e)
      && x[|a| + |b| + |c|..|a| + |b| + |c| + |d|] == d
      && x[|a| + |b| + |c| + |d|..] == e
  {
    var x := a + (b + (c + (d + e)));
    assert x[|a|..] == b + (c + (d + e));
    assert x[|a| + |b|..] == c + (d + e);
    assert x[|a| + |b| + |c|..] == d + e;
  }

  /**
    The layout of one row: the offset in at least four upper-case hex digits,
    three spaces, the hex column left-justified to 48 characters, three spaces,
    and the text column.
  */
  lemma RowLayout(offset: nat, chunk: seq<Byte>)
    requires 1 <= |chunk| <= ROW_LENGTH
    ensures var row := Row(offset, chunk); var w := |FormatHex(offset, OFFSET_WIDTH)|;
      && w >= OFFSET_WIDTH
      && |row| == w + 54 + |chunk|
      && IsHexString(row[..w]) && HexValue(row[..w]) == offset
      && row[w..w + 3] == GAP
      && (forall j, k {:trigger HexColumnChar(chunk[j], k)} :: 0 <= j < |chunk| && 0 <= k < 3 && 3 * j + k < 3 * |chunk| - 1 ==>
            row[w + 3 + 3 * j + k] == HexColumnChar(chunk[j], k))
      && (forall p :: w + 3 * |chunk| + 2 <= p < w + 51 ==> row[p] == ' ')
      && row[w + 51..w + 54] == GAP
      && (forall j :: 0 <= j < |chunk| ==> row[w + 54 + j] == Printable(chunk[j]))
  {
    var row := Row(offset, chunk);
    var w := |FormatHex(offset, OFFSET_WIDTH)|;
    RowFields(offset, chunk);
    PaddedHexColumn(chunk);
    TextColumnLayout(chunk);
    FormatHexRoundTrip(offset, OFFSET_WIDTH);
    forall j, k | 0 <= j < |chunk| && 0 <= k < 3 && 3 * j + k < 3 * |chunk| - 1
      ensures row[w + 3 + 3 * j + k] == HexColumnChar(chunk[j], k)
    {
      assert row[w + 3 + 3 * j + k] == row[w + 3..][3 * j + k];
    }
    forall p | w + 3 * |chunk| + 2 <= p < w + 51
      ensures row[p] == ' '
    {
      assert row[p] == row[w + 3..][p - w - 3];
    }
    forall j | 0 <= j < |chunk|
      ensures row[w + 54 + j] == Printable(chunk[j])
    {
      assert row[w + 54 + j] == row[w + 54..][j];
    }
  }

  /** The hex column holds the two digits of each byte of the chunk, in order. */
  lemma {:induction false} HexBytesAt(chunk: seq<Byte>)
    ensures |HexBytes(chunk)| == |chunk|
    ensures forall j :: 0 <= j < |chunk| ==> HexBytes(chunk)[j] == ByteHex(chunk[j])
  {
    if chunk != [] {
      HexBytesAt(chunk[1..]);
      assert forall j :: 1 <= j < |chunk| ==> chunk[1..][j - 1] == chunk[j];
    }
  }

  /** No row contains a newline, so the newlines of the dump are exactly its row separators. */
  lemma RowNoNewline(offset: nat, chunk: seq<Byte>)
    ensures '\n' !in Row(offset, chunk)
  {
    var o := FormatHex(offset, OFFSET_WIDTH);
    var lj := LeftJustified(HexColumn(chunk), HEX_WIDTH);
    var text := TextColumn(chunk);
    assert '\n' !in o;
    assert '\n' !in lj by {
      HexBytesAt(chunk);
      JoinNoNewline(" ", HexBytes(chunk));
      var h := HexColumn(chunk);
      if |h| < HEX_WIDTH {
        AllRepeated(' ', HEX_WIDTH - |h|);
      }
    }
    assert '\n' !in text by {
      TextColumnLayout(chunk);
    }
    assert '\n' !in GAP;
  }

  /** `ceil(n / 16)`: the row count rounds the length up to whole rows. */
  lemma {:induction false} NumRowsCeiling(n: nat)
    ensures NumRows(n) == (n + 15) / 16
  {
    if n > 16 {
      NumRowsCeiling(n - 16);
    }
  }

  /**
    The dump of non-empty data is its rows joined by newlines: splitting it at
    newlines gives the rows back, one per sixteen bytes rounded up, and row `j`
    shows the chunk at offset `16 * j`: sixteen bytes of the data, or what is
    left of it in the last row.
  */
  lemma HexDumpLines(data: seq<Byte>)
    requires |data| > 0
    ensures var rows := Rows(data);
      && |rows| == (|data| + 15) / 16
      && Split(Join("\n", rows), '\n') == rows
      && forall j :: 0 <= j < |rows| ==>
           var c := Chunk(data, 16 * j);
           && rows[j] == Row(16 * j, c)
           && 1 <= |c| <= ROW_LENGTH
           && (j < |rows| - 1 ==> |c| == ROW_LENGTH)
           && (forall t :: 0 <= t < |c| ==> c[t] == data[16 * j + t])
  {
    var rows := Rows(data);
    NumRowsCeiling(|data|);
    forall j | 0 <= j < |rows|
      ensures '\n' !in rows[j]
    {
      RowNoNewline(16 * j, Chunk(data, 16 * j));
    }
    SplitJoin(rows, '\n');
  }
}
