/** The Huffman code table, Appendix B of RFC 7541 (src/hpack/huffman-table.ts). */
module HuffmanTable {
  /** The code of a symbol occupies the lowest bits of code. */
  datatype HuffmanRow = HuffmanRow(bits: nat, code: nat, symbol: nat)

  const SYMBOLS: nat := 257

  const EOS: nat := 256

  // The rows, sixteen to a piece.

  const ROWS_0: seq<HuffmanRow> := [
    HuffmanRow(13, 0x1ff8, 0), HuffmanRow(23, 0x7fffd8, 1), HuffmanRow(28, 0xfffffe2, 2), HuffmanRow(28, 0xfffffe3, 3),
    HuffmanRow(28, 0xfffffe4, 4), HuffmanRow(28, 0xfffffe5, 5),
    HuffmanRow(28, 0xfffffe6, 6), HuffmanRow(28, 0xfffffe7, 7),
    HuffmanRow(28, 0xfffffe8, 8), HuffmanRow(24, 0xffffea, 9),
    HuffmanRow(30, 0x3ffffffc, 10), HuffmanRow(28, 0xfffffe9, 11),
    HuffmanRow(28, 0xfffffea, 12), HuffmanRow(30, 0x3ffffffd, 13),
    HuffmanRow(28, 0xfffffeb, 14), HuffmanRow(28, 0xfffffec, 15)
  ]

  const ROWS_16: seq<HuffmanRow> := [
    HuffmanRow(28, 0xfffffed, 16), HuffmanRow(28, 0xfffffee, 17),
    HuffmanRow(28, 0xfffffef, 18), HuffmanRow(28, 0xffffff0, 19),
    HuffmanRow(28, 0xffffff1, 20), HuffmanRow(28, 0xffffff2, 21),
    HuffmanRow(30, 0x3ffffffe, 22), HuffmanRow(28, 0xffffff3, 23),
    HuffmanRow(28, 0xffffff4, 24), HuffmanRow(28, 0xffffff5, 25),
    HuffmanRow(28, 0xffffff6, 26), HuffmanRow(28, 0xffffff7, 27),
    HuffmanRow(28, 0xffffff8, 28), HuffmanRow(28, 0xffffff9, 29),
    HuffmanRow(28, 0xffffffa, 30), HuffmanRow(28, 0xffffffb, 31)
  ]

  const ROWS_32: seq<HuffmanRow> := [
    HuffmanRow(6, 0x14, 32), HuffmanRow(10, 0x3f8, 33), HuffmanRow(10, 0x3f9, 34), HuffmanRow(12, 0xffa, 35),
    HuffmanRow(13, 0x1ff9, 36), HuffmanRow(6, 0x15, 37), HuffmanRow(8, 0xf8, 38), HuffmanRow(11, 0x7fa, 39),
    HuffmanRow(10, 0x3fa, 40), HuffmanRow(10, 0x3fb, 41), HuffmanRow(8, 0xf9, 42), HuffmanRow(11, 0x7fb, 43),
    HuffmanRow(8, 0xfa, 44), HuffmanRow(6, 0x16, 45), HuffmanRow(6, 0x17, 46), HuffmanRow(6, 0x18, 47)
  ]

  const ROWS_48: seq<HuffmanRow> := [
    HuffmanRow(5, 0x0, 48), HuffmanRow(5, 0x1, 49), HuffmanRow(5, 0x2, 50), HuffmanRow(6, 0x19, 51),
    HuffmanRow(6, 0x1a, 52), HuffmanRow(6, 0x1b, 53), HuffmanRow(6, 0x1c, 54), HuffmanRow(6, 0x1d, 55),
    HuffmanRow(6, 0x1e, 56), HuffmanRow(6, 0x1f, 57), HuffmanRow(7, 0x5c, 58), HuffmanRow(8, 0xfb, 59),
    HuffmanRow(15, 0x7ffc, 60), HuffmanRow(6, 0x20, 61), HuffmanRow(12, 0xffb, 62), HuffmanRow(10, 0x3fc, 63)
  ]

  const ROWS_64: seq<HuffmanRow> := [
    HuffmanRow(13, 0x1ffa, 64), HuffmanRow(6, 0x21, 65), HuffmanRow(7, 0x5d, 66), HuffmanRow(7, 0x5e, 67),
    HuffmanRow(7, 0x5f, 68), HuffmanRow(7, 0x60, 69), HuffmanRow(7, 0x61, 70), HuffmanRow(7, 0x62, 71),
    HuffmanRow(7, 0x63, 72), HuffmanRow(7, 0x64, 73), HuffmanRow(7, 0x65, 74), HuffmanRow(7, 0x66, 75),
    HuffmanRow(7, 0x67, 76), HuffmanRow(7, 0x68, 77), HuffmanRow(7, 0x69, 78), HuffmanRow(7, 0x6a, 79)
  ]

  const ROWS_80: seq<HuffmanRow> := [
    HuffmanRow(7, 0x6b, 80), HuffmanRow(7, 0x6c, 81), HuffmanRow(7, 0x6d, 82), HuffmanRow(7, 0x6e, 83),
    HuffmanRow(7, 0x6f, 84), HuffmanRow(7, 0x70, 85), HuffmanRow(7, 0x71, 86), HuffmanRow(7, 0x72, 87),
    HuffmanRow(8, 0xfc, 88), HuffmanRow(7, 0x73, 89), HuffmanRow(8, 0xfd, 90), HuffmanRow(13, 0x1ffb, 91),
    HuffmanRow(19, 0x7fff0, 92), HuffmanRow(13, 0x1ffc, 93), HuffmanRow(14, 0x3ffc, 94), HuffmanRow(6, 0x22, 95)
  ]

  const ROWS_96: seq<HuffmanRow> := [
    HuffmanRow(15, 0x7ffd, 96), HuffmanRow(5, 0x3, 97), HuffmanRow(6, 0x23, 98), HuffmanRow(5, 0x4, 99),
    HuffmanRow(6, 0x24, 100), HuffmanRow(5, 0x5, 101), HuffmanRow(6, 0x25, 102), HuffmanRow(6, 0x26, 103),
    HuffmanRow(6, 0x27, 104), HuffmanRow(5, 0x6, 105), HuffmanRow(7, 0x74, 106), HuffmanRow(7, 0x75, 107),
    HuffmanRow(6, 0x28, 108), HuffmanRow(6, 0x29, 109), HuffmanRow(6, 0x2a, 110), HuffmanRow(5, 0x7, 111)
  ]

  const ROWS_112: seq<HuffmanRow> := [
    HuffmanRow(6, 0x2b, 112), HuffmanRow(7, 0x76, 113), HuffmanRow(6, 0x2c, 114), HuffmanRow(5, 0x8, 115),
    HuffmanRow(5, 0x9, 116), HuffmanRow(6, 0x2d, 117), HuffmanRow(7, 0x77, 118), HuffmanRow(7, 0x78, 119),
    HuffmanRow(7, 0x79, 120), HuffmanRow(7, 0x7a, 121), HuffmanRow(7, 0x7b, 122), HuffmanRow(15, 0x7ffe, 123),
    HuffmanRow(11, 0x7fc, 124), HuffmanRow(14, 0x3ffd, 125), HuffmanRow(13, 0x1ffd, 126), HuffmanRow(28, 0xffffffc, 127)
  ]

  const ROWS_128: seq<HuffmanRow> := [
    HuffmanRow(20, 0xfffe6, 128), HuffmanRow(22, 0x3fffd2, 129),
    HuffmanRow(20, 0xfffe7, 130), HuffmanRow(20, 0xfffe8, 131),
    HuffmanRow(22, 0x3fffd3, 132), HuffmanRow(22, 0x3fffd4, 133),
    HuffmanRow(22, 0x3fffd5, 134), HuffmanRow(23, 0x7fffd9, 135),
    HuffmanRow(22, 0x3fffd6, 136), HuffmanRow(23, 0x7fffda, 137),
    HuffmanRow(23, 0x7fffdb, 138), HuffmanRow(23, 0x7fffdc, 139),
    HuffmanRow(23, 0x7fffdd, 140), HuffmanRow(23, 0x7fffde, 141),
    HuffmanRow(24, 0xffffeb, 142), HuffmanRow(23, 0x7fffdf, 143)
  ]

  const ROWS_144: seq<HuffmanRow> := [
    HuffmanRow(24, 0xffffec, 144), HuffmanRow(24, 0xffffed, 145),
    HuffmanRow(22, 0x3fffd7, 146), HuffmanRow(23, 0x7fffe0, 147),
    HuffmanRow(24, 0xffffee, 148), HuffmanRow(23, 0x7fffe1, 149),
    HuffmanRow(23, 0x7fffe2, 150), HuffmanRow(23, 0x7fffe3, 151),
    HuffmanRow(23, 0x7fffe4, 152), HuffmanRow(21, 0x1fffdc, 153),
    HuffmanRow(22, 0x3fffd8, 154), HuffmanRow(23, 0x7fffe5, 155),
    HuffmanRow(22, 0x3fffd9, 156), HuffmanRow(23, 0x7fffe6, 157),
    HuffmanRow(23, 0x7fffe7, 158), HuffmanRow(24, 0xffffef, 159)
  ]

  const ROWS_160: seq<HuffmanRow> := [
    HuffmanRow(22, 0x3fffda, 160), HuffmanRow(21, 0x1fffdd, 161),
    HuffmanRow(20, 0xfffe9, 162), HuffmanRow(22, 0x3fffdb, 163),
    HuffmanRow(22, 0x3fffdc, 164), HuffmanRow(23, 0x7fffe8, 165),
    HuffmanRow(23, 0x7fffe9, 166), HuffmanRow(21, 0x1fffde, 167),
    HuffmanRow(23, 0x7fffea, 168), HuffmanRow(22, 0x3fffdd, 169),
    HuffmanRow(22, 0x3fffde, 170), HuffmanRow(24, 0xfffff0, 171),
    HuffmanRow(21, 0x1fffdf, 172), HuffmanRow(22, 0x3fffdf, 173),
    HuffmanRow(23, 0x7fffeb, 174), HuffmanRow(23, 0x7fffec, 175)
  ]

  const ROWS_176: seq<HuffmanRow> := [
    HuffmanRow(21, 0x1fffe0, 176), HuffmanRow(21, 0x1fffe1, 177),
    HuffmanRow(22, 0x3fffe0, 178), HuffmanRow(21, 0x1fffe2, 179),
    HuffmanRow(23, 0x7fffed, 180), HuffmanRow(22, 0x3fffe1, 181),
    HuffmanRow(23, 0x7fffee, 182), HuffmanRow(23, 0x7fffef, 183),
    HuffmanRow(20, 0xfffea, 184), HuffmanRow(22, 0x3fffe2, 185),
    HuffmanRow(22, 0x3fffe3, 186), HuffmanRow(22, 0x3fffe4, 187),
    HuffmanRow(23, 0x7ffff0, 188), HuffmanRow(22, 0x3fffe5, 189),
    HuffmanRow(22, 0x3fffe6, 190), HuffmanRow(23, 0x7ffff1, 191)
  ]

  const ROWS_192: seq<HuffmanRow> := [
    HuffmanRow(26, 0x3ffffe0, 192), HuffmanRow(26, 0x3ffffe1, 193),
    HuffmanRow(20, 0xfffeb, 194), HuffmanRow(19, 0x7fff1, 195),
    HuffmanRow(22, 0x3fffe7, 196), HuffmanRow(23, 0x7ffff2, 197),
    HuffmanRow(22, 0x3fffe8, 198), HuffmanRow(25, 0x1ffffec, 199),
    HuffmanRow(26, 0x3ffffe2, 200), HuffmanRow(26, 0x3ffffe3, 201),
    HuffmanRow(26, 0x3ffffe4, 202), HuffmanRow(27, 0x7ffffde, 203),
    HuffmanRow(27, 0x7ffffdf, 204), HuffmanRow(26, 0x3ffffe5, 205),
    HuffmanRow(24, 0xfffff1, 206), HuffmanRow(25, 0x1ffffed, 207)
  ]

  const ROWS_208: seq<HuffmanRow> := [
    HuffmanRow(19, 0x7fff2, 208), HuffmanRow(21, 0x1fffe3, 209),
    HuffmanRow(26, 0x3ffffe6, 210), HuffmanRow(27, 0x7ffffe0, 211),
    HuffmanRow(27, 0x7ffffe1, 212), HuffmanRow(26, 0x3ffffe7, 213),
    HuffmanRow(27, 0x7ffffe2, 214), HuffmanRow(24, 0xfffff2, 215),
    HuffmanRow(21, 0x1fffe4, 216), HuffmanRow(21, 0x1fffe5, 217),
    HuffmanRow(26, 0x3ffffe8, 218), HuffmanRow(26, 0x3ffffe9, 219),
    HuffmanRow(28, 0xffffffd, 220), HuffmanRow(27, 0x7ffffe3, 221),
    HuffmanRow(27, 0x7ffffe4, 222), HuffmanRow(27, 0x7ffffe5, 223)
  ]

  const ROWS_224: seq<HuffmanRow> := [
    HuffmanRow(20, 0xfffec, 224), HuffmanRow(24, 0xfffff3, 225),
    HuffmanRow(20, 0xfffed, 226), HuffmanRow(21, 0x1fffe6, 227),
    HuffmanRow(22, 0x3fffe9, 228), HuffmanRow(21, 0x1fffe7, 229),
    HuffmanRow(21, 0x1fffe8, 230), HuffmanRow(23, 0x7ffff3, 231),
    HuffmanRow(22, 0x3fffea, 232), HuffmanRow(22, 0x3fffeb, 233),
    HuffmanRow(25, 0x1ffffee, 234), HuffmanRow(25, 0x1ffffef, 235),
    HuffmanRow(24, 0xfffff4, 236), HuffmanRow(24, 0xfffff5, 237),
    HuffmanRow(26, 0x3ffffea, 238), HuffmanRow(23, 0x7ffff4, 239)
  ]

  const ROWS_240: seq<HuffmanRow> := [
    HuffmanRow(26, 0x3ffffeb, 240), HuffmanRow(27, 0x7ffffe6, 241),
    HuffmanRow(26, 0x3ffffec, 242), HuffmanRow(26, 0x3ffffed, 243),
    HuffmanRow(27, 0x7ffffe7, 244), HuffmanRow(27, 0x7ffffe8, 245),
    HuffmanRow(27, 0x7ffffe9, 246), HuffmanRow(27, 0x7ffffea, 247),
    HuffmanRow(27, 0x7ffffeb, 248), HuffmanRow(28, 0xffffffe, 249),
    HuffmanRow(27, 0x7ffffec, 250), HuffmanRow(27, 0x7ffffed, 251),
    HuffmanRow(27, 0x7ffffee, 252), HuffmanRow(27, 0x7ffffef, 253),
    HuffmanRow(27, 0x7fffff0, 254), HuffmanRow(26, 0x3ffffee, 255)
  ]

  const ROWS_256: seq<HuffmanRow> := [
    HuffmanRow(30, 0x3fffffff, 256)
  ]

  const PIECES: seq<seq<HuffmanRow>> := [
    ROWS_0, ROWS_16, ROWS_32, ROWS_48, ROWS_64, ROWS_80, ROWS_96, ROWS_112, ROWS_128,
    ROWS_144, ROWS_160, ROWS_176, ROWS_192, ROWS_208, ROWS_224, ROWS_240, ROWS_256
  ]

  lemma PieceLength(k: nat)
    requires k < 17
    ensures |PIECES| == 17 && |PIECES[k]| == if k < 16 then 16 else 1
  {
  }

  /** The row of symbol i. */
  function Row(i: nat): HuffmanRow
    requires i < SYMBOLS
  {
    PieceLength(i / 16);
    PIECES[i / 16][i % 16]
  }

  function Flatten(pieces: seq<seq<HuffmanRow>>): seq<HuffmanRow> {
    if pieces == [] then [] else Flatten(pieces[..|pieces| - 1]) + pieces[|pieces| - 1]
  }

  const HUFFMAN_TABLE: seq<HuffmanRow> := Flatten(PIECES)

  lemma {:induction false} FlattenLength(pieces: seq<seq<HuffmanRow>>)
    requires forall k :: 0 <= k < |pieces| ==> |pieces[k]| == 16
    ensures |Flatten(pieces)| == 16 * |pieces|
  {
    if pieces == [] {
    } else {
      FlattenLength(pieces[..|pieces| - 1]);
    }
  }

  lemma {:induction false} FlattenAt(pieces: seq<seq<HuffmanRow>>, i: nat)
    requires forall k :: 0 <= k < |pieces| - 1 ==> |pieces[k]| == 16
    requires i / 16 < |pieces| && i % 16 < |pieces[i / 16]|
    ensures i < |Flatten(pieces)| && Flatten(pieces)[i] == pieces[i / 16][i % 16]
    decreases |pieces|
  {
    var front := pieces[..|pieces| - 1];
    FlattenLength(front);
    if i / 16 == |front| {
      assert Flatten(pieces) == Flatten(front) + pieces[|front|];
    } else {
      assert front[i / 16] == pieces[i / 16];
      FlattenAt(front, i);
    }
  }

  lemma TableLength()
    ensures |HUFFMAN_TABLE| == SYMBOLS
  {
    var front := PIECES[..16];
    forall k | 0 <= k < 16
      ensures |front[k]| == 16
    {
      PieceLength(k);
    }
    FlattenLength(front);
    PieceLength(16);
  }

  lemma TableRow(i: nat)
    requires i < SYMBOLS
    ensures |HUFFMAN_TABLE| == SYMBOLS && HUFFMAN_TABLE[i] == Row(i)
  {
    forall k | 0 <= k < |PIECES| - 1
      ensures |PIECES[k]| == 16
    {
      PieceLength(k);
    }
    PieceLength(i / 16);
    TableLength();
    FlattenAt(PIECES, i);
  }
}
