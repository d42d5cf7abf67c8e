/**
 * The concrete table is a complete prefix code: sorted by left-aligned code, the
 * intervals of 30-bit words that its codes cover tile [0, 2^30).
 */
module HuffmanTableProof {
  import opened Bits
  import opened HuffmanTable
  import opened HuffmanCode

  function Sorted0(i: nat): nat {
    match i
    case 0 => 48 case 1 => 49 case 2 => 50 case 3 => 97 case 4 => 99 case 5 => 101 case 6 => 105 case 7 => 111
    case 8 => 115 case 9 => 116 case 10 => 32 case 11 => 37 case 12 => 45 case 13 => 46 case 14 => 47 case _ => 51
  }

  function Sorted16(i: nat): nat {
    match i
    case 16 => 52 case 17 => 53 case 18 => 54 case 19 => 55 case 20 => 56 case 21 => 57 case 22 => 61 case 23 => 65
    case 24 => 95 case 25 => 98 case 26 => 100 case 27 => 102 case 28 => 103 case 29 => 104 case 30 => 108 case _ => 109
  }

  function Sorted32(i: nat): nat {
    match i
    case 32 => 110 case 33 => 112 case 34 => 114 case 35 => 117 case 36 => 58 case 37 => 66 case 38 => 67 case 39 => 68
    case 40 => 69 case 41 => 70 case 42 => 71 case 43 => 72 case 44 => 73 case 45 => 74 case 46 => 75 case _ => 76
  }

  function Sorted48(i: nat): nat {
    match i
    case 48 => 77 case 49 => 78 case 50 => 79 case 51 => 80 case 52 => 81 case 53 => 82 case 54 => 83 case 55 => 84
    case 56 => 85 case 57 => 86 case 58 => 87 case 59 => 89 case 60 => 106 case 61 => 107 case 62 => 113 case _ => 118
  }

  function Sorted64(i: nat): nat {
    match i
    case 64 => 119 case 65 => 120 case 66 => 121 case 67 => 122 case 68 => 38 case 69 => 42 case 70 => 44 case 71 => 59
    case 72 => 88 case 73 => 90 case 74 => 33 case 75 => 34 case 76 => 40 case 77 => 41 case 78 => 63 case _ => 39
  }

  function Sorted80(i: nat): nat {
    match i
    case 80 => 43 case 81 => 124 case 82 => 35 case 83 => 62 case 84 => 0 case 85 => 36 case 86 => 64 case 87 => 91
    case 88 => 93 case 89 => 126 case 90 => 94 case 91 => 125 case 92 => 60 case 93 => 96 case 94 => 123 case _ => 92
  }

  function Sorted96(i: nat): nat {
    match i
    case 96 => 195 case 97 => 208 case 98 => 128 case 99 => 130
    case 100 => 131 case 101 => 162 case 102 => 184 case 103 => 194
    case 104 => 224 case 105 => 226 case 106 => 153 case 107 => 161
    case 108 => 167 case 109 => 172 case 110 => 176 case _ => 177
  }

  function Sorted112(i: nat): nat {
    match i
    case 112 => 179 case 113 => 209 case 114 => 216 case 115 => 217
    case 116 => 227 case 117 => 229 case 118 => 230 case 119 => 129
    case 120 => 132 case 121 => 133 case 122 => 134 case 123 => 136
    case 124 => 146 case 125 => 154 case 126 => 156 case _ => 160
  }

  function Sorted128(i: nat): nat {
    match i
    case 128 => 163 case 129 => 164 case 130 => 169 case 131 => 170
    case 132 => 173 case 133 => 178 case 134 => 181 case 135 => 185
    case 136 => 186 case 137 => 187 case 138 => 189 case 139 => 190
    case 140 => 196 case 141 => 198 case 142 => 228 case _ => 232
  }

  function Sorted144(i: nat): nat {
    match i
    case 144 => 233 case 145 => 1 case 146 => 135 case 147 => 137
    case 148 => 138 case 149 => 139 case 150 => 140 case 151 => 141
    case 152 => 143 case 153 => 147 case 154 => 149 case 155 => 150
    case 156 => 151 case 157 => 152 case 158 => 155 case _ => 157
  }

  function Sorted160(i: nat): nat {
    match i
    case 160 => 158 case 161 => 165 case 162 => 166 case 163 => 168
    case 164 => 174 case 165 => 175 case 166 => 180 case 167 => 182
    case 168 => 183 case 169 => 188 case 170 => 191 case 171 => 197
    case 172 => 231 case 173 => 239 case 174 => 9 case _ => 142
  }

  function Sorted176(i: nat): nat {
    match i
    case 176 => 144 case 177 => 145 case 178 => 148 case 179 => 159
    case 180 => 171 case 181 => 206 case 182 => 215 case 183 => 225
    case 184 => 236 case 185 => 237 case 186 => 199 case 187 => 207
    case 188 => 234 case 189 => 235 case 190 => 192 case _ => 193
  }

  function Sorted192(i: nat): nat {
    match i
    case 192 => 200 case 193 => 201 case 194 => 202 case 195 => 205
    case 196 => 210 case 197 => 213 case 198 => 218 case 199 => 219
    case 200 => 238 case 201 => 240 case 202 => 242 case 203 => 243
    case 204 => 255 case 205 => 203 case 206 => 204 case _ => 211
  }

  function Sorted208(i: nat): nat {
    match i
    case 208 => 212 case 209 => 214 case 210 => 221 case 211 => 222
    case 212 => 223 case 213 => 241 case 214 => 244 case 215 => 245
    case 216 => 246 case 217 => 247 case 218 => 248 case 219 => 250
    case 220 => 251 case 221 => 252 case 222 => 253 case _ => 254
  }

  function Sorted224(i: nat): nat {
    match i
    case 224 => 2 case 225 => 3 case 226 => 4 case 227 => 5 case 228 => 6 case 229 => 7 case 230 => 8 case 231 => 11
    case 232 => 12 case 233 => 14 case 234 => 15 case 235 => 16
    case 236 => 17 case 237 => 18 case 238 => 19 case _ => 20
  }

  function Sorted240(i: nat): nat {
    match i
    case 240 => 21 case 241 => 23 case 242 => 24 case 243 => 25
    case 244 => 26 case 245 => 27 case 246 => 28 case 247 => 29
    case 248 => 30 case 249 => 31 case 250 => 127 case 251 => 220
    case 252 => 249 case 253 => 10 case 254 => 13 case _ => 22
  }

  function Sorted256(i: nat): nat {
    match i
    case _ => 256
  }

  /** The symbol whose code is the i-th smallest when left-aligned. */
  function Sorted(i: nat): nat {
    if i < 16 then Sorted0(i) else
    if i < 32 then Sorted16(i) else
    if i < 48 then Sorted32(i) else
    if i < 64 then Sorted48(i) else
    if i < 80 then Sorted64(i) else
    if i < 96 then Sorted80(i) else
    if i < 112 then Sorted96(i) else
    if i < 128 then Sorted112(i) else
    if i < 144 then Sorted128(i) else
    if i < 160 then Sorted144(i) else
    if i < 176 then Sorted160(i) else
    if i < 192 then Sorted176(i) else
    if i < 208 then Sorted192(i) else
    if i < 224 then Sorted208(i) else
    if i < 240 then Sorted224(i) else
    if i < 256 then Sorted240(i) else
    Sorted256(i)
  }

  function Rank0(i: nat): nat {
    match i
    case 0 => 84 case 1 => 145 case 2 => 224 case 3 => 225 case 4 => 226 case 5 => 227 case 6 => 228 case 7 => 229
    case 8 => 230 case 9 => 174 case 10 => 253 case 11 => 231 case 12 => 232 case 13 => 254 case 14 => 233 case _ => 234
  }

  function Rank16(i: nat): nat {
    match i
    case 16 => 235 case 17 => 236 case 18 => 237 case 19 => 238
    case 20 => 239 case 21 => 240 case 22 => 255 case 23 => 241
    case 24 => 242 case 25 => 243 case 26 => 244 case 27 => 245
    case 28 => 246 case 29 => 247 case 30 => 248 case _ => 249
  }

  function Rank32(i: nat): nat {
    match i
    case 32 => 10 case 33 => 74 case 34 => 75 case 35 => 82 case 36 => 85 case 37 => 11 case 38 => 68 case 39 => 79
    case 40 => 76 case 41 => 77 case 42 => 69 case 43 => 80 case 44 => 70 case 45 => 12 case 46 => 13 case _ => 14
  }

  function Rank48(i: nat): nat {
    match i
    case 48 => 0 case 49 => 1 case 50 => 2 case 51 => 15 case 52 => 16 case 53 => 17 case 54 => 18 case 55 => 19
    case 56 => 20 case 57 => 21 case 58 => 36 case 59 => 71 case 60 => 92 case 61 => 22 case 62 => 83 case _ => 78
  }

  function Rank64(i: nat): nat {
    match i
    case 64 => 86 case 65 => 23 case 66 => 37 case 67 => 38 case 68 => 39 case 69 => 40 case 70 => 41 case 71 => 42
    case 72 => 43 case 73 => 44 case 74 => 45 case 75 => 46 case 76 => 47 case 77 => 48 case 78 => 49 case _ => 50
  }

  function Rank80(i: nat): nat {
    match i
    case 80 => 51 case 81 => 52 case 82 => 53 case 83 => 54 case 84 => 55 case 85 => 56 case 86 => 57 case 87 => 58
    case 88 => 72 case 89 => 59 case 90 => 73 case 91 => 87 case 92 => 95 case 93 => 88 case 94 => 90 case _ => 24
  }

  function Rank96(i: nat): nat {
    match i
    case 96 => 93 case 97 => 3 case 98 => 25 case 99 => 4 case 100 => 26 case 101 => 5 case 102 => 27 case 103 => 28
    case 104 => 29 case 105 => 6 case 106 => 60 case 107 => 61 case 108 => 30 case 109 => 31 case 110 => 32 case _ => 7
  }

  function Rank112(i: nat): nat {
    match i
    case 112 => 33 case 113 => 62 case 114 => 34 case 115 => 8
    case 116 => 9 case 117 => 35 case 118 => 63 case 119 => 64
    case 120 => 65 case 121 => 66 case 122 => 67 case 123 => 94
    case 124 => 81 case 125 => 91 case 126 => 89 case _ => 250
  }

  function Rank128(i: nat): nat {
    match i
    case 128 => 98 case 129 => 119 case 130 => 99 case 131 => 100
    case 132 => 120 case 133 => 121 case 134 => 122 case 135 => 146
    case 136 => 123 case 137 => 147 case 138 => 148 case 139 => 149
    case 140 => 150 case 141 => 151 case 142 => 175 case _ => 152
  }

  function Rank144(i: nat): nat {
    match i
    case 144 => 176 case 145 => 177 case 146 => 124 case 147 => 153
    case 148 => 178 case 149 => 154 case 150 => 155 case 151 => 156
    case 152 => 157 case 153 => 106 case 154 => 125 case 155 => 158
    case 156 => 126 case 157 => 159 case 158 => 160 case _ => 179
  }

  function Rank160(i: nat): nat {
    match i
    case 160 => 127 case 161 => 107 case 162 => 101 case 163 => 128
    case 164 => 129 case 165 => 161 case 166 => 162 case 167 => 108
    case 168 => 163 case 169 => 130 case 170 => 131 case 171 => 180
    case 172 => 109 case 173 => 132 case 174 => 164 case _ => 165
  }

  function Rank176(i: nat): nat {
    match i
    case 176 => 110 case 177 => 111 case 178 => 133 case 179 => 112
    case 180 => 166 case 181 => 134 case 182 => 167 case 183 => 168
    case 184 => 102 case 185 => 135 case 186 => 136 case 187 => 137
    case 188 => 169 case 189 => 138 case 190 => 139 case _ => 170
  }

  function Rank192(i: nat): nat {
    match i
    case 192 => 190 case 193 => 191 case 194 => 103 case 195 => 96
    case 196 => 140 case 197 => 171 case 198 => 141 case 199 => 186
    case 200 => 192 case 201 => 193 case 202 => 194 case 203 => 205
    case 204 => 206 case 205 => 195 case 206 => 181 case _ => 187
  }

  function Rank208(i: nat): nat {
    match i
    case 208 => 97 case 209 => 113 case 210 => 196 case 211 => 207
    case 212 => 208 case 213 => 197 case 214 => 209 case 215 => 182
    case 216 => 114 case 217 => 115 case 218 => 198 case 219 => 199
    case 220 => 251 case 221 => 210 case 222 => 211 case _ => 212
  }

  function Rank224(i: nat): nat {
    match i
    case 224 => 104 case 225 => 183 case 226 => 105 case 227 => 116
    case 228 => 142 case 229 => 117 case 230 => 118 case 231 => 172
    case 232 => 143 case 233 => 144 case 234 => 188 case 235 => 189
    case 236 => 184 case 237 => 185 case 238 => 200 case _ => 173
  }

  function Rank240(i: nat): nat {
    match i
    case 240 => 201 case 241 => 213 case 242 => 202 case 243 => 203
    case 244 => 214 case 245 => 215 case 246 => 216 case 247 => 217
    case 248 => 218 case 249 => 252 case 250 => 219 case 251 => 220
    case 252 => 221 case 253 => 222 case 254 => 223 case _ => 204
  }

  function Rank256(i: nat): nat {
    match i
    case _ => 256
  }

  /** The place of symbol i in that order. */
  function Rank(i: nat): nat {
    if i < 16 then Rank0(i) else
    if i < 32 then Rank16(i) else
    if i < 48 then Rank32(i) else
    if i < 64 then Rank48(i) else
    if i < 80 then Rank64(i) else
    if i < 96 then Rank80(i) else
    if i < 112 then Rank96(i) else
    if i < 128 then Rank112(i) else
    if i < 144 then Rank128(i) else
    if i < 160 then Rank144(i) else
    if i < 176 then Rank160(i) else
    if i < 192 then Rank176(i) else
    if i < 208 then Rank192(i) else
    if i < 224 then Rank208(i) else
    if i < 240 then Rank224(i) else
    if i < 256 then Rank240(i) else
    Rank256(i)
  }

  predicate Placed(rows: seq<HuffmanRow>, from: nat) {
    forall j :: 0 <= j < |rows| ==> PlacedAt(rows[j], from + j, Rank(from + j))
  }

  predicate Ranked(from: nat, to: nat) {
    forall s :: from <= s < to ==> Sorted(Rank(s)) == s
  }

  predicate Sorts(from: nat, to: nat) {
    forall k :: from <= k < to ==> Sorted(k) < SYMBOLS && Rank(Sorted(k)) == k
  }

  lemma Placed0() ensures Placed(ROWS_0, 0) {}

  lemma Placed16() ensures Placed(ROWS_16, 16) {}

  lemma Placed32() ensures Placed(ROWS_32, 32) {}

  lemma Placed48() ensures Placed(ROWS_48, 48) {}

  lemma Placed64() ensures Placed(ROWS_64, 64) {}

  lemma Placed80() ensures Placed(ROWS_80, 80) {}

  lemma Placed96() ensures Placed(ROWS_96, 96) {}

  lemma Placed112() ensures Placed(ROWS_112, 112) {}

  lemma Placed128() ensures Placed(ROWS_128, 128) {}

  lemma Placed144() ensures Placed(ROWS_144, 144) {}

  lemma Placed160() ensures Placed(ROWS_160, 160) {}

  lemma Placed176() ensures Placed(ROWS_176, 176) {}

  lemma Placed192() ensures Placed(ROWS_192, 192) {}

  lemma Placed208() ensures Placed(ROWS_208, 208) {}

  lemma Placed224() ensures Placed(ROWS_224, 224) {}

  lemma Placed240() ensures Placed(ROWS_240, 240) {}

  lemma Placed256() ensures Placed(ROWS_256, 256) {}

  lemma Ranked0() ensures Ranked(0, 16) {}

  lemma Ranked16() ensures Ranked(16, 32) {}

  lemma Ranked32() ensures Ranked(32, 64) {}

  lemma Ranked64() ensures Ranked(64, 96) {}

  lemma Ranked96() ensures Ranked(96, 112) {}

  lemma Ranked112() ensures Ranked(112, 128) {}

  lemma Ranked128() ensures Ranked(128, 160) {}

  lemma Ranked160() ensures Ranked(160, 192) {}

  lemma Ranked192() ensures Ranked(192, 224) {}

  lemma Ranked224() ensures Ranked(224, 256) {}

  lemma Ranked256() ensures Ranked(256, 257) {}

  lemma Sorts0() ensures Sorts(0, 32) {}

  lemma Sorts32() ensures Sorts(32, 64) {}

  lemma Sorts64() ensures Sorts(64, 96) {}

  lemma Sorts96() ensures Sorts(96, 128) {}

  lemma Sorts128() ensures Sorts(128, 160) {}

  lemma Sorts160() ensures Sorts(160, 192) {}

  lemma Sorts192() ensures Sorts(192, 224) {}

  lemma Sorts224() ensures Sorts(224, 256) {}

  lemma Sorts256() ensures Sorts(256, 257) {}

  lemma PiecePlaced(k: nat)
    requires k < 17
    ensures |PIECES| == 17 && Placed(PIECES[k], 16 * k)
  {
    match k
    case 0 => Placed0();
    case 1 => Placed16();
    case 2 => Placed32();
    case 3 => Placed48();
    case 4 => Placed64();
    case 5 => Placed80();
    case 6 => Placed96();
    case 7 => Placed112();
    case 8 => Placed128();
    case 9 => Placed144();
    case 10 => Placed160();
    case 11 => Placed176();
    case 12 => Placed192();
    case 13 => Placed208();
    case 14 => Placed224();
    case 15 => Placed240();
    case _ => Placed256();
  }

  lemma AllPlaced()
    ensures |HUFFMAN_TABLE| == SYMBOLS
    ensures forall s :: 0 <= s < SYMBOLS ==> PlacedAt(HUFFMAN_TABLE[s], s, Rank(s))
  {
    TableLength();
    forall s | 0 <= s < SYMBOLS
      ensures PlacedAt(HUFFMAN_TABLE[s], s, Rank(s))
    {
      TableRow(s);
      PiecePlaced(s / 16);
      PieceLength(s / 16);
    }
  }

  lemma AllRanked() ensures Ranked(0, SYMBOLS)
  {
    Ranked0(); Ranked16(); Ranked32(); Ranked64(); Ranked96(); Ranked112();
    Ranked128(); Ranked160(); Ranked192(); Ranked224(); Ranked256();
  }

  lemma AllSorts() ensures Sorts(0, SYMBOLS)
  {
    Sorts0(); Sorts32(); Sorts64(); Sorts96(); Sorts128(); Sorts160(); Sorts192(); Sorts224(); Sorts256();
  }

  lemma TableTiles() returns (order: seq<nat>, rank: seq<nat>)
    ensures Tiling(HUFFMAN_TABLE, order, rank)
  {
    order := seq(SYMBOLS, i requires 0 <= i < SYMBOLS => Sorted(i));
    rank := seq(SYMBOLS, i requires 0 <= i < SYMBOLS => Rank(i));
    AllPlaced();
    AllRanked();
    AllSorts();
  }

  lemma TableIsCompletePrefixCode()
    ensures CompletePrefixCode(HUFFMAN_TABLE)
  {
    var order, rank := TableTiles();
    TilingIsWellFormed(HUFFMAN_TABLE, order, rank);
    TilingIsPrefixFree(HUFFMAN_TABLE, order, rank);
    TilingIsComplete(HUFFMAN_TABLE, order, rank);
  }

  lemma TableIsWellFormed()
    ensures WellFormed(HUFFMAN_TABLE)
  {
    TableIsCompletePrefixCode();
  }

  lemma ShortUpTo79()
    ensures forall k :: 0 <= k < 16 ==> ROWS_32[k].bits <= 25
    ensures forall k :: 0 <= k < 16 ==> ROWS_48[k].bits <= 25
    ensures forall k :: 0 <= k < 16 ==> ROWS_64[k].bits <= 25
  {
  }

  lemma ShortUpTo126()
    ensures forall k :: 0 <= k < 16 ==> ROWS_80[k].bits <= 25
    ensures forall k :: 0 <= k < 16 ==> ROWS_96[k].bits <= 25
    ensures forall k :: 0 <= k < 15 ==> ROWS_112[k].bits <= 25
  {
  }

  lemma RowUpTo79(i: nat)
    requires 32 <= i < 80
    ensures Row(i) == if i < 48 then ROWS_32[i - 32] else if i < 64 then ROWS_48[i - 48] else ROWS_64[i - 64]
  {
    assert i / 16 == if i < 48 then 2 else if i < 64 then 3 else 4;
  }

  lemma RowUpTo126(i: nat)
    requires 80 <= i < 127
    ensures Row(i) == if i < 96 then ROWS_80[i - 80] else if i < 112 then ROWS_96[i - 96] else ROWS_112[i - 112]
  {
    assert i / 16 == if i < 96 then 5 else if i < 112 then 6 else 7;
  }

  lemma RowIsShort(i: nat)
    requires 32 <= i < 127
    ensures Row(i).bits <= 25
  {
    if i < 80 {
      ShortUpTo79();
      RowUpTo79(i);
    } else {
      ShortUpTo126();
      RowUpTo126(i);
    }
  }

  /** Every printable ASCII character has a code of at most 25 bits. */
  lemma PrintableIsShort(i: nat)
    requires 32 <= i < 127
    ensures |HUFFMAN_TABLE| == SYMBOLS && HUFFMAN_TABLE[i].bits <= 25
  {
    TableRow(i);
    RowIsShort(i);
  }

  // ----- the canonical order -----

  predicate Ascends(from: nat, to: nat) {
    forall k :: from <= k < to && Length(k) == Length(k + 1) ==> Sorted(k) < Sorted(k + 1)
  }

  lemma Ascends0() ensures Ascends(0, 32) {}

  lemma Ascends32() ensures Ascends(32, 64) {}

  lemma Ascends64() ensures Ascends(64, 96) {}

  lemma Ascends96() ensures Ascends(96, 128) {}

  lemma Ascends128() ensures Ascends(128, 160) {}

  lemma Ascends160() ensures Ascends(160, 192) {}

  lemma Ascends192() ensures Ascends(192, 224) {}

  lemma Ascends224() ensures Ascends(224, 256) {}

  lemma {:induction false} OneLengthAscends(i: nat, j: nat)
    requires i < j < SYMBOLS && Length(i) == Length(j)
    ensures Sorted(i) < Sorted(j)
    decreases j
  {
    Ascends0(); Ascends32(); Ascends64(); Ascends96(); Ascends128(); Ascends160(); Ascends192(); Ascends224();
    assert Length(j - 1) == Length(j);
    if i < j - 1 {
      OneLengthAscends(i, j - 1);
    }
  }

  /**
   * The code is canonical: among codes of one length the larger symbol has the larger code, and left-aligned
   * in 30 bits, a shorter code is smaller than a longer one.
   */
  lemma TableIsCanonical(a: nat, b: nat)
    requires a < SYMBOLS && b < SYMBOLS
    ensures |HUFFMAN_TABLE| == SYMBOLS
    ensures var r, s := HUFFMAN_TABLE[a], HUFFMAN_TABLE[b];
            && (r.bits == s.bits ==> (a < b <==> r.code < s.code))
            && (r.bits < s.bits ==> r.code * Span(r.bits) < s.code * Span(s.bits))
  {
    AllPlaced();
    AllRanked();
    var i, j := Rank(a), Rank(b);
    assert Sorted(i) == a && Sorted(j) == b;
    if Length(i) == Length(j) {
      if i < j {
        OneLengthAscends(i, j);
      } else if j < i {
        OneLengthAscends(j, i);
      }
    } else if Length(i) < Length(j) {
      IntervalsAscend(i, j);
    }
  }

  /** These characters take the places from this one on. */
  predicate Follow(from: nat, characters: string) {
    forall k :: 0 <= k < |characters| ==> (characters[k] as int) < SYMBOLS && Sorted(from + k) == characters[k] as int
  }

  /** The codes of these characters are of this length, and consecutive from the first on. */
  predicate Consecutive(bits: nat, first: nat, characters: string) {
    |HUFFMAN_TABLE| == SYMBOLS && forall k :: 0 <= k < |characters| ==>
      (characters[k] as int) < SYMBOLS &&
      HUFFMAN_TABLE[characters[k] as int] == HuffmanRow(bits, first + k, characters[k] as int)
  }

  lemma FollowersAreConsecutive(bits: nat, from: nat, first: nat, characters: string)
    requires Follow(from, characters) && from + |characters| <= SYMBOLS
    requires forall k :: from <= k < from + |characters| ==> Length(k) == bits && Code(k) == first + (k - from)
    ensures Consecutive(bits, first, characters)
  {
    AllPlaced();
    AllSorts();
    forall k | 0 <= k < |characters|
      ensures HUFFMAN_TABLE[characters[k] as int] == HuffmanRow(bits, first + k, characters[k] as int)
    {
      assert Rank(Sorted(from + k)) == from + k;
      assert PlacedAt(HUFFMAN_TABLE[characters[k] as int], characters[k] as int, from + k);
    }
  }

  lemma Codes5()
    ensures Consecutive(5, 0x0, "012aceiost")
  {
    FollowersAreConsecutive(5, 0, 0x0, "012aceiost");
  }

  lemma Codes6()
    ensures Consecutive(6, 0x14, " %-./3456789=")
  {
    FollowersAreConsecutive(6, 10, 0x14, " %-./3456789=");
  }

  lemma Codes6From65()
    ensures Consecutive(6, 0x21, "A_bdfghlmnpru")
  {
    FollowersAreConsecutive(6, 23, 0x21, "A_bdfghlmnpru");
  }

  lemma Codes7()
    ensures Consecutive(7, 0x5c, ":BCDEFGHIJKLMNOP")
  {
    FollowersAreConsecutive(7, 36, 0x5c, ":BCDEFGHIJKLMNOP");
  }

  lemma Codes7From81()
    ensures Consecutive(7, 0x6c, "QRSTUVWYjkqvwxyz")
  {
    FollowersAreConsecutive(7, 52, 0x6c, "QRSTUVWYjkqvwxyz");
  }

  lemma Codes8()
    ensures Consecutive(8, 0xf8, "&*,;XZ")
  {
    FollowersAreConsecutive(8, 68, 0xf8, "&*,;XZ");
  }

  lemma Codes10()
    ensures Consecutive(10, 0x3f8, "!\"()?")
  {
    FollowersAreConsecutive(10, 74, 0x3f8, "!\"()?");
  }

  lemma Codes11()
    ensures Consecutive(11, 0x7fa, "'+|")
  {
    FollowersAreConsecutive(11, 79, 0x7fa, "'+|");
  }

  lemma Codes12()
    ensures Consecutive(12, 0xffa, "#>")
  {
    FollowersAreConsecutive(12, 82, 0xffa, "#>");
  }

  lemma Codes13()
    ensures Consecutive(13, 0x1ff9, "$@[]~")
  {
    FollowersAreConsecutive(13, 85, 0x1ff9, "$@[]~");
  }

  lemma Codes14()
    ensures Consecutive(14, 0x3ffc, "^}")
  {
    FollowersAreConsecutive(14, 90, 0x3ffc, "^}");
  }

  lemma Codes15()
    ensures Consecutive(15, 0x7ffc, "<`{")
  {
    FollowersAreConsecutive(15, 92, 0x7ffc, "<`{");
  }

  lemma Codes19()
    ensures Consecutive(19, 0x7fff0, "\\")
  {
    FollowersAreConsecutive(19, 95, 0x7fff0, "\\");
  }

  /** The codes of all printable ASCII characters, by length and in order. */
  lemma PrintableCodes()
    ensures Consecutive(5, 0x0, "012aceiost")
    ensures Consecutive(6, 0x14, " %-./3456789=")
    ensures Consecutive(6, 0x21, "A_bdfghlmnpru")
    ensures Consecutive(7, 0x5c, ":BCDEFGHIJKLMNOP")
    ensures Consecutive(7, 0x6c, "QRSTUVWYjkqvwxyz")
    ensures Consecutive(8, 0xf8, "&*,;XZ")
    ensures Consecutive(10, 0x3f8, "!\"()?")
    ensures Consecutive(11, 0x7fa, "'+|")
    ensures Consecutive(12, 0xffa, "#>")
    ensures Consecutive(13, 0x1ff9, "$@[]~")
    ensures Consecutive(14, 0x3ffc, "^}")
    ensures Consecutive(15, 0x7ffc, "<`{")
    ensures Consecutive(19, 0x7fff0, "\\")
  {
    Codes5(); Codes6(); Codes6From65(); Codes7(); Codes7From81(); Codes8(); Codes10();
    Codes11(); Codes12(); Codes13(); Codes14(); Codes15(); Codes19();
  }
}
