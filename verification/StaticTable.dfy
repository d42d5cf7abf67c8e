/** The static table (src/hpack/static-table.ts) beside that of Appendix A of RFC 7541. */
module StaticTable {
  /** A table entry. */
  datatype Entry = Entry(name: string, value: string)

  const ROWS_1_TO_14: seq<Entry> := [
    Entry(":authority", ""),
    Entry(":method", "GET"),
    Entry(":method", "POST"),
    Entry(":path", "/"),
    Entry(":path", "/index.html"),
    Entry(":scheme", "http"),
    Entry(":scheme", "https"),
    Entry("status", "200"),
    Entry("status", "204"),
    Entry("status", "206"),
    Entry("status", "304"),
    Entry("status", "400"),
    Entry("status", "404"),
    Entry("status", "500")
  ]

  const ROWS_15_TO_30: seq<Entry> := [
    Entry("accept-charset", ""),
    Entry("accept-encoding", "gzip, deflate"),
    Entry("accept-language", ""),
    Entry("accept-ranges", ""),
    Entry("accept", ""),
    Entry("access-control-allow-origin", ""),
    Entry("age", ""),
    Entry("allow", ""),
    Entry("authorization", ""),
    Entry("cache-control", ""),
    Entry("content-disposition", ""),
    Entry("content-encoding", ""),
    Entry("content-language", ""),
    Entry("content-length", ""),
    Entry("content-location", ""),
    Entry("content-range", "")
  ]

  const ROWS_31_TO_46: seq<Entry> := [
    Entry("content-type", ""),
    Entry("cookie", ""),
    Entry("date", ""),
    Entry("etag", ""),
    Entry("expect", ""),
    Entry("expires", ""),
    Entry("from", ""),
    Entry("host", ""),
    Entry("if-match", ""),
    Entry("if-modified-since", ""),
    Entry("if-none-match", ""),
    Entry("if-range", ""),
    Entry("if-unmodified-since", ""),
    Entry("last-modified", ""),
    Entry("link", ""),
    Entry("location", "")
  ]

  const ROWS_47_TO_61: seq<Entry> := [
    Entry("max-forwards", ""),
    Entry("proxy-authenticate", ""),
    Entry("proxy-authorization", ""),
    Entry("range", ""),
    Entry("referer", ""),
    Entry("refresh", ""),
    Entry("retry-after", ""),
    Entry("server", ""),
    Entry("set-cookie", ""),
    Entry("strict-transport-security", ""),
    Entry("transfer-encoding", ""),
    Entry("user-agent", ""),
    Entry("vary", ""),
    Entry("via", ""),
    Entry("www-authenticate", "")
  ]
  const STATIC_TABLE: seq<Entry> := ROWS_1_TO_14 + ROWS_15_TO_30 + ROWS_31_TO_46 + ROWS_47_TO_61
  const STATIC_TABLE_LENGTH: nat := 61

  lemma StaticLength()
    ensures |STATIC_TABLE| == STATIC_TABLE_LENGTH
  {
  }

  // ----- the standard -----

  /** Appendix A of RFC 7541, row by row. */
  function AppendixA(index: nat): Entry
    requires 1 <= index <= STATIC_TABLE_LENGTH
  {
    match index
    case 1 => Entry(":authority", "")
    case 2 => Entry(":method", "GET")
    case 3 => Entry(":method", "POST")
    case 4 => Entry(":path", "/")
    case 5 => Entry(":path", "/index.html")
    case 6 => Entry(":scheme", "http")
    case 7 => Entry(":scheme", "https")
    case 8 => Entry(":status", "200")
    case 9 => Entry(":status", "204")
    case 10 => Entry(":status", "206")
    case 11 => Entry(":status", "304")
    case 12 => Entry(":status", "400")
    case 13 => Entry(":status", "404")
    case 14 => Entry(":status", "500")
    case 15 => Entry("accept-charset", "")
    case 16 => Entry("accept-encoding", "gzip, deflate")
    case 17 => Entry("accept-language", "")
    case 18 => Entry("accept-ranges", "")
    case 19 => Entry("accept", "")
    case 20 => Entry("access-control-allow-origin", "")
    case 21 => Entry("age", "")
    case 22 => Entry("allow", "")
    case 23 => Entry("authorization", "")
    case 24 => Entry("cache-control", "")
    case 25 => Entry("content-disposition", "")
    case 26 => Entry("content-encoding", "")
    case 27 => Entry("content-language", "")
    case 28 => Entry("content-length", "")
    case 29 => Entry("content-location", "")
    case 30 => Entry("content-range", "")
    case 31 => Entry("content-type", "")
    case 32 => Entry("cookie", "")
    case 33 => Entry("date", "")
    case 34 => Entry("etag", "")
    case 35 => Entry("expect", "")
    case 36 => Entry("expires", "")
    case 37 => Entry("from", "")
    case 38 => Entry("host", "")
    case 39 => Entry("if-match", "")
    case 40 => Entry("if-modified-since", "")
    case 41 => Entry("if-none-match", "")
    case 42 => Entry("if-range", "")
    case 43 => Entry("if-unmodified-since", "")
    case 44 => Entry("last-modified", "")
    case 45 => Entry("link", "")
    case 46 => Entry("location", "")
    case 47 => Entry("max-forwards", "")
    case 48 => Entry("proxy-authenticate", "")
    case 49 => Entry("proxy-authorization", "")
    case 50 => Entry("range", "")
    case 51 => Entry("referer", "")
    case 52 => Entry("refresh", "")
    case 53 => Entry("retry-after", "")
    case 54 => Entry("server", "")
    case 55 => Entry("set-cookie", "")
    case 56 => Entry("strict-transport-security", "")
    case 57 => Entry("transfer-encoding", "")
    case 58 => Entry("user-agent", "")
    case 59 => Entry("vary", "")
    case 60 => Entry("via", "")
    case _ => Entry("www-authenticate", "")
  }

  lemma FirstRows(index: nat)
    requires 1 <= index <= 14
    ensures ROWS_1_TO_14[index - 1] == AppendixA(index) <==> index < 8
    ensures var row := ROWS_1_TO_14[index - 1];
            index >= 8 ==> row.name == "status" && AppendixA(index) == Entry(":status", row.value)
  {
    assert |"status"| < |":status"|;
  }

  lemma Rows15To30(i: nat)
    requires i < 16
    ensures ROWS_15_TO_30[i] == AppendixA(i + 15)
  {
  }

  lemma Rows31To46(i: nat)
    requires i < 16
    ensures ROWS_31_TO_46[i] == AppendixA(i + 31)
  {
  }

  lemma Rows47To61(i: nat)
    requires i < 15
    ensures ROWS_47_TO_61[i] == AppendixA(i + 47)
  {
  }

  lemma RowOf(index: nat)
    requires 1 <= index <= STATIC_TABLE_LENGTH
    ensures |STATIC_TABLE| == STATIC_TABLE_LENGTH
    ensures STATIC_TABLE[index - 1] == if index <= 14 then ROWS_1_TO_14[index - 1]
                                       else if index <= 30 then ROWS_15_TO_30[index - 15]
                                       else if index <= 46 then ROWS_31_TO_46[index - 31]
                                       else ROWS_47_TO_61[index - 47]
  {
  }

  /** A row is the one of the standard exactly unless it is a status row, which lacks the colon and nothing else. */
  lemma RowIsStandardExactly(index: nat)
    requires 1 <= index <= STATIC_TABLE_LENGTH
    ensures |STATIC_TABLE| == STATIC_TABLE_LENGTH
    ensures STATIC_TABLE[index - 1] == AppendixA(index) <==> !(8 <= index <= 14)
    ensures var row := STATIC_TABLE[index - 1];
            8 <= index <= 14 ==> row.name == "status" && AppendixA(index) == Entry(":status", row.value)
  {
    RowOf(index);
    if index <= 14 {
      FirstRows(index);
    } else if index <= 30 {
      Rows15To30(index - 15);
    } else if index <= 46 {
      Rows31To46(index - 31);
    } else {
      Rows47To61(index - 47);
    }
  }
}
