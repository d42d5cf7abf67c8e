/** Header fields (src/hpack/types.ts) and the lower-casing of their names (src/hpack/string.ts:193-199). */
module HeaderFields {
  datatype Field = Field(name: string, value: string, indexing: bool, sensitive: bool)

  /**
   * Lower case where it makes a difference to what can be encoded: in Latin-1, and for the
   * four letters outside it whose lower case lies inside. Any other letter stays outside.
   */
  function LowerChar(c: char): char {
    if 'A' <= c <= 'Z' || ('\U{C0}' <= c <= '\U{DE}' && c != '\U{D7}') then (c as int + 32) as char
    else if c == '\U{178}' then '\U{FF}'
    else if c == '\U{1E9E}' then '\U{DF}'
    else if c == '\U{212A}' then 'k'
    else if c == '\U{212B}' then '\U{E5}'
    else c
  }

  function LowerCase(s: string): (r: string)
    ensures |r| == |s|
  {
    seq(|s|, i requires 0 <= i < |s| => LowerChar(s[i]))
  }

  /**
   * ASCII capitals become the small letters, 32 further on; so do those of Latin-1, all but the
   * multiplication sign.
   */
  lemma CapitalsGo(s: string, k: nat)
    requires k < |s|
    ensures var c, r := s[k], LowerCase(s)[k];
            && !('A' <= r <= 'Z') && !('\U{C0}' <= r <= '\U{DE}' && r != '\U{D7}')
            && ('A' <= c <= 'Z' || ('\U{C0}' <= c <= '\U{DE}' && c != '\U{D7}') ==> r as int == c as int + 32)
  {
  }

  /**
   * All else stays, but for four letters outside Latin-1: capital y with diaeresis, capital sharp s,
   * and the signs for kelvin and angstrom.
   */
  lemma OthersStay(s: string, k: nat)
    requires k < |s|
    ensures var c, r := s[k], LowerCase(s)[k];
            && (r != c ==>
                'A' <= c <= 'Z' || ('\U{C0}' <= c <= '\U{DE}' && c != '\U{D7}') ||
                  c as int in {0x178, 0x1e9e, 0x212a, 0x212b})
            && (c as int == 0x178 ==> r as int == 0xff) && (c as int == 0x1e9e ==> r as int == 0xdf)
            && (c as int == 0x212a ==> r == 'k') && (c as int == 0x212b ==> r as int == 0xe5)
            && (r as int < 256 <==> c as int < 256 || c as int in {0x178, 0x1e9e, 0x212a, 0x212b})
  {
  }

  /** Lower-casing twice is lower-casing once. */
  lemma LowerTwice(s: string)
    ensures LowerCase(LowerCase(s)) == LowerCase(s)
  {
  }
}
