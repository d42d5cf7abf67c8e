/** Big-endian numbers as a DataView writes and reads them. */
module WireNumbers {
  import opened Bits

  const TWO8: nat := 0x100
  const TWO16: nat := 0x1_0000
  const TWO24: nat := 0x100_0000
  const TWO31: nat := 0x8000_0000
  const TWO32: nat := 0x1_0000_0000

  const TWO64: nat := 0x1_0000_0000_0000_0000

  // Numbers out of range are cut to their width.

  function Low8(v: int): (r: byte)
    ensures r == v <==> 0 <= v < TWO8
  {
    v % 0x100
  }

  function Low16(v: int): (r: nat)
    ensures r < TWO16 && (r == v <==> 0 <= v < TWO16)
  {
    v % 0x1_0000
  }

  function Low24(v: int): (r: nat)
    ensures r < TWO24 && (r == v <==> 0 <= v < TWO24)
  {
    v % 0x100_0000
  }

  function Low31(v: int): (r: nat)
    ensures r < TWO31 && (r == v <==> 0 <= v < TWO31)
  {
    v % 0x8000_0000
  }

  function Low32(v: int): (r: nat)
    ensures r < TWO32 && (r == v <==> 0 <= v < TWO32)
  {
    v % 0x1_0000_0000
  }

  function Low64(v: int): (r: nat)
    ensures r < TWO64 && (r == v <==> 0 <= v < TWO64)
  {
    v % 0x1_0000_0000_0000_0000
  }

  function Be16(v: int): (s: Bytes)
    ensures |s| == 2
  {
    [v / 0x100 % 0x100, v % 0x100]
  }

  function Be24(v: int): (s: Bytes)
    ensures |s| == 3
  {
    [v / 0x1_0000 % 0x100, v / 0x100 % 0x100, v % 0x100]
  }

  function Be32(v: int): (s: Bytes)
    ensures |s| == 4
  {
    [v / 0x100_0000 % 0x100, v / 0x1_0000 % 0x100, v / 0x100 % 0x100, v % 0x100]
  }

  function Be64(v: int): (s: Bytes)
    ensures |s| == 8
  {
    Be32(v / 0x1_0000_0000) + Be32(v)
  }

  function Get16(s: Bytes, i: nat): (v: nat)
    requires i + 2 <= |s|
    ensures v < TWO16
  {
    var high: nat, low: nat := s[i], s[i + 1];
    high * 0x100 + low
  }

  function Get24(s: Bytes, i: nat): (v: nat)
    requires i + 3 <= |s|
    ensures v < TWO24
  {
    var high: nat := s[i];
    high * 0x1_0000 + Get16(s, i + 1)
  }

  function Get32(s: Bytes, i: nat): (v: nat)
    requires i + 4 <= |s|
    ensures v < TWO32
  {
    var high: nat := s[i];
    high * 0x100_0000 + Get24(s, i + 1)
  }

  function Get64(s: Bytes, i: nat): (v: nat)
    requires i + 8 <= |s|
    ensures v < TWO64
  {
    Get32(s, i) * 0x1_0000_0000 + Get32(s, i + 4)
  }

  /** One more digit in front. */
  lemma NextDigit(v: int, d: nat, e: nat)
    requires (d, e) in {(0x100, TWO16), (TWO16, TWO24), (TWO24, TWO32), (TWO32, TWO64)}
    ensures v / d % (if d == TWO32 then TWO32 else 0x100) * d + v % d == v % e
  {
    var base := if d == TWO32 then TWO32 else 0x100;
    var q := v / d;
    DivMod(v, q / base, e, q % base * d + v % d);
  }

  lemma GetBe16(s: Bytes, i: nat, v: int)
    requires i + 2 <= |s| && s[i..i + 2] == Be16(v)
    ensures Get16(s, i) == Low16(v)
  {
    NextDigit(v, 0x100, TWO16);
    assert s[i] == s[i..i + 2][0] && s[i + 1] == s[i..i + 2][1];
  }

  lemma GetBe24(s: Bytes, i: nat, v: int)
    requires i + 3 <= |s| && s[i..i + 3] == Be24(v)
    ensures Get24(s, i) == Low24(v)
  {
    NextDigit(v, TWO16, TWO24);
    assert s[i] == s[i..i + 3][0];
    assert s[i + 1..i + 3] == s[i..i + 3][1..] == Be16(v);
    GetBe16(s, i + 1, v);
  }

  lemma GetBe32(s: Bytes, i: nat, v: int)
    requires i + 4 <= |s| && s[i..i + 4] == Be32(v)
    ensures Get32(s, i) == Low32(v)
  {
    NextDigit(v, TWO24, TWO32);
    assert s[i] == s[i..i + 4][0];
    assert s[i + 1..i + 4] == s[i..i + 4][1..] == Be24(v);
    GetBe24(s, i + 1, v);
  }

  lemma GetBe64(s: Bytes, i: nat, v: int)
    requires i + 8 <= |s| && s[i..i + 8] == Be64(v)
    ensures Get64(s, i) == Low64(v)
  {
    var t := s[i..i + 8];
    assert s[i..i + 4] == t[..4] && s[i + 4..i + 8] == t[4..];
    GetBe32(s, i, v / 0x1_0000_0000);
    GetBe32(s, i + 4, v);
    NextDigit(v, TWO32, TWO64);
  }
}
