/**
  Writing addresses: section 2.2 of RFC 4291 and section 4.2 of RFC 5952, lower case
  and without leading zeros, and that every text written this way parses back.
 */
module Ipv6Print {
  import opened Basics
  import opened ByteFile
  import opened Ipv6Text
  import opened Ipv6Reads
  import opened Ipv6Language

  function DigitChar(d: nat): (c: char)
    requires d < 16
    ensures Digit(c, true) == Some(d) && (d < 10 ==> Digit(c, false) == Some(d))
  {
    if d < 10 then '0' + d as char else 'a' + (d - 10) as char
  }

  function Print(n: nat, hex: bool): (w: string)
    ensures w != "" && AllDigits(w, hex) && Number(w, hex) == n
  {
    var last := if hex then DigitChar(n % 16) else DigitChar(n % 10);
    var front := if hex then n / 16 else n / 10;
    if front == 0 then
      assert [last][..0] == "";
      [last]
    else
      var w := Print(front, hex) + [last];
      assert w[..|w| - 1] == Print(front, hex);
      w
  }

  /** The numbers that fit in `k` digits. */
  function Limit(k: nat, hex: bool): nat {
    if k == 0 then 1 else if hex then 16 * Limit(k - 1, hex) else 10 * Limit(k - 1, hex)
  }

  lemma {:induction false} PrintIsShort(n: nat, hex: bool, k: nat)
    requires 1 <= k && n < Limit(k, hex)
    ensures |Print(n, hex)| <= k
    decreases k
  {
    var front := if hex then n / 16 else n / 10;
    if front != 0 {
      assert k > 1;
      PrintIsShort(front, hex, k - 1);
    }
  }

  lemma {:induction false} GroupSpelled(n: u16)
    ensures Spells(Print(n, true), n, true, 4)
  {
    assert Limit(4, true) == 0x10000;
    PrintIsShort(n, true, 4);
  }

  lemma {:induction false} OctetSpelled(n: byte)
    ensures Spells(Print(n, false), n, false, 3)
  {
    assert Limit(3, false) == 1000;
    PrintIsShort(n, false, 3);
  }

  function GroupWords(vs: seq<u16>): (ws: seq<string>)
    ensures |ws| == |vs| && forall i :: 0 <= i < |ws| ==> ws[i] == Print(vs[i], true)
  {
    seq(|vs|, i requires 0 <= i < |vs| => Print(vs[i], true))
  }

  function OctetWords(vs: seq<byte>): (ws: seq<string>)
    ensures |ws| == |vs| && forall i :: 0 <= i < |ws| ==> ws[i] == Print(vs[i], false)
  {
    seq(|vs|, i requires 0 <= i < |vs| => Print(vs[i], false))
  }

  lemma {:induction false} GroupsSpelled(vs: seq<u16>)
    ensures AllSpell(GroupWords(vs), vs)
  {
    forall i | 0 <= i < |vs| ensures Spells(GroupWords(vs)[i], vs[i], true, 4) {
      GroupSpelled(vs[i]);
    }
  }

  lemma {:induction false} OctetsSpelled(vs: seq<byte>)
    ensures OctetsSpell(OctetWords(vs), vs)
  {
    forall i | 0 <= i < |vs| ensures Spells(OctetWords(vs)[i], vs[i], false, 3) {
      OctetSpelled(vs[i]);
    }
  }

  function PrintFull(vs: seq<u16>): string { Words(GroupWords(vs)) }

  /** The groups `[i, j)` replaced by "::". */
  function PrintCompressed(vs: seq<u16>, i: nat, j: nat): string
    requires i <= j <= |vs|
  {
    Words(GroupWords(vs[..i])) + ("::" + Words(GroupWords(vs[j..])))
  }

  function PrintMapped(octets: seq<byte>): string {
    "::" + "ffff" + (":" + Dotted(OctetWords(octets)))
  }

  lemma {:induction false} FullRoundTrip(vs: seq<u16>)
    requires |vs| == 8
    ensures Parse(PrintFull(vs)) == Some(vs)
  {
    GroupsSpelled(vs);
    FullForm(GroupWords(vs), vs);
  }

  lemma {:induction false} CompressedText(hv: seq<u16>, tv: seq<u16>)
    requires |hv| + |tv| <= 8
    ensures Parse(Words(GroupWords(hv)) + ("::" + Words(GroupWords(tv))))
         == if |hv| <= 6 && |tv| <= 6 then Some(hv + Zeros(8 - |hv| - |tv|) + tv) else None
  {
    GroupsSpelled(hv);
    GroupsSpelled(tv);
    CompressedForm(GroupWords(hv), hv, GroupWords(tv), tv);
  }

  lemma ZeroRun(vs: seq<u16>, i: nat, j: nat)
    requires i <= j <= |vs| && forall k :: i <= k < j ==> vs[k] == 0
    ensures vs[..i] + Zeros(j - i) + vs[j..] == vs
  {
  }

  /** Two or more zero groups can be left out anywhere, a single one only inside the address. */
  lemma {:induction false} CompressedRoundTrip(vs: seq<u16>, i: nat, j: nat)
    requires |vs| == 8 && i < j <= 8 && forall k :: i <= k < j ==> vs[k] == 0
    ensures Parse(PrintCompressed(vs, i, j)) == if j - i >= 2 || 1 <= i <= 6 then Some(vs) else None
  {
    ZeroRun(vs, i, j);
    CompressedText(vs[..i], vs[j..]);
  }

  lemma {:induction false} MappedRoundTrip(octets: seq<byte>)
    requires |octets| == 4
    ensures Parse(PrintMapped(octets)) == Some(Zeros(5) + MappedTail(octets))
  {
    OctetsSpelled(octets);
    FfffSpelled();
    MappedParses([], false, "ffff", OctetWords(octets), octets, [], []);
    var text := "::" + Stray(false) + "ffff" + (":" + Dotted(OctetWords(octets)) + Further([]));
    assert Words([]) + text == PrintMapped(octets);
    assert Zeros(5) + MappedTail(octets) + [] == Zeros(5) + MappedTail(octets);
  }

  /** The sixteen bytes of an address in network order. */
  function NetworkBytes(groups: seq<u16>): (r: seq<byte>)
    ensures |r| == 2 * |groups|
  {
    seq(2 * |groups|, i requires 0 <= i < 2 * |groups| =>
          if i % 2 == 0 then groups[i / 2] / 256 else groups[i / 2] % 256)
  }

  lemma PairBytes(high: byte, low: byte)
    ensures Pair(high, low) / 256 == high && Pair(high, low) % 256 == low
  {
  }

  lemma {:induction false} MappedNetworkBytes(octets: seq<byte>, groups: seq<u16>)
    requires |octets| == 4 && groups == Zeros(5) + MappedTail(octets)
    ensures NetworkBytes(groups) == seq(10, _ => 0) + [255, 255] + octets
  {
    PairBytes(octets[0], octets[1]);
    PairBytes(octets[2], octets[3]);
    var r, expected := NetworkBytes(groups), seq(10, _ => 0) + [255, 255] + octets;
    assert forall i :: 0 <= i < 5 ==> groups[i] == 0;
    assert groups[5] == 0xffff && groups[6] == Pair(octets[0], octets[1]) && groups[7] == Pair(octets[2], octets[3]);
    assert forall i :: 0 <= i < 10 ==> r[i] == expected[i];
    assert r[10] == 255 && r[11] == 255;
    assert r[12] == octets[0] && r[13] == octets[1] && r[14] == octets[2] && r[15] == octets[3];
  }

  /** An IPv4-mapped address ends in the four octets as they were written. */
  lemma {:induction false} MappedBytes(octets: seq<byte>)
    requires |octets| == 4
    ensures Parse(PrintMapped(octets)).Some?
    ensures NetworkBytes(Parse(PrintMapped(octets)).value) == seq(10, _ => 0) + [255, 255] + octets
  {
    MappedRoundTrip(octets);
    MappedNetworkBytes(octets, Zeros(5) + MappedTail(octets));
  }

  const LOWER := "0123456789abcdef"
  const UPPER := "0123456789ABCDEF"

  /** A digit is one of the sixteen in either case, of the first ten in a decimal number. */
  lemma {:induction false} DigitIs(c: char, d: nat, hex: bool)
    requires d < 16
    ensures Digit(c, hex) == Some(d) <==> (c == LOWER[d] || c == UPPER[d]) && (hex || d < 10)
  {
    assert d < 10 ==> LOWER[d] == UPPER[d] == '0' + d as char;
    assert d >= 10 ==> LOWER[d] == 'a' + (d - 10) as char && UPPER[d] == 'A' + (d - 10) as char;
  }
}
