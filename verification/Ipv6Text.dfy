/**
  The IPv6 text parser as functions on the remaining input: section 2.2 of RFC 4291
  with one "::" and with an IPv4 address in the last two groups of ::ffff:0:0/96.
 */
module Ipv6Text {
  import opened Basics

  type u16 = n: int | 0 <= n < 0x10000

  /** What is left of the input after a success. */
  datatype Parsed<T> = Ok(value: T, rest: string) | Err

  function Digit(c: char, hex: bool): (r: Option<nat>)
    ensures r.Some? ==> r.value < if hex then 16 else 10
  {
    if '0' <= c <= '9' then Some(c as int - '0' as int)
    else if hex && 'a' <= c <= 'f' then Some(c as int - 'a' as int + 10)
    else if hex && 'A' <= c <= 'F' then Some(c as int - 'A' as int + 10)
    else None
  }

  function AcceptChar(s: string, c: char): Parsed<()> {
    if s != "" && s[0] == c then Ok((), s[1..]) else Err
  }

  function AcceptStr(s: string, prefix: string): (r: Parsed<()>)
    ensures r.Ok? <==> prefix <= s
    ensures r.Ok? ==> r.rest == s[|prefix|..]
  {
    if prefix == "" then Ok((), s)
    else if s != "" && s[0] == prefix[0] then AcceptStr(s[1..], prefix[1..])
    else Err
  }

  function AcceptDigit(s: string, hex: bool): Parsed<nat> {
    if s == "" || Digit(s[0], hex) == None then Err else Ok(Digit(s[0], hex).value, s[1..])
  }

  /** A number with one more digit. */
  function Shifted(value: nat, digit: nat, hex: bool): nat {
    if hex then value * 16 + digit else value * 10 + digit
  }

  /** Up to `left` more digits. */
  function MoreDigits(s: string, value: nat, left: nat, hex: bool): (r: Parsed<nat>)
    ensures r.Ok? && |r.rest| <= |s|
    decreases left
  {
    if left == 0 || AcceptDigit(s, hex) == Err then Ok(value, s)
    else MoreDigits(s[1..], Shifted(value, Digit(s[0], hex).value, hex), left - 1, hex)
  }

  function AcceptNumber(s: string, maxDigits: nat, maxValue: nat, hex: bool): (r: Parsed<nat>)
    requires maxDigits >= 1
    ensures r.Ok? ==> r.value < maxValue && |r.rest| < |s|
  {
    if AcceptDigit(s, hex) == Err then Err
    else
      var r := MoreDigits(s[1..], Digit(s[0], hex).value, maxDigits - 1, hex);
      if r.value < maxValue then r else Err
  }

  /** `n` dotted decimal octets. */
  function AcceptOctets(s: string, n: nat): (r: Parsed<seq<nat>>)
    ensures r.Ok? ==> |r.value| == n && (forall i :: 0 <= i < n ==> r.value[i] < 256) && |r.rest| <= |s|
    decreases n
  {
    if n == 0 then Ok([], s)
    else
      var first := AcceptNumber(s, 3, 0x100, false);
      if first == Err then Err
      else if n == 1 then Ok([first.value], first.rest)
      else
        var dot := AcceptChar(first.rest, '.');
        if dot == Err then Err
        else
          var others := AcceptOctets(dot.rest, n - 1);
          if others == Err then Err else Ok([first.value] + others.value, others.rest)
  }

  /** The groups before and after "::", and how many of each are filled. */
  datatype Parts = Parts(head: seq<u16>, tail: seq<u16>, headIdx: nat, tailIdx: nat) {
    predicate Shaped() { |head| == 8 && |tail| == 6 && headIdx <= 8 && tailIdx <= 6 }
  }

  function Zeros(n: nat): (r: seq<u16>)
    ensures |r| == n && forall i :: 0 <= i < n ==> r[i] == 0
  {
    seq(n, _ => 0)
  }

  /** Two octets as one group. */
  function Pair(high: nat, low: nat): u16
    requires high < 256 && low < 256
  {
    high * 256 + low
  }

  /** After `::ffff`, the groups an IPv4 address fills: ":" and four octets, or nothing at all. */
  function MappedGroups(s: string): (r: Parsed<seq<u16>>)
    ensures r.Ok? ==> |r.value| == 2 && |r.rest| <= |s|
  {
    var colon := AcceptChar(s, ':');
    if colon == Err then Err
    else
      var octets := AcceptOctets(colon.rest, 4);
      if octets == Err then Err
      else
        Ok([Pair(octets.value[0], octets.value[1]), Pair(octets.value[2], octets.value[3])], octets.rest)
  }

  /** What stands before a group: whether "::" was found here. */
  function AcceptSeparator(s: string, p: Parts, useTail: bool): (r: Parsed<bool>)
    ensures r.Ok? ==> |r.rest| <= |s| && (r.value ==> |r.rest| < |s|)
  {
    var colons := AcceptStr(s, "::");
    if colons.Ok? then
      if !useTail && p.headIdx < 7 then Ok(true, colons.rest) else Err
    else if p.headIdx != 0 || (useTail && p.tailIdx != 0) then
      var colon := AcceptChar(s, ':');
      if colon == Err then Err else Ok(false, colon.rest)
    else Ok(false, s)
  }

  /** The first six groups of an IPv4-mapped address. */
  predicate IsMapped(head: seq<u16>)
    requires |head| >= 6
  {
    head[0] == 0 && head[1] == 0 && head[2] == 0 && head[3] == 0 && head[4] == 0 && head[5] == 0xffff
  }

  function PutHead(p: Parts, part: u16, s: string): (r: Parsed<Parts>)
    requires p.Shaped() && p.headIdx < 8
    ensures r.Ok? && r.value.Shaped() && |r.rest| <= |s|
  {
    var now := p.(head := p.head[p.headIdx := part], headIdx := p.headIdx + 1);
    if now.headIdx == 6 && IsMapped(now.head) && MappedGroups(s).Ok? then
      var groups := MappedGroups(s);
      Ok(now.(head := now.head[6 := groups.value[0]][7 := groups.value[1]], headIdx := 8), groups.rest)
    else Ok(now, s)
  }

  function PutTail(p: Parts, part: u16, s: string): (r: Parsed<Parts>)
    requires p.Shaped() && p.tailIdx < 6
    ensures r.Ok? && r.value.Shaped() && |r.rest| <= |s|
  {
    var now := p.(tail := p.tail[p.tailIdx := part], tailIdx := p.tailIdx + 1);
    if now.tailIdx == 1 && part == 0xffff && now.head == Zeros(8) && MappedGroups(s).Ok? then
      var groups := MappedGroups(s);
      Ok(now.(tail := now.tail[1 := groups.value[0]][2 := groups.value[1]], tailIdx := 3), groups.rest)
    else Ok(now, s)
  }

  /** One group, which may be missing right after "::". */
  function AcceptGroup(s: string, p: Parts, useTail: bool, doubleColon: bool): (r: Parsed<Parts>)
    requires p.Shaped()
    ensures r.Ok? ==> r.value.Shaped() && |r.rest| <= |s| && (!doubleColon ==> |r.rest| < |s|)
  {
    var number := AcceptNumber(s, 4, 0x10000, true);
    if number.Ok? then
      if !useTail && p.headIdx < 8 then PutHead(p, number.value, number.rest)
      else if p.tailIdx < 6 then PutTail(p, number.value, number.rest)
      else Err
    else if doubleColon then Ok(p, s)
    else Err
  }

  /** The parts after one more group, and whether groups now go to the tail. */
  datatype Stepped = Stepped(parts: Parts, tail: bool)

  function AcceptOne(s: string, p: Parts, useTail: bool): (r: Parsed<Stepped>)
    requires p.Shaped()
    ensures r.Ok? ==> |r.rest| < |s| && r.value.parts.Shaped() && r.value.parts.headIdx + r.value.parts.tailIdx <= 8
  {
    var separator := AcceptSeparator(s, p, useTail);
    if separator == Err then Err
    else
      var tail := useTail || separator.value;
      var group := AcceptGroup(separator.rest, p, tail, separator.value);
      if group == Err || group.value.headIdx + group.value.tailIdx > 8 then Err
      else Ok(Stepped(group.value, tail), group.rest)
  }

  function AcceptPart(s: string, p: Parts, useTail: bool): (r: Parsed<Parts>)
    requires p.Shaped()
    ensures r.Ok? ==> r.value.Shaped() && r.value.headIdx + r.value.tailIdx <= 8
    decreases |s|
  {
    var one := AcceptOne(s, p, useTail);
    if one == Err then Err
    else if one.rest != "" && one.rest[0] == ':' then AcceptPart(one.rest, one.value.parts, one.value.tail)
    else if one.value.parts.headIdx < 8 && !one.value.tail then Err
    else Ok(one.value.parts, one.rest)
  }

  function NoParts(): (p: Parts)
    ensures p.Shaped()
  {
    Parts(Zeros(8), Zeros(6), 0, 0)
  }

  /** The tail is copied to the end of the address. */
  function Assemble(p: Parts): (r: seq<u16>)
    requires p.Shaped()
    ensures |r| == 8
  {
    p.head[..8 - p.tailIdx] + p.tail[..p.tailIdx]
  }

  /** A whole text, up to its end. */
  function Parse(s: string): (r: Option<seq<u16>>)
    ensures r.Some? ==> |r.value| == 8
  {
    var r := AcceptPart(s, NoParts(), false);
    if r == Err || r.rest != "" then None else Some(Assemble(r.value))
  }
}
