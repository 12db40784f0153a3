/**
  The parser in place: a position that moves forward and is put back when an attempt
  fails, and two arrays of groups filled by index. Every method does what its function
  on the remaining text says, on any input, and never reads or writes out of range.
 */
module Ipv6Parser {
  import opened Basics
  import opened Ipv6Text

  class Parser {
    const data: string
    var pos: nat

    constructor (text: string)
      ensures Valid() && Rest() == text
    {
      data, pos := text, 0;
    }

    ghost predicate Valid()
      reads this
    {
      pos <= |data|
    }

    ghost function Rest(): string
      reads this
      requires Valid()
    {
      data[pos..]
    }

    predicate LookaheadChar(c: char)
      reads this
    {
      pos < |data| && data[pos] == c
    }

    method Advance() returns (r: Option<char>)
      requires Valid()
      modifies this
      ensures Valid() && r == if old(Rest()) == "" then None else Some(old(Rest())[0])
      ensures r.Some? ==> Rest() == old(Rest())[1..]
      ensures r == None ==> pos == old(pos)
    {
      if pos == |data| {
        return None;
      }
      pos := pos + 1;
      return Some(data[pos - 1]);
    }

    method TakeChar(c: char) returns (ok: bool)
      requires Valid()
      modifies this
      ensures Valid() && ok == AcceptChar(old(Rest()), c).Ok?
      ensures ok ==> Rest() == AcceptChar(old(Rest()), c).rest
    {
      var next := Advance();
      return next == Some(c);
    }

    method TakeStr(prefix: string) returns (ok: bool)
      requires Valid()
      modifies this
      ensures Valid() && ok == AcceptStr(old(Rest()), prefix).Ok?
      ensures ok ==> Rest() == AcceptStr(old(Rest()), prefix).rest
    {
      var i := 0;
      ghost var start := Rest();
      while i < |prefix|
        invariant i <= |prefix| && Valid() && prefix[..i] <= start && Rest() == start[i..]
      {
        ok := TakeChar(prefix[i]);
        if !ok {
          assert |start| == i || start[i] != prefix[i];
          return;
        }
        assert prefix[..i + 1] == prefix[..i] + [prefix[i]] && start[i..][1..] == start[i + 1..];
        i := i + 1;
      }
      assert prefix[..i] == prefix;
      return true;
    }

    /** A digit, or the position put back. */
    method TryDigit(hex: bool) returns (r: Option<nat>)
      requires Valid()
      modifies this
      ensures Valid() && r.Some? == AcceptDigit(old(Rest()), hex).Ok?
      ensures r.Some? ==> r.value == AcceptDigit(old(Rest()), hex).value && Rest() == AcceptDigit(old(Rest()), hex).rest
      ensures r == None ==> pos == old(pos)
    {
      var start := pos;
      var next := Advance();
      if next == None {
        return None;
      }
      r := Digit(next.value, hex);
      if r == None {
        pos := start;
      }
    }

    method TakeNumber(maxDigits: nat, maxValue: nat, hex: bool) returns (r: Option<nat>)
      requires Valid() && maxDigits >= 1
      modifies this
      ensures Valid() && r.Some? == AcceptNumber(old(Rest()), maxDigits, maxValue, hex).Ok?
      ensures r.Some? ==> Ok(r.value, Rest()) == AcceptNumber(old(Rest()), maxDigits, maxValue, hex)
    {
      var first := TryDigit(hex);
      if first == None {
        return None;
      }
      var value: nat, i := first.value, 1;
      ghost var goal := MoreDigits(Rest(), value, maxDigits - 1, hex);
      while i < maxDigits
        invariant 1 <= i <= maxDigits && Valid()
        invariant MoreDigits(Rest(), value, maxDigits - i, hex) == goal
      {
        var digit := TryDigit(hex);
        if digit == None {
          break;
        }
        value := Shifted(value, digit.value, hex);
        i := i + 1;
      }
      assert goal == Ok(value, Rest());
      return if value < maxValue then Some(value) else None;
    }

    method TryNumber(maxDigits: nat, maxValue: nat, hex: bool) returns (r: Option<nat>)
      requires Valid() && maxDigits >= 1
      modifies this
      ensures Valid() && r.Some? == AcceptNumber(old(Rest()), maxDigits, maxValue, hex).Ok?
      ensures r.Some? ==> Ok(r.value, Rest()) == AcceptNumber(old(Rest()), maxDigits, maxValue, hex)
      ensures r == None ==> pos == old(pos)
    {
      var start := pos;
      r := TakeNumber(maxDigits, maxValue, hex);
      if r == None {
        pos := start;
      }
    }

    /** What four octets still need once `done` of them have been read. */
    ghost predicate OctetsLeft(goal: Parsed<seq<nat>>, octets: seq<nat>, rest: string) {
      |octets| <= 4 && goal == var more := AcceptOctets(rest, 4 - |octets|);
                               if more == Err then Err else Ok(octets + more.value, more.rest)
    }

    method TakeOctets() returns (r: Option<seq<nat>>)
      requires Valid()
      modifies this
      ensures Valid() && r.Some? == AcceptOctets(old(Rest()), 4).Ok?
      ensures r.Some? ==> Ok(r.value, Rest()) == AcceptOctets(old(Rest()), 4)
    {
      var octets: seq<nat> := [];
      ghost var goal := AcceptOctets(Rest(), 4);
      assert OctetsLeft(goal, octets, Rest()) by {
        if goal.Ok? { assert octets + goal.value == goal.value; }
      }
      while |octets| < 4
        invariant Valid() && OctetsLeft(goal, octets, Rest())
        decreases 4 - |octets|
      {
        ghost var before, was := Rest(), octets;
        var octet := TakeNumber(3, 0x100, false);
        if octet == None {
          return None;
        }
        octets := octets + [octet.value];
        if |octets| != 4 {
          var dot := TakeChar('.');
          if !dot {
            return None;
          }
        }
        OneOctet(goal, was, before, octet.value, Rest());
      }
      assert octets + [] == octets;
      return Some(octets);
    }

    lemma OneOctet(goal: Parsed<seq<nat>>, octets: seq<nat>, before: string, octet: nat, after: string)
      requires |octets| < 4 && OctetsLeft(goal, octets, before)
      requires AcceptNumber(before, 3, 0x100, false).Ok? && AcceptNumber(before, 3, 0x100, false).value == octet
      requires var rest := AcceptNumber(before, 3, 0x100, false).rest;
               if |octets| == 3 then after == rest else AcceptChar(rest, '.') == Ok((), after)
      ensures OctetsLeft(goal, octets + [octet], after)
    {
      if |octets| == 3 {
        assert AcceptOctets(after, 0) == Ok([], after);
        assert octets + [octet] + [] == octets + [octet];
      } else {
        var more := AcceptOctets(after, 3 - |octets|);
        if more.Ok? { assert octets + [octet] + more.value == octets + ([octet] + more.value); }
      }
    }

    /** The attempt after `::ffff`: ":" and four octets into two groups, or everything put back. */
    method TryMapped() returns (r: Option<seq<u16>>)
      requires Valid()
      modifies this
      ensures Valid() && r.Some? == MappedGroups(old(Rest())).Ok?
      ensures r.Some? ==> Ok(r.value, Rest()) == MappedGroups(old(Rest()))
      ensures r == None ==> pos == old(pos)
    {
      var start := pos;
      var colon := TakeChar(':');
      if colon {
        var octets := TakeOctets();
        if octets.Some? {
          return Some([Pair(octets.value[0], octets.value[1]), Pair(octets.value[2], octets.value[3])]);
        }
      }
      pos := start;
      return None;
    }

    /** A "::" that may stand here, or the colon a group needs in front of it. */
    method TakeSeparator(headIdx: nat, tailIdx: nat, useTail: bool, ghost p: Parts) returns (r: Option<bool>)
      requires Valid() && p.headIdx == headIdx && p.tailIdx == tailIdx
      modifies this
      ensures Valid() && r.Some? == AcceptSeparator(old(Rest()), p, useTail).Ok?
      ensures r.Some? ==> Ok(r.value, Rest()) == AcceptSeparator(old(Rest()), p, useTail)
    {
      var start := pos;
      var colons := TakeStr("::");
      if colons {
        return if !useTail && headIdx < 7 then Some(true) else None;
      }
      pos := start;
      if headIdx != 0 || (useTail && tailIdx != 0) {
        var colon := TakeChar(':');
        return if colon then Some(false) else None;
      }
      return Some(false);
    }

    method StoreHead(head: array<u16>, headIdx: nat, part: u16, ghost p: Parts) returns (idx: nat)
      requires Valid() && p.Shaped() && p.head == head[..] && p.headIdx == headIdx < 8
      modifies this, head
      ensures Valid() && Ok(p.(head := head[..], headIdx := idx), Rest()) == PutHead(p, part, old(Rest()))
    {
      head[headIdx] := part;
      idx := headIdx + 1;
      ghost var now := p.(head := p.head[headIdx := part], headIdx := idx);
      assert head[..] == now.head;
      if idx == 6 && IsMapped(head[..]) {
        var groups := TryMapped();
        if groups.Some? {
          head[idx], idx := groups.value[0], idx + 1;
          head[idx], idx := groups.value[1], idx + 1;
          assert head[..] == now.head[6 := groups.value[0]][7 := groups.value[1]];
        }
      }
    }

    method StoreTail(head: array<u16>, tail: array<u16>, tailIdx: nat, part: u16, ghost p: Parts) returns (idx: nat)
      requires Valid() && p.Shaped() && p.head == head[..] && p.tail == tail[..] && p.tailIdx == tailIdx < 6
      requires head != tail
      modifies this, tail
      ensures Valid() && Ok(p.(tail := tail[..], tailIdx := idx), Rest()) == PutTail(p, part, old(Rest()))
    {
      tail[tailIdx] := part;
      idx := tailIdx + 1;
      ghost var now := p.(tail := p.tail[tailIdx := part], tailIdx := idx);
      assert tail[..] == now.tail;
      if idx == 1 && tail[0] == 0xffff && head[..] == [0, 0, 0, 0, 0, 0, 0, 0] {
        assert head[..] == Zeros(8);
        var groups := TryMapped();
        if groups.Some? {
          tail[idx], idx := groups.value[0], idx + 1;
          tail[idx], idx := groups.value[1], idx + 1;
          assert tail[..] == now.tail[1 := groups.value[0]][2 := groups.value[1]];
        }
      }
    }

    /** One group into the head or the tail; none at all is fine right after "::". */
    method TakeGroup(head: array<u16>, tail: array<u16>, headIdx: nat, tailIdx: nat, useTail: bool, doubleColon: bool)
      returns (ok: bool, h: nat, t: nat)
      requires Valid() && head != tail && Parts(head[..], tail[..], headIdx, tailIdx).Shaped()
      modifies this, head, tail
      ensures Valid()
      ensures var parts := old(Parts(head[..], tail[..], headIdx, tailIdx));
              var spec := AcceptGroup(old(Rest()), parts, useTail, doubleColon);
              ok == spec.Ok? && (ok ==> spec == Ok(Parts(head[..], tail[..], h, t), Rest()))
    {
      ghost var p := Parts(head[..], tail[..], headIdx, tailIdx);
      h, t := headIdx, tailIdx;
      var number := TryNumber(4, 0x10000, true);
      if number == None {
        return doubleColon, h, t;
      }
      if !useTail && headIdx < 8 {
        h := StoreHead(head, headIdx, number.value, p);
      } else if tailIdx < 6 {
        t := StoreTail(head, tail, tailIdx, number.value, p);
      } else {
        return false, h, t;
      }
      return true, h, t;
    }

    /** A separator and a group; `inTail` is whether groups now go to the tail. */
    method TakeOne(head: array<u16>, tail: array<u16>, headIdx: nat, tailIdx: nat, useTail: bool)
      returns (ok: bool, h: nat, t: nat, inTail: bool)
      requires Valid() && head != tail && Parts(head[..], tail[..], headIdx, tailIdx).Shaped()
      modifies this, head, tail
      ensures Valid()
      ensures var spec := AcceptOne(old(Rest()), old(Parts(head[..], tail[..], headIdx, tailIdx)), useTail);
              ok == spec.Ok? && (ok ==> spec == Ok(Stepped(Parts(head[..], tail[..], h, t), inTail), Rest()))
    {
      h, t, inTail := headIdx, tailIdx, useTail;
      var doubleColon := TakeSeparator(headIdx, tailIdx, useTail, Parts(head[..], tail[..], headIdx, tailIdx));
      if doubleColon == None {
        return false, h, t, inTail;
      }
      inTail := useTail || doubleColon.value;
      ok, h, t := TakeGroup(head, tail, headIdx, tailIdx, inTail, doubleColon.value);
      ok := ok && h + t <= 8;
    }

    method TakePart(head: array<u16>, tail: array<u16>, headIdx: nat, tailIdx: nat, useTail: bool)
      returns (ok: bool, h: nat, t: nat)
      requires Valid() && head != tail && Parts(head[..], tail[..], headIdx, tailIdx).Shaped()
      modifies this, head, tail
      ensures Valid()
      ensures var spec := AcceptPart(old(Rest()), old(Parts(head[..], tail[..], headIdx, tailIdx)), useTail);
              ok == spec.Ok? && (ok ==> spec == Ok(Parts(head[..], tail[..], h, t), Rest()))
      decreases |data| - pos
    {
      var inTail;
      ok, h, t, inTail := TakeOne(head, tail, headIdx, tailIdx, useTail);
      if !ok {
        return;
      }
      if LookaheadChar(':') {
        ok, h, t := TakePart(head, tail, h, t, inTail);
        return;
      }
      return inTail || h == 8, h, t;
    }

    method TakeIpv6() returns (r: Option<seq<u16>>)
      requires Valid()
      modifies this
      ensures Valid()
      ensures var spec := AcceptPart(old(Rest()), NoParts(), false);
              r.Some? == spec.Ok? && (r.Some? ==> r.value == Assemble(spec.value) && Rest() == spec.rest)
    {
      var head := new u16[8](_ => 0);
      var tail := new u16[6](_ => 0);
      assert head[..] == Zeros(8) && tail[..] == Zeros(6);
      var ok, h, t := TakePart(head, tail, 0, 0, false);
      if !ok {
        return None;
      }
      forall i | 0 <= i < t { head[8 - t + i] := tail[i]; }
      return Some(head[..]);
    }
  }

  /** Parse a whole text as an IPv6 address. */
  method ParseIpv6(text: string) returns (r: Option<seq<u16>>)
    ensures r == Parse(text)
  {
    var parser := new Parser(text);
    r := parser.TakeIpv6();
    if parser.pos != |parser.data| {
      return None;
    }
  }
}
