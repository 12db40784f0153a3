/**
  What the parser makes of addresses that are spelled as it accepts them: eight
  groups, groups around one "::", and either of them with an IPv4 address in dotted
  decimal. Groups may be spelled with either case and with leading zeros.
 */
module Ipv6Reads {
  import opened Basics
  import opened ByteFile
  import opened Ipv6Text

  // ------------------------------------------------------------ numbers

  predicate AllDigits(w: string, hex: bool) { forall i :: 0 <= i < |w| ==> Digit(w[i], hex).Some? }

  /** The number a string of digits stands for. */
  function Number(w: string, hex: bool): nat
    requires AllDigits(w, hex)
  {
    if w == "" then 0 else Shifted(Number(w[..|w| - 1], hex), Digit(w[|w| - 1], hex).value, hex)
  }

  predicate Spells(w: string, n: nat, hex: bool, maxDigits: nat) {
    1 <= |w| <= maxDigits && AllDigits(w, hex) && Number(w, hex) == n
  }

  /** A number cannot go on in `r`. */
  predicate Stops(r: string, hex: bool) { r == "" || Digit(r[0], hex) == None }

  lemma {:induction false} DigitsRead(w: string, k: nat, r: string, left: nat, hex: bool)
    requires k <= |w| <= k + left && AllDigits(w, hex) && Stops(r, hex)
    ensures MoreDigits(w[k..] + r, Number(w[..k], hex), left, hex) == Ok(Number(w, hex), r)
    decreases |w| - k
  {
    if k == |w| {
      assert w[k..] + r == r && w[..k] == w;
    } else {
      var s := w[k..] + r;
      assert s[0] == w[k] && s[1..] == w[k + 1..] + r;
      assert w[..k + 1][..k] == w[..k];
      DigitsRead(w, k + 1, r, left - 1, hex);
    }
  }

  lemma {:induction false} NumberReads(w: string, n: nat, r: string, maxDigits: nat, maxValue: nat, hex: bool)
    requires Spells(w, n, hex, maxDigits) && n < maxValue && Stops(r, hex)
    ensures AcceptNumber(w + r, maxDigits, maxValue, hex) == Ok(n, r)
  {
    assert (w + r)[0] == w[0] && (w + r)[1..] == w[1..] + r;
    assert w[..1] == [w[0]] && w[..1][..0] == "";
    assert Number(w[..1], hex) == Digit(w[0], hex).value;
    DigitsRead(w, 1, r, maxDigits - 1, hex);
  }

  /** Reading digits keeps the rest of the text. */
  lemma {:induction false} DigitsLeave(s: string, value: nat, left: nat, hex: bool, c: char)
    requires c in MoreDigits(s, value, left, hex).rest
    ensures c in s
    decreases left
  {
    if left != 0 && AcceptDigit(s, hex).Ok? {
      DigitsLeave(s[1..], Shifted(value, Digit(s[0], hex).value, hex), left - 1, hex, c);
    }
  }

  /** Without a dot there are no octets. */
  lemma {:induction false} NoDotNoOctets(s: string)
    requires '.' !in s
    ensures MappedGroups(s) == Err
  {
    if s != "" && s[0] == ':' {
      var first := AcceptNumber(s[1..], 3, 0x100, false);
      if first.Ok? && first.rest != "" && first.rest[0] == '.' {
        DigitsLeave(s[1..][1..], Digit(s[1..][0], false).value, 2, false, '.');
      }
    }
  }

  // ------------------------------------------------------------ groups

  function HeadParts(hv: seq<u16>): (p: Parts)
    requires |hv| <= 8
    ensures p.Shaped()
  {
    Parts(hv + Zeros(8 - |hv|), Zeros(6), |hv|, 0)
  }

  function BothParts(hv: seq<u16>, tv: seq<u16>): (p: Parts)
    requires |hv| <= 8 && |tv| <= 6
    ensures p.Shaped()
  {
    Parts(hv + Zeros(8 - |hv|), tv + Zeros(6 - |tv|), |hv|, |tv|)
  }

  lemma NoTailYet(hv: seq<u16>)
    requires |hv| <= 8
    ensures HeadParts(hv) == BothParts(hv, [])
  {
    assert [] + Zeros(6) == Zeros(6);
  }

  lemma PlaceHead(hv: seq<u16>, n: u16)
    requires |hv| < 8
    ensures var p := HeadParts(hv);
            p.(head := p.head[|hv| := n], headIdx := |hv| + 1) == HeadParts(hv + [n])
  {
    assert HeadParts(hv).head[|hv| := n] == (hv + [n]) + Zeros(8 - |hv| - 1);
  }

  lemma PlaceTail(hv: seq<u16>, tv: seq<u16>, n: u16)
    requires |hv| <= 8 && |tv| < 6
    ensures var p := BothParts(hv, tv);
            p.(tail := p.tail[|tv| := n], tailIdx := |tv| + 1) == BothParts(hv, tv + [n])
  {
    assert BothParts(hv, tv).tail[|tv| := n] == (tv + [n]) + Zeros(6 - |tv| - 1);
  }

  function Sep(i: nat): string { if i == 0 then "" else ":" }

  /** A single colon, or none in front of the first group, separates a group. */
  lemma {:induction false} SeparatorReads(p: Parts, useTail: bool, w: string, n: nat, r: string)
    requires Spells(w, n, true, 4)
    ensures var first := p.headIdx == 0 && !(useTail && p.tailIdx != 0);
            AcceptSeparator((if first then "" else ":") + w + r, p, useTail) == Ok(false, w + r)
  {
    var first := p.headIdx == 0 && !(useTail && p.tailIdx != 0);
    var s := (if first then "" else ":") + w + r;
    assert Digit(w[0], true).Some?;
    if first {
      assert s == w + r;
      assert s[0] == w[0];
    } else {
      assert s[0] == ':' && s[1] == w[0] && s[1..] == w + r;
    }
  }

  lemma {:induction false} GroupReads(w: string, n: u16, r: string)
    requires Spells(w, n, true, 4) && (r == "" || r[0] == ':')
    ensures AcceptNumber(w + r, 4, 0x10000, true) == Ok(n, r)
  {
    NumberReads(w, n, r, 4, 0x10000, true);
  }

  /** What AcceptPart does once a group has been read. */
  function AfterGroup(p: Parts, r: string, tail: bool): Parsed<Parts>
    requires p.Shaped()
  {
    if p.headIdx + p.tailIdx > 8 then Err
    else if r != "" && r[0] == ':' then AcceptPart(r, p, tail)
    else if p.headIdx < 8 && !tail then Err
    else Ok(p, r)
  }

  lemma {:induction false} HeadStep(hv: seq<u16>, w: string, n: u16, r: string)
    requires |hv| < 8 && Spells(w, n, true, 4) && (r == "" || r[0] == ':') && ('.' !in r || |hv| < 5)
    ensures AcceptPart(Sep(|hv|) + w + r, HeadParts(hv), false) == AfterGroup(HeadParts(hv + [n]), r, false)
  {
    SeparatorReads(HeadParts(hv), false, w, n, r);
    GroupReads(w, n, r);
    if '.' !in r { NoDotNoOctets(r); }
    PlaceHead(hv, n);
    assert AcceptGroup(w + r, HeadParts(hv), false, false) == Ok(HeadParts(hv + [n]), r);
  }

  lemma {:induction false} TailGroup(hv: seq<u16>, tv: seq<u16>, w: string, n: u16, r: string, doubleColon: bool)
    requires |hv| <= 8 && |tv| < 6 && Spells(w, n, true, 4) && (r == "" || r[0] == ':') && '.' !in r
    ensures AcceptGroup(w + r, BothParts(hv, tv), true, doubleColon) == Ok(BothParts(hv, tv + [n]), r)
  {
    GroupReads(w, n, r);
    NoDotNoOctets(r);
    PlaceTail(hv, tv, n);
  }

  lemma {:induction false} TailStep(hv: seq<u16>, tv: seq<u16>, w: string, n: u16, r: string)
    requires |hv| <= 8 && 1 <= |tv| < 6 && Spells(w, n, true, 4) && (r == "" || r[0] == ':') && '.' !in r
    ensures AcceptPart(":" + w + r, BothParts(hv, tv), true) == AfterGroup(BothParts(hv, tv + [n]), r, true)
  {
    SeparatorReads(BothParts(hv, tv), true, w, n, r);
    TailGroup(hv, tv, w, n, r, false);
  }

  /** The colon that may follow "::". */
  function Stray(stray: bool): string { if stray then ":" else "" }

  /** After "::" and no group, a colon is read like any other unless nothing precedes the "::". */
  lemma {:induction false} StrayColon(hv: seq<u16>, w: string, n: u16, r: string)
    requires 1 <= |hv| < 7 && Spells(w, n, true, 4)
    ensures AcceptPart("::" + ":" + w + r, HeadParts(hv), false) == AcceptPart(":" + w + r, HeadParts(hv), true)
  {
    var s, t := "::" + ":" + w + r, ":" + w + r;
    assert "::" <= s && s[2..] == t;
    assert AcceptSeparator(s, HeadParts(hv), false) == Ok(true, t);
    assert t[0] == ':' && AcceptNumber(t, 4, 0x10000, true) == Err;
    assert AcceptGroup(t, HeadParts(hv), true, true) == Ok(HeadParts(hv), t);
  }

  /** The first group behind "::" goes to the tail. */
  lemma {:induction false} DoubleColonReads(hv: seq<u16>, stray: bool, w: string, n: u16, r: string)
    requires |hv| < 7 && Spells(w, n, true, 4) && (r == "" || r[0] == ':') && (stray ==> hv != [])
    ensures var put := PutTail(HeadParts(hv), n, r);
            AcceptPart("::" + Stray(stray) + w + r, HeadParts(hv), false) == AfterGroup(put.value, put.rest, true)
  {
    GroupReads(w, n, r);
    if stray {
      StrayColon(hv, w, n, r);
      SeparatorReads(HeadParts(hv), true, w, n, r);
      assert AcceptGroup(w + r, HeadParts(hv), true, false) == PutTail(HeadParts(hv), n, r);
    } else {
      var s := "::" + Stray(stray) + w + r;
      assert "::" <= s && s[2..] == w + r;
      assert AcceptSeparator(s, HeadParts(hv), false) == Ok(true, w + r);
      assert AcceptGroup(w + r, HeadParts(hv), true, true) == PutTail(HeadParts(hv), n, r);
    }
  }

  lemma {:induction false} DoubleColonAtEnd(hv: seq<u16>)
    requires |hv| < 7
    ensures AcceptPart("::", HeadParts(hv), false) == Ok(HeadParts(hv), "")
  {
    assert AcceptSeparator("::", HeadParts(hv), false) == Ok(true, "");
    assert AcceptGroup("", HeadParts(hv), true, true) == Ok(HeadParts(hv), "");
  }

  // ------------------------------------------------------------ words

  function Join(ws: seq<string>, separator: string): string {
    if ws == [] then "" else if |ws| == 1 then ws[0] else ws[0] + separator + Join(ws[1..], separator)
  }

  /** Words joined by single colons. */
  function Words(ws: seq<string>): string { Join(ws, ":") }

  predicate AllSpell(ws: seq<string>, vs: seq<u16>) {
    |ws| == |vs| && forall i :: 0 <= i < |ws| ==> Spells(ws[i], vs[i], true, 4)
  }

  lemma {:induction false} NoDotInWords(ws: seq<string>, vs: seq<u16>)
    requires AllSpell(ws, vs)
    ensures '.' !in Words(ws)
  {
    if ws != [] {
      forall i | 0 <= i < |ws[0]| ensures ws[0][i] != '.' {
        assert Digit(ws[0][i], true).Some?;
      }
      NoDotInWords(ws[1..], vs[1..]);
    }
  }

  /** What follows the first word. */
  function After(ws: seq<string>, r: string): string
    requires ws != []
  {
    if |ws| == 1 then r else ":" + Words(ws[1..]) + r
  }

  lemma FirstWord(ws: seq<string>, front: string, r: string)
    requires ws != []
    ensures front + Words(ws) + r == front + ws[0] + After(ws, r)
  {
    if |ws| > 1 {
      assert front + (ws[0] + ":" + Words(ws[1..])) + r == front + ws[0] + (":" + Words(ws[1..]) + r);
    }
  }

  lemma {:induction false} NoDotAfter(ws: seq<string>, vs: seq<u16>, r: string)
    requires ws != [] && AllSpell(ws, vs) && '.' !in r
    ensures '.' !in After(ws, r)
  {
    NoDotInWords(ws[1..], vs[1..]);
  }

  lemma {:induction false} HeadRunStep(hv: seq<u16>, ws: seq<string>, vs: seq<u16>, r: string)
    requires |ws| > 1 && AllSpell(ws, vs) && |hv| + |ws| <= 8 && (r == "" || r[0] == ':')
    requires '.' !in r || |hv| + |ws| <= 5
    ensures AcceptPart(Sep(|hv|) + Words(ws) + r, HeadParts(hv), false)
         == AcceptPart(":" + Words(ws[1..]) + r, HeadParts(hv + [vs[0]]), false)
  {
    FirstWord(ws, Sep(|hv|), r);
    if '.' !in r { NoDotAfter(ws, vs, r); }
    HeadStep(hv, ws[0], vs[0], After(ws, r));
  }

  /** The groups up to the "::", or all of them. */
  lemma {:induction false} HeadRun(hv: seq<u16>, ws: seq<string>, vs: seq<u16>, r: string)
    requires ws != [] && AllSpell(ws, vs) && |hv| + |ws| <= 8 && (r == "" || r[0] == ':')
    requires '.' !in r || |hv| + |ws| <= 5
    ensures AcceptPart(Sep(|hv|) + Words(ws) + r, HeadParts(hv), false) == AfterGroup(HeadParts(hv + vs), r, false)
    decreases |ws|
  {
    if |ws| == 1 {
      assert vs == [vs[0]] && Words(ws) == ws[0];
      HeadStep(hv, ws[0], vs[0], r);
    } else {
      var more := hv + [vs[0]];
      assert more + vs[1..] == hv + vs;
      HeadRun(more, ws[1..], vs[1..], r);
      assert Sep(|more|) == ":";
      HeadRunStep(hv, ws, vs, r);
    }
  }

  lemma {:induction false} HeadRunAll(ws: seq<string>, vs: seq<u16>, r: string)
    requires ws != [] && AllSpell(ws, vs) && |ws| <= 8 && (r == "" || r[0] == ':') && ('.' !in r || |ws| <= 5)
    ensures AcceptPart(Words(ws) + r, HeadParts([]), false) == AfterGroup(HeadParts(vs), r, false)
  {
    assert Sep(0) + Words(ws) == Words(ws) && [] + vs == vs;
    HeadRun([], ws, vs, r);
  }

  lemma {:induction false} TailRunStep(hv: seq<u16>, tv: seq<u16>, ws: seq<string>, vs: seq<u16>)
    requires |ws| > 1 && AllSpell(ws, vs) && 1 <= |tv| < 6 && |hv| + |tv| + |ws| <= 8
    ensures AcceptPart(":" + Words(ws), BothParts(hv, tv), true)
         == AcceptPart(":" + Words(ws[1..]), BothParts(hv, tv + [vs[0]]), true)
  {
    FirstWord(ws, ":", "");
    assert ":" + Words(ws) + "" == ":" + Words(ws);
    assert After(ws, "") == ":" + Words(ws[1..]);
    NoDotAfter(ws, vs, "");
    TailStep(hv, tv, ws[0], vs[0], After(ws, ""));
  }

  /** The groups after the first one behind "::". */
  lemma {:induction false} TailRun(hv: seq<u16>, tv: seq<u16>, ws: seq<string>, vs: seq<u16>)
    requires ws != [] && AllSpell(ws, vs) && 1 <= |tv| && |tv| + |ws| <= 6 && |hv| + |tv| + |ws| <= 8
    ensures AcceptPart(":" + Words(ws), BothParts(hv, tv), true) == Ok(BothParts(hv, tv + vs), "")
    decreases |ws|
  {
    if |ws| == 1 {
      assert vs == [vs[0]] && ":" + Words(ws) == ":" + ws[0] + "";
      TailStep(hv, tv, ws[0], vs[0], "");
    } else {
      var more := tv + [vs[0]];
      assert more + vs[1..] == tv + vs;
      TailRun(hv, more, ws[1..], vs[1..]);
      TailRunStep(hv, tv, ws, vs);
    }
  }

  /** Words that go on after a group. */
  function Further(ws: seq<string>): string { if ws == [] then "" else ":" + Words(ws) }

  lemma {:induction false} TailEnds(hv: seq<u16>, tv: seq<u16>, ws: seq<string>, vs: seq<u16>)
    requires AllSpell(ws, vs) && 1 <= |tv| && |tv| + |ws| <= 6 && |hv| + |tv| + |ws| <= 8
    ensures AfterGroup(BothParts(hv, tv), Further(ws), true) == Ok(BothParts(hv, tv + vs), "")
  {
    if ws == [] {
      assert tv + vs == tv;
    } else {
      TailRun(hv, tv, ws, vs);
    }
  }

  // ------------------------------------------------------------ the full form

  lemma {:induction false} NothingParsed()
    ensures NoParts() == HeadParts([])
  {
    assert [] + Zeros(8) == Zeros(8);
  }

  lemma {:induction false} ParsesTo(s: string, p: Parts)
    requires p.Shaped() && AcceptPart(s, HeadParts([]), false) == Ok(p, "")
    ensures Parse(s) == Some(Assemble(p))
  {
    NothingParsed();
  }

  lemma {:induction false} FullParses(ws: seq<string>, vs: seq<u16>)
    requires AllSpell(ws, vs) && |ws| == 8
    ensures Parse(Words(ws)) == Some(vs)
  {
    assert Words(ws) + "" == Words(ws);
    HeadRunAll(ws, vs, "");
    ParsesTo(Words(ws), HeadParts(vs));
    assert Assemble(HeadParts(vs)) == vs;
  }

  // ------------------------------------------------------------ one "::"

  lemma {:induction false} DoubleColonRun(hv: seq<u16>, stray: bool, ts: seq<string>, tv: seq<u16>)
    requires AllSpell(ts, tv) && |hv| <= 6 && |ts| <= 6 && |hv| + |ts| <= 8 && (stray ==> hv != [] && ts != [])
    ensures AcceptPart("::" + Stray(stray) + Words(ts), HeadParts(hv), false) == Ok(BothParts(hv, tv), "")
  {
    if ts == [] {
      assert "::" + Stray(stray) + Words(ts) == "::";
      DoubleColonAtEnd(hv);
      NoTailYet(hv);
      assert tv == [];
    } else {
      FirstWord(ts, "::" + Stray(stray), "");
      assert "::" + Stray(stray) + Words(ts) + "" == "::" + Stray(stray) + Words(ts);
      assert After(ts, "") == Further(ts[1..]);
      assert [tv[0]] + tv[1..] == tv;
      NoDotAfter(ts, tv, "");
      FirstInTail(hv, tv[0], After(ts, ""));
      DoubleColonReads(hv, stray, ts[0], tv[0], After(ts, ""));
      TailEnds(hv, [tv[0]], ts[1..], tv[1..]);
    }
  }

  lemma {:induction false} FirstInTail(hv: seq<u16>, n: u16, r: string)
    requires |hv| <= 8 && '.' !in r
    ensures PutTail(HeadParts(hv), n, r) == Ok(BothParts(hv, [n]), r)
  {
    NoDotNoOctets(r);
    NoTailYet(hv);
    PlaceTail(hv, [], n);
    assert [] + [n] == [n];
  }

  lemma {:induction false} HeadThen(hs: seq<string>, hv: seq<u16>, r: string)
    requires AllSpell(hs, hv) && |hs| <= 8 && r != "" && r[0] == ':' && ('.' !in r || |hs| <= 5)
    requires hs == [] ==> "::" <= r
    ensures AcceptPart(Words(hs) + r, HeadParts([]), false) == AcceptPart(r, HeadParts(hv), false)
  {
    if hs == [] {
      assert Words(hs) + r == r && hv == [];
    } else {
      HeadRunAll(hs, hv, r);
    }
  }

  lemma AssembleBoth(hv: seq<u16>, tv: seq<u16>)
    requires |tv| <= 6 && |hv| + |tv| <= 8
    ensures Assemble(BothParts(hv, tv)) == hv + Zeros(8 - |hv| - |tv|) + tv
  {
  }

  lemma {:induction false} CompressedParses(hs: seq<string>, hv: seq<u16>, stray: bool, ts: seq<string>, tv: seq<u16>)
    requires AllSpell(hs, hv) && AllSpell(ts, tv) && |hs| <= 6 && |ts| <= 6 && |hs| + |ts| <= 8
    requires stray ==> hs != [] && ts != []
    ensures Parse(Words(hs) + ("::" + Stray(stray) + Words(ts))) == Some(hv + Zeros(8 - |hs| - |ts|) + tv)
  {
    var r := "::" + Stray(stray) + Words(ts);
    NoDotInWords(ts, tv);
    HeadThen(hs, hv, r);
    DoubleColonRun(hv, stray, ts, tv);
    ParsesTo(Words(hs) + r, BothParts(hv, tv));
    AssembleBoth(hv, tv);
  }

  // ------------------------------------------------------------ IPv4-mapped addresses

  function Dotted(os: seq<string>): string { Join(os, ".") }

  predicate OctetsSpell(os: seq<string>, vs: seq<byte>) {
    |os| == |vs| && forall i :: 0 <= i < |os| ==> Spells(os[i], vs[i], false, 3)
  }

  /** One octet and a dot in front of octets that can be read. */
  lemma {:induction false} OctetThenDot(w: string, v: byte, t: string, vs: seq<nat>, r: string)
    requires Spells(w, v, false, 3) && vs != [] && AcceptOctets(t, |vs|) == Ok(vs, r)
    ensures AcceptOctets(w + ("." + t), |vs| + 1) == Ok([v] + vs, r)
  {
    var next := "." + t;
    assert next[0] == '.' && next[1..] == t;
    NumberReads(w, v, next, 3, 0x100, false);
  }

  lemma DottedFront(os: seq<string>, r: string)
    requires |os| > 1
    ensures Dotted(os) + r == os[0] + ("." + (Dotted(os[1..]) + r))
  {
    assert Dotted(os) == os[0] + "." + Dotted(os[1..]);
  }

  lemma {:induction false} OctetsRead(os: seq<string>, vs: seq<byte>, r: string)
    requires OctetsSpell(os, vs) && os != [] && Stops(r, false)
    ensures AcceptOctets(Dotted(os) + r, |os|) == Ok(vs, r)
  {
    if |os| == 1 {
      NumberReads(os[0], vs[0], r, 3, 0x100, false);
      assert vs == [vs[0]];
    } else {
      DottedFront(os, r);
      assert vs == [vs[0]] + vs[1..];
      OctetsRead(os[1..], vs[1..], r);
      OctetThenDot(os[0], vs[0], Dotted(os[1..]) + r, vs[1..], r);
    }
  }

  function MappedTail(vs: seq<byte>): seq<u16>
    requires |vs| == 4
  {
    [0xffff, Pair(vs[0], vs[1]), Pair(vs[2], vs[3])]
  }

  lemma {:induction false} MappedReads(os: seq<string>, vs: seq<byte>, r: string)
    requires |os| == 4 && OctetsSpell(os, vs) && Stops(r, false)
    ensures MappedGroups(":" + Dotted(os) + r) == Ok([MappedTail(vs)[1], MappedTail(vs)[2]], r)
  {
    assert (":" + Dotted(os) + r)[1..] == Dotted(os) + r;
    OctetsRead(os, vs, r);
  }

  lemma MappedTailParts(a: u16, b: u16)
    ensures Zeros(6)[0 := 0xffff][1 := a][2 := b] == [0xffff, a, b] + Zeros(3)
  {
  }

  lemma {:induction false} PutTailMapped(h: nat, r: string, a: u16, b: u16, rest: string)
    requires h <= 5 && MappedGroups(r) == Ok([a, b], rest)
    ensures PutTail(HeadParts(Zeros(h)), 0xffff, r) == Ok(BothParts(Zeros(h), [0xffff, a, b]), rest)
  {
    var p := HeadParts(Zeros(h));
    assert p.head == Zeros(8);
    MappedTailParts(a, b);
    assert PutTail(p, 0xffff, r).value.tail == Zeros(6)[0 := 0xffff][1 := a][2 := b];
  }

  lemma MappedPrefix(a: u16, b: u16)
    ensures IsMapped(Zeros(8)[5 := 0xffff])
    ensures Zeros(8)[5 := 0xffff][6 := a][7 := b] == HeadParts(Zeros(5) + [0xffff, a, b]).head
  {
  }

  lemma {:induction false} PutHeadMapped(r: string, a: u16, b: u16, rest: string)
    requires MappedGroups(r) == Ok([a, b], rest)
    ensures PutHead(HeadParts(Zeros(5)), 0xffff, r) == Ok(HeadParts(Zeros(5) + [0xffff, a, b]), rest)
  {
    var p := HeadParts(Zeros(5));
    assert p.head == Zeros(8);
    MappedPrefix(a, b);
    assert PutHead(p, 0xffff, r).value.head == Zeros(8)[5 := 0xffff][6 := a][7 := b];
  }

  lemma {:induction false} MappedAfterDoubleColon(h: nat, stray: bool, f: string, os: seq<string>, vs: seq<byte>,
                                                  ts: seq<string>, tv: seq<u16>)
    requires Spells(f, 0xffff, true, 4) && |os| == 4 && OctetsSpell(os, vs) && (stray ==> h != 0)
    requires AllSpell(ts, tv) && |ts| <= 3 && h + |ts| <= 5
    ensures AcceptPart("::" + Stray(stray) + f + (":" + Dotted(os) + Further(ts)), HeadParts(Zeros(h)), false)
         == Ok(BothParts(Zeros(h), MappedTail(vs) + tv), "")
  {
    var r := ":" + Dotted(os) + Further(ts);
    MappedReads(os, vs, Further(ts));
    PutTailMapped(h, r, MappedTail(vs)[1], MappedTail(vs)[2], Further(ts));
    DoubleColonReads(Zeros(h), stray, f, 0xffff, r);
    TailEnds(Zeros(h), MappedTail(vs), ts, tv);
  }

  /**
    "::ffff:a.b.c.d", also with some of the leading zero groups written out, and with
    more groups behind the IPv4 address.
   */
  lemma {:induction false} MappedParses(hs: seq<string>, stray: bool, f: string, os: seq<string>, vs: seq<byte>,
                                        ts: seq<string>, tv: seq<u16>)
    requires AllSpell(hs, Zeros(|hs|)) && Spells(f, 0xffff, true, 4) && |os| == 4 && OctetsSpell(os, vs)
    requires AllSpell(ts, tv) && |ts| <= 3 && |hs| + |ts| <= 5 && (stray ==> hs != [])
    ensures Parse(Words(hs) + ("::" + Stray(stray) + f + (":" + Dotted(os) + Further(ts))))
         == Some(Zeros(5 - |ts|) + MappedTail(vs) + tv)
  {
    var h := |hs|;
    var r, p := "::" + Stray(stray) + f + (":" + Dotted(os) + Further(ts)), BothParts(Zeros(h), MappedTail(vs) + tv);
    assert Assemble(p) == Zeros(5 - |ts|) + MappedTail(vs) + tv by {
      AssembleBoth(Zeros(h), MappedTail(vs) + tv);
      assert Zeros(h) + Zeros(8 - h - (3 + |tv|)) == Zeros(5 - |ts|);
    }
    HeadThen(hs, Zeros(h), r);
    MappedAfterDoubleColon(h, stray, f, os, vs, ts, tv);
    ParsesTo(Words(hs) + r, p);
  }

  lemma {:induction false} MappedInHead(f: string, os: seq<string>, vs: seq<byte>)
    requires Spells(f, 0xffff, true, 4) && |os| == 4 && OctetsSpell(os, vs)
    ensures AcceptPart(":" + f + (":" + Dotted(os)), HeadParts(Zeros(5)), false)
         == Ok(HeadParts(Zeros(5) + MappedTail(vs)), "")
  {
    var r, p := ":" + Dotted(os), HeadParts(Zeros(5));
    SeparatorReads(p, false, f, 0xffff, r);
    GroupReads(f, 0xffff, r);
    assert r + "" == r;
    MappedReads(os, vs, "");
    PutHeadMapped(r, MappedTail(vs)[1], MappedTail(vs)[2], "");
    assert AcceptGroup(f + r, p, false, false) == Ok(HeadParts(Zeros(5) + MappedTail(vs)), "");
  }

  /** "0:0:0:0:0:ffff:a.b.c.d". */
  lemma {:induction false} FullMappedParses(hs: seq<string>, f: string, os: seq<string>, vs: seq<byte>)
    requires |hs| == 5 && AllSpell(hs, Zeros(5)) && Spells(f, 0xffff, true, 4) && |os| == 4 && OctetsSpell(os, vs)
    ensures Parse(Words(hs) + (":" + f + (":" + Dotted(os)))) == Some(Zeros(5) + MappedTail(vs))
  {
    var r, p := ":" + f + (":" + Dotted(os)), HeadParts(Zeros(5) + MappedTail(vs));
    assert Assemble(p) == Zeros(5) + MappedTail(vs);
    HeadThen(hs, Zeros(5), r);
    MappedInHead(f, os, vs);
    ParsesTo(Words(hs) + r, p);
  }
}
