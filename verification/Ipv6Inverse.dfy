/**
  What a text must have looked like for the parser to accept it: each lemma gives back
  the words, octets and separators that were read.
 */
module Ipv6Inverse {
  import opened Basics
  import opened ByteFile
  import opened Ipv6Text
  import opened Ipv6Reads
  import opened Ipv6Forms

  // ------------------------------------------------------------ numbers

  lemma NumberGrows(w: string, c: char, hex: bool)
    requires AllDigits(w, hex) && Digit(c, hex).Some?
    ensures AllDigits(w + [c], hex) && Number(w + [c], hex) == Shifted(Number(w, hex), Digit(c, hex).value, hex)
  {
    assert (w + [c])[..|w|] == w;
  }

  /** The digits that `MoreDigits` reads. */
  lemma {:induction false} DigitsTaken(w: string, s: string, left: nat, hex: bool) returns (d: string)
    requires AllDigits(w, hex)
    ensures |d| <= left && AllDigits(w + d, hex)
    ensures var r := MoreDigits(s, Number(w, hex), left, hex); s == d + r.rest && r.value == Number(w + d, hex)
    decreases left
  {
    if left == 0 || AcceptDigit(s, hex) == Err {
      d := "";
      assert w + d == w && d + s == s;
    } else {
      NumberGrows(w, s[0], hex);
      var more := DigitsTaken(w + [s[0]], s[1..], left - 1, hex);
      d := [s[0]] + more;
      assert w + d == w + [s[0]] + more;
      assert s == [s[0]] + s[1..];
    }
  }

  lemma FirstDigit(c: char, hex: bool)
    requires Digit(c, hex).Some?
    ensures AllDigits([c], hex) && Number([c], hex) == Digit(c, hex).value
  {
    assert [c][..0] == "";
  }

  lemma {:induction false} NumberTaken(s: string, maxDigits: nat, maxValue: nat, hex: bool) returns (w: string)
    requires maxDigits >= 1 && AcceptNumber(s, maxDigits, maxValue, hex).Ok?
    ensures var r := AcceptNumber(s, maxDigits, maxValue, hex);
            s == w + r.rest && Spells(w, r.value, hex, maxDigits)
  {
    var c, t := s[0], s[1..];
    assert s == [c] + t;
    FirstDigit(c, hex);
    var d := DigitsTaken([c], t, maxDigits - 1, hex);
    w := [c] + d;
    var r := MoreDigits(t, Number([c], hex), maxDigits - 1, hex);
    assert [c] + (d + r.rest) == w + r.rest;
  }

  lemma {:induction false} OctetsCons(w: string, v: byte, os: seq<string>, vs: seq<byte>, t: string, r: string)
    requires Spells(w, v, false, 3) && OctetsSpell(os, vs) && os != [] && t == Dotted(os) + r
    ensures OctetsSpell([w] + os, [v] + vs) && w + ("." + t) == Dotted([w] + os) + r
  {
    assert ([w] + os)[1..] == os;
    assert Dotted([w] + os) == w + "." + Dotted(os);
  }

  /** The octets that `AcceptOctets` reads. */
  lemma {:induction false} OctetsTaken(s: string, n: nat) returns (os: seq<string>)
    requires n >= 1 && AcceptOctets(s, n).Ok?
    ensures var r := AcceptOctets(s, n); OctetsSpell(os, r.value) && s == Dotted(os) + r.rest
    decreases n
  {
    var first := AcceptNumber(s, 3, 0x100, false);
    var w := NumberTaken(s, 3, 0x100, false);
    if n == 1 {
      os := [w];
    } else {
      var t := first.rest[1..];
      assert first.rest == "." + t;
      var others := OctetsTaken(t, n - 1);
      var r := AcceptOctets(t, n - 1);
      OctetsCons(w, first.value, others, r.value, t, r.rest);
      os := [w] + others;
    }
  }

  lemma ColonFront(os: seq<string>, r: string)
    ensures ":" + Dotted(os) + r == ":" + (Dotted(os) + r)
  {
  }

  lemma {:induction false} MappedTaken(s: string) returns (os: seq<string>, vs: seq<byte>)
    requires MappedGroups(s).Ok?
    ensures |os| == 4 && OctetsSpell(os, vs)
    ensures var r := MappedGroups(s);
            s == ":" + Dotted(os) + r.rest && r.value == [MappedTail(vs)[1], MappedTail(vs)[2]]
  {
    var t := s[1..];
    assert s == ":" + t;
    os := OctetsTaken(t, 4);
    vs := AcceptOctets(t, 4).value;
    ColonFront(os, MappedGroups(s).rest);
  }

  // ------------------------------------------------------------ groups behind "::"

  /** The whole rest of the input is read. */
  predicate Finishes(r: Parsed<Parts>) { r.Ok? && r.rest == "" }

  /** What precedes a group that is not the first, unless it is "::". */
  lemma {:induction false} ColonTaken(s: string, p: Parts, useTail: bool)
    requires p.headIdx != 0 || (useTail && p.tailIdx != 0)
    requires AcceptSeparator(s, p, useTail).Ok? && !AcceptSeparator(s, p, useTail).value
    ensures s == ":" + AcceptSeparator(s, p, useTail).rest
  {
    assert s == [s[0]] + s[1..];
  }

  lemma {:induction false} TailStepTaken(hv: seq<u16>, tv: seq<u16>, s: string) returns (w: string, n: u16, r: string)
    requires |hv| <= 8 && 1 <= |tv| <= 6 && AcceptPart(s, BothParts(hv, tv), true).Ok?
    ensures |tv| < 6 && Spells(w, n, true, 4) && s == ":" + w + r
    ensures AcceptPart(s, BothParts(hv, tv), true) == AfterGroup(BothParts(hv, tv + [n]), r, true)
  {
    var p := BothParts(hv, tv);
    ColonTaken(s, p, true);
    var t := AcceptSeparator(s, p, true).rest;
    w := NumberTaken(t, 4, 0x10000, true);
    n, r := AcceptNumber(t, 4, 0x10000, true).value, AcceptNumber(t, 4, 0x10000, true).rest;
    PlaceTail(hv, tv, n);
    assert AcceptGroup(t, p, true, false) == Ok(BothParts(hv, tv + [n]), r);
  }

  /** The further groups. */
  lemma {:induction false} TailTaken(hv: seq<u16>, tv: seq<u16>, s: string) returns (ts: seq<string>, vs: seq<u16>)
    requires |hv| <= 8 && 1 <= |tv| <= 6 && Finishes(AfterGroup(BothParts(hv, tv), s, true))
    ensures AllSpell(ts, vs) && s == Further(ts) && |tv| + |ts| <= 6 && |hv| + |tv| + |ts| <= 8
    decreases |s|
  {
    if s == "" {
      ts, vs := [], [];
    } else {
      var w, n, r := TailStepTaken(hv, tv, s);
      var others, ns := TailTaken(hv, tv + [n], r);
      ts, vs := [w] + others, [n] + ns;
      AllSpellCons(w, n, others, ns);
      FurtherCons(w, others);
    }
  }

  lemma FurtherCons(w: string, ws: seq<string>)
    ensures ":" + w + Further(ws) == Further([w] + ws)
  {
    FrontWord(w, ws);
  }

  lemma WordsFurther(ws: seq<string>)
    requires ws != []
    ensures Words(ws) == ws[0] + Further(ws[1..])
  {
    if |ws| == 1 { assert ws[0] + "" == ws[0]; } else { assert ws[0] + (":" + Words(ws[1..])) == Words(ws); }
  }

  /** What the parser reads behind the first group after "::". */
  datatype Behind = Groups(ts: seq<string>, tv: seq<u16>)
                  | Mapped(os: seq<string>, vs: seq<byte>, ts: seq<string>, tv: seq<u16>)

  /** The text behind the group `n`, in an address whose groups before "::" are `hv`. */
  predicate Reads(b: Behind, hv: seq<u16>, n: u16, r: string) {
    match b
    case Groups(ts, tv) => AllSpell(ts, tv) && r == Further(ts) && |ts| <= 5 && |hv| + |ts| <= 7
    case Mapped(os, vs, ts, tv) =>
      && |os| == 4 && OctetsSpell(os, vs) && AllSpell(ts, tv) && r == ":" + Dotted(os) + Further(ts)
      && n == 0xffff && hv == Zeros(|hv|) && |ts| <= 3 && |hv| + |ts| <= 5
  }

  lemma HeadIsZero(hv: seq<u16>)
    requires |hv| <= 8 && HeadParts(hv).head == Zeros(8)
    ensures hv == Zeros(|hv|)
  {
    forall i | 0 <= i < |hv| ensures hv[i] == 0 {
      assert HeadParts(hv).head[i] == hv[i];
    }
  }

  lemma {:induction false} FirstTailTaken(hv: seq<u16>, n: u16, r: string) returns (b: Behind)
    requires |hv| <= 6
    requires var put := PutTail(HeadParts(hv), n, r); Finishes(AfterGroup(put.value, put.rest, true))
    ensures Reads(b, hv, n, r)
  {
    if n == 0xffff && HeadParts(hv).head == Zeros(8) && MappedGroups(r).Ok? {
      HeadIsZero(hv);
      var os, vs := MappedTaken(r);
      var rest := MappedGroups(r).rest;
      PutTailMapped(|hv|, r, MappedTail(vs)[1], MappedTail(vs)[2], rest);
      var ts, tv := TailTaken(hv, MappedTail(vs), rest);
      b := Mapped(os, vs, ts, tv);
    } else {
      NoTailYet(hv);
      PlaceTail(hv, [], n);
      assert [] + [n] == [n];
      var ts, tv := TailTaken(hv, [n], r);
      b := Groups(ts, tv);
    }
  }

  // ------------------------------------------------------------ whole forms

  function GapOf(stray: bool): Gap { if stray then ThreeColons else TwoColons }

  lemma GapTexts(stray: bool)
    ensures GapText(GapOf(stray)) == "::" + Stray(stray)
  {
  }

  lemma {:induction false} QuadSpelled(os: seq<string>, vs: seq<byte>)
    requires |os| == 4 && OctetsSpell(os, vs)
    ensures Quad(os).Spelled() && Quad(os).Groups() == [MappedTail(vs)[1], MappedTail(vs)[2]]
  {
    forall i | 0 <= i < 4 ensures IsOctet(os[i]) {
      assert Spells(os[i], vs[i], false, 3);
    }
  }

  lemma {:induction false} GroupsForm(hs: seq<string>, hv: seq<u16>, stray: bool, ts: seq<string>, tv: seq<u16>)
    returns (f: Form)
    requires AllSpell(hs, hv) && AllSpell(ts, tv) && |hs| <= 6 && |ts| <= 6 && |hs| + |ts| <= 8
    requires stray ==> hs != [] && ts != []
    ensures f.Spelled() && Good(f) && f.Text() == Words(hs) + ("::" + Stray(stray) + Words(ts))
  {
    f := Form(Items(hs), GapOf(stray), Items(ts));
    GroupsOfItems(hs, hv);
    GroupsOfItems(ts, tv);
    TextsOfItems(hs);
    TextsOfItems(ts);
    GapTexts(stray);
  }

  lemma FrontWord(w: string, ws: seq<string>)
    ensures Words([w] + ws) == w + Further(ws)
  {
    WordsFurther([w] + ws);
    assert ([w] + ws)[1..] == ws;
  }

  lemma TextsOfMapped(w: string, os: seq<string>, ts: seq<string>)
    ensures Texts([Word(w), Quad(os)] + Items(ts)) == [w] + ([Dotted(os)] + ts)
  {
    var items := [Word(w), Quad(os)] + Items(ts);
    forall i | 0 <= i < |items| ensures items[i].Text() == ([w] + ([Dotted(os)] + ts))[i] {
    }
  }

  lemma TwoFront(w: string, q: string, r: string)
    ensures w + (":" + (q + r)) == w + (":" + q + r)
  {
    assert ":" + (q + r) == ":" + q + r;
  }

  lemma {:induction false} MappedTexts(w: string, os: seq<string>, ts: seq<string>)
    ensures Words(Texts([Word(w), Quad(os)] + Items(ts))) == w + (":" + Dotted(os) + Further(ts))
  {
    TextsOfMapped(w, os, ts);
    FrontWord(w, [Dotted(os)] + ts);
    FrontWord(Dotted(os), ts);
    TwoFront(w, Dotted(os), Further(ts));
  }

  lemma {:induction false} MappedAroundForm(hs: seq<string>, stray: bool, w: string, os: seq<string>, vs: seq<byte>,
                                            ts: seq<string>, tv: seq<u16>) returns (f: Form)
    requires AllSpell(hs, Zeros(|hs|)) && Spells(w, 0xffff, true, 4) && |os| == 4 && OctetsSpell(os, vs)
    requires AllSpell(ts, tv) && |ts| <= 3 && |hs| + |ts| <= 5 && (stray ==> hs != [])
    ensures f.Spelled() && Good(f)
    ensures f.Text() == Words(hs) + ("::" + Stray(stray) + (w + (":" + Dotted(os) + Further(ts))))
  {
    f := Form(Items(hs), GapOf(stray), [Word(w), Quad(os)] + Items(ts));
    GroupsOfItems(hs, Zeros(|hs|));
    GroupsOfItems(ts, tv);
    TextsOfItems(hs);
    QuadSpelled(os, vs);
    assert f.tail[2..] == Items(ts);
    assert MappedAround(f.head, f.tail);
    MappedTexts(w, os, ts);
    GapTexts(stray);
  }

  lemma {:induction false} BehindForm(hs: seq<string>, hv: seq<u16>, stray: bool, w: string, n: u16, r: string,
                                      b: Behind) returns (f: Form)
    requires AllSpell(hs, hv) && |hs| <= 6 && Spells(w, n, true, 4) && Reads(b, hv, n, r) && (stray ==> hs != [])
    ensures f.Spelled() && Good(f) && f.Text() == Words(hs) + ("::" + Stray(stray) + (w + r))
  {
    match b
    case Groups(ts, tv) =>
      f := GroupsForm(hs, hv, stray, [w] + ts, [n] + tv);
      FrontWord(w, ts);
    case Mapped(os, vs, ts, tv) =>
      f := MappedAroundForm(hs, stray, w, os, vs, ts, tv);
  }

  /** After "::" and a stray colon. */
  lemma {:induction false} StrayTaken(hv: seq<u16>, t: string) returns (w: string, n: u16, r: string)
    requires |hv| <= 6 && AcceptPart(t, HeadParts(hv), true).Ok? && t != "" && t[0] == ':'
    ensures hv != [] && Spells(w, n, true, 4) && t == ":" + (w + r)
    ensures var put := PutTail(HeadParts(hv), n, r);
            AcceptPart(t, HeadParts(hv), true) == AfterGroup(put.value, put.rest, true)
  {
    var p := HeadParts(hv);
    assert AcceptSeparator(t, p, true).Ok? && !AcceptSeparator(t, p, true).value;
    ColonTaken(t, p, true);
    var u := AcceptSeparator(t, p, true).rest;
    w := NumberTaken(u, 4, 0x10000, true);
    n, r := AcceptNumber(u, 4, 0x10000, true).value, AcceptNumber(u, 4, 0x10000, true).rest;
    assert AcceptGroup(u, p, true, false) == PutTail(p, n, r);
  }

  /** What is done behind "::", which is followed by a group or by nothing. */
  function AfterDoubleColon(hv: seq<u16>, t: string): Parsed<Parts>
    requires |hv| <= 8
  {
    var number := AcceptNumber(t, 4, 0x10000, true);
    if number == Err then AfterGroup(HeadParts(hv), t, true)
    else
      var put := PutTail(HeadParts(hv), number.value, number.rest);
      AfterGroup(put.value, put.rest, true)
  }

  lemma {:induction false} DoubleColonStep(hv: seq<u16>, t: string)
    requires |hv| <= 8 && AcceptPart("::" + t, HeadParts(hv), false).Ok?
    ensures |hv| < 7 && AcceptPart("::" + t, HeadParts(hv), false) == AfterDoubleColon(hv, t)
  {
    var p, s := HeadParts(hv), "::" + t;
    assert "::" <= s && s[2..] == t;
    assert AcceptSeparator(s, p, false) == Ok(true, t);
  }

  lemma NoStray(t: string)
    ensures "::" + Stray(false) + t == "::" + t
  {
  }

  lemma OneStray(t: string, r: string)
    requires t == ":" + r
    ensures "::" + Stray(true) + r == "::" + t
  {
  }

  lemma {:induction false} GroupBehind(hs: seq<string>, hv: seq<u16>, t: string) returns (f: Form)
    requires AllSpell(hs, hv) && |hs| <= 6 && AcceptNumber(t, 4, 0x10000, true).Ok?
    requires Finishes(AfterDoubleColon(hv, t))
    ensures f.Spelled() && Good(f) && f.Text() == Words(hs) + ("::" + t)
  {
    var number := AcceptNumber(t, 4, 0x10000, true);
    var w := NumberTaken(t, 4, 0x10000, true);
    var b := FirstTailTaken(hv, number.value, number.rest);
    f := BehindForm(hs, hv, false, w, number.value, number.rest, b);
    NoStray(t);
  }

  lemma {:induction false} ColonBehind(hs: seq<string>, hv: seq<u16>, t: string) returns (f: Form)
    requires AllSpell(hs, hv) && |hs| <= 6 && t != "" && t[0] == ':' && Finishes(AcceptPart(t, HeadParts(hv), true))
    ensures f.Spelled() && Good(f) && f.Text() == Words(hs) + ("::" + t)
  {
    var w, n, r := StrayTaken(hv, t);
    var b := FirstTailTaken(hv, n, r);
    f := BehindForm(hs, hv, true, w, n, r, b);
    OneStray(t, w + r);
  }

  lemma {:induction false} DoubleColonTaken(hs: seq<string>, hv: seq<u16>, t: string) returns (f: Form)
    requires AllSpell(hs, hv) && |hs| <= 8 && Finishes(AcceptPart("::" + t, HeadParts(hv), false))
    ensures f.Spelled() && Good(f) && f.Text() == Words(hs) + ("::" + t)
  {
    DoubleColonStep(hv, t);
    if AcceptNumber(t, 4, 0x10000, true).Ok? {
      f := GroupBehind(hs, hv, t);
    } else if t == "" {
      f := GroupsForm(hs, hv, false, [], []);
      NoStray(t);
    } else {
      f := ColonBehind(hs, hv, t);
    }
  }

  // ------------------------------------------------------------ groups before "::"

  lemma {:induction false} WordsSnoc(ws: seq<string>, w: string)
    ensures Words(ws + [w]) == Words(ws) + (Sep(|ws|) + w)
    decreases |ws|
  {
    if ws == [] {
      assert ws + [w] == [w];
    } else if |ws| == 1 {
      assert (ws + [w])[1..] == [w] && (ws + [w])[0] == ws[0];
      assert Words(ws + [w]) == ws[0] + ":" + Words([w]);
    } else {
      WordsSnoc(ws[1..], w);
      assert (ws + [w])[1..] == ws[1..] + [w];
    }
  }

  /** Nothing can follow eight groups. */
  lemma {:induction false} EightAreFull(hv: seq<u16>, s: string)
    requires |hv| == 8
    ensures AcceptPart(s, HeadParts(hv), false) == Err
  {
    assert AcceptOne(s, HeadParts(hv), false) == Err;
  }

  lemma {:induction false} HeadStepTaken(hv: seq<u16>, s: string) returns (w: string, n: u16, r: string)
    requires |hv| <= 8 && AcceptPart(s, HeadParts(hv), false).Ok? && !("::" <= s)
    ensures |hv| < 8 && Spells(w, n, true, 4) && s == Sep(|hv|) + w + r
    ensures var put := PutHead(HeadParts(hv), n, r);
            AcceptPart(s, HeadParts(hv), false) == AfterGroup(put.value, put.rest, false)
  {
    var p := HeadParts(hv);
    if |hv| == 8 { EightAreFull(hv, s); }
    var separator := AcceptSeparator(s, p, false);
    if hv != [] { ColonTaken(s, p, false); }
    w := NumberTaken(separator.rest, 4, 0x10000, true);
    n := AcceptNumber(separator.rest, 4, 0x10000, true).value;
    r := AcceptNumber(separator.rest, 4, 0x10000, true).rest;
    assert AcceptGroup(separator.rest, p, false, false) == PutHead(p, n, r);
  }

  lemma MappedHeadIs(hv: seq<u16>, n: u16)
    requires |hv| == 5 && IsMapped(HeadParts(hv).head[5 := n])
    ensures hv == Zeros(5) && n == 0xffff
  {
    var h := HeadParts(hv).head[5 := n];
    assert h[0] == hv[0] && h[1] == hv[1] && h[2] == hv[2] && h[3] == hv[3] && h[4] == hv[4] && h[5] == n;
  }

  lemma {:induction false} MappedHeadForm(hs: seq<string>, w: string, os: seq<string>, vs: seq<byte>)
    returns (f: Form)
    requires |hs| == 5 && AllSpell(hs, Zeros(5)) && Spells(w, 0xffff, true, 4) && |os| == 4 && OctetsSpell(os, vs)
    ensures f.Spelled() && Good(f) && f.Text() == Words(hs) + (":" + w + (":" + Dotted(os)))
  {
    var words := Items(hs + [w]);
    f := Form(words + [Quad(os)], NoGap, []);
    GroupsOfItems(hs + [w], Zeros(5) + [0xffff]);
    QuadSpelled(os, vs);
    assert f.head[..6] == words;
    assert Texts(f.head) == hs + [w] + [Dotted(os)];
    WordsSnoc(hs + [w], Dotted(os));
    WordsSnoc(hs, w);
    assert Words(hs) + (":" + w) + (":" + Dotted(os)) == Words(hs) + (":" + w + (":" + Dotted(os)));
    assert GapText(NoGap) + Words(Texts([])) == "" && Words(Texts(f.head)) + "" == Words(Texts(f.head));
  }

  lemma {:induction false} FullFormOf(ws: seq<string>, vs: seq<u16>) returns (f: Form)
    requires |ws| == 8 && AllSpell(ws, vs)
    ensures f.Spelled() && Good(f) && f.Text() == Words(ws)
  {
    f := Form(Items(ws), NoGap, []);
    GroupsOfItems(ws, vs);
    TextsOfItems(ws);
    assert Words(ws) + (GapText(NoGap) + Words(Texts([]))) == Words(ws);
  }

  /** A dotted quad behind the mapped prefix ends the address. */
  lemma {:induction false} MappedHeadTaken(hs: seq<string>, hv: seq<u16>, w: string, n: u16, r: string)
    returns (f: Form)
    requires |hs| == 5 && AllSpell(hs, hv) && Spells(w, n, true, 4) && MappedGroups(r).Ok?
    requires IsMapped(HeadParts(hv).head[5 := n])
    requires var put := PutHead(HeadParts(hv), n, r); Finishes(AfterGroup(put.value, put.rest, false))
    ensures f.Spelled() && Good(f) && f.Text() == Words(hs) + (":" + w + r)
  {
    MappedHeadIs(hv, n);
    var os, vs := MappedTaken(r);
    var rest := MappedGroups(r).rest;
    PutHeadMapped(r, MappedTail(vs)[1], MappedTail(vs)[2], rest);
    EightAreFull(Zeros(5) + MappedTail(vs), rest);
    assert rest == "" && r == ":" + Dotted(os);
    f := MappedHeadForm(hs, w, os, vs);
  }

  /** The group `n` completes the prefix of a mapped address, and a dotted quad follows. */
  predicate MappedNext(hv: seq<u16>, n: u16, r: string)
    requires |hv| < 8
  {
    |hv| == 5 && IsMapped(HeadParts(hv).head[5 := n]) && MappedGroups(r).Ok?
  }

  lemma {:induction false} PutHeadPlain(hv: seq<u16>, n: u16, r: string)
    requires |hv| < 8 && !MappedNext(hv, n, r)
    ensures PutHead(HeadParts(hv), n, r) == Ok(HeadParts(hv + [n]), r)
  {
    PlaceHead(hv, n);
  }

  lemma {:induction false} SnocText(hs: seq<string>, w: string, r: string)
    ensures Words(hs) + (Sep(|hs|) + w + r) == Words(hs + [w]) + r
  {
    WordsSnoc(hs, w);
  }

  /** The parser accepts only good forms. */
  lemma {:induction false} HeadTaken(hs: seq<string>, hv: seq<u16>, s: string) returns (f: Form)
    requires AllSpell(hs, hv) && |hs| <= 8 && Finishes(AcceptPart(s, HeadParts(hv), false))
    ensures f.Spelled() && Good(f) && f.Text() == Words(hs) + s
    decreases |s|
  {
    if "::" <= s {
      assert s == "::" + s[2..];
      f := DoubleColonTaken(hs, hv, s[2..]);
    } else {
      var w, n, r := HeadStepTaken(hv, s);
      if MappedNext(hv, n, r) {
        f := MappedHeadTaken(hs, hv, w, n, r);
      } else {
        PutHeadPlain(hv, n, r);
        SnocText(hs, w, r);
        if r == "" {
          f := FullFormOf(hs + [w], hv + [n]);
        } else {
          f := HeadTaken(hs + [w], hv + [n], r);
        }
      }
    }
  }

  lemma {:induction false} FormTaken(s: string) returns (f: Form)
    requires Parse(s).Some?
    ensures f.Spelled() && Good(f) && f.Text() == s
  {
    NothingParsed();
    f := HeadTaken([], [], s);
    assert Words([]) + s == s;
  }
}
