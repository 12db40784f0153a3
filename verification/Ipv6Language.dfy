/**
  The language of the IPv6 parser: a text is accepted exactly if it has a good form,
  and then it parses to the address of that form.
 */
module Ipv6Language {
  import opened Basics
  import opened ByteFile
  import opened Ipv6Text
  import opened Ipv6Reads
  import opened Ipv6Forms
  import opened Ipv6Inverse
  import opened Ipv6Unique

  // ------------------------------------------------------------ good forms parse

  lemma {:induction false} GroupsSplit(items: seq<Item>, k: nat)
    requires AllSpelled(items) && k <= |items|
    ensures GroupsOf(items) == GroupsOf(items[..k]) + GroupsOf(items[k..])
    decreases k
  {
    if k == 0 {
      assert items[..0] == [] && items[0..] == items;
    } else {
      GroupsSplit(items[1..], k - 1);
      assert items[..k][1..] == items[1..][..k - 1] && items[1..][k - 1..] == items[k..];
    }
  }

  lemma HeadOnly(head: seq<Item>)
    ensures Form(head, NoGap, []).Text() == Words(Texts(head))
  {
    assert Words(Texts(head)) + (GapText(NoGap) + Words(Texts([]))) == Words(Texts(head));
  }

  lemma {:induction false} EightWordsParse(head: seq<Item>)
    requires AllSpelled(head) && AllWords(head) && |head| == 8
    ensures |GroupsOf(head)| == 8 && Parse(Words(Texts(head))) == Some(GroupsOf(head))
  {
    WordsSpell(head);
    FullParses(Texts(head), GroupsOf(head));
  }

  lemma QuadReads(os: seq<string>) returns (vs: seq<byte>)
    requires Quad(os).Spelled()
    ensures OctetsSpell(os, vs) && Quad(os).Groups() == [MappedTail(vs)[1], MappedTail(vs)[2]]
  {
    vs := seq(4, i requires 0 <= i < 4 => Number(os[i], false) as byte);
    QuadSpelled(os, vs);
  }

  /** The words of a mapped prefix, and its groups. */
  lemma {:induction false} MappedHeadWords(head: seq<Item>)
    requires AllSpelled(head) && MappedHead(head)
    ensures AllSpell(Texts(head)[..5], Zeros(5)) && Spells(Texts(head)[5], 0xffff, true, 4)
    ensures GroupsOf(head) == Zeros(5) + [0xffff] + head[6].Groups()
  {
    var ws := Texts(head[..6]);
    WordsSpell(head[..6]);
    assert ws[5] == Texts(head)[5] && (Zeros(5) + [0xffff])[5] == 0xffff;
    forall i | 0 <= i < 5 ensures Spells(Texts(head)[..5][i], 0, true, 4) {
      assert Texts(head)[..5][i] == ws[i] && (Zeros(5) + [0xffff])[i] == 0;
    }
    GroupsSplit(head, 6);
    assert head[6..] == [head[6]];
    assert head[6].Groups() + GroupsOf([]) == head[6].Groups();
  }

  lemma {:induction false} MappedHeadParses(head: seq<Item>)
    requires AllSpelled(head) && MappedHead(head)
    ensures |GroupsOf(head)| == 8 && Parse(Words(Texts(head))) == Some(GroupsOf(head))
  {
    var os := head[6].octets;
    MappedHeadWords(head);
    var vs := QuadReads(os);
    SnocTwice(Texts(head));
    FullMappedParses(Texts(head)[..5], Texts(head)[5], os, vs);
    assert Zeros(5) + [0xffff] + head[6].Groups() == Zeros(5) + MappedTail(vs);
  }

  lemma {:induction false} SnocTwice(ws: seq<string>)
    requires |ws| == 7
    ensures Words(ws) == Words(ws[..5]) + (":" + ws[5] + (":" + ws[6]))
  {
    WordsSnoc(ws[..6], ws[6]);
    WordsSnoc(ws[..5], ws[5]);
    assert ws[..6] + [ws[6]] == ws && ws[..5] + [ws[5]] == ws[..6];
    assert Words(ws[..5]) + (":" + ws[5]) + (":" + ws[6]) == Words(ws[..5]) + (":" + ws[5] + (":" + ws[6]));
  }

  lemma StrayText(f: Form, stray: bool)
    requires f.gap == GapOf(stray)
    ensures f.Text() == Words(Texts(f.head)) + ("::" + Stray(stray) + Words(Texts(f.tail)))
  {
    GapTexts(stray);
  }

  lemma {:induction false} GroupsParse(f: Form)
    requires f.Spelled() && f.gap != NoGap && AllWords(f.head) && AllWords(f.tail) && Good(f)
    ensures |GroupsOf(f.head)| + |GroupsOf(f.tail)| <= 8 && Parse(f.Text()) == Some(f.Address())
  {
    var stray := f.gap == ThreeColons;
    WordsSpell(f.head);
    WordsSpell(f.tail);
    StrayText(f, stray);
    CompressedParses(Texts(f.head), GroupsOf(f.head), stray, Texts(f.tail), GroupsOf(f.tail));
  }

  lemma {:induction false} MappedTail3(tail: seq<Item>) returns (w: string, os: seq<string>, ts: seq<string>)
    requires |tail| >= 2 && AllSpelled(tail) && tail[0].Word? && tail[1].Quad? && AllWords(tail[2..])
    ensures w == tail[0].word && os == tail[1].octets && ts == Texts(tail[2..])
    ensures Words(Texts(tail)) == w + (":" + Dotted(os) + Further(ts))
    ensures GroupsOf(tail) == [WordValue(w)] + tail[1].Groups() + GroupsOf(tail[2..])
  {
    w, os, ts := tail[0].word, tail[1].octets, Texts(tail[2..]);
    assert tail == [Word(w), Quad(os)] + Items(ts) by {
      assert Items(ts) == tail[2..];
    }
    MappedTexts(w, os, ts);
    assert tail[1..][1..] == tail[2..];
  }

  lemma {:induction false} MappedAddress(f: Form, vs: seq<byte>, tv: seq<u16>)
    requires f.Spelled() && GroupsOf(f.head) == Zeros(|f.head|) && |f.head| + |tv| <= 5 && |vs| == 4
    requires GroupsOf(f.tail) == MappedTail(vs) + tv
    ensures |GroupsOf(f.head)| + |GroupsOf(f.tail)| <= 8
    ensures f.Address() == Zeros(5 - |tv|) + MappedTail(vs) + tv
  {
    var h := |f.head|;
    assert Zeros(h) + Zeros(8 - h - (3 + |tv|)) == Zeros(5 - |tv|);
  }

  lemma {:induction false} MappedText(f: Form, stray: bool, w: string, r: string)
    requires f.gap == GapOf(stray) && Words(Texts(f.tail)) == w + r
    ensures f.Text() == Words(Texts(f.head)) + ("::" + Stray(stray) + w + r)
  {
    GapTexts(stray);
    assert "::" + Stray(stray) + w + r == "::" + Stray(stray) + (w + r);
  }

  /** The parts of a mapped form: the dotted quad's octets and the groups behind it. */
  lemma {:induction false} MappedParts(f: Form) returns (w: string, os: seq<string>, vs: seq<byte>, ts: seq<string>,
                                                         tv: seq<u16>)
    requires f.Spelled() && AllWords(f.head) && MappedAround(f.head, f.tail)
    ensures AllSpell(Texts(f.head), Zeros(|f.head|)) && Spells(w, 0xffff, true, 4)
    ensures |os| == 4 && OctetsSpell(os, vs) && AllSpell(ts, tv) && |ts| == |f.tail| - 2
    ensures Words(Texts(f.tail)) == w + (":" + Dotted(os) + Further(ts))
    ensures GroupsOf(f.tail) == MappedTail(vs) + tv
  {
    w, os, ts := MappedTail3(f.tail);
    vs := QuadReads(os);
    tv := GroupsOf(f.tail[2..]);
    WordsSpell(f.tail[2..]);
    WordsSpell(f.head);
    assert [0xffff] + f.tail[1].Groups() + tv == MappedTail(vs) + tv;
  }

  lemma {:induction false} MappedAroundParse(f: Form, stray: bool)
    requires f.Spelled() && f.gap == GapOf(stray) && AllWords(f.head) && MappedAround(f.head, f.tail)
    requires stray ==> f.head != []
    ensures |GroupsOf(f.head)| + |GroupsOf(f.tail)| <= 8 && Parse(f.Text()) == Some(f.Address())
  {
    var w, os, vs, ts, tv := MappedParts(f);
    MappedAddress(f, vs, tv);
    MappedText(f, stray, w, ":" + Dotted(os) + Further(ts));
    MappedParses(Texts(f.head), stray, w, os, vs, ts, tv);
  }

  /** A good form parses to its address. */
  lemma {:induction false} GoodParses(f: Form)
    requires f.Spelled() && Good(f)
    ensures |GroupsOf(f.head)| + |GroupsOf(f.tail)| <= 8 && Parse(f.Text()) == Some(f.Address())
  {
    if f.gap == NoGap {
      HeadOnly(f.head);
      if AllWords(f.head) && |f.head| == 8 { EightWordsParse(f.head); } else { MappedHeadParses(f.head); }
      assert GroupsOf(f.tail) == [] && f.Address() == GroupsOf(f.head);
    } else if AllWords(f.tail) {
      GroupsParse(f);
    } else {
      MappedAroundParse(f, f.gap == ThreeColons);
    }
  }

  // ------------------------------------------------------------ nothing else does

  /** A form parses exactly if it is good. */
  lemma {:induction false} ParsesExactly(f: Form)
    requires f.Spelled()
    ensures Parse(f.Text()).Some? <==> Good(f)
    ensures Good(f) ==> |GroupsOf(f.head)| + |GroupsOf(f.tail)| <= 8 && Parse(f.Text()) == Some(f.Address())
  {
    if Good(f) {
      GoodParses(f);
    } else if Parse(f.Text()).Some? {
      var g := FormTaken(f.Text());
      FormUnique(f, g);
    }
  }

  ghost predicate Accepted(s: string) { exists f: Form :: f.Spelled() && Good(f) && f.Text() == s }

  /** The parser accepts exactly the texts that have a good form. */
  lemma {:induction false} AcceptedIff(s: string)
    ensures Parse(s).Some? <==> Accepted(s)
  {
    if Parse(s).Some? {
      var f := FormTaken(s);
    } else if Accepted(s) {
      var f: Form :| f.Spelled() && Good(f) && f.Text() == s;
      GoodParses(f);
    }
  }

  // ------------------------------------------------------------ families of texts

  /** Groups joined by single colons parse back exactly when there are eight of them. */
  lemma {:induction false} FullForm(ws: seq<string>, vs: seq<u16>)
    requires AllSpell(ws, vs)
    ensures Parse(Words(ws)) == if |ws| == 8 then Some(vs) else None
  {
    var f := Form(Items(ws), NoGap, []);
    GroupsOfItems(ws, vs);
    TextsOfItems(ws);
    HeadOnly(Items(ws));
    ParsesExactly(f);
    if |ws| == 8 { assert f.Address() == vs; }
  }

  /** How many groups a gap of two or three colons may have on either side. */
  predicate GapFits(gap: Gap, h: nat, t: nat) {
    h <= 6 && t <= 6 && h + t <= 8 && (gap == ThreeColons ==> h > 0 && t > 0)
  }

  lemma GoodGap(f: Form)
    requires f.Spelled() && f.gap != NoGap && AllWords(f.head) && AllWords(f.tail)
    ensures Good(f) <==> GapFits(f.gap, |f.head|, |f.tail|)
  {
  }

  lemma {:induction false} GapForm(hs: seq<string>, hv: seq<u16>, gap: Gap, ts: seq<string>, tv: seq<u16>)
    requires AllSpell(hs, hv) && AllSpell(ts, tv) && gap != NoGap
    ensures Parse(Words(hs) + (GapText(gap) + Words(ts)))
         == if GapFits(gap, |hs|, |ts|) then Some(hv + Zeros(8 - |hs| - |ts|) + tv) else None
  {
    var f := Form(Items(hs), gap, Items(ts));
    GroupsOfItems(hs, hv);
    GroupsOfItems(ts, tv);
    TextsOfItems(hs);
    TextsOfItems(ts);
    GoodGap(f);
    ParsesExactly(f);
  }

  /** One "::" stands for the missing groups exactly when at most six stand on either side of it, and eight in all. */
  lemma {:induction false} CompressedForm(hs: seq<string>, hv: seq<u16>, ts: seq<string>, tv: seq<u16>)
    requires AllSpell(hs, hv) && AllSpell(ts, tv)
    ensures Parse(Words(hs) + ("::" + Words(ts)))
         == if |hs| <= 6 && |ts| <= 6 && |hs| + |ts| <= 8 then Some(hv + Zeros(8 - |hs| - |ts|) + tv) else None
  {
    GapForm(hs, hv, TwoColons, ts, tv);
  }

  /** So does ":::" between two groups, which no standard allows. */
  lemma {:induction false} ThreeColonsForm(hs: seq<string>, hv: seq<u16>, ts: seq<string>, tv: seq<u16>)
    requires AllSpell(hs, hv) && AllSpell(ts, tv)
    ensures Parse(Words(hs) + (":::" + Words(ts)))
         == if 1 <= |hs| <= 6 && 1 <= |ts| <= 6 && |hs| + |ts| <= 8
            then Some(hv + Zeros(8 - |hs| - |ts|) + tv) else None
  {
    GapForm(hs, hv, ThreeColons, ts, tv);
  }

  lemma OneDigit(c: char)
    requires Digit(c, true).Some?
    ensures Spells([c], Digit(c, true).value, true, 4)
    ensures Digit(c, false).Some? ==> Spells([c], Digit(c, false).value, false, 3)
  {
    assert [c][..0] == "";
  }

  lemma {:induction false} ThreeColonsExample(s: string)
    requires s == "1:::2"
    ensures Parse(s) == Some([1, 0, 0, 0, 0, 0, 0, 2])
  {
    assert s == Words(["1"]) + (":::" + Words(["2"]));
    assert [1] + Zeros(6) + [2] == [1, 0, 0, 0, 0, 0, 0, 2];
    OneDigit('1');
    OneDigit('2');
    ThreeColonsForm(["1"], [1], ["2"], [2]);
  }

  lemma FfffSpelled()
    ensures Spells("ffff", 0xffff, true, 4)
  {
    assert "ffff"[..3] == "fff" && "fff"[..2] == "ff" && "ff"[..1] == "f" && "f"[..0] == "";
    assert Number("f", true) == 0xf && Number("ff", true) == 0xff && Number("fff", true) == 0xfff;
  }

  lemma FourOctets()
    ensures OctetsSpell(["1", "2", "3", "4"], [1, 2, 3, 4])
    ensures Dotted(["1", "2", "3", "4"]) == "1.2.3.4"
  {
    OneDigit('1');
    OneDigit('2');
    OneDigit('3');
    OneDigit('4');
    var os := ["1", "2", "3", "4"];
    assert os[1..] == ["2", "3", "4"] && os[1..][1..] == ["3", "4"] && os[1..][1..][1..] == ["4"];
    assert Join(["3", "4"], ".") == "3.4" && Join(["2", "3", "4"], ".") == "2.3.4";
  }

  /** The octets of 1.2.3.4 as two groups, behind "::ffff" and in front of a further group. */
  lemma OneToFour(vs: seq<byte>)
    requires vs == [1, 2, 3, 4]
    ensures Zeros(4) + MappedTail(vs) + [5] == [0, 0, 0, 0, 0xffff, 0x102, 0x304, 5]
  {
  }

  lemma QuadExampleText()
    ensures Words([]) + ("::" + Stray(false) + "ffff" + (":" + Dotted(["1", "2", "3", "4"]) + Further(["5"])))
         == "::ffff:1.2.3.4:5"
  {
    FourOctets();
    assert Further(["5"]) == ":5";
    assert "::" + Stray(false) + "ffff" == "::ffff" && ":" + "1.2.3.4" + ":5" == ":1.2.3.4:5";
  }

  /** Up to three groups behind the dotted quad of "::ffff:a.b.c.d" are accepted too, which no standard allows. */
  lemma {:induction false} GroupsAfterQuad(f: string, os: seq<string>, vs: seq<byte>, ts: seq<string>, tv: seq<u16>)
    requires Spells(f, 0xffff, true, 4) && |os| == 4 && OctetsSpell(os, vs) && AllSpell(ts, tv) && |ts| <= 3
    ensures Parse(Words([]) + ("::" + Stray(false) + f + (":" + Dotted(os) + Further(ts))))
         == Some(Zeros(5 - |ts|) + MappedTail(vs) + tv)
  {
    MappedParses([], false, f, os, vs, ts, tv);
  }

  lemma QuadExampleSpelled()
    ensures Spells("ffff", 0xffff, true, 4) && OctetsSpell(["1", "2", "3", "4"], [1, 2, 3, 4]) && AllSpell(["5"], [5])
  {
    FourOctets();
    FfffSpelled();
    OneDigit('5');
  }

  lemma {:induction false} OneGroupAfterQuad(s: string, f: string, os: seq<string>, vs: seq<byte>, ts: seq<string>,
                                            tv: seq<u16>)
    requires Spells(f, 0xffff, true, 4) && |os| == 4 && OctetsSpell(os, vs) && AllSpell(ts, tv)
    requires vs == [1, 2, 3, 4] && tv == [5]
    requires Words([]) + ("::" + Stray(false) + f + (":" + Dotted(os) + Further(ts))) == s
    ensures Parse(s) == Some([0, 0, 0, 0, 0xffff, 0x102, 0x304, 5])
  {
    OneToFour(vs);
    GroupsAfterQuad(f, os, vs, ts, tv);
  }

  lemma {:induction false} GroupAfterQuadExample(s: string)
    requires s == "::ffff:1.2.3.4:5"
    ensures Parse(s) == Some([0, 0, 0, 0, 0xffff, 0x102, 0x304, 5])
  {
    QuadExampleText();
    QuadExampleSpelled();
    OneGroupAfterQuad(s, "ffff", ["1", "2", "3", "4"], [1, 2, 3, 4], ["5"], [5]);
  }
}
