/**
  Which accepted texts are address texts of section 2.2 of RFC 4291, and which of those
  are accepted. The parser also accepts ":::" between groups, groups behind a dotted
  quad, and "::" for no group. It refuses "::" for one group at either end, and a dotted
  quad that does not stand behind the prefix of the IPv4-mapped addresses.
 */
module Ipv6Standard {
  import opened Basics
  import opened Ipv6Text
  import opened Ipv6Reads
  import opened Ipv6Forms
  import opened Ipv6Inverse
  import opened Ipv6Unique
  import opened Ipv6Language

  /** A dotted quad stands at the end if at all. */
  predicate QuadLast(items: seq<Item>) { items == [] || AllWords(items[..|items| - 1]) }

  /** Eight groups, or fewer around "::"; a dotted quad stands for the last two of them. */
  predicate Standard(f: Form)
    requires f.Spelled()
  {
    match f.gap
    case NoGap => QuadLast(f.head) && |GroupsOf(f.head)| == 8
    case TwoColons => AllWords(f.head) && QuadLast(f.tail) && |GroupsOf(f.head)| + |GroupsOf(f.tail)| <= 7
    case ThreeColons => false
  }

  // ------------------------------------------------------------ checks on the text

  predicate ThreeInARow(s: string) { exists i :: 0 <= i < |s| - 2 && s[i] == ':' && s[i + 1] == ':' && s[i + 2] == ':' }

  predicate ColonAfterDot(s: string) { exists i, j :: 0 <= i < j < |s| && s[i] == '.' && s[j] == ':' }

  function Colons(s: string): nat {
    if s == "" then 0 else (if s[0] == ':' then 1 else 0) + Colons(s[1..])
  }

  /** A dotted quad saves a colon. */
  predicate FewColons(s: string) { Colons(s) + (if '.' in s then 1 else 0) <= 7 }

  // ------------------------------------------------------------ three colons

  /** No two separators are adjacent, and none stands at either end. */
  predicate Lone(s: string) {
    && (s != "" ==> s[0] != ':' && s[|s| - 1] != ':')
    && forall i :: 0 <= i < |s| - 1 ==> s[i] != ':' || s[i + 1] != ':'
  }

  lemma {:induction false} WordsAreLone(ws: seq<string>)
    requires Pieces(ws, ':')
    ensures Lone(Words(ws))
  {
    if |ws| == 1 {
      assert Words(ws) == ws[0];
    } else if |ws| > 1 {
      WordsAreLone(ws[1..]);
      WordsBegin(ws[1..]);
      var a, b := ws[0], Words(ws[1..]);
      assert Words(ws) == a + ":" + b;
      assert Lone(b) && b != "" && a != "" && ':' !in a;
    }
  }

  lemma {:induction false} ThreeColonsSeen(a: string, b: string)
    ensures ThreeInARow(a + (":::" + b))
  {
    var s := a + (":::" + b);
    assert s[|a|] == ':' && s[|a| + 1] == ':' && s[|a| + 2] == ':';
  }

  /** The only two adjacent colons are those of "::". */
  lemma {:induction false} OnlyPair(a: string, b: string, i: nat)
    requires Lone(a) && Lone(b) && i + 1 < |a| + 2 + |b|
    requires (a + ("::" + b))[i] == ':' && (a + ("::" + b))[i + 1] == ':'
    ensures i == |a|
  {
  }

  lemma {:induction false} NotThree(a: string, b: string)
    requires Lone(a) && Lone(b)
    ensures !ThreeInARow(a + ("::" + b)) && !ThreeInARow(a)
  {
    var s := a + ("::" + b);
    forall i | 0 <= i < |s| - 2 ensures !(s[i] == ':' && s[i + 1] == ':' && s[i + 2] == ':') {
      if s[i] == ':' && s[i + 1] == ':' && s[i + 2] == ':' {
        OnlyPair(a, b, i);
        OnlyPair(a, b, i + 1);
      }
    }
  }

  lemma {:induction false} ThreeInARowIff(f: Form)
    requires f.Spelled()
    ensures ThreeInARow(f.Text()) <==> f.gap == ThreeColons
  {
    var a, b := Words(Texts(f.head)), Words(Texts(f.tail));
    TextsArePieces(f.head);
    TextsArePieces(f.tail);
    WordsAreLone(Texts(f.head));
    WordsAreLone(Texts(f.tail));
    match f.gap
    case NoGap => HeadOnly(f.head); NotThree(a, b);
    case TwoColons => NotThree(a, b);
    case ThreeColons => ThreeColonsSeen(a, b);
  }

  // ------------------------------------------------------------ counting colons

  lemma {:induction false} ColonsAdd(a: string, b: string)
    ensures Colons(a + b) == Colons(a) + Colons(b)
  {
    if a == "" {
      assert a + b == b;
    } else {
      ColonsAdd(a[1..], b);
      assert (a + b)[0] == a[0] && (a + b)[1..] == a[1..] + b;
    }
  }

  lemma {:induction false} NoColons(a: string)
    requires ':' !in a
    ensures Colons(a) == 0
  {
    if a != "" { NoColons(a[1..]); }
  }

  lemma {:induction false} ColonsOfWords(ws: seq<string>)
    requires Pieces(ws, ':')
    ensures Colons(Words(ws)) == if ws == [] then 0 else |ws| - 1
  {
    if ws != [] {
      NoColons(ws[0]);
      if |ws| > 1 {
        ColonsOfWords(ws[1..]);
        ColonsAdd(ws[0] + ":", Words(ws[1..]));
        ColonsAdd(ws[0], ":");
      }
    }
  }

  function ColonsIn(n: nat): nat { if n == 0 then 0 else n - 1 }

  lemma {:induction false} ColonsOfForm(f: Form)
    requires f.Spelled()
    ensures Colons(f.Text()) == ColonsIn(|f.head|) + |GapText(f.gap)| + ColonsIn(|f.tail|)
  {
    TextsArePieces(f.head);
    TextsArePieces(f.tail);
    ColonsOfWords(Texts(f.head));
    ColonsOfWords(Texts(f.tail));
    ColonsOfGap(f.gap);
    ColonsAdd(Words(Texts(f.head)), GapText(f.gap) + Words(Texts(f.tail)));
    ColonsAdd(GapText(f.gap), Words(Texts(f.tail)));
  }

  lemma ColonsOfGap(gap: Gap)
    ensures Colons(GapText(gap)) == |GapText(gap)|
  {
    assert "::"[1..] == ":" && ":::"[1..] == "::" && ":"[1..] == "";
    assert Colons(":") == 1 && Colons("::") == 2;
  }

  // ------------------------------------------------------------ dots

  lemma {:induction false} NoDots(items: seq<Item>)
    requires AllSpelled(items) && AllWords(items)
    ensures '.' !in Words(Texts(items))
  {
    WordsSpell(items);
    NoDotInWords(Texts(items), GroupsOf(items));
  }

  /** Without a dotted quad there is no dot. */
  lemma {:induction false} WordsOnly(f: Form)
    requires f.Spelled() && AllWords(f.head) && AllWords(f.tail)
    ensures '.' !in f.Text() && !ColonAfterDot(f.Text())
  {
    NoDots(f.head);
    NoDots(f.tail);
  }

  /** Before the quad there is no dot, and in it no colon. */
  lemma {:induction false} ColonsBehind(p: string, q: string, r: string)
    requires '.' !in p && '.' in q && ':' !in q && '.' !in r
    ensures '.' in p + (q + r) && (ColonAfterDot(p + (q + r)) <==> ':' in r)
  {
    var s := p + (q + r);
    var i :| 0 <= i < |q| && q[i] == '.';
    assert s[|p| + i] == '.';
    if ':' in r {
      var j :| 0 <= j < |r| && r[j] == ':';
      assert s[|p| + |q| + j] == ':';
    }
  }

  /** The text of a mapped form is cut at its dotted quad. */
  lemma {:induction false} QuadInHead(f: Form)
    requires f.Spelled() && f.gap == NoGap && MappedHead(f.head)
    ensures '.' in f.Text() && !ColonAfterDot(f.Text())
  {
    var words, q := f.head[..6], f.head[6].Text();
    HeadOnly(f.head);
    assert Texts(f.head) == Texts(words) + [q];
    WordsSnoc(Texts(words), q);
    NoDots(words);
    ItemText(f.head[6]);
    assert Words(Texts(words)) + (":" + q) == (Words(Texts(words)) + ":") + (q + "");
    ColonsBehind(Words(Texts(words)) + ":", q, "");
  }

  lemma {:induction false} QuadInTail(f: Form)
    requires f.Spelled() && f.gap != NoGap && AllWords(f.head) && MappedAround(f.head, f.tail)
    ensures '.' in f.Text() && (ColonAfterDot(f.Text()) <==> |f.tail| > 2)
  {
    var w, os, ts := MappedTail3(f.tail);
    var a, g := Words(Texts(f.head)), GapText(f.gap);
    NoDots(f.head);
    NoDots(f.tail[2..]);
    ItemText(f.tail[0]);
    ItemText(f.tail[1]);
    CutAtQuad(a, g, w, Dotted(os), Further(ts));
    assert ':' in Further(ts) <==> ts != [] by { if ts != [] { assert Further(ts)[0] == ':'; } }
    ColonsBehind(a + g + w + ":", Dotted(os), Further(ts));
  }

  lemma CutAtQuad(a: string, g: string, w: string, q: string, r: string)
    ensures a + (g + (w + (":" + q + r))) == (a + g + w + ":") + (q + r)
  {
  }

  // ------------------------------------------------------------ the standard forms

  /** The text passes the three checks. */
  predicate Passes(s: string) { !ThreeInARow(s) && !ColonAfterDot(s) && FewColons(s) }

  lemma {:induction false} MappedHeadStandard(f: Form)
    requires f.Spelled() && f.gap == NoGap && MappedHead(f.head)
    ensures Standard(f) && Passes(f.Text())
  {
    ThreeInARowIff(f);
    ColonsOfForm(f);
    QuadInHead(f);
    MappedHeadWords(f.head);
  }

  lemma {:induction false} WordsStandard(f: Form)
    requires f.Spelled() && Good(f) && AllWords(f.head) && AllWords(f.tail)
    ensures Standard(f) <==> Passes(f.Text())
  {
    ThreeInARowIff(f);
    ColonsOfForm(f);
    WordsOnly(f);
    WordsSpell(f.head);
    WordsSpell(f.tail);
  }

  lemma {:induction false} MappedAroundStandard(f: Form)
    requires f.Spelled() && f.gap != NoGap && AllWords(f.head) && MappedAround(f.head, f.tail)
    ensures Standard(f) <==> Passes(f.Text())
  {
    ThreeInARowIff(f);
    ColonsOfForm(f);
    QuadInTail(f);
    WordsSpell(f.head);
    MappedGroupsCount(f.tail);
  }

  /** A good form is a standard one exactly if its text passes the three checks. */
  lemma {:induction false} StandardIff(f: Form)
    requires f.Spelled() && Good(f)
    ensures Standard(f) <==> Passes(f.Text())
  {
    if f.gap == NoGap && MappedHead(f.head) {
      MappedHeadStandard(f);
    } else if AllWords(f.tail) {
      WordsStandard(f);
    } else {
      MappedAroundStandard(f);
    }
  }

  lemma MappedGroupsCount(tail: seq<Item>)
    requires |tail| >= 2 && AllSpelled(tail) && tail[0].Word? && tail[1].Quad? && AllWords(tail[2..])
    ensures |GroupsOf(tail)| == |tail| + 1 && (QuadLast(tail) <==> |tail| == 2)
  {
    var w, os, ts := MappedTail3(tail);
    WordsSpell(tail[2..]);
    if |tail| > 2 { assert tail[..|tail| - 1][1] == tail[1]; }
  }

  ghost predicate StandardText(s: string) { exists f: Form :: f.Spelled() && Standard(f) && f.Text() == s }

  /**
    An accepted text is one of RFC 4291 exactly if it has no three colons in a row, no
    colon behind a dot, and at most seven colons, six with a dotted quad.
   */
  lemma {:induction false} AcceptedIsStandardIff(s: string)
    requires Parse(s).Some?
    ensures StandardText(s) <==> Passes(s)
  {
    var f := FormTaken(s);
    StandardIff(f);
    if StandardText(s) {
      var g: Form :| g.Spelled() && Standard(g) && g.Text() == s;
      FormUnique(f, g);
    }
  }

  // ------------------------------------------------------------ standard texts that are refused

  lemma {:induction false} InJoin(ws: seq<string>, separator: string, i: nat, c: char)
    requires i < |ws| && c in ws[i]
    ensures c in Join(ws, separator)
    decreases i
  {
    if i > 0 { InJoin(ws[1..], separator, i - 1, c); }
  }

  lemma {:induction false} QuadHasDot(items: seq<Item>, i: nat)
    requires AllSpelled(items) && i < |items| && items[i].Quad?
    ensures '.' in Words(Texts(items))
  {
    ItemText(items[i]);
    InJoin(Texts(items), ":", i, '.');
  }

  /** The dotted quad stands behind zero groups and ffff, which the parser insists on. */
  predicate MappedPrefix(f: Form)
    requires f.Spelled()
  {
    if f.gap == NoGap then |f.head| == 7 && GroupsOf(f.head[..6]) == Zeros(5) + [0xffff]
    else GroupsOf(f.head) == Zeros(|f.head|) && |f.tail| == 2 && GroupsOf(f.tail[..1]) == [0xffff]
  }

  /** Words, the last of which may be a dotted quad, count as their groups. */
  lemma {:induction false} QuadLastCount(items: seq<Item>)
    requires AllSpelled(items) && QuadLast(items) && !AllWords(items)
    ensures items[|items| - 1].Quad? && |GroupsOf(items)| == |items| + 1
  {
    var n := |items| - 1;
    WordsSpell(items[..n]);
    GroupsSplit(items, n);
    assert items[n..] == [items[n]];
    assert forall i :: 0 <= i < n ==> items[i] == items[..n][i];
  }

  lemma {:induction false} StandardWords(f: Form)
    requires f.Spelled() && Standard(f) && AllWords(f.head) && AllWords(f.tail)
    ensures '.' !in f.Text() && (Good(f) <==> Colons(f.Text()) <= 7)
  {
    WordsOnly(f);
    ColonsOfForm(f);
    WordsSpell(f.head);
    WordsSpell(f.tail);
  }

  lemma {:induction false} StandardQuadInHead(f: Form)
    requires f.Spelled() && Standard(f) && f.gap == NoGap && !AllWords(f.head)
    ensures '.' in f.Text() && (Good(f) <==> MappedPrefix(f))
  {
    QuadLastCount(f.head);
    HeadOnly(f.head);
    QuadHasDot(f.head, |f.head| - 1);
  }

  lemma {:induction false} StandardQuadInTail(f: Form)
    requires f.Spelled() && Standard(f) && f.gap == TwoColons && !AllWords(f.tail)
    ensures '.' in f.Text() && (Good(f) <==> MappedPrefix(f))
  {
    var n := |f.tail| - 1;
    QuadLastCount(f.tail);
    WordsSpell(f.head);
    QuadHasDot(f.tail, n);
    if n == 1 {
      assert f.tail[..1] == [f.tail[0]] && f.tail[..1][0].Word? && f.tail[2..] == [];
      assert GroupsOf(f.tail[..1]) == [WordValue(f.tail[0].word)];
    } else if n > 1 {
      assert f.tail[..n][1].Word?;
    }
  }

  /**
    A text of RFC 4291 parses exactly if it has at most seven colons, or, with a dotted
    quad, exactly if the groups before it are those of an IPv4-mapped address.
   */
  lemma {:induction false} StandardIsAcceptedIff(f: Form)
    requires f.Spelled() && Standard(f)
    ensures Parse(f.Text()).Some? <==> if '.' in f.Text() then MappedPrefix(f) else Colons(f.Text()) <= 7
  {
    ParsesExactly(f);
    if AllWords(f.head) && AllWords(f.tail) {
      StandardWords(f);
    } else if f.gap == NoGap {
      StandardQuadInHead(f);
    } else {
      StandardQuadInTail(f);
    }
  }

  /** IPv4-compatible addresses such as "::13.1.68.3" are refused. */
  lemma {:induction false} CompatibleIsRefused(os: seq<string>)
    requires Quad(os).Spelled()
    ensures Parse("::" + Dotted(os)) == None && StandardText("::" + Dotted(os))
  {
    var f := Form([], TwoColons, [Quad(os)]);
    assert Texts(f.tail) == [Dotted(os)] && Texts(f.head) == [];
    assert f.Text() == "::" + Dotted(os);
    assert f.tail[..0] == [] && f.tail[1..] == [];
    assert GroupsOf(f.tail) == Quad(os).Groups() + GroupsOf([]);
    assert Standard(f);
    ParsesExactly(f);
  }
}
