/** Every text has at most one form. */
module Ipv6Unique {
  import opened Basics
  import opened Ipv6Text
  import opened Ipv6Reads
  import opened Ipv6Forms

  predicate Pieces(ws: seq<string>, c: char) { forall i :: 0 <= i < |ws| ==> ws[i] != "" && c !in ws[i] }

  /** What follows a piece: nothing or a separator. */
  predicate Separated(x: string, c: char) { x == "" || x[0] == c }

  lemma {:induction false} SplitUnique(a: string, x: string, b: string, y: string, c: char)
    requires a + x == b + y && c !in a && c !in b && Separated(x, c) && Separated(y, c)
    ensures a == b && x == y
  {
    var s := a + x;
    assert s[|a|..] == x && s[|b|..] == y;
    assert s[..|a|] == a && s[..|b|] == b;
  }

  /** What follows the first piece. */
  function Rest(ws: seq<string>, c: char): string
    requires ws != []
  {
    if |ws| == 1 then "" else [c] + Join(ws[1..], [c])
  }

  lemma JoinFront(ws: seq<string>, c: char)
    requires ws != []
    ensures Join(ws, [c]) == ws[0] + Rest(ws, c)
  {
    if |ws| == 1 {
      assert ws[0] + "" == ws[0];
    } else {
      assert ws[0] + [c] + Join(ws[1..], [c]) == ws[0] + ([c] + Join(ws[1..], [c]));
    }
  }

  lemma {:induction false} JoinUnique(ws: seq<string>, vs: seq<string>, c: char)
    requires Pieces(ws, c) && Pieces(vs, c) && Join(ws, [c]) == Join(vs, [c])
    ensures ws == vs
    decreases |ws|, 0
  {
    if ws != [] { JoinFront(ws, c); }
    if vs != [] { JoinFront(vs, c); }
    if ws != [] && vs != [] {
      SplitUnique(ws[0], Rest(ws, c), vs[0], Rest(vs, c), c);
      RestUnique(ws, vs, c);
    }
  }

  lemma {:induction false} RestUnique(ws: seq<string>, vs: seq<string>, c: char)
    requires ws != [] && vs != [] && ws[0] == vs[0] && Rest(ws, c) == Rest(vs, c)
    requires Pieces(ws[1..], c) && Pieces(vs[1..], c)
    ensures ws == vs
    decreases |ws| - 1, 1
  {
    assert ws == [ws[0]] + ws[1..] && vs == [vs[0]] + vs[1..];
    if |ws| > 1 {
      assert Rest(ws, c)[1..] == Join(ws[1..], [c]);
      assert Rest(vs, c)[1..] == Join(vs[1..], [c]);
      JoinUnique(ws[1..], vs[1..], c);
    }
  }

  // ------------------------------------------------------------ items

  lemma {:induction false} NotADigit(w: string, hex: bool, c: char)
    requires AllDigits(w, hex) && Digit(c, hex) == None
    ensures c !in w
  {
    forall i | 0 <= i < |w| ensures w[i] != c {
      assert Digit(w[i], hex).Some?;
    }
  }

  lemma {:induction false} NotInJoin(ws: seq<string>, separator: string, c: char)
    requires (forall i :: 0 <= i < |ws| ==> c !in ws[i]) && c !in separator
    ensures c !in Join(ws, separator)
  {
    if |ws| > 1 { NotInJoin(ws[1..], separator, c); }
  }

  /** Words have no dot, dotted quads have one, and neither has a colon. */
  lemma {:induction false} ItemText(item: Item)
    requires item.Spelled()
    ensures item.Text() != "" && ':' !in item.Text() && (item.Quad? <==> '.' in item.Text())
  {
    match item
    case Word(w) =>
      NotADigit(w, true, ':');
      NotADigit(w, true, '.');
    case Quad(os) =>
      forall i | 0 <= i < 4 ensures ':' !in os[i] { NotADigit(os[i], false, ':'); }
      NotInJoin(os, ".", ':');
      assert Dotted(os) == os[0] + "." + Join(os[1..], ".");
      assert Dotted(os)[|os[0]|] == '.';
  }

  lemma {:induction false} ItemUnique(a: Item, b: Item)
    requires a.Spelled() && b.Spelled() && a.Text() == b.Text()
    ensures a == b
  {
    ItemText(a);
    ItemText(b);
    if a.Quad? {
      forall i | 0 <= i < 4 ensures '.' !in a.octets[i] && '.' !in b.octets[i] {
        NotADigit(a.octets[i], false, '.');
        NotADigit(b.octets[i], false, '.');
      }
      JoinUnique(a.octets, b.octets, '.');
    }
  }

  lemma {:induction false} ItemsUnique(xs: seq<Item>, ys: seq<Item>)
    requires AllSpelled(xs) && AllSpelled(ys) && Texts(xs) == Texts(ys)
    ensures xs == ys
  {
    forall i | 0 <= i < |xs| ensures i < |ys| && xs[i] == ys[i] {
      assert Texts(xs)[i] == Texts(ys)[i];
      ItemUnique(xs[i], ys[i]);
    }
  }

  lemma {:induction false} TextsArePieces(xs: seq<Item>)
    requires AllSpelled(xs)
    ensures Pieces(Texts(xs), ':')
  {
    forall i | 0 <= i < |xs| ensures Texts(xs)[i] != "" && ':' !in Texts(xs)[i] {
      ItemText(xs[i]);
    }
  }

  // ------------------------------------------------------------ head, gap and tail

  /** The text from the gap on. */
  function Behind(gap: Gap, ts: seq<string>): string { GapText(gap) + Words(ts) }

  /** Joined pieces do not begin with the separator. */
  lemma {:induction false} WordsBegin(ws: seq<string>)
    requires Pieces(ws, ':') && ws != []
    ensures Words(ws) != "" && Words(ws)[0] != ':'
  {
    JoinFront(ws, ':');
    assert Words(ws)[0] == ws[0][0];
  }

  lemma {:induction false} BehindUnique(g: Gap, ts: seq<string>, k: Gap, us: seq<string>)
    requires Pieces(ts, ':') && Pieces(us, ':') && (g == NoGap ==> ts == []) && (k == NoGap ==> us == [])
    requires Behind(g, ts) == Behind(k, us)
    ensures g == k && ts == us
  {
    if ts != [] { WordsBegin(ts); }
    if us != [] { WordsBegin(us); }
    var s, n, m := Behind(g, ts), |GapText(g)|, |GapText(k)|;
    assert forall i :: 0 <= i < n ==> s[i] == ':';
    assert forall i :: 0 <= i < m ==> s[i] == ':';
    assert |s| == n || s[n] == Words(ts)[0];
    assert |s| == m || s[m] == Words(us)[0];
    assert n == m && g == k;
    assert s[n..] == Words(ts) && s[m..] == Words(us);
    JoinUnique(ts, us, ':');
  }

  /** What follows the first word of the head. */
  function AfterFirst(hs: seq<string>, t: string): string
    requires hs != []
  {
    if |hs| == 1 then t else ":" + (Words(hs[1..]) + t)
  }

  lemma HeadFront(hs: seq<string>, t: string)
    requires hs != []
    ensures Words(hs) + t == hs[0] + AfterFirst(hs, t)
  {
    if |hs| > 1 {
      assert hs[0] + ":" + Words(hs[1..]) + t == hs[0] + (":" + (Words(hs[1..]) + t));
    }
  }

  /** A gap is told from a single colon by its second character. */
  lemma {:induction false} SecondColon(hs: seq<string>, g: Gap, ts: seq<string>)
    requires Pieces(hs, ':') && hs != [] && (g == NoGap ==> ts == [])
    ensures var r := AfterFirst(hs, Behind(g, ts));
            && Separated(r, ':') && (|hs| > 1 <==> |r| >= 2 && r[1] != ':')
  {
    var r := AfterFirst(hs, Behind(g, ts));
    if |hs| > 1 {
      WordsBegin(hs[1..]);
      assert r[1] == Words(hs[1..])[0];
    } else if g != NoGap {
      assert r[1] == GapText(g)[1];
    } else {
      assert r == "";
    }
  }

  lemma {:induction false} PartsUnique(hs: seq<string>, g: Gap, ts: seq<string>, js: seq<string>, k: Gap,
                                       us: seq<string>)
    requires Pieces(hs, ':') && Pieces(ts, ':') && (g == NoGap ==> ts == [])
    requires Pieces(js, ':') && Pieces(us, ':') && (k == NoGap ==> us == [])
    requires Words(hs) + Behind(g, ts) == Words(js) + Behind(k, us)
    ensures hs == js && g == k && ts == us
    decreases |hs|
  {
    var t, u := Behind(g, ts), Behind(k, us);
    if hs == [] || js == [] {
      NoHead(hs, t, js, u);
      BehindUnique(g, ts, k, us);
    } else {
      HeadFront(hs, t);
      HeadFront(js, u);
      SecondColon(hs, g, ts);
      SecondColon(js, k, us);
      SplitUnique(hs[0], AfterFirst(hs, t), js[0], AfterFirst(js, u), ':');
      if |hs| == 1 {
        BehindUnique(g, ts, k, us);
      } else {
        assert AfterFirst(hs, t)[1..] == Words(hs[1..]) + t && AfterFirst(js, u)[1..] == Words(js[1..]) + u;
        PartsUnique(hs[1..], g, ts, js[1..], k, us);
      }
      assert hs == [hs[0]] + hs[1..] && js == [js[0]] + js[1..];
    }
  }

  /** A text that begins with a gap, or is empty, has no head. */
  lemma {:induction false} NoHead(hs: seq<string>, t: string, js: seq<string>, u: string)
    requires Pieces(hs, ':') && Pieces(js, ':') && Words(hs) + t == Words(js) + u && (hs == [] || js == [])
    requires Separated(t, ':') && Separated(u, ':')
    ensures hs == [] && js == [] && t == u
  {
    if hs != [] { WordsBegin(hs); }
    if js != [] { WordsBegin(js); }
    assert "" + t == t && "" + u == u;
  }

  lemma {:induction false} FormUnique(f: Form, g: Form)
    requires f.Spelled() && g.Spelled() && f.Text() == g.Text()
    ensures f == g
  {
    TextsArePieces(f.head);
    TextsArePieces(f.tail);
    TextsArePieces(g.head);
    TextsArePieces(g.tail);
    PartsUnique(Texts(f.head), f.gap, Texts(f.tail), Texts(g.head), g.gap, Texts(g.tail));
    ItemsUnique(f.head, g.head);
    ItemsUnique(f.tail, g.tail);
  }
}
