/**
  IPv6 address texts, independent of any parser: words and dotted quads joined by
  colons, with at most one gap of two or three colons in between. `Good` picks the
  forms the parser accepts, `Standard` those of section 2.2 of RFC 4291.
 */
module Ipv6Forms {
  import opened Ipv6Text
  import opened Ipv6Reads

  predicate IsWord(w: string) { 1 <= |w| <= 4 && AllDigits(w, true) }

  predicate IsOctet(w: string) { 1 <= |w| <= 3 && AllDigits(w, false) && Number(w, false) < 256 }

  /** A number of `n` hexadecimal digits is below 16 to the `n`. */
  function Sixteens(n: nat): nat { if n == 0 then 1 else 16 * Sixteens(n - 1) }

  lemma {:induction false} NumberBound(w: string)
    requires AllDigits(w, true)
    ensures Number(w, true) < Sixteens(|w|)
  {
    if w != "" { NumberBound(w[..|w| - 1]); }
  }

  lemma WordFits(w: string)
    requires IsWord(w)
    ensures Number(w, true) < 0x10000
  {
    NumberBound(w);
    assert Sixteens(1) == 16 && Sixteens(2) == 256 && Sixteens(3) == 4096 && Sixteens(4) == 65536;
  }

  function WordValue(w: string): u16
    requires IsWord(w)
  {
    WordFits(w); Number(w, true)
  }

  /** What stands between colons. */
  datatype Item = Word(word: string) | Quad(octets: seq<string>) {
    predicate Spelled() {
      match this
      case Word(w) => IsWord(w)
      case Quad(os) => |os| == 4 && forall i :: 0 <= i < 4 ==> IsOctet(os[i])
    }

    function Text(): string {
      match this
      case Word(w) => w
      case Quad(os) => Dotted(os)
    }

    /** One group for a word, two for a dotted quad. */
    function Groups(): seq<u16>
      requires Spelled()
    {
      match this
      case Word(w) => [WordValue(w)]
      case Quad(os) =>
        [Pair(Number(os[0], false), Number(os[1], false)), Pair(Number(os[2], false), Number(os[3], false))]
    }
  }

  predicate AllSpelled(items: seq<Item>) { forall i :: 0 <= i < |items| ==> items[i].Spelled() }

  predicate AllWords(items: seq<Item>) { forall i :: 0 <= i < |items| ==> items[i].Word? }

  function Texts(items: seq<Item>): (ws: seq<string>)
    ensures |ws| == |items| && forall i :: 0 <= i < |ws| ==> ws[i] == items[i].Text()
  {
    seq(|items|, i requires 0 <= i < |items| => items[i].Text())
  }

  function GroupsOf(items: seq<Item>): seq<u16>
    requires AllSpelled(items)
  {
    if items == [] then [] else items[0].Groups() + GroupsOf(items[1..])
  }

  datatype Gap = NoGap | TwoColons | ThreeColons

  function GapText(gap: Gap): string {
    match gap
    case NoGap => ""
    case TwoColons => "::"
    case ThreeColons => ":::"
  }

  datatype Form = Form(head: seq<Item>, gap: Gap, tail: seq<Item>) {
    predicate Spelled() { AllSpelled(head) && AllSpelled(tail) && (gap == NoGap ==> tail == []) }

    function Text(): string { Words(Texts(head)) + (GapText(gap) + Words(Texts(tail))) }

    /** The address: the gap stands for as many zero groups as are missing. */
    function Address(): seq<u16>
      requires Spelled() && |GroupsOf(head)| + |GroupsOf(tail)| <= 8
    {
      GroupsOf(head) + Zeros(8 - |GroupsOf(head)| - |GroupsOf(tail)|) + GroupsOf(tail)
    }
  }

  // ------------------------------------------------------------ the parser's forms

  /** Five zero groups, ffff and a dotted quad. */
  predicate MappedHead(head: seq<Item>)
    requires AllSpelled(head)
  {
    |head| == 7 && AllWords(head[..6]) && GroupsOf(head[..6]) == Zeros(5) + [0xffff] && head[6].Quad?
  }

  /** Zero groups before the gap; ffff, a dotted quad and possibly more groups behind it. */
  predicate MappedAround(head: seq<Item>, tail: seq<Item>)
    requires AllSpelled(head) && AllSpelled(tail)
  {
    && GroupsOf(head) == Zeros(|head|)
    && 2 <= |tail| <= 5 && |head| + |tail| <= 7
    && tail[0].Word? && WordValue(tail[0].word) == 0xffff && tail[1].Quad? && AllWords(tail[2..])
  }

  /** What the parser accepts. */
  predicate Good(f: Form)
    requires f.Spelled()
  {
    if f.gap == NoGap then
      (|f.head| == 8 && AllWords(f.head)) || MappedHead(f.head)
    else
      && AllWords(f.head) && |f.head| <= 6
      && (f.gap == ThreeColons ==> f.head != [] && f.tail != [])
      && ((AllWords(f.tail) && |f.tail| <= 6 && |f.head| + |f.tail| <= 8) || MappedAround(f.head, f.tail))
  }

  // ------------------------------------------------------------ lists of words

  /** Words as items. */
  function Items(ws: seq<string>): (items: seq<Item>)
    ensures |items| == |ws| && forall i :: 0 <= i < |ws| ==> items[i] == Word(ws[i])
  {
    seq(|ws|, i requires 0 <= i < |ws| => Word(ws[i]))
  }

  lemma TextsOfItems(ws: seq<string>)
    ensures Texts(Items(ws)) == ws
  {
  }

  lemma {:induction false} GroupsOfItems(ws: seq<string>, vs: seq<u16>)
    requires AllSpell(ws, vs)
    ensures AllSpelled(Items(ws)) && GroupsOf(Items(ws)) == vs
    decreases |ws|
  {
    if ws != [] {
      GroupsOfItems(ws[1..], vs[1..]);
      assert Items(ws)[1..] == Items(ws[1..]);
      assert vs == [vs[0]] + vs[1..];
    }
  }

  lemma AllSpellCons(w: string, n: u16, ws: seq<string>, vs: seq<u16>)
    requires Spells(w, n, true, 4) && AllSpell(ws, vs)
    ensures AllSpell([w] + ws, [n] + vs)
  {
  }

  /** A list of spelled words reads as its groups. */
  lemma {:induction false} WordsSpell(items: seq<Item>)
    requires AllSpelled(items) && AllWords(items)
    ensures AllSpell(Texts(items), GroupsOf(items)) && |GroupsOf(items)| == |items|
    decreases |items|
  {
    if items != [] {
      WordsSpell(items[1..]);
      var w := items[0].word;
      assert Texts(items) == [w] + Texts(items[1..]);
      AllSpellCons(w, WordValue(w), Texts(items[1..]), GroupsOf(items[1..]));
    }
  }
}
