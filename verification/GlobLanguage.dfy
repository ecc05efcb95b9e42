/** The patterns of the matcher as syntax trees, the strings each stands for, and the proof that
    the matcher accepts exactly those. */
module GlobLanguage {
  import opened Bytes
  import opened Glob

  // ---------------------------------------------------------------------------
  // Patterns and their languages
  // ---------------------------------------------------------------------------

  datatype Range = One(c: char) | Span(lo: char, hi: char)

  datatype Pat = End | Then(item: Item, rest: Pat)

  datatype Item = Lit(c: char) | AnyChar | AnyString | Class(ranges: seq<Range>) | Braces(alts: Alts)

  datatype Alts = Last(pat: Pat) | More(pat: Pat, alts: Alts)

  predicate InRange(r: Range, c: char) {
    match r case One(d) => c == d case Span(lo, hi) => lo <= c <= hi
  }

  ghost predicate InClass(ranges: seq<Range>, c: char) {
    exists i :: 0 <= i < |ranges| && InRange(ranges[i], c)
  }

  // A pattern stands for the strings that can be cut into one piece for each of its items.
  ghost predicate Lang(p: Pat, s: string)
    decreases p
  {
    match p
    case End => s == ""
    case Then(item, rest) => exists i :: 0 <= i <= |s| && ItemLang(item, s[..i]) && Lang(rest, s[i..])
  }

  ghost predicate ItemLang(item: Item, s: string)
    decreases item
  {
    match item
    case Lit(c) => s == [c]
    case AnyChar => |s| == 1
    case AnyString => true
    case Class(ranges) => |s| == 1 && InClass(ranges, s[0])
    case Braces(alts) => AltsLang(alts, s)
  }

  ghost predicate AltsLang(alts: Alts, s: string)
    decreases alts
  {
    match alts
    case Last(p) => Lang(p, s)
    case More(p, more) => Lang(p, s) || AltsLang(more, s)
  }

  // How a pattern is written.
  function Text(p: Pat): string {
    match p case End => "" case Then(item, rest) => ItemText(item) + Text(rest)
  }

  function ItemText(item: Item): string {
    match item
    case Lit(c) => [c]
    case AnyChar => "?"
    case AnyString => "*"
    case Class(ranges) => "[" + RangesText(ranges) + "]"
    case Braces(alts) => "{" + AltsText(alts) + "}"
  }

  function RangeText(r: Range): string {
    match r case One(c) => [c] case Span(lo, hi) => [lo, '-', hi]
  }

  function RangesText(ranges: seq<Range>): string {
    if ranges == [] then "" else RangeText(ranges[0]) + RangesText(ranges[1..])
  }

  function AltsText(alts: Alts): string {
    match alts case Last(p) => Text(p) case More(p, more) => Text(p) + "," + AltsText(more)
  }

  // Literals stand for themselves, ranges are in order, and inside braces a comma or a closing
  // brace is not a literal.
  predicate ClassChar(c: char) {
    c != ']' && c != '-' && c != '/' && c as int < 128
  }

  predicate GoodRange(r: Range) {
    match r case One(c) => ClassChar(c) case Span(lo, hi) => ClassChar(lo) && ClassChar(hi) && lo <= hi
  }

  predicate Good(p: Pat, inside: bool) {
    match p case End => true case Then(item, rest) => GoodItem(item, inside) && Good(rest, inside)
  }

  predicate GoodItem(item: Item, inside: bool) {
    match item
    case Lit(c) => c !in "{[*?/" && (inside ==> c != ',' && c != '}')
    case Class(ranges) => forall i :: 0 <= i < |ranges| ==> GoodRange(ranges[i])
    case Braces(alts) => GoodAlts(alts)
    case _ => true
  }

  predicate GoodAlts(alts: Alts) {
    match alts case Last(p) => Good(p, true) case More(p, more) => Good(p, true) && GoodAlts(more)
  }

  function Cat(a: Pat, b: Pat): Pat {
    match a case End => b case Then(item, rest) => Then(item, Cat(rest, b))
  }

  // ---------------------------------------------------------------------------
  // Classes
  // ---------------------------------------------------------------------------

  lemma OneStep(c: char, d: char, t: string, lc: int, ok: bool)
    requires ClassChar(d)
    ensures ClassRest(c, [d] + t, lc, ok) == ClassRest(c, t, d as int, ok || c == d)
  {
    assert ([d] + t)[1..] == t;
  }

  // A range reads as a range although its upper end is taken for itself when c is too small.
  lemma SpanStep(c: char, lo: char, hi: char, t: string, lc: int, ok: bool)
    requires ClassChar(lo) && ClassChar(hi) && lo <= hi
    ensures ClassRest(c, [lo, '-', hi] + t, lc, ok)
            == ClassRest(c, t, if lo <= c then lo as int else hi as int, ok || lo <= c <= hi)
  {
    var t1 := ['-', hi] + t;
    assert [lo, '-', hi] + t == [lo] + t1;
    OneStep(c, lo, t1, lc, ok);
    if lo <= c {
      assert t1[2..] == t;
    } else {
      assert t1[1..] == [hi] + t;
      OneStep(c, hi, t, lo as int, ok);
    }
  }

  lemma {:induction false} ClassRead(c: char, ranges: seq<Range>, lc: int, ok: bool, rest: string)
    requires forall i :: 0 <= i < |ranges| ==> GoodRange(ranges[i])
    ensures ClassRest(c, RangesText(ranges) + "]" + rest, lc, ok) == if ok
            || InClass(ranges, c) then Some(rest) else None
    decreases |ranges|
  {
    hide InClass;
    var t := RangesText(ranges) + "]" + rest;
    if ranges == [] {
      EmptyClass(c);
      assert t == "]" + rest && t[1..] == rest;
    } else {
      var r, t1 := ranges[0], RangesText(ranges[1..]) + "]" + rest;
      assert t == RangeText(r) + t1;
      InClassFirst(ranges, c);
      match r
      case One(d) =>
        OneStep(c, d, t1, lc, ok);
        ClassRead(c, ranges[1..], d as int, ok || c == d, rest);
      case Span(lo, hi) =>
        SpanStep(c, lo, hi, t1, lc, ok);
        ClassRead(c, ranges[1..], if lo <= c then lo as int else hi as int, ok || lo <= c <= hi, rest);
    }
  }

  lemma EmptyClass(c: char)
    ensures !InClass([], c)
  {
  }

  lemma InClassFirst(ranges: seq<Range>, c: char)
    requires ranges != []
    ensures InClass(ranges, c) <==> InRange(ranges[0], c) || InClass(ranges[1..], c)
  {
    hide InRange;
    if InClass(ranges[1..], c) {
      var i :| 0 <= i < |ranges[1..]| && InRange(ranges[1..][i], c);
      assert InRange(ranges[i + 1], c);
    }
    if InClass(ranges, c) {
      var i :| 0 <= i < |ranges| && InRange(ranges[i], c);
      assert i == 0 || InRange(ranges[1..][i - 1], c);
    }
  }

  // ---------------------------------------------------------------------------
  // Scanning over a printed pattern
  // ---------------------------------------------------------------------------

  // A text that both scans, at this level, cross as one piece.
  ghost predicate Crosses(x: string, lev: nat) {
    forall rest :: CloseOver(x, rest, lev) && CutOver(x, rest, lev)
  }

  predicate CloseOver(x: string, rest: string, lev: nat) {
    CloseBrace(x + rest, lev) == Plus(|x|, CloseBrace(rest, lev))
  }

  predicate CutOver(x: string, rest: string, lev: nat) {
    Cut(x + rest, lev) == Prepend(x, Cut(rest, lev))
  }

  lemma PrependBoth(x: string, y: string, alts: seq<string>)
    requires alts != []
    ensures Prepend(x, Prepend(y, alts)) == Prepend(x + y, alts)
  {
    assert x + (y + alts[0]) == x + y + alts[0];
  }

  lemma NothingCrosses(lev: nat)
    ensures Crosses("", lev)
  {
    hide CloseBrace, Cut;
    forall rest: string ensures CloseOver("", rest, lev) && CutOver("", rest, lev) {
      assert "" + rest == rest;
      assert "" + Cut(rest, lev)[0] == Cut(rest, lev)[0];
    }
  }

  lemma BothCross(x: string, y: string, lev: nat)
    requires Crosses(x, lev) && Crosses(y, lev)
    ensures Crosses(x + y, lev)
  {
    hide CloseBrace, Cut, Prepend, Plus;
    forall rest: string ensures CloseOver(x + y, rest, lev) && CutOver(x + y, rest, lev) {
      assert x + y + rest == x + (y + rest);
      assert CloseOver(x, y + rest, lev) && CutOver(x, y + rest, lev);
      assert CloseOver(y, rest, lev) && CutOver(y, rest, lev);
      PlusBoth(|x|, |y|, CloseBrace(rest, lev));
      PrependBoth(x, y, Cut(rest, lev));
    }
  }

  // Inside braces a comma does not separate.
  lemma CharCrosses(c: char, lev: nat)
    requires c !in "{[}" && (c == ',' ==> lev > 0)
    ensures Crosses([c], lev)
  {
    hide Prepend, Plus;
    forall rest: string ensures CloseOver([c], rest, lev) && CutOver([c], rest, lev) {
      var t := [c] + rest;
      assert t[0] == c && t[1..] == rest && t[..1] == [c];
    }
  }

  lemma {:induction false} RangesHaveNoBracket(ranges: seq<Range>)
    requires forall i :: 0 <= i < |ranges| ==> GoodRange(ranges[i])
    ensures forall i :: 0 <= i < |RangesText(ranges)| ==> RangesText(ranges)[i] != ']'
  {
    if ranges != [] {
      RangesHaveNoBracket(ranges[1..]);
    }
  }

  lemma {:induction false} ClassLengthIs(x: string, rest: string)
    requires forall i :: 0 <= i < |x| ==> x[i] != ']'
    ensures ClassLength(x + "]" + rest) == |x| + 1
  {
    var t := x + "]" + rest;
    if x != "" {
      ClassLengthIs(x[1..], rest);
      assert t[1..] == x[1..] + "]" + rest;
    }
  }

  lemma ClassCrosses(ranges: seq<Range>, lev: nat)
    requires forall i :: 0 <= i < |ranges| ==> GoodRange(ranges[i])
    ensures Crosses("[" + RangesText(ranges) + "]", lev)
  {
    hide Prepend, Plus, RangesText;
    var x := RangesText(ranges);
    var y := "[" + x + "]";
    RangesHaveNoBracket(ranges);
    forall rest: string ensures CloseOver(y, rest, lev) && CutOver(y, rest, lev) {
      var t := y + rest;
      assert t[1..] == x + "]" + rest;
      ClassLengthIs(x, rest);
      assert t[2 + |x|..] == rest && t[..2 + |x|] == y;
    }
  }

  lemma OpenCross(rest: string, lev: nat)
    ensures CloseBrace("{" + rest, lev) == Plus(1, CloseBrace(rest, lev + 1))
    ensures Cut("{" + rest, lev) == Prepend("{", Cut(rest, lev + 1))
  {
    var t := "{" + rest;
    assert t[1..] == rest && t[..1] == "{";
  }

  lemma ShutCross(rest: string, lev: nat)
    ensures CloseBrace("}" + rest, lev + 1) == Plus(1, CloseBrace(rest, lev))
    ensures Cut("}" + rest, lev + 1) == Prepend("}", Cut(rest, lev))
  {
    var t := "}" + rest;
    assert t[1..] == rest && t[..1] == "}";
  }

  lemma BracesCross(x: string, lev: nat)
    requires Crosses(x, lev + 1)
    ensures Crosses("{" + x + "}", lev)
  {
    hide Prepend, Plus, CloseBrace, Cut;
    var y := "{" + x + "}";
    forall rest: string ensures CloseOver(y, rest, lev) && CutOver(y, rest, lev) {
      var u := "}" + rest;
      assert y + rest == "{" + (x + u);
      OpenCross(x + u, lev);
      assert CloseOver(x, u, lev + 1) && CutOver(x, u, lev + 1);
      ShutCross(rest, lev);
      PlusBoth(|x|, 1, CloseBrace(rest, lev));
      PlusBoth(1, |x| + 1, CloseBrace(rest, lev));
      PrependBoth("{", x, Cut(u, lev + 1));
      PrependBoth("{" + x, "}", Cut(rest, lev));
    }
  }

  lemma {:induction false} TextCrosses(p: Pat, lev: nat)
    requires Good(p, true)
    ensures Crosses(Text(p), lev)
    decreases p
  {
    hide Crosses;
    match p
    case End => NothingCrosses(lev);
    case Then(item, rest) =>
      ItemCrosses(item, lev);
      TextCrosses(rest, lev);
      BothCross(ItemText(item), Text(rest), lev);
  }

  lemma {:induction false} ItemCrosses(item: Item, lev: nat)
    requires GoodItem(item, true)
    ensures Crosses(ItemText(item), lev)
    decreases item
  {
    hide Crosses;
    match item
    case Lit(c) => CharCrosses(c, lev);
    case AnyChar => CharCrosses('?', lev);
    case AnyString => CharCrosses('*', lev);
    case Class(ranges) => ClassCrosses(ranges, lev);
    case Braces(alts) =>
      AltsCross(alts, lev + 1);
      BracesCross(AltsText(alts), lev);
  }

  lemma {:induction false} AltsCross(alts: Alts, lev: nat)
    requires GoodAlts(alts) && lev > 0
    ensures Crosses(AltsText(alts), lev)
    decreases alts
  {
    hide Crosses;
    TextCrosses(alts.pat, lev);
    if alts.More? {
      AltsCross(alts.alts, lev);
      CharCrosses(',', lev);
      BothCross(Text(alts.pat), ",", lev);
      BothCross(Text(alts.pat) + ",", AltsText(alts.alts), lev);
    }
  }

  // The alternatives as texts.
  function Texts(alts: Alts): seq<string> {
    match alts case Last(p) => [Text(p)] case More(p, more) => [Text(p)] + Texts(more)
  }

  lemma CrossesBefore(x: string, rest: string, lev: nat)
    requires Crosses(x, lev)
    ensures CloseBrace(x + rest, lev) == Plus(|x|, CloseBrace(rest, lev))
    ensures Cut(x + rest, lev) == Prepend(x, Cut(rest, lev))
  {
    hide CloseBrace, Cut, Prepend, Plus;
    assert CloseOver(x, rest, lev) && CutOver(x, rest, lev);
  }

  lemma SeparatorsStop(rest: string)
    ensures CloseBrace("}" + rest, 0) == Some(0)
    ensures CloseBrace("," + rest, 0) == Plus(1, CloseBrace(rest, 0))
    ensures Cut("," + rest, 0) == [""] + Cut(rest, 0)
  {
    assert ("," + rest)[1..] == rest;
  }

  // Scanning from an opening brace finds the brace that closes it.
  lemma {:induction false} CloseFound(alts: Alts, rest: string)
    requires GoodAlts(alts)
    ensures CloseBrace(AltsText(alts) + "}" + rest, 0) == Some(|AltsText(alts)|)
    decreases alts
  {
    hide CloseBrace, Cut, Crosses, Plus, Text, Good;
    var x := Text(alts.pat);
    TextCrosses(alts.pat, 0);
    if alts.Last? {
      SeparatorsStop(rest);
      CrossesBefore(x, "}" + rest, 0);
      PlusNothing(|x|);
      assert x + "}" + rest == x + ("}" + rest);
    } else {
      var u := AltsText(alts.alts) + "}" + rest;
      CloseFound(alts.alts, rest);
      SeparatorsStop(u);
      CrossesBefore(x, "," + u, 0);
      PlusBoth(|x|, 1, CloseBrace(u, 0));
      PlusNothing(|AltsText(alts.alts)|);
      PlusBoth(|x| + 1, |AltsText(alts.alts)|, Some(0));
      PlusNothing(|AltsText(alts)|);
      assert AltsText(alts) + "}" + rest == x + ("," + u);
    }
  }

  // Cutting what is between gives the alternatives.
  lemma {:induction false} CutFound(alts: Alts)
    requires GoodAlts(alts)
    ensures Cut(AltsText(alts), 0) == Texts(alts)
    decreases alts
  {
    hide CloseBrace, Cut, Crosses;
    var x := Text(alts.pat);
    TextCrosses(alts.pat, 0);
    if alts.Last? {
      CrossesBefore(x, "", 0);
      NothingToCut();
      assert x + "" == x;
    } else {
      var u := AltsText(alts.alts);
      CutFound(alts.alts);
      SeparatorsStop(u);
      CrossesBefore(x, "," + u, 0);
      assert AltsText(alts) == x + ("," + u);
      assert x + "" == x;
    }
  }

  lemma NothingToCut()
    ensures Cut("", 0) == [""]
  {
  }

  // ---------------------------------------------------------------------------
  // The strings a pattern stands for
  // ---------------------------------------------------------------------------

  // The strings that a piece of one pattern and a piece of the next make up.
  ghost predicate Splits(a: Pat, b: Pat, s: string) {
    exists i :: 0 <= i <= |s| && Lang(a, s[..i]) && Lang(b, s[i..])
  }

  lemma SplitsAt(a: Pat, b: Pat, s: string, i: nat)
    requires i <= |s| && Lang(a, s[..i]) && Lang(b, s[i..])
    ensures Splits(a, b, s)
  {
    hide Lang;
  }

  lemma {:induction false} CatLang(a: Pat, b: Pat, s: string)
    ensures Lang(Cat(a, b), s) <==> Splits(a, b, s)
    decreases a, 0
  {
    match a
    case End => CatEnd(b, s);
    case Then(item, rest) =>
      if Lang(Cat(a, b), s) { CatSplits(item, rest, b, s); }
      if Splits(a, b, s) { SplitsCat(item, rest, b, s); }
  }

  lemma CatEnd(b: Pat, s: string)
    ensures Lang(b, s) <==> Splits(End, b, s)
  {
    assert s[0..] == s && s[..0] == "";
    if Lang(b, s) { SplitsAt(End, b, s, 0); }
  }

  lemma ThenAt(item: Item, rest: Pat, s: string, i: nat)
    requires i <= |s| && ItemLang(item, s[..i]) && Lang(rest, s[i..])
    ensures Lang(Then(item, rest), s)
  {
    hide ItemLang;
  }

  lemma ThenPoint(item: Item, rest: Pat, s: string) returns (i: nat)
    requires Lang(Then(item, rest), s)
    ensures i <= |s| && ItemLang(item, s[..i]) && Lang(rest, s[i..])
  {
    hide ItemLang;
    i :| 0 <= i <= |s| && ItemLang(item, s[..i]) && Lang(rest, s[i..]);
  }

  lemma {:induction false} CatSplits(item: Item, rest: Pat, b: Pat, s: string)
    requires Lang(Then(item, Cat(rest, b)), s)
    ensures Splits(Then(item, rest), b, s)
    decreases rest, 1
  {
    hide ItemLang, Splits, Lang;
    var i := ThenPoint(item, Cat(rest, b), s);
    CatLang(rest, b, s[i..]);
    var k := SplitPoint(rest, b, s[i..]);
    assert s[..i + k][..i] == s[..i] && s[..i + k][i..] == s[i..][..k] && s[i + k..] == s[i..][k..];
    ThenAt(item, rest, s[..i + k], i);
    SplitsAt(Then(item, rest), b, s, i + k);
  }

  lemma SplitPoint(a: Pat, b: Pat, s: string) returns (i: nat)
    requires Splits(a, b, s)
    ensures i <= |s| && Lang(a, s[..i]) && Lang(b, s[i..])
  {
    i :| 0 <= i <= |s| && Lang(a, s[..i]) && Lang(b, s[i..]);
  }

  lemma {:induction false} SplitsCat(item: Item, rest: Pat, b: Pat, s: string)
    requires Splits(Then(item, rest), b, s)
    ensures Lang(Then(item, Cat(rest, b)), s)
    decreases rest, 1
  {
    hide ItemLang, Splits, Lang;
    var k := SplitPoint(Then(item, rest), b, s);
    var t := s[..k];
    var i := ThenPoint(item, rest, t);
    assert t[..i] == s[..i] && t[i..] == s[i..][..k - i] && s[k..] == s[i..][k - i..];
    SplitsAt(rest, b, s[i..], k - i);
    CatLang(rest, b, s[i..]);
    ThenAt(item, Cat(rest, b), s, i);
  }

  lemma {:induction false} CatText(a: Pat, b: Pat)
    requires Good(a, true) && Good(b, false)
    ensures Text(Cat(a, b)) == Text(a) + Text(b)
    ensures Good(Cat(a, b), false)
    decreases a
  {
    hide GoodAlts;
    if a.Then? {
      CatText(a.rest, b);
      assert ItemText(a.item) + (Text(a.rest) + Text(b)) == ItemText(a.item) + Text(a.rest) + Text(b);
    }
  }

  // An item that stands for single characters.
  lemma OneCharLang(item: Item, rest: Pat, s: string)
    requires item.Lit? || item.AnyChar? || item.Class?
    ensures Lang(Then(item, rest), s) <==> s != "" && ItemLang(item, s[..1]) && Lang(rest, s[1..])
  {
    hide InClass;
    if Lang(Then(item, rest), s) {
      var i :| 0 <= i <= |s| && ItemLang(item, s[..i]) && Lang(rest, s[i..]);
      assert |s[..i]| == 1 && i == 1;
    }
    if s != "" && ItemLang(item, s[..1]) && Lang(rest, s[1..]) {
      ThenAt(item, rest, s, 1);
    }
  }

  ghost predicate SuffixIn(p: Pat, s: string) {
    exists i :: 0 <= i <= |s| && Lang(p, s[i..])
  }

  lemma AnyStringLang(rest: Pat, s: string)
    ensures Lang(Then(AnyString, rest), s) <==> SuffixIn(rest, s)
  {
    if SuffixIn(rest, s) {
      var i :| 0 <= i <= |s| && Lang(rest, s[i..]);
      ThenAt(AnyString, rest, s, i);
    }
  }

  lemma SuffixNext(p: Pat, s: string)
    ensures SuffixIn(p, s) <==> Lang(p, s) || (s != "" && SuffixIn(p, s[1..]))
  {
    hide Lang;
    assert s[0..] == s;
    if s != "" && SuffixIn(p, s[1..]) {
      var i :| 0 <= i <= |s[1..]| && Lang(p, s[1..][i..]);
      assert s[1..][i..] == s[i + 1..];
    }
    if SuffixIn(p, s) {
      var i :| 0 <= i <= |s| && Lang(p, s[i..]);
      if i > 0 { assert s[i..] == s[1..][i - 1..]; }
    }
  }

  lemma AltsLangIs(alts: Alts, s: string)
    ensures ItemLang(Braces(alts), s) <==> Lang(alts.pat, s) || (alts.More? && ItemLang(Braces(alts.alts), s))
  {
  }

  // Braces stand for what each alternative stands for with the rest of the pattern behind it.
  lemma BracesLang(alts: Alts, rest: Pat, s: string)
    ensures Lang(Then(Braces(alts), rest), s) <==>
              Lang(Cat(alts.pat, rest), s) || (alts.More? && Lang(Then(Braces(alts.alts), rest), s))
  {
    hide Lang, ItemLang, Splits;
    CatLang(alts.pat, rest, s);
    if Lang(Then(Braces(alts), rest), s) {
      var i := ThenPoint(Braces(alts), rest, s);
      AltsLangIs(alts, s[..i]);
      if Lang(alts.pat, s[..i]) {
        SplitsAt(alts.pat, rest, s, i);
      } else if alts.More? {
        ThenAt(Braces(alts.alts), rest, s, i);
      }
    }
    if Splits(alts.pat, rest, s) {
      var i := SplitPoint(alts.pat, rest, s);
      AltsLangIs(alts, s[..i]);
      ThenAt(Braces(alts), rest, s, i);
    }
    if alts.More? && Lang(Then(Braces(alts.alts), rest), s) {
      var i := ThenPoint(Braces(alts.alts), rest, s);
      AltsLangIs(alts, s[..i]);
      ThenAt(Braces(alts), rest, s, i);
    }
  }

  // ---------------------------------------------------------------------------
  // The matcher accepts the language
  // ---------------------------------------------------------------------------

  lemma {:induction false} TextsShort(alts: Alts)
    ensures forall i :: 0 <= i < |Texts(alts)| ==> |Texts(alts)[i]| <= |AltsText(alts)|
    decreases alts
  {
    hide Text;
    if alts.More? { TextsShort(alts.alts); }
  }

  lemma NoSlash(p: Pat)
    requires Good(p, false)
    ensures Text(p) == "" <==> p == End
    ensures Text(p) != "" ==> Text(p)[0] != '/'
  {
  }

  lemma AmatchEmpty(s: string)
    ensures Amatch(s, "") <==> Lang(End, s)
  {
  }

  lemma AmatchClass(s: string, ranges: seq<Range>, rest: string)
    requires forall i :: 0 <= i < |ranges| ==> GoodRange(ranges[i])
    ensures Amatch(s, "[" + RangesText(ranges) + "]" + rest) <==>
              s != "" && InClass(ranges, s[0]) && Amatch(s[1..], rest)
  {
    hide ClassRest, InClass, GoodRange, RangesText;
    var t := "[" + RangesText(ranges) + "]" + rest;
    assert t[1..] == RangesText(ranges) + "]" + rest;
    if s != "" { ClassRead(s[0], ranges, NO_CHAR, false, rest); }
  }

  lemma AmatchChar(s: string, c: char, rest: string)
    requires c !in "{[*/"
    ensures Amatch(s, [c] + rest) <==> s != "" && (c == '?' || c == s[0]) && Amatch(s[1..], rest)
  {
    var t := [c] + rest;
    assert t[0] == c && t[1..] == rest;
  }

  lemma AmatchStar(s: string, rest: string)
    requires rest != "" ==> rest[0] != '/'
    ensures Amatch(s, "*" + rest) <==> rest == "" || SomeSuffix(s, rest)
  {
    var t := "*" + rest;
    assert t[0] == '*' && t[1..] == rest;
    assert rest != "" ==> t[1] == rest[0];
  }

  lemma AmatchBraces(s: string, alts: Alts, rest: string)
    requires GoodAlts(alts)
    ensures forall i :: 0 <= i < |Texts(alts)| ==> |Texts(alts)[i]| + |rest| < |AltsText(alts)| + |rest| + 1
    ensures Amatch(s, "{" + AltsText(alts) + "}" + rest) <==>
              SomeAlternative(s, Texts(alts), rest, |AltsText(alts)| + |rest| + 1)
  {
    hide SomeAlternative, AltsText, CloseBrace, Cut, Texts, GoodAlts;
    var x := AltsText(alts);
    var t := "{" + x + "}" + rest;
    assert t[0] == '{' && t[1..] == x + "}" + rest && t[1..1 + |x|] == x && t[2 + |x|..] == rest;
    CloseFound(alts, rest);
    CutFound(alts);
    TextsShort(alts);
    assert Amatch(s, t) == Execbrc(s, t);
  }

  /** The matcher accepts a string exactly when it is in the language of the pattern. */
  lemma {:induction false} AmatchIsLang(s: string, p: Pat)
    requires Good(p, false)
    ensures Amatch(s, Text(p)) <==> Lang(p, s)
    decreases |Text(p)|, 1, 0
  {
    hide Amatch, Lang;
    match p
    case End => AmatchEmpty(s);
    case Then(item, rest) => ItemIsLang(s, item, rest);
  }

  lemma {:induction false} ItemIsLang(s: string, item: Item, rest: Pat)
    requires GoodItem(item, false) && Good(rest, false)
    ensures Amatch(s, ItemText(item) + Text(rest)) <==> Lang(Then(item, rest), s)
    decreases |ItemText(item)| + |Text(rest)|, 0, 0
  {
    hide Amatch, Lang, SomeSuffix, SomeAlternative, Good, GoodAlts, GoodRange, AltsText, RangesText, Text, AltsLang;
    match item
    case AnyString =>
      NoSlash(rest);
      AmatchStar(s, Text(rest));
      AnyStringLang(rest, s);
      if rest == End { EndIsLast(s); } else { SuffixIsLang(s, rest); }
    case Braces(alts) =>
      AmatchBraces(s, alts, Text(rest));
      BracesAreLang(s, alts, rest, |AltsText(alts)| + |Text(rest)| + 1);
    case Class(ranges) =>
      AmatchClass(s, ranges, Text(rest));
      OneCharLang(item, rest, s);
      if s != "" { AmatchIsLang(s[1..], rest); }
    case _ =>
      AmatchChar(s, ItemText(item)[0], Text(rest));
      OneCharLang(item, rest, s);
      if s != "" { AmatchIsLang(s[1..], rest); }
  }

  lemma EndIsLast(s: string)
    ensures SuffixIn(End, s)
  {
    assert Lang(End, s[|s|..]);
  }

  lemma {:induction false} SuffixIsLang(s: string, p: Pat)
    requires Good(p, false)
    ensures SomeSuffix(s, Text(p)) <==> SuffixIn(p, s)
    decreases |Text(p)|, 2, |s|
  {
    hide Amatch, Lang, SuffixIn;
    AmatchIsLang(s, p);
    SuffixNext(p, s);
    if s != "" { SuffixIsLang(s[1..], p); }
  }

  lemma {:induction false} BracesAreLang(s: string, alts: Alts, rest: Pat, bound: nat)
    requires GoodAlts(alts) && Good(rest, false)
    requires forall i :: 0 <= i < |Texts(alts)| ==> |Texts(alts)[i]| + |Text(rest)| < bound
    ensures SomeAlternative(s, Texts(alts), Text(rest), bound) <==> Lang(Then(Braces(alts), rest), s)
    decreases |AltsText(alts)| + |Text(rest)|, 2, |AltsText(alts)|
  {
    hide Amatch, Lang, Good, Text;
    BracesLang(alts, rest, s);
    CatText(alts.pat, rest);
    AmatchIsLang(s, Cat(alts.pat, rest));
    if alts.More? {
      assert Texts(alts)[1..] == Texts(alts.alts);
      forall i | 0 <= i < |Texts(alts.alts)| ensures |Texts(alts.alts)[i]| + |Text(rest)| < bound {
        assert Texts(alts.alts)[i] == Texts(alts)[i + 1];
      }
      BracesAreLang(s, alts.alts, rest, bound);
    } else {
      assert Texts(alts)[1..] == [];
    }
  }
}
