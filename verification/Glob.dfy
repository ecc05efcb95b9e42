/** The csh-style matcher of the ftp client, text against text: literals, ?, *, character classes
    and nested braces. Strings are 7-bit and have no NUL. */
module Glob {
  import opened Bytes

  // ---------------------------------------------------------------------------
  // Matching text against text
  // ---------------------------------------------------------------------------

  const NO_CHAR := 0x7fff

  // A class after its opening bracket: what follows the closing bracket, if c is in the class. lc
  // is the last character that was read as itself; the upper end of a range is read as such only
  // if the lower end is not above c. A class the pattern does not close ends with it.
  function ClassRest(c: char, p: string, lc: int, ok: bool): (rest: Option<string>)
    ensures rest.Some? ==> |rest.value| <= |p|
    decreases |p|
  {
    if p == "" then if ok then Some("") else None
    else if p[0] == ']' then if ok then Some(p[1..]) else None
    else if p[0] == '-' && lc <= c as int then
      if |p| == 1 then if ok then Some("") else None else ClassRest(c, p[2..], lc, ok || c <= p[1])
    else if p[0] == '-' then ClassRest(c, p[1..], lc, ok)
    else ClassRest(c, p[1..], p[0] as int, ok || c == p[0])
  }

  // How much of the text a class takes up, behind its opening bracket.
  function ClassLength(t: string): (n: nat)
    ensures n <= |t|
  {
    if t == "" then 0 else if t[0] == ']' then 1 else 1 + ClassLength(t[1..])
  }

  function Plus(n: nat, r: Option<nat>): Option<nat> {
    if r.Some? then Some(n + r.value) else None
  }

  // Where the brace is that closes level 0.
  function CloseBrace(t: string, lev: nat): (r: Option<nat>)
    ensures r.Some? ==> r.value < |t|
    decreases |t|
  {
    if t == "" then None
    else if t[0] == '{' then Plus(1, CloseBrace(t[1..], lev + 1))
    else if t[0] == '}' then if lev == 0 then Some(0) else Plus(1, CloseBrace(t[1..], lev - 1))
    else if t[0] == '[' then Plus(1 + ClassLength(t[1..]), CloseBrace(t[1 + ClassLength(t[1..])..], lev))
    else Plus(1, CloseBrace(t[1..], lev))
  }

  function Prepend(x: string, alts: seq<string>): (r: seq<string>)
    requires alts != []
    ensures r != []
  {
    [x + alts[0]] + alts[1..]
  }

  // The alternatives between braces: the text cut at the commas of level 0.
  function Cut(t: string, lev: nat): (alts: seq<string>)
    ensures alts != [] && forall i :: 0 <= i < |alts| ==> |alts[i]| <= |t|
    decreases |t|
  {
    if t == "" then [""]
    else if t[0] == ',' && lev == 0 then [""] + Cut(t[1..], 0)
    else if t[0] == '[' then
      var n := 1 + ClassLength(t[1..]);
      Prepend(t[..n], Cut(t[n..], lev))
    else
      var lev1 := if t[0] == '{' then lev + 1 else if t[0] == '}' && lev > 0 then lev - 1 else lev;
      Prepend(t[..1], Cut(t[1..], lev1))
  }

  // What a slash does besides failing to match is not part of this.
  predicate Amatch(s: string, p: string)
    decreases |p|, 1, 0
  {
    if p == "" then s == ""
    else if p[0] == '{' then Execbrc(s, p)
    else if p[0] == '*' then |p| == 1 || (p[1] != '/' && SomeSuffix(s, p[1..]))
    else if s == "" || p[0] == '/' then false
    else if p[0] == '[' then
      var rest := ClassRest(s[0], p[1..], NO_CHAR, false);
      rest.Some? && Amatch(s[1..], rest.value)
    else (p[0] == '?' || p[0] == s[0]) && Amatch(s[1..], p[1..])
  }

  // The suffixes of s, longest first.
  predicate SomeSuffix(s: string, p: string)
    decreases |p|, 2, |s|
  {
    Amatch(s, p) || (s != "" && SomeSuffix(s[1..], p))
  }

  // The pattern is rebuilt once for each alternative; it gets shorter by at least the braces.
  predicate Execbrc(s: string, p: string)
    requires p != ""
    decreases |p|, 0, 0
  {
    var close := CloseBrace(p[1..], 0);
    close.Some? && SomeAlternative(s, Cut(p[1..1 + close.value], 0), p[2 + close.value..], |p| - 1)
  }

  predicate SomeAlternative(s: string, alts: seq<string>, rest: string, bound: nat)
    requires forall i :: 0 <= i < |alts| ==> |alts[i]| + |rest| < bound
    decreases bound, 0, |alts|
  {
    alts != [] && (Amatch(s, alts[0] + rest) || SomeAlternative(s, alts[1..], rest, bound))
  }

  // ---------------------------------------------------------------------------
  // The matcher
  // ---------------------------------------------------------------------------

  // One character of the pattern after the other, with pointers i and j into the two texts.
  method AMatch(s: string, p: string) returns (yes: bool)
    ensures yes == Amatch(s, p)
    decreases |p|, 1
  {
    hide *;
    var i, j := 0, 0;
    AtStart(s, p);
    while true
      invariant 0 <= i <= |s| && 0 <= j <= |p|
      invariant Amatch(s[i..], p[j..]) == Amatch(s, p)
      decreases |p| - j
    {
      AmatchHere(s, i, p, j);
      if j == |p| {
        return i == |s|;
      } else if p[j] == '{' {
        yes := ExecBrc(s[i..], p[j..]);
        return;
      } else if p[j] == '*' {
        if j + 1 == |p| { return true; }
        if p[j + 1] == '/' { return false; }
        yes := AnySuffix(s[i..], p[j + 1..]);
        return;
      } else if i == |s| || p[j] == '/' {
        return false;
      } else if p[j] == '[' {
        var rest := ReadClass(s[i], p, j + 1);
        if rest.None? { return false; }
        i, j := i + 1, rest.value;
      } else {
        if p[j] != '?' && p[j] != s[i] { return false; }
        i, j := i + 1, j + 1;
      }
    }
  }

  // The loop over a class; where the pattern goes on behind it.
  method ReadClass(c: char, p: string, start: nat) returns (rest: Option<nat>)
    requires start <= |p|
    ensures rest.Some? ==> start <= rest.value <= |p|
    ensures ClassRest(c, p[start..], NO_CHAR, false) == (if rest.Some? then Some(p[rest.value..]) else None)
  {
    hide *;
    var j, ok := start, false;
    var lc: int := NO_CHAR;
    while j < |p| && p[j] != ']'
      invariant start <= j <= |p|
      invariant ClassRest(c, p[start..], NO_CHAR, false) == ClassRest(c, p[j..], lc, ok)
    {
      ClassHere(c, p, j, lc, ok);
      if p[j] == '-' {
        j := j + 1;
        if lc <= c as int && j < |p| {
          ok := ok || c <= p[j];
          j := j + 1;
        }
      } else {
        lc := p[j] as int;
        ok := ok || c == p[j];
        j := j + 1;
      }
    }
    ClassHere(c, p, j, lc, ok);
    rest := if !ok then None else Some(if j < |p| then j + 1 else j);
  }

  method AnySuffix(s: string, p: string) returns (yes: bool)
    ensures yes == SomeSuffix(s, p)
    decreases |p|, 2
  {
    hide *;
    var i := 0;
    AllOf(s);
    while true
      invariant 0 <= i <= |s|
      invariant SomeSuffix(s[i..], p) == SomeSuffix(s, p)
      decreases |s| - i
    {
      SuffixHere(s, i, p);
      var found := AMatch(s[i..], p);
      if found || i == |s| { return found; }
      i := i + 1;
    }
  }

  // The length of a class behind its bracket, counting the closing one.
  method SkipClass(p: string, start: nat) returns (next: nat)
    requires start <= |p|
    ensures next == start + ClassLength(p[start..]) && next <= |p|
  {
    next := start;
    while next < |p| && p[next] != ']'
      invariant start <= next <= |p|
      invariant start + ClassLength(p[start..]) == next + ClassLength(p[next..])
    {
      assert p[next..][1..] == p[next + 1..];
      next := next + 1;
    }
    if next < |p| { next := next + 1; }
  }

  method FindClose(p: string) returns (close: Option<nat>)
    requires p != ""
    ensures close == Plus(1, CloseBrace(p[1..], 0))
  {
    hide *;
    var pe, lev := 1, 0;
    while pe < |p|
      invariant 1 <= pe <= |p|
      invariant Plus(1, CloseBrace(p[1..], 0)) == Plus(pe, CloseBrace(p[pe..], lev))
    {
      CloseHere(p, pe, lev);
      if p[pe] == '{' {
        pe, lev := pe + 1, lev + 1;
      } else if p[pe] == '}' {
        if lev == 0 { return Some(pe); }
        pe, lev := pe + 1, lev - 1;
      } else if p[pe] == '[' {
        pe := SkipClass(p, pe + 1);
      } else {
        pe := pe + 1;
      }
    }
    CloseNowhere(p, lev);
    close := None;
  }

  // The two scans: for the closing brace, then from comma to comma with one try for each
  // alternative.
  method ExecBrc(s: string, p: string) returns (yes: bool)
    requires p != ""
    ensures yes == Execbrc(s, p)
    decreases |p|, 0
  {
    hide *;
    var close := FindClose(p);
    ExecbrcIs(s, p);
    if close.None? { return false; }
    var pe := close.value;
    var pl, pm, lev := 1, 1, 0;
    TriesAtStart(s, p, pe);
    while true
      invariant 1 <= pl <= pm <= pe < |p|
      invariant CloseBrace(p[pm..], lev) == Some(pe - pm)
      invariant Tries(s, p, pl, pm, pe, lev) == Execbrc(s, p)
      decreases pe - pm
    {
      TriesHere(s, p, pl, pm, pe, lev);
      if p[pm] == '{' {
        pm, lev := pm + 1, lev + 1;
      } else if p[pm] == '}' && lev > 0 {
        pm, lev := pm + 1, lev - 1;
      } else if p[pm] == '}' || (p[pm] == ',' && lev == 0) {
        var found := AMatch(s, p[pl..pm] + p[pe + 1..]);
        if found || p[pm] == '}' { return found; }
        pl, pm := pm + 1, pm + 1;
      } else if p[pm] == '[' {
        pm := SkipClass(p, pm + 1);
      } else {
        pm := pm + 1;
      }
    }
  }

  // The tries still to be made, with the current alternative begun at pl and read up to pm.
  predicate Tries(s: string, p: string, pl: nat, pm: nat, pe: nat, lev: nat)
    requires 1 <= pl <= pm <= pe < |p|
  {
    SomeAlternative(s, Prepend(p[pl..pm], Cut(p[pm..pe], lev)), p[pe + 1..], |p| - 1)
  }

  lemma TriesAtStart(s: string, p: string, pe: nat)
    requires 1 <= pe < |p| && CloseBrace(p[1..], 0) == Some(pe - 1)
    ensures Tries(s, p, 1, 1, pe, 0) == Execbrc(s, p)
  {
    hide CloseBrace, Cut, SomeAlternative;
    var alts := Cut(p[1..pe], 0);
    assert p[1..1] + alts[0] == alts[0];
    assert Prepend(p[1..1], alts) == alts;
  }

  // The next piece goes to the current alternative.
  lemma TriesGoOn(s: string, p: string, pl: nat, pm: nat, next: nat, pe: nat, lev: nat, lev1: nat)
    requires 1 <= pl <= pm < next <= pe < |p|
    requires Cut(p[pm..pe], lev) == Prepend(p[pm..next], Cut(p[next..pe], lev1))
    ensures Tries(s, p, pl, pm, pe, lev) == Tries(s, p, pl, next, pe, lev1)
  {
    hide Cut, SomeAlternative;
    var alts := Cut(p[next..pe], lev1);
    assert p[pl..pm] + (p[pm..next] + alts[0]) == p[pl..next] + alts[0];
    assert Prepend(p[pl..pm], Prepend(p[pm..next], alts)) == Prepend(p[pl..next], alts);
  }

  lemma CutHere(p: string, pm: nat, pe: nat, lev: nat)
    requires pm < pe <= |p| && p[pm] != '[' && (p[pm] == ',' ==> lev > 0)
    ensures var lev1 := if p[pm] == '{' then lev + 1 else if p[pm] == '}' && lev > 0 then lev - 1 else lev;
            Cut(p[pm..pe], lev) == Prepend(p[pm..pm + 1], Cut(p[pm + 1..pe], lev1))
  {
    hide Prepend;
    var t := p[pm..pe];
    assert t[1..] == p[pm + 1..pe] && t[..1] == p[pm..pm + 1] && t[0] == p[pm];
  }

  lemma {:induction false} ClassLengthWithin(t: string, k: nat)
    requires ClassLength(t) <= k <= |t|
    ensures ClassLength(t[..k]) == ClassLength(t)
  {
    if t != "" && t[0] != ']' {
      ClassLengthWithin(t[1..], k - 1);
      assert t[..k][1..] == t[1..][..k - 1];
    }
  }

  lemma CutClass(p: string, pm: nat, pe: nat, lev: nat)
    requires pm < pe <= |p| && p[pm] == '[' && pm + 1 + ClassLength(p[pm + 1..]) <= pe
    ensures var n := pm + 1 + ClassLength(p[pm + 1..]);
            Cut(p[pm..pe], lev) == Prepend(p[pm..n], Cut(p[n..pe], lev))
  {
    hide Prepend;
    var t, n := p[pm..pe], ClassLength(p[pm + 1..]);
    ClassLengthWithin(p[pm + 1..], pe - pm - 1);
    assert t[1..] == p[pm + 1..][..pe - pm - 1];
    assert t[..1 + n] == p[pm..pm + 1 + n] && t[1 + n..] == p[pm + 1 + n..pe];
  }

  // A closing brace of level 0, or a comma of level 0, ends an alternative.
  lemma TriesNext(s: string, p: string, pl: nat, pm: nat, pe: nat)
    requires 1 <= pl <= pm <= pe < |p|
    ensures pm == pe ==> Tries(s, p, pl, pm, pe, 0) == Amatch(s, p[pl..pm] + p[pe + 1..])
    ensures pm < pe && p[pm] == ',' ==>
              Tries(s, p, pl, pm, pe, 0) == (Amatch(s, p[pl..pm] + p[pe + 1..]) || Tries(s, p, pm + 1, pm + 1, pe, 0))
  {
    hide Amatch, CloseBrace;
    assert p[pl..pm] + "" == p[pl..pm];
    if pm == pe {
      assert Prepend(p[pl..pm], Cut("", 0)) == [p[pl..pm]];
      assert p[pm..pe] == "";
      OneAlternative(s, p[pl..pm], p[pe + 1..], |p| - 1);
    } else if p[pm] == ',' {
      assert p[pm..pe][1..] == p[pm + 1..pe];
      var alts := Cut(p[pm + 1..pe], 0);
      assert Cut(p[pm..pe], 0) == [""] + alts;
      assert p[pm + 1..pm + 1] + alts[0] == alts[0];
      assert Prepend(p[pm + 1..pm + 1], alts) == alts;
      assert Prepend(p[pl..pm], [""] + alts) == [p[pl..pm]] + alts;
      assert ([p[pl..pm]] + alts)[1..] == alts;
    }
  }

  lemma OneAlternative(s: string, alt: string, rest: string, bound: nat)
    requires |alt| + |rest| < bound
    ensures SomeAlternative(s, [alt], rest, bound) == Amatch(s, alt + rest)
  {
    hide Amatch;
    assert [alt][1..] == [];
  }

  lemma TriesHere(s: string, p: string, pl: nat, pm: nat, pe: nat, lev: nat)
    requires 1 <= pl <= pm <= pe < |p| && CloseBrace(p[pm..], lev) == Some(pe - pm)
    ensures var next := if p[pm] == '[' then pm + 1 + ClassLength(p[pm + 1..]) else pm + 1;
            var lev1 := if p[pm] == '{' then lev + 1 else if p[pm] == '}' && lev > 0 then lev - 1 else lev;
            var ends := lev == 0 && p[pm] in ",}";
            && (p[pm] == '}' && lev == 0 ==> pm == pe)
            && (p[pm] != '}' || lev > 0 ==> next <= pe && CloseBrace(p[next..], lev1) == Some(pe - next))
            && (!ends ==> Tries(s, p, pl, pm, pe, lev) == Tries(s, p, pl, next, pe, lev1))
            && (ends ==>
                  Tries(s, p, pl, pm, pe, lev)
                  == (Amatch(s, p[pl..pm] + p[pe + 1..]) || (pm < pe && Tries(s, p, next, next, pe, 0))))
  {
    hide Amatch, CloseBrace, Cut, Tries;
    CloseHere(p, pm, lev);
    TriesNext(s, p, pl, pm, pe);
    if !(lev == 0 && p[pm] in ",}") {
      if p[pm] == '[' {
        CutClass(p, pm, pe, lev);
        TriesGoOn(s, p, pl, pm, pm + 1 + ClassLength(p[pm + 1..]), pe, lev, lev);
      } else {
        var lev1 := if p[pm] == '{' then lev + 1 else if p[pm] == '}' && lev > 0 then lev - 1 else lev;
        CutHere(p, pm, pe, lev);
        TriesGoOn(s, p, pl, pm, pm + 1, pe, lev, lev1);
      }
    }
  }

  lemma AllOf(s: string)
    ensures s[0..] == s
  {
  }

  lemma AtStart(s: string, p: string)
    ensures Amatch(s[0..], p[0..]) == Amatch(s, p)
  {
    hide Amatch;
    AllOf(s);
    AllOf(p);
  }

  lemma AmatchHere(s: string, i: nat, p: string, j: nat)
    requires i <= |s| && j <= |p|
    ensures j == |p| ==> Amatch(s[i..], p[j..]) == (i == |s|)
    ensures j < |p| && p[j] == '{' ==> Amatch(s[i..], p[j..]) == Execbrc(s[i..], p[j..])
    ensures j < |p| && p[j] == '*' ==>
              Amatch(s[i..], p[j..]) == (j + 1 == |p| || (p[j + 1] != '/' && SomeSuffix(s[i..], p[j + 1..])))
    ensures (j < |p| && p[j] !in "{*" && (i == |s| || p[j] == '/')) ==> !Amatch(s[i..], p[j..])
    ensures (j < |p| && p[j] == '[' && i < |s|) ==> (
      var rest := ClassRest(s[i], p[j + 1..], NO_CHAR, false);
      Amatch(s[i..], p[j..]) == (rest.Some? && Amatch(s[i + 1..], rest.value)))
    ensures (j < |p| && p[j] !in "{*[/" && i < |s|) ==>
              Amatch(s[i..], p[j..]) == ((p[j] == '?' || p[j] == s[i]) && Amatch(s[i + 1..], p[j + 1..]))
  {
    hide Execbrc, SomeSuffix, ClassRest;
    if j < |p| { assert p[j..][1..] == p[j + 1..] && p[j..][0] == p[j]; }
    if i < |s| { assert s[i..][1..] == s[i + 1..] && s[i..][0] == s[i]; }
  }

  lemma ClassHere(c: char, p: string, j: nat, lc: int, ok: bool)
    requires j <= |p|
    ensures j == |p| ==> ClassRest(c, p[j..], lc, ok) == (if ok then Some(p[j..]) else None)
    ensures j < |p| && p[j] == ']' ==> ClassRest(c, p[j..], lc, ok) == (if ok then Some(p[j + 1..]) else None)
    ensures (j + 1 < |p| && p[j] == '-' && lc <= c as int) ==>
              ClassRest(c, p[j..], lc, ok) == ClassRest(c, p[j + 2..], lc, ok || c <= p[j + 1])
    ensures (j < |p| && p[j] == '-' && (lc > c as int || j + 1 == |p|)) ==>
              ClassRest(c, p[j..], lc, ok) == ClassRest(c, p[j + 1..], lc, ok)
    ensures j < |p| && p[j] !in "]-" ==>
              ClassRest(c, p[j..], lc, ok) == ClassRest(c, p[j + 1..], p[j] as int, ok || c == p[j])
  {
    if j < |p| {
      assert p[j..][1..] == p[j + 1..];
      if j + 1 < |p| { assert p[j..][2..] == p[j + 2..]; }
    }
  }

  lemma SuffixHere(s: string, i: nat, p: string)
    requires i <= |s|
    ensures SomeSuffix(s[i..], p) == (Amatch(s[i..], p) || (i < |s| && SomeSuffix(s[i + 1..], p)))
  {
    hide Amatch;
    if i < |s| { assert s[i..][1..] == s[i + 1..]; }
  }

  lemma PlusBoth(m: nat, n: nat, r: Option<nat>)
    ensures Plus(m, Plus(n, r)) == Plus(m + n, r)
  {
  }

  lemma PlusNothing(m: nat)
    ensures Plus(m, Some(0)) == Some(m)
  {
  }

  lemma CloseHere(p: string, i: nat, lev: nat)
    requires i < |p|
    ensures p[i] == '}' && lev == 0 ==> Plus(i, CloseBrace(p[i..], lev)) == Some(i)
    ensures (p[i] != '}' || lev > 0) ==> (
      var n := i + 1 + if p[i] == '[' then ClassLength(p[i + 1..]) else 0;
      var lev1 := if p[i] == '{' then lev + 1 else if p[i] == '}' then lev - 1 else lev;
      Plus(i, CloseBrace(p[i..], lev)) == Plus(n, CloseBrace(p[n..], lev1)))
  {
    hide Plus, ClassLength;
    PlusNothing(i);
    if p[i] != '}' || lev > 0 {
      var n := 1 + if p[i] == '[' then ClassLength(p[i + 1..]) else 0;
      var lev1 := if p[i] == '{' then lev + 1 else if p[i] == '}' then lev - 1 else lev;
      var t := p[i..];
      assert t[1..] == p[i + 1..] && t[n..] == p[i + n..] && t[0] == p[i];
      PlusBoth(i, n, CloseBrace(p[i + n..], lev1));
    }
  }

  lemma CloseNowhere(p: string, lev: nat)
    ensures CloseBrace(p[|p|..], lev) == None && forall n :: Plus(n, None) == None
  {
  }

  lemma ExecbrcIs(s: string, p: string)
    requires p != ""
    ensures var close := Plus(1, CloseBrace(p[1..], 0));
            close.Some? ==> 1 <= close.value < |p| && CloseBrace(p[1..], 0) == Some(close.value - 1)
    ensures var close := Plus(1, CloseBrace(p[1..], 0));
            Execbrc(s, p) == (close.Some?
                              && SomeAlternative(s, Cut(p[1..close.value], 0), p[close.value + 1..], |p| - 1))
  {
  }
}
