/** A version pin inside a YAML text, as the promotion script finds and replaces it.

    The pattern is a line that starts with the key and a colon, then white space, 40 hexadecimal
    digits, white space, and the end of a line.  White space may run over line breaks. */
module PinText {
  import opened Text
  import opened Wrappers

  const SHA_LENGTH := 40

  predicate IsSha(s: string) {
    |s| == SHA_LENGTH && forall c | c in s :: IsHex(c)
  }

  /** A key without white space and colons, as all the pins' names are. */
  predicate IsKey(k: string) {
    forall c | c in k :: !IsSpace(c) && c != ':'
  }

  predicate SpacesIn(t: string, from: nat, to: nat)
    requires from <= to <= |t|
  {
    forall j | from <= j < to :: IsSpace(t[j])
  }

  predicate HexIn(t: string, from: nat, to: nat)
    requires from <= to <= |t|
  {
    forall j | from <= j < to :: IsHex(t[j])
  }

  predicate LineStart(t: string, i: nat) {
    i == 0 || (i <= |t| && t[i - 1] == '\n')
  }

  predicate LineEnd(t: string, e: nat) {
    e == |t| || (e < |t| && t[e] == '\n')
  }

  /** The language of the pattern: it matches from i to e, with the digits from w on. */
  ghost predicate IsMatch(t: string, k: string, i: nat, w: nat, e: nat) {
    && i + |k| < w && w + SHA_LENGTH <= e <= |t|
    && LineStart(t, i) && t[i..i + |k|] == k && t[i + |k|] == ':'
    && SpacesIn(t, i + |k| + 1, w)
    && HexIn(t, w, w + SHA_LENGTH)
    && SpacesIn(t, w + SHA_LENGTH, e) && LineEnd(t, e)
  }

  /** The end of the white space that starts here. */
  function SkipSpaces(t: string, p: nat): (r: nat)
    requires p <= |t|
    ensures p <= r <= |t| && SpacesIn(t, p, r) && (r < |t| ==> !IsSpace(t[r]))
    decreases |t| - p
  {
    if p < |t| && IsSpace(t[p]) then SkipSpaces(t, p + 1) else p
  }

  /** White space up to the end of some line. */
  predicate EndsLine(t: string, p: nat)
    requires p <= |t|
    ensures EndsLine(t, p) <==> exists e | p <= e <= |t| :: SpacesIn(t, p, e) && LineEnd(t, e)
    decreases |t| - p
  {
    if LineEnd(t, p) then
      assert SpacesIn(t, p, p);
      true
    else if IsSpace(t[p]) then
      assert forall e | p + 1 <= e <= |t| :: SpacesIn(t, p, e) <==> SpacesIn(t, p + 1, e);
      EndsLine(t, p + 1)
    else
      assert forall e | p < e <= |t| :: !SpacesIn(t, p, e);
      false
  }

  lemma HexIsVisible(c: char)
    requires IsHex(c)
    ensures !IsSpace(c) && c != ':' && c != '\n'
  {
    VisibleIsNotSpace(c);
    BlankIsSpace('\n');
  }

  /** Tries the pattern at one place: the digits can only start where the white space ends. */
  function WindowAt(t: string, k: string, i: nat): (r: Option<nat>)
    requires i <= |t|
  {
    if !LineStart(t, i) || |t| <= i + |k| || t[i..i + |k|] != k || t[i + |k|] != ':' then None
    else
      var w := SkipSpaces(t, i + |k| + 1);
      if w + SHA_LENGTH <= |t| && HexIn(t, w, w + SHA_LENGTH) && EndsLine(t, w + SHA_LENGTH) then Some(w) else None
  }

  lemma WindowMatches(t: string, k: string, i: nat)
    requires i <= |t|
    ensures WindowAt(t, k, i).Some? ==> exists e :: IsMatch(t, k, i, WindowAt(t, k, i).value, e)
  {
    if WindowAt(t, k, i).Some? {
      var w := WindowAt(t, k, i).value;
      var e: nat :| w + SHA_LENGTH <= e <= |t| && SpacesIn(t, w + SHA_LENGTH, e) && LineEnd(t, e);
      assert IsMatch(t, k, i, w, e);
    }
  }

  lemma MatchIsWindow(t: string, k: string, i: nat, w: nat, e: nat)
    requires IsMatch(t, k, i, w, e)
    ensures WindowAt(t, k, i) == Some(w)
  {
    var r := SkipSpaces(t, i + |k| + 1);
    HexIsVisible(t[w]);
    assert r >= w;
    assert r == w;
  }

  /** re.search from here on: the place of the leftmost match and of its digits. */
  function Search(t: string, k: string, i: nat): (r: Option<(nat, nat)>)
    requires i <= |t|
    decreases |t| - i
  {
    match WindowAt(t, k, i)
    case Some(w) => Some((i, w))
    case None => if i < |t| then Search(t, k, i + 1) else None
  }

  lemma {:induction false} SearchFinds(t: string, k: string, i: nat)
    requires i <= |t|
    ensures var m := Search(t, k, i);
            && (m.Some? ==> i <= m.value.0 <= |t| && WindowAt(t, k, m.value.0) == Some(m.value.1))
            && forall j | i <= j < if m.Some? then m.value.0 else |t| + 1 :: WindowAt(t, k, j).None?
    decreases |t| - i
  {
    if WindowAt(t, k, i).None? && i < |t| {
      SearchFinds(t, k, i + 1);
    }
  }

  /** Two texts in which every place looks the same to the pattern are searched alike. */
  lemma {:induction false} SearchAlike(t: string, u: string, k: string, i: nat)
    requires |t| == |u| && i <= |t|
    requires forall j | i <= j <= |t| :: WindowAt(t, k, j) == WindowAt(u, k, j)
    ensures Search(t, k, i) == Search(u, k, i)
    decreases |t| - i
  {
    if WindowAt(t, k, i).None? && i < |t| {
      SearchAlike(t, u, k, i + 1);
    }
  }

  /** find_pin. */
  function FindPin(t: string, k: string): Option<string> {
    match Search(t, k, 0)
    case None => None
    case Some(m) => if m.1 + SHA_LENGTH <= |t| then Some(t[m.1..m.1 + SHA_LENGTH]) else None
  }

  /** The text with other digits in the window of the leftmost match; the same text without one. */
  function PutPin(t: string, k: string, sha: string): string {
    match Search(t, k, 0)
    case None => t
    case Some(m) => if m.1 + SHA_LENGTH <= |t| then Replaced(t, m.1, sha) else t
  }

  function Replaced(t: string, w: nat, sha: string): string
    requires w + SHA_LENGTH <= |t|
  {
    t[..w] + sha + t[w + SHA_LENGTH..]
  }

  /** What surrounds the digits of a match. */
  ghost predicate IsWindow(t: string, w: nat) {
    && 0 < w && w + SHA_LENGTH <= |t|
    && HexIn(t, w, w + SHA_LENGTH)
    && (IsSpace(t[w - 1]) || t[w - 1] == ':')
    && (w + SHA_LENGTH < |t| ==> IsSpace(t[w + SHA_LENGTH]))
  }

  lemma MatchHasWindow(t: string, k: string, i: nat, w: nat, e: nat)
    requires IsMatch(t, k, i, w, e)
    ensures IsWindow(t, w)
  {
  }

  /** The texts differ at most in the digits of one window. */
  ghost predicate Alike(t: string, u: string, w: nat) {
    && |t| == |u| && w + SHA_LENGTH <= |t|
    && HexIn(t, w, w + SHA_LENGTH) && HexIn(u, w, w + SHA_LENGTH)
    && forall j | 0 <= j < |t| && !(w <= j < w + SHA_LENGTH) :: t[j] == u[j]
  }

  lemma ReplacedAlike(t: string, w: nat, sha: string)
    requires w + SHA_LENGTH <= |t| && HexIn(t, w, w + SHA_LENGTH) && IsSha(sha)
    ensures Alike(t, Replaced(t, w, sha), w)
    ensures Replaced(t, w, sha)[w..w + SHA_LENGTH] == sha
  {
  }

  lemma AlikeAt(t: string, u: string, w: nat, j: nat)
    requires Alike(t, u, w) && j < |t|
    ensures IsSpace(t[j]) == IsSpace(u[j]) && IsHex(t[j]) == IsHex(u[j])
    ensures (t[j] == '\n') == (u[j] == '\n') && (t[j] == ':') == (u[j] == ':')
  {
    if w <= j < w + SHA_LENGTH {
      HexIsVisible(t[j]);
      HexIsVisible(u[j]);
    }
  }

  lemma NameIsVisible(t: string, k: string, i: nat)
    requires IsKey(k) && i + |k| <= |t| && t[i..i + |k|] == k
    ensures forall j | i <= j < i + |k| :: !IsSpace(t[j]) && t[j] != ':' && t[j] != '\n'
  {
    BlankIsSpace('\n');
    forall j | i <= j < i + |k| ensures !IsSpace(t[j]) && t[j] != ':' && t[j] != '\n' {
      assert t[j] == k[j - i];
    }
  }

  /** The name of a pin never reaches into a window. */
  lemma NameAvoidsWindow(t: string, k: string, i: nat, w: nat)
    requires IsWindow(t, w) && IsKey(k)
    requires LineStart(t, i) && i + |k| < |t| && t[i..i + |k|] == k && t[i + |k|] == ':'
    ensures i + |k| < w || w + SHA_LENGTH <= i
  {
  }

  /** Other digits in one window change no match, of whatever key. */
  lemma MatchSurvives(t: string, u: string, w: nat, k: string, i: nat, v: nat, e: nat)
    requires IsWindow(t, w) && Alike(t, u, w) && IsKey(k) && IsMatch(t, k, i, v, e)
    ensures IsMatch(u, k, i, v, e)
  {
    NameAvoidsWindow(t, k, i, w);
    assert u[i..i + |k|] == t[i..i + |k|];
    if i > 0 {
      AlikeAt(t, u, w, i - 1);
    }
    if e < |t| {
      AlikeAt(t, u, w, e);
    }
    forall j | 0 <= j < |t| ensures IsSpace(t[j]) == IsSpace(u[j]) && IsHex(t[j]) == IsHex(u[j]) {
      AlikeAt(t, u, w, j);
    }
  }

  lemma WindowSurvives(t: string, u: string, w: nat)
    requires IsWindow(t, w) && Alike(t, u, w)
    ensures IsWindow(u, w) && Alike(u, t, w)
  {
  }

  lemma PlaceSurvives(t: string, u: string, w: nat, k: string, i: nat)
    requires IsWindow(t, w) && Alike(t, u, w) && IsKey(k) && i <= |t|
    ensures WindowAt(u, k, i) == WindowAt(t, k, i)
  {
    WindowMatches(t, k, i);
    WindowMatches(u, k, i);
    if WindowAt(t, k, i).Some? {
      var e: nat :| IsMatch(t, k, i, WindowAt(t, k, i).value, e);
      MatchSurvives(t, u, w, k, i, WindowAt(t, k, i).value, e);
      MatchIsWindow(u, k, i, WindowAt(t, k, i).value, e);
    } else if WindowAt(u, k, i).Some? {
      var e: nat :| IsMatch(u, k, i, WindowAt(u, k, i).value, e);
      WindowSurvives(t, u, w);
      MatchSurvives(u, t, w, k, i, WindowAt(u, k, i).value, e);
      MatchIsWindow(t, k, i, WindowAt(u, k, i).value, e);
    }
  }

  lemma SearchSurvives(t: string, u: string, w: nat, k: string)
    requires IsWindow(t, w) && Alike(t, u, w) && IsKey(k)
    ensures Search(u, k, 0) == Search(t, k, 0)
  {
    forall i | 0 <= i <= |t| ensures WindowAt(t, k, i) == WindowAt(u, k, i) {
      PlaceSurvives(t, u, w, k, i);
    }
    SearchAlike(t, u, k, 0);
  }

  /** The match that a search comes upon. */
  lemma Found(t: string, k: string) returns (i: nat, w: nat, e: nat)
    requires Search(t, k, 0).Some?
    ensures Search(t, k, 0) == Some((i, w)) && IsMatch(t, k, i, w, e) && IsWindow(t, w)
  {
    SearchFinds(t, k, 0);
    i, w := Search(t, k, 0).value.0, Search(t, k, 0).value.1;
    WindowMatches(t, k, i);
    e :| IsMatch(t, k, i, w, e);
    MatchHasWindow(t, k, i, w, e);
  }

  /** No match is missed, and none lies before the one that is found. */
  lemma SearchIsLeftmost(t: string, k: string, j: nat, v: nat, f: nat)
    requires IsMatch(t, k, j, v, f)
    ensures Search(t, k, 0).Some? && Search(t, k, 0).value.0 <= j
  {
    SearchFinds(t, k, 0);
    MatchIsWindow(t, k, j, v, f);
  }

  /** The pin that is found is the one on the first line that looks like it. */
  lemma FindPinIsLeftmost(t: string, k: string)
    ensures match FindPin(t, k)
            case None => forall i: nat, w: nat, e: nat :: !IsMatch(t, k, i, w, e)
            case Some(sha) =>
              exists i: nat, w: nat, e: nat :: IsMatch(t, k, i, w, e) && sha == t[w..w + SHA_LENGTH]
                && forall j: nat, v: nat, f: nat :: IsMatch(t, k, j, v, f) ==> i <= j
  {
    forall j: nat, v: nat, f: nat | IsMatch(t, k, j, v, f)
      ensures Search(t, k, 0).Some? && Search(t, k, 0).value.0 <= j
    {
      SearchIsLeftmost(t, k, j, v, f);
    }
    if Search(t, k, 0).Some? {
      var i, w, e := Found(t, k);
      assert IsMatch(t, k, i, w, e) && FindPin(t, k).value == t[w..w + SHA_LENGTH];
    }
  }

  // ----- the laws of the lens -----

  /** After an update every pin is found where it was; the updated one reads the new digits. */
  lemma PutThenFind(t: string, k: string, sha: string)
    requires FindPin(t, k).Some? && IsSha(sha) && IsKey(k)
    ensures FindPin(PutPin(t, k, sha), k) == Some(sha)
  {
    var i, w, e := Found(t, k);
    ReplacedAlike(t, w, sha);
    SearchSurvives(t, PutPin(t, k, sha), w, k);
  }

  /** Two pins with different names never share a digit. */
  lemma WindowsApart(t: string, k: string, i: nat, w: nat, e: nat, k2: string, i2: nat, w2: nat, e2: nat)
    requires IsMatch(t, k, i, w, e) && IsMatch(t, k2, i2, w2, e2) && IsKey(k) && IsKey(k2) && k != k2
    requires w <= w2
    ensures w + SHA_LENGTH <= w2
  {
    if w < w2 < w + SHA_LENGTH {
      MatchHasWindow(t, k2, i2, w2, e2);
      HexIsVisible(t[w2 - 1]);
    } else if w == w2 {
      SameWindowSameName(t, k, i, k2, i2, w, e, e2);
    }
  }

  lemma SameWindowSameName(t: string, k: string, i: nat, k2: string, i2: nat, w: nat, e: nat, e2: nat)
    requires IsMatch(t, k, i, w, e) && IsMatch(t, k2, i2, w, e2) && IsKey(k) && IsKey(k2)
    ensures k == k2
  {
    VisibleIsNotSpace(':');
    NameIsVisible(t, k, i);
    NameIsVisible(t, k2, i2);
    assert i + |k| == i2 + |k2|;
    assert i == i2;
  }

  lemma WindowsDisjoint(t: string, k: string, w: nat, k2: string, w2: nat)
    requires Search(t, k, 0).Some? && Search(t, k, 0).value.1 == w && IsKey(k)
    requires Search(t, k2, 0).Some? && Search(t, k2, 0).value.1 == w2 && IsKey(k2)
    requires k != k2
    ensures w + SHA_LENGTH <= w2 || w2 + SHA_LENGTH <= w
  {
    var i, v, e := Found(t, k);
    var i2, v2, e2 := Found(t, k2);
    if w <= w2 {
      WindowsApart(t, k, i, w, e, k2, i2, w2, e2);
    } else {
      WindowsApart(t, k2, i2, w2, e2, k, i, w, e);
    }
  }

  lemma SameElsewhere(t: string, u: string, w: nat, w2: nat)
    requires Alike(t, u, w) && w2 + SHA_LENGTH <= |t|
    requires w + SHA_LENGTH <= w2 || w2 + SHA_LENGTH <= w
    ensures u[w2..w2 + SHA_LENGTH] == t[w2..w2 + SHA_LENGTH]
  {
  }

  lemma PutThenFindOther(t: string, k: string, sha: string, k2: string)
    requires IsSha(sha) && IsKey(k) && IsKey(k2) && k != k2
    ensures FindPin(PutPin(t, k, sha), k2) == FindPin(t, k2)
  {
    if Search(t, k, 0).Some? {
      var i, w, e := Found(t, k);
      var u := PutPin(t, k, sha);
      ReplacedAlike(t, w, sha);
      SearchSurvives(t, u, w, k2);
      if Search(t, k2, 0).Some? {
        var i2, w2, e2 := Found(t, k2);
        WindowsDisjoint(t, k, w, k2, w2);
        SameElsewhere(t, u, w, w2);
      }
    }
  }

  lemma ReplacedTwice(t: string, w: nat, a: string, b: string)
    requires w + SHA_LENGTH <= |t| && |a| == SHA_LENGTH
    ensures |Replaced(t, w, a)| == |t| && Replaced(Replaced(t, w, a), w, b) == Replaced(t, w, b)
  {
  }

  /** A second update of a pin replaces the first. */
  lemma PutThenPut(t: string, k: string, a: string, b: string)
    requires IsSha(a) && IsSha(b) && IsKey(k)
    ensures PutPin(PutPin(t, k, a), k, b) == PutPin(t, k, b)
  {
    if Search(t, k, 0).Some? {
      var i, w, e := Found(t, k);
      ReplacedAlike(t, w, a);
      ReplacedTwice(t, w, a, b);
      SearchSurvives(t, Replaced(t, w, a), w, k);
    }
  }

  lemma ReplacedBySame(t: string, w: nat)
    requires w + SHA_LENGTH <= |t|
    ensures Replaced(t, w, t[w..w + SHA_LENGTH]) == t
  {
  }

  /** Putting back what was found changes nothing. */
  lemma PutFound(t: string, k: string)
    requires FindPin(t, k).Some?
    ensures IsSha(FindPin(t, k).value) && PutPin(t, k, FindPin(t, k).value) == t
  {
    var i, w, e := Found(t, k);
    ReplacedBySame(t, w);
  }

  /** An update is undone by the digits that it returned. */
  lemma PutThenUndo(t: string, k: string, sha: string)
    requires FindPin(t, k).Some? && IsSha(sha) && IsKey(k)
    ensures PutPin(PutPin(t, k, sha), k, FindPin(t, k).value) == t
  {
    PutFound(t, k);
    PutThenPut(t, k, sha, FindPin(t, k).value);
  }

  /** Only the window of the pin changes. */
  lemma PutChangesOnlyTheWindow(t: string, k: string, sha: string)
    requires FindPin(t, k).Some? && IsSha(sha)
    ensures exists w: nat ::
              IsWindow(t, w) && Alike(t, PutPin(t, k, sha), w) && FindPin(t, k).value == t[w..w + SHA_LENGTH]
  {
    var i, w, e := Found(t, k);
    ReplacedAlike(t, w, sha);
  }

  lemma ReplacedCommute(t: string, w: nat, a: string, w2: nat, b: string)
    requires w + SHA_LENGTH <= w2 && w2 + SHA_LENGTH <= |t| && |a| == |b| == SHA_LENGTH
    ensures |Replaced(t, w, a)| == |Replaced(t, w2, b)| == |t|
    ensures Replaced(Replaced(t, w, a), w2, b) == Replaced(Replaced(t, w2, b), w, a)
  {
  }

  lemma BothCommute(t: string, k: string, a: string, k2: string, b: string)
    requires IsSha(a) && IsSha(b) && IsKey(k) && IsKey(k2) && k != k2
    requires Search(t, k, 0).Some? && Search(t, k2, 0).Some?
    ensures PutPin(PutPin(t, k, a), k2, b) == PutPin(PutPin(t, k2, b), k, a)
  {
    var i, w, e := Found(t, k);
    var i2, w2, e2 := Found(t, k2);
    WindowsDisjoint(t, k, w, k2, w2);
    ReplacedAlike(t, w, a);
    ReplacedAlike(t, w2, b);
    SearchSurvives(t, Replaced(t, w, a), w, k2);
    SearchSurvives(t, Replaced(t, w2, b), w2, k);
    if w < w2 {
      ReplacedCommute(t, w, a, w2, b);
    } else {
      ReplacedCommute(t, w2, b, w, a);
    }
  }

  /** Updates of two pins can be done in either order. */
  lemma PutsCommute(t: string, k: string, a: string, k2: string, b: string)
    requires IsSha(a) && IsSha(b) && IsKey(k) && IsKey(k2) && k != k2
    ensures PutPin(PutPin(t, k, a), k2, b) == PutPin(PutPin(t, k2, b), k, a)
  {
    if Search(t, k, 0).Some? && Search(t, k2, 0).Some? {
      BothCommute(t, k, a, k2, b);
    } else if Search(t, k, 0).Some? {
      PutMisses(t, k, a, k2);
    } else if Search(t, k2, 0).Some? {
      PutMisses(t, k2, b, k);
    }
  }

  lemma PutMisses(t: string, k: string, a: string, k2: string)
    requires Search(t, k, 0).Some? && Search(t, k2, 0).None? && IsSha(a) && IsKey(k) && IsKey(k2)
    ensures Search(PutPin(t, k, a), k2, 0).None?
  {
    var i, w, e := Found(t, k);
    ReplacedAlike(t, w, a);
    SearchSurvives(t, Replaced(t, w, a), w, k2);
  }

  // ----- a text of two pins -----

  function PinLine(k: string, sha: string): string {
    k + [':', ' '] + sha
  }

  lemma LineMatches(before: string, k: string, sha: string, after: string)
    requires IsSha(sha) && (before == [] || before[|before| - 1] == '\n') && (after == [] || after[0] == '\n')
    ensures var w := |before| + |k| + 2;
            && IsMatch(before + PinLine(k, sha) + after, k, |before|, w, w + SHA_LENGTH)
            && (before + PinLine(k, sha) + after)[w..w + SHA_LENGTH] == sha
  {
    var t, w := before + PinLine(k, sha) + after, |before| + |k| + 2;
    BlankIsSpace(' ');
    assert t[|before|..|before| + |k|] == k;
    assert t[w..w + SHA_LENGTH] == sha;
    assert forall j | w <= j < w + SHA_LENGTH :: t[j] == sha[j - w];
  }

  /** The text of two pins, each on its own line. */
  function TwoPins(d: string, a: string, s: string, b: string): string {
    PinLine(d, a) + ['\n'] + PinLine(s, b) + ['\n']
  }

  lemma FirstPinReads(d: string, a: string, s: string, b: string)
    requires IsSha(a)
    ensures FindPin(TwoPins(d, a, s, b), d) == Some(a)
  {
    var after := ['\n'] + PinLine(s, b) + ['\n'];
    var t := TwoPins(d, a, s, b);
    assert t == [] + PinLine(d, a) + after;
    LineMatches([], d, a, after);
    MatchIsWindow(t, d, 0, |d| + 2, |d| + 2 + SHA_LENGTH);
  }

  lemma NoBreakInLine(k: string, sha: string)
    requires IsKey(k) && IsSha(sha)
    ensures forall j | 0 <= j < |PinLine(k, sha)| :: PinLine(k, sha)[j] != '\n'
  {
    BlankIsSpace('\n');
    forall j | 0 <= j < |PinLine(k, sha)| ensures PinLine(k, sha)[j] != '\n' {
      if j < |k| {
        assert PinLine(k, sha)[j] in k;
      } else if j >= |k| + 2 {
        assert PinLine(k, sha)[j] in sha;
      }
    }
  }

  /** The line of a pin matches only under its own name. */
  lemma OtherNameElsewhere(d: string, a: string, after: string, s: string, i: nat, w: nat, e: nat)
    requires IsKey(d) && IsSha(a) && IsKey(s) && d != s
    requires IsMatch(PinLine(d, a) + ['\n'] + after, s, i, w, e)
    ensures i > |PinLine(d, a)|
  {
    var t := PinLine(d, a) + ['\n'] + after;
    NoBreakInLine(d, a);
    if i == 0 {
      assert t[0..|d|] == d && t[|d|] == ':';
      NameIsVisible(t, d, 0);
      NameIsVisible(t, s, 0);
    }
  }

  lemma ReadsAt(t: string, k: string, n: nat, w: nat, sha: string)
    requires IsMatch(t, k, n, w, w + SHA_LENGTH) && t[w..w + SHA_LENGTH] == sha
    requires forall i: nat, v: nat, e: nat | IsMatch(t, k, i, v, e) :: n <= i
    ensures FindPin(t, k) == Some(sha)
  {
    SearchIsLeftmost(t, k, n, w, w + SHA_LENGTH);
    var i, v, e := Found(t, k);
    MatchIsWindow(t, k, n, w, w + SHA_LENGTH);
    MatchIsWindow(t, k, i, v, e);
  }

  lemma SplitTwoPins(d: string, a: string, s: string, b: string)
    ensures TwoPins(d, a, s, b) == PinLine(d, a) + ['\n'] + (PinLine(s, b) + ['\n'])
  {
  }

  lemma SecondPinReads(d: string, a: string, s: string, b: string)
    requires IsSha(a) && IsSha(b) && IsKey(d) && IsKey(s) && d != s
    ensures FindPin(TwoPins(d, a, s, b), s) == Some(b)
  {
    var t, n := TwoPins(d, a, s, b), |PinLine(d, a)| + 1;
    LineMatches(PinLine(d, a) + ['\n'], s, b, ['\n']);
    SplitTwoPins(d, a, s, b);
    forall i: nat, w: nat, e: nat | IsMatch(t, s, i, w, e) ensures n <= i {
      OtherNameElsewhere(d, a, PinLine(s, b) + ['\n'], s, i, w, e);
    }
    ReadsAt(t, s, n, n + |s| + 2, b);
  }

}
