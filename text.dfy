/** The JavaScript string operations the classifier and the pages rely on:
    `toLowerCase`, `toUpperCase` of one character, `includes`, `trim`,
    `split` on a character class or a single character, `join`, and the
    decimal rendering of an integer in a template literal. Strings are
    sequences of characters; case mapping is ASCII only. */
module Text {

  // ----------------------------------------------------------------- case

  predicate IsUpper(c: char) { 'A' <= c <= 'Z' }

  predicate IsLower(c: char) { 'a' <= c <= 'z' }

  function LowerChar(c: char): char {
    if IsUpper(c) then (c as int + 32) as char else c
  }

  function UpperChar(c: char): char {
    if IsLower(c) then (c as int - 32) as char else c
  }

  /** `s.toLowerCase()`, restricted to ASCII letters. */
  function ToLower(s: string): (r: string)
    ensures |r| == |s|
    ensures forall i :: 0 <= i < |s| ==> r[i] == LowerChar(s[i])
    ensures forall i :: 0 <= i < |r| ==> !IsUpper(r[i])
  {
    seq(|s|, i requires 0 <= i < |s| => LowerChar(s[i]))
  }

  /** `s.charAt(0).toUpperCase() + s.slice(1)`. */
  function Capitalize(s: string): (r: string)
    ensures |r| == |s|
    ensures |s| > 0 ==> r[0] == UpperChar(s[0]) && r[1..] == s[1..]
  {
    if s == [] then [] else [UpperChar(s[0])] + s[1..]
  }

  // ------------------------------------------------------------ substring

  /** `pat` occurs in `text` starting at index `i`. */
  ghost predicate OccursAt(text: string, pat: string, i: int) {
    0 <= i && i + |pat| <= |text| && text[i..i + |pat|] == pat
  }

  /** `text.includes(pat)`. */
  function Contains(text: string, pat: string): (b: bool)
    ensures pat == [] ==> b
    ensures b ==> |pat| <= |text|
    decreases |text|
  {
    if pat <= text then true
    else if text == [] then false
    else Contains(text[1..], pat)
  }

  lemma OccursShift(text: string, pat: string, i: int)
    requires text != [] && 0 < i
    ensures OccursAt(text, pat, i) <==> OccursAt(text[1..], pat, i - 1)
  {
    if i + |pat| <= |text| {
      assert text[1..][i - 1..i - 1 + |pat|] == text[i..i + |pat|];
    }
  }

  /** `Contains` decides exactly whether the pattern occurs somewhere. */
  lemma {:induction false} ContainsIffOccurs(text: string, pat: string)
    ensures Contains(text, pat) <==> exists i :: OccursAt(text, pat, i)
    decreases |text|
  {
    if pat <= text {
      assert OccursAt(text, pat, 0);
    } else if text != [] {
      var tail := text[1..];
      ContainsIffOccurs(tail, pat);
      forall i | 0 < i ensures OccursAt(text, pat, i) <==> OccursAt(tail, pat, i - 1) {
        OccursShift(text, pat, i);
      }
      assert !OccursAt(text, pat, 0);
      if Contains(tail, pat) {
        var j :| OccursAt(tail, pat, j);
        assert OccursAt(text, pat, j + 1);
      } else {
        forall i ensures !OccursAt(text, pat, i) {
          if i > 0 {
            assert !OccursAt(tail, pat, i - 1);
          }
        }
      }
    }
  }

  /** A pattern holding a character the text lacks does not occur in it. */
  lemma MissingCharNotContained(text: string, pat: string, c: char)
    requires c in pat && c !in text
    ensures !Contains(text, pat)
  {
    ContainsIffOccurs(text, pat);
    forall i ensures !OccursAt(text, pat, i) {
      if 0 <= i && i + |pat| <= |text| {
        assert c !in text[i..i + |pat|];
      }
    }
  }

  // ---------------------------------------------------------------- trim

  /** The characters `String.prototype.trim` removes: ECMAScript WhiteSpace
      and LineTerminator. */
  predicate IsSpace(c: char) {
    || c == '\t' || c == '\n' || c == '\U{0B}' || c == '\U{0C}' || c == '\r'
    || c == ' ' || c == '\U{A0}' || c == '\U{1680}'
    || ('\U{2000}' <= c <= '\U{200A}')
    || c == '\U{2028}' || c == '\U{2029}' || c == '\U{202F}' || c == '\U{205F}'
    || c == '\U{3000}' || c == '\U{FEFF}'
  }

  /** Every character of `s` is white space. */
  ghost predicate AllSpace(s: string) {
    forall k :: 0 <= k < |s| ==> IsSpace(s[k])
  }

  lemma AllSpaceAppend(a: string, b: string)
    ensures AllSpace(a + b) <==> AllSpace(a) && AllSpace(b)
  {
    assert forall k :: 0 <= k < |a| ==> (a + b)[k] == a[k];
    assert forall k :: 0 <= k < |b| ==> (a + b)[|a| + k] == b[k];
  }

  /** `s.trimStart()`: the suffix left after the leading white space. */
  function TrimStart(s: string): (r: string)
    ensures |r| <= |s| && r == s[|s| - |r|..]
    ensures forall k :: 0 <= k < |s| - |r| ==> IsSpace(s[k])
    ensures r == [] || !IsSpace(r[0])
  {
    if s != [] && IsSpace(s[0]) then
      var r := TrimStart(s[1..]);
      assert s[|s| - |r|..] == s[1..][|s| - 1 - |r|..];
      r
    else s
  }

  /** `s.trimEnd()`: the prefix left before the trailing white space. */
  function TrimEnd(s: string): (r: string)
    ensures |r| <= |s| && r == s[..|r|]
    ensures forall k :: |r| <= k < |s| ==> IsSpace(s[k])
    ensures r == [] || !IsSpace(r[|r| - 1])
  {
    if s != [] && IsSpace(s[|s| - 1]) then
      var r := TrimEnd(s[..|s| - 1]);
      assert s[..|r|] == s[..|s| - 1][..|r|];
      r
    else s
  }

  /** Trimming the start and then the end removes only white space, from
      the two ends. */
  lemma TrimmedInfix(s: string, t: string, r: string)
    requires |t| <= |s| && t == s[|s| - |t|..] && forall k :: 0 <= k < |s| - |t| ==> IsSpace(s[k])
    requires |r| <= |t| && r == t[..|r|] && forall k :: |r| <= k < |t| ==> IsSpace(t[k])
    ensures exists a, b :: 0 <= a <= b <= |s| && r == s[a..b] && AllSpace(s[..a]) && AllSpace(s[b..])
  {
    var a := |s| - |t|;
    var b := a + |r|;
    assert r == s[a..b];
    assert AllSpace(s[..a]);
    forall k | 0 <= k < |s| - b ensures IsSpace(s[b..][k]) {
      assert s[b..][k] == t[|r| + k];
    }
  }

  /** `s.trim()`: neither end of the result is white space, and nothing but
      white space was removed. */
  function Trim(s: string): (r: string)
    ensures |r| <= |s|
    ensures exists a, b :: 0 <= a <= b <= |s| && r == s[a..b] && AllSpace(s[..a]) && AllSpace(s[b..])
    ensures r == [] || (!IsSpace(r[0]) && !IsSpace(r[|r| - 1]))
    ensures r == [] <==> AllSpace(s)
  {
    var t := TrimStart(s);
    var r := TrimEnd(t);
    TrimmedInfix(s, t, r);
    assert r != [] ==> r[0] == t[0];
    assert r == [] ==> t == [];
    r
  }

  // ------------------------------------------------- split on /[.!?]+/

  predicate IsSentenceEnd(c: char) { c == '.' || c == '!' || c == '?' }

  /** Index of the first sentence delimiter in `s`, or |s| when there is none. */
  function FirstSentenceEnd(s: string): (k: nat)
    ensures k <= |s|
    ensures forall i :: 0 <= i < k ==> !IsSentenceEnd(s[i])
    ensures k < |s| ==> IsSentenceEnd(s[k])
  {
    if s == [] then 0
    else if IsSentenceEnd(s[0]) then 0
    else 1 + FirstSentenceEnd(s[1..])
  }

  /** `s` with its leading run of sentence delimiters removed. */
  function DropSentenceEnds(s: string): (r: string)
    ensures |r| <= |s| && r == s[|s| - |r|..]
    ensures forall i :: 0 <= i < |s| - |r| ==> IsSentenceEnd(s[i])
    ensures r == [] || !IsSentenceEnd(r[0])
    ensures s != [] && IsSentenceEnd(s[0]) ==> |r| < |s|
  {
    if s != [] && IsSentenceEnd(s[0]) then DropSentenceEnds(s[1..]) else s
  }

  /** `s.split(/[.!?]+/)`: the pieces between maximal runs of delimiters,
      including an empty first or last piece when `s` starts or ends with one. */
  function SplitSentences(s: string): (r: seq<string>)
    ensures |r| >= 1
    ensures forall j, i :: 0 <= j < |r| && 0 <= i < |r[j]| ==> !IsSentenceEnd(r[j][i])
    decreases |s|
  {
    var k := FirstSentenceEnd(s);
    if k == |s| then [s]
    else
      var head := s[..k];
      var tail := DropSentenceEnds(s[k..]);
      assert |tail| < |s|;
      var rest := SplitSentences(tail);
      NoDelimiterPieces(s, k, rest);
      [head] + rest
  }

  /** Putting a delimiter-free prefix in front of delimiter-free pieces. */
  lemma NoDelimiterPieces(s: string, k: nat, rest: seq<string>)
    requires k <= |s| && forall i :: 0 <= i < k ==> !IsSentenceEnd(s[i])
    requires forall j, i :: 0 <= j < |rest| && 0 <= i < |rest[j]| ==> !IsSentenceEnd(rest[j][i])
    ensures var r := [s[..k]] + rest;
      forall j, i :: 0 <= j < |r| && 0 <= i < |r[j]| ==> !IsSentenceEnd(r[j][i])
  {
    var r := [s[..k]] + rest;
    forall j, i | 0 <= j < |r| && 0 <= i < |r[j]| ensures !IsSentenceEnd(r[j][i]) {
      if j == 0 {
        assert r[j][i] == s[i];
      } else {
        assert r[j] == rest[j - 1];
      }
    }
  }

  /** The concatenation of a list of strings. */
  function Concat(xs: seq<string>): string {
    if xs == [] then [] else xs[0] + Concat(xs[1..])
  }

  lemma ConcatCons(x: string, ys: seq<string>)
    ensures Concat([x] + ys) == x + Concat(ys)
  {
    assert ([x] + ys)[1..] == ys;
  }

  /** `s` with every sentence delimiter deleted. */
  function WithoutSentenceEnds(s: string): string {
    if s == [] then []
    else (if IsSentenceEnd(s[0]) then [] else [s[0]]) + WithoutSentenceEnds(s[1..])
  }

  lemma {:induction false} WithoutSentenceEndsAppend(a: string, b: string)
    ensures WithoutSentenceEnds(a + b) == WithoutSentenceEnds(a) + WithoutSentenceEnds(b)
    decreases |a|
  {
    if a != [] {
      assert (a + b)[1..] == a[1..] + b;
      WithoutSentenceEndsAppend(a[1..], b);
    } else {
      assert a + b == b;
    }
  }

  lemma {:induction false} WithoutSentenceEndsAll(s: string)
    requires forall i :: 0 <= i < |s| ==> IsSentenceEnd(s[i])
    ensures WithoutSentenceEnds(s) == []
    decreases |s|
  {
    if s != [] { WithoutSentenceEndsAll(s[1..]); }
  }

  lemma {:induction false} WithoutSentenceEndsNone(s: string)
    requires forall i :: 0 <= i < |s| ==> !IsSentenceEnd(s[i])
    ensures WithoutSentenceEnds(s) == s
    decreases |s|
  {
    if s != [] { WithoutSentenceEndsNone(s[1..]); }
  }

  /** The delimiter-free text is all white space exactly when the text holds
      nothing but white space and delimiters. */
  lemma {:induction false} WithoutSentenceEndsAllSpace(s: string)
    ensures AllSpace(WithoutSentenceEnds(s))
        <==> forall k :: 0 <= k < |s| ==> IsSpace(s[k]) || IsSentenceEnd(s[k])
    decreases |s|
  {
    if s != [] {
      WithoutSentenceEndsAllSpace(s[1..]);
      var h: string := if IsSentenceEnd(s[0]) then [] else [s[0]];
      AllSpaceAppend(h, WithoutSentenceEnds(s[1..]));
      assert forall k :: 0 < k < |s| ==> s[k] == s[1..][k - 1];
      assert forall k :: 0 <= k < |s[1..]| ==> s[1..][k] == s[k + 1];
    }
  }

  /** A concatenation is all white space exactly when every part is. */
  lemma {:induction false} ConcatAllSpace(xs: seq<string>)
    ensures AllSpace(Concat(xs)) <==> forall j :: 0 <= j < |xs| ==> AllSpace(xs[j])
  {
    if xs != [] {
      ConcatAllSpace(xs[1..]);
      AllSpaceAppend(xs[0], Concat(xs[1..]));
      assert forall j :: 0 < j < |xs| ==> xs[j] == xs[1..][j - 1];
    }
  }

  /** Dropping a leading run of delimiters does not change the text without
      delimiters. */
  lemma {:induction false} WithoutDropSentenceEnds(s: string)
    ensures WithoutSentenceEnds(DropSentenceEnds(s)) == WithoutSentenceEnds(s)
    decreases |s|
  {
    if s != [] && IsSentenceEnd(s[0]) {
      WithoutDropSentenceEnds(s[1..]);
    }
  }

  /** Everything before the first delimiter survives the deletion whole. */
  lemma {:induction false} WithoutSentenceEndsBeforeFirst(s: string)
    ensures var k := FirstSentenceEnd(s);
      WithoutSentenceEnds(s) == s[..k] + WithoutSentenceEnds(s[k..])
    decreases |s|
  {
    var k := FirstSentenceEnd(s);
    if s != [] && !IsSentenceEnd(s[0]) {
      var t := s[1..];
      WithoutSentenceEndsBeforeFirst(t);
      assert k == 1 + FirstSentenceEnd(t);
      assert t[k - 1..] == s[k..];
      assert [s[0]] + t[..k - 1] == s[..k];
    }
  }

  /** Splitting loses only the delimiters: the pieces, put back together,
      are the text with its delimiters deleted. */
  lemma {:induction false} SplitSentencesKeepsText(s: string)
    ensures Concat(SplitSentences(s)) == WithoutSentenceEnds(s)
    decreases |s|
  {
    var k := FirstSentenceEnd(s);
    if k == |s| {
      WithoutSentenceEndsNone(s);
      ConcatCons(s, []);
      assert [s] + [] == [s];
    } else {
      var d := DropSentenceEnds(s[k..]);
      assert SplitSentences(s) == [s[..k]] + SplitSentences(d);
      WithoutSentenceEndsBeforeFirst(s);
      WithoutDropSentenceEnds(s[k..]);
      SplitSentencesKeepsText(d);
      ConcatCons(s[..k], SplitSentences(d));
    }
  }

  /** A non-empty run made only of sentence delimiters. */
  ghost predicate IsDelimiterRun(d: string) {
    d != [] && forall i :: 0 <= i < |d| ==> IsSentenceEnd(d[i])
  }

  /** The pieces with the runs put back between them: `pieces[0] + runs[0] +
      pieces[1] + ... + pieces[|pieces| - 1]`. */
  function Rejoin(pieces: seq<string>, runs: seq<string>): string
    requires |pieces| == |runs| + 1
    decreases |runs|
  {
    if runs == [] then pieces[0] else pieces[0] + runs[0] + Rejoin(pieces[1..], runs[1..])
  }

  /** `pieces` and `runs` cut `s` at maximal delimiter runs: no piece holds
      a delimiter, every piece but the first and the last is non-empty, each
      run is a non-empty run of delimiters, and the pieces with the runs
      between them give back `s`. */
  ghost predicate IsSentenceCut(s: string, pieces: seq<string>, runs: seq<string>) {
    && |pieces| == |runs| + 1
    && (forall j, i :: 0 <= j < |pieces| && 0 <= i < |pieces[j]| ==> !IsSentenceEnd(pieces[j][i]))
    && (forall j :: 0 < j < |pieces| - 1 ==> pieces[j] != [])
    && (forall i :: 0 <= i < |runs| ==> IsDelimiterRun(runs[i]))
    && Rejoin(pieces, runs) == s
  }

  lemma AppendAssoc(a: string, b: string, c: string)
    ensures a + b + c == a + (b + c)
  {
  }

  /** One step of `SplitSentences` on a text holding a delimiter. */
  lemma SplitStep(s: string)
    requires FirstSentenceEnd(s) < |s|
    ensures var k := FirstSentenceEnd(s);
      SplitSentences(s) == [s[..k]] + SplitSentences(DropSentenceEnds(s[k..]))
  {
  }

  /** The delimiter runs `s.split(/[.!?]+/)` cuts at, in order. */
  function DelimiterRuns(s: string): (runs: seq<string>)
    ensures |runs| == |SplitSentences(s)| - 1
    decreases |s|
  {
    var k := FirstSentenceEnd(s);
    if k == |s| then []
    else
      var d := s[k..];
      var tail := DropSentenceEnds(d);
      SplitStep(s);
      [d[..|d| - |tail|]] + DelimiterRuns(tail)
  }

  /** A delimiter run in front of text that does not start with a delimiter
      is dropped whole. */
  lemma {:induction false} DropRun(d: string, t: string)
    requires forall i :: 0 <= i < |d| ==> IsSentenceEnd(d[i])
    requires t == [] || !IsSentenceEnd(t[0])
    ensures DropSentenceEnds(d + t) == t
    decreases |d|
  {
    if d == [] {
      assert d + t == t;
    } else {
      assert (d + t)[1..] == d[1..] + t;
      DropRun(d[1..], t);
    }
  }

  /** A rejoined text starts with the first piece. */
  lemma RejoinStartsWithFirst(pieces: seq<string>, runs: seq<string>)
    requires |pieces| == |runs| + 1
    ensures pieces[0] <= Rejoin(pieces, runs)
  {
    if runs != [] {
      assert Rejoin(pieces, runs) == pieces[0] + (runs[0] + Rejoin(pieces[1..], runs[1..]));
    }
  }

  lemma RejoinCons(p: string, run: string, pieces: seq<string>, runs: seq<string>)
    requires |pieces| == |runs| + 1
    ensures Rejoin([p] + pieces, [run] + runs) == p + run + Rejoin(pieces, runs)
  {
    assert ([p] + pieces)[1..] == pieces;
    assert ([run] + runs)[1..] == runs;
  }

  /** A delimiter-free piece and a delimiter run in front of a cut give a
      cut of the longer text. */
  lemma CutCons(s: string, pieces: seq<string>, runs: seq<string>,
                p: string, run: string, t: string, pieces': seq<string>, runs': seq<string>)
    requires forall i :: 0 <= i < |p| ==> !IsSentenceEnd(p[i])
    requires IsDelimiterRun(run)
    requires IsSentenceCut(t, pieces', runs')
    requires |pieces'| >= 2 ==> pieces'[0] != []
    requires s == p + run + t && pieces == [p] + pieces' && runs == [run] + runs'
    ensures IsSentenceCut(s, pieces, runs)
  {
    RejoinCons(p, run, pieces', runs');
    assert forall i :: 0 < i < |runs| ==> runs[i] == runs'[i - 1];
    forall j | 0 < j < |pieces| - 1 ensures pieces[j] != [] {
      assert pieces[j] == pieces'[j - 1];
    }
    forall j, i | 0 <= j < |pieces| && 0 <= i < |pieces[j]| ensures !IsSentenceEnd(pieces[j][i]) {
      if j > 0 {
        assert pieces[j] == pieces'[j - 1];
      }
    }
  }

  /** The text after a delimiter run has a non-empty first piece when it has
      more than one. */
  lemma {:induction false} SplitFirstNonEmpty(t: string)
    requires t == [] || !IsSentenceEnd(t[0])
    ensures |SplitSentences(t)| >= 2 ==> SplitSentences(t)[0] != []
  {
    var k := FirstSentenceEnd(t);
    if k < |t| {
      assert k != 0;
      assert SplitSentences(t)[0] == t[..k];
    }
  }

  /** What `DropSentenceEnds` removes from a text starting with a delimiter
      is a delimiter run. */
  lemma RunBeforeTail(d: string)
    requires d != [] && IsSentenceEnd(d[0])
    ensures var t := DropSentenceEnds(d);
      && IsDelimiterRun(d[..|d| - |t|])
      && d == d[..|d| - |t|] + t
      && (t == [] || !IsSentenceEnd(t[0]))
  {
  }

  /** A text holding a delimiter is its first piece, its first delimiter
      run and the rest, and both the pieces and the runs start there. */
  lemma {:induction false} DelimitedParts(s: string, head: string, run: string, tail: string)
    requires FirstSentenceEnd(s) < |s|
    requires head == s[..FirstSentenceEnd(s)]
    requires tail == DropSentenceEnds(s[FirstSentenceEnd(s)..])
    requires run == s[FirstSentenceEnd(s)..][..|s| - FirstSentenceEnd(s) - |tail|]
    ensures s == head + run + tail
    ensures forall i :: 0 <= i < |head| ==> !IsSentenceEnd(head[i])
    ensures IsDelimiterRun(run)
    ensures SplitSentences(s) == [head] + SplitSentences(tail)
    ensures DelimiterRuns(s) == [run] + DelimiterRuns(tail)
    ensures |SplitSentences(tail)| >= 2 ==> SplitSentences(tail)[0] != []
  {
    var k := FirstSentenceEnd(s);
    var d := s[k..];
    SplitStep(s);
    RunBeforeTail(d);
    SplitFirstNonEmpty(tail);
    assert s == head + d;
    AppendAssoc(head, run, tail);
  }

  /** A text holding a delimiter is cut at its first delimiter run when
      what follows the run is cut. */
  lemma {:induction false} CutDelimited(s: string, tail: string)
    requires FirstSentenceEnd(s) < |s|
    requires tail == DropSentenceEnds(s[FirstSentenceEnd(s)..])
    requires IsSentenceCut(tail, SplitSentences(tail), DelimiterRuns(tail))
    ensures IsSentenceCut(s, SplitSentences(s), DelimiterRuns(s))
  {
    var k := FirstSentenceEnd(s);
    var run := s[k..][..|s| - k - |tail|];
    var head := s[..k];
    DelimitedParts(s, head, run, tail);
    CutCons(s, SplitSentences(s), DelimiterRuns(s), head, run, tail,
            SplitSentences(tail), DelimiterRuns(tail));
  }

  /** `s.split(/[.!?]+/)` cuts at the maximal delimiter runs: the pieces,
      with `DelimiterRuns` between them, give back the text. */
  lemma {:induction false} SplitSentencesIsCut(s: string)
    ensures IsSentenceCut(s, SplitSentences(s), DelimiterRuns(s))
    decreases |s|
  {
    var k := FirstSentenceEnd(s);
    if k == |s| {
      assert SplitSentences(s) == [s] && DelimiterRuns(s) == [];
      assert Rejoin([s], []) == s;
    } else {
      var tail := DropSentenceEnds(s[k..]);
      SplitSentencesIsCut(tail);
      CutDelimited(s, tail);
    }
  }

  /** The first delimiter of a rejoined text sits right after the first
      piece. */
  lemma FirstEndAfterFirstPiece(p: string, run: string, t: string)
    requires forall i :: 0 <= i < |p| ==> !IsSentenceEnd(p[i])
    requires IsDelimiterRun(run)
    ensures var s := p + run + t;
      FirstSentenceEnd(s) == |p| && s[..|p|] == p && s[|p|..] == run + t
  {
    var s := p + run + t;
    assert forall i :: 0 <= i < |p| ==> s[i] == p[i];
    assert s[|p|] == run[0];
    assert s == p + (run + t);
  }

  /** Cutting off the first piece and run of a cut leaves a cut of the
      rest, whose text does not start with a delimiter. */
  lemma CutTail(s: string, pieces: seq<string>, runs: seq<string>)
    requires IsSentenceCut(s, pieces, runs) && runs != []
    ensures var t := Rejoin(pieces[1..], runs[1..]);
      && s == pieces[0] + runs[0] + t
      && IsSentenceCut(t, pieces[1..], runs[1..])
      && (t == [] || !IsSentenceEnd(t[0]))
  {
    var t := Rejoin(pieces[1..], runs[1..]);
    var r' := pieces[1..];
    RejoinStartsWithFirst(r', runs[1..]);
    if pieces[1] != [] {
      assert t[0] == pieces[1][0];
    } else {
      assert t == pieces[1];
    }
    assert forall i :: 0 <= i < |runs[1..]| ==> runs[1..][i] == runs[i + 1];
    forall j, i | 0 <= j < |r'| && 0 <= i < |r'[j]| ensures !IsSentenceEnd(r'[j][i]) {
      assert r'[j] == pieces[j + 1];
    }
    forall j | 0 < j < |r'| - 1 ensures r'[j] != [] {
      assert r'[j] == pieces[j + 1];
    }
  }

  /** A delimiter-free piece, a delimiter run, then text that does not
      start with a delimiter: the split and the runs start with that piece
      and that run. */
  lemma {:induction false} SplitAfterRun(s: string, p: string, run: string, t: string)
    requires forall i :: 0 <= i < |p| ==> !IsSentenceEnd(p[i])
    requires IsDelimiterRun(run)
    requires t == [] || !IsSentenceEnd(t[0])
    requires s == p + run + t
    ensures SplitSentences(s) == [p] + SplitSentences(t)
    ensures DelimiterRuns(s) == [run] + DelimiterRuns(t)
  {
    FirstEndAfterFirstPiece(p, run, t);
    DropRun(run, t);
    var k := |p|;
    SplitStep(s);
    assert s[k..][..|s| - k - |t|] == run;
  }

  lemma HeadTail(xs: seq<string>)
    requires xs != []
    ensures xs == [xs[0]] + xs[1..]
  {
  }

  /** Any cut of `s` at maximal delimiter runs is the one `SplitSentences`
      makes, with the runs `DelimiterRuns` finds: `IsSentenceCut` determines
      the split. */
  lemma {:induction false} SplitSentencesUnique(s: string, pieces: seq<string>, runs: seq<string>)
    requires IsSentenceCut(s, pieces, runs)
    ensures SplitSentences(s) == pieces && DelimiterRuns(s) == runs
    decreases |runs|
  {
    if runs == [] {
      assert s == pieces[0];
      assert pieces == [s];
    } else {
      var t := Rejoin(pieces[1..], runs[1..]);
      CutTail(s, pieces, runs);
      assert forall i :: 0 <= i < |pieces[0]| ==> !IsSentenceEnd(pieces[0][i]);
      SplitAfterRun(s, pieces[0], runs[0], t);
      SplitSentencesUnique(t, pieces[1..], runs[1..]);
      HeadTail(pieces);
      HeadTail(runs);
    }
  }

  // ------------------------------------------------------ join and split

  /** `xs.join(sep)`. */
  function Join(xs: seq<string>, sep: string): (r: string)
    ensures xs == [] ==> r == []
    ensures |xs| == 1 ==> r == xs[0]
    ensures |r| == |Concat(xs)| + (if xs == [] then 0 else (|xs| - 1) * |sep|)
  {
    if |xs| == 0 then ""
    else if |xs| == 1 then
      assert Concat(xs) == xs[0] + Concat([]);
      xs[0]
    else
      var rest := Join(xs[1..], sep);
      assert (|xs| - 1) * |sep| == |sep| + (|xs| - 2) * |sep|;
      xs[0] + sep + rest
  }

  /** A join begins with its first part. */
  lemma JoinStartsWithFirst(xs: seq<string>, sep: string)
    requires |xs| >= 1
    ensures xs[0] <= Join(xs, sep)
  {
    if |xs| > 1 {
      assert Join(xs, sep) == xs[0] + (sep + Join(xs[1..], sep));
    }
  }

  /** Index of the first `c` in `s`, or |s| when `c` does not occur. */
  function IndexOf(s: string, c: char): (k: nat)
    ensures k <= |s|
    ensures forall i :: 0 <= i < k ==> s[i] != c
    ensures k < |s| ==> s[k] == c
  {
    if s == [] then 0
    else if s[0] == c then 0
    else 1 + IndexOf(s[1..], c)
  }

  /** `s.split(c)` for a one-character separator. */
  function SplitOn(s: string, c: char): (r: seq<string>)
    ensures |r| >= 1
    decreases |s|
  {
    var k := IndexOf(s, c);
    if k == |s| then [s] else [s[..k]] + SplitOn(s[k + 1..], c)
  }

  /** The first `c` in `x + [c] + rest` is the one after `x` when `x` has none. */
  lemma {:induction false} IndexOfAfter(x: string, c: char, rest: string)
    requires forall i :: 0 <= i < |x| ==> x[i] != c
    ensures IndexOf(x + [c] + rest, c) == |x|
    decreases |x|
  {
    if x != [] {
      assert (x + [c] + rest)[1..] == x[1..] + [c] + rest;
      IndexOfAfter(x[1..], c, rest);
    }
  }

  /** Splitting a join on its separator gives back the parts, as long as no
      part contains the separator. */
  lemma {:induction false} SplitOnJoin(xs: seq<string>, c: char)
    requires |xs| >= 1
    requires forall j, i :: 0 <= j < |xs| && 0 <= i < |xs[j]| ==> xs[j][i] != c
    ensures SplitOn(Join(xs, [c]), c) == xs
    decreases |xs|
  {
    var s := Join(xs, [c]);
    var x := xs[0];
    if |xs| == 1 {
      assert s == x;
      assert IndexOf(s, c) == |s|;
    } else {
      var tail := xs[1..];
      var rest := Join(tail, [c]);
      assert s == x + [c] + rest;
      IndexOfAfter(x, c, rest);
      assert s[..|x|] == x;
      assert s[|x| + 1..] == rest;
      assert SplitOn(s, c) == [x] + SplitOn(rest, c);
      forall j, i | 0 <= j < |tail| && 0 <= i < |tail[j]| ensures tail[j][i] != c {
        assert tail[j] == xs[j + 1];
      }
      SplitOnJoin(tail, c);
    }
  }

  // ------------------------------------------------------------- numbers

  predicate IsDigit(c: char) { '0' <= c <= '9' }

  function DigitChar(d: nat): (c: char)
    requires d < 10
    ensures IsDigit(c)
  {
    ('0' as int + d) as char
  }

  /** The decimal rendering of `n`, as `${n}` produces it for an integer. */
  function NatToString(n: nat): (r: string)
    ensures |r| >= 1
    ensures forall i :: 0 <= i < |r| ==> IsDigit(r[i])
    ensures |r| > 1 ==> r[0] != '0'
  {
    if n < 10 then [DigitChar(n)] else NatToString(n / 10) + [DigitChar(n % 10)]
  }

  /** The value of a string of decimal digits. */
  function ParseNat(s: string): nat
    requires forall i :: 0 <= i < |s| ==> IsDigit(s[i])
  {
    if s == [] then 0
    else
      var d := s[|s| - 1];
      assert IsDigit(d);
      10 * ParseNat(s[..|s| - 1]) + (d as int - '0' as int)
  }

  /** Reading back the decimal rendering gives the number. */
  lemma {:induction false} ParseNatToString(n: nat)
    ensures ParseNat(NatToString(n)) == n
    decreases n
  {
    var s := NatToString(n);
    if n < 10 {
      assert s[..0] == [];
    } else {
      ParseNatToString(n / 10);
      assert s[..|s| - 1] == NatToString(n / 10);
      assert s[|s| - 1] == DigitChar(n % 10);
    }
  }

  /** `${i}` for an integer `i`, negative ones with a leading minus sign. */
  function IntToString(i: int): (r: string)
    ensures |r| >= 1
  {
    if i < 0 then "-" + NatToString(-i) else NatToString(i)
  }

  lemma NatToStringInjective(a: nat, b: nat)
    requires NatToString(a) == NatToString(b)
    ensures a == b
  {
    ParseNatToString(a);
    ParseNatToString(b);
  }

  /** Different integers have different decimal renderings. */
  lemma IntToStringInjective(a: int, b: int)
    requires IntToString(a) == IntToString(b)
    ensures a == b
  {
    var s := IntToString(a);
    assert a < 0 <==> s[0] == '-' by { if a >= 0 { assert IsDigit(NatToString(a)[0]); } }
    assert b < 0 <==> s[0] == '-' by { if b >= 0 { assert IsDigit(NatToString(b)[0]); } }
    if a < 0 {
      assert NatToString(-a) == s[1..] == NatToString(-b);
      NatToStringInjective(-a, -b);
    } else {
      NatToStringInjective(a, b);
    }
  }
}
