/** The string primitives the analyser relies on: ECMAScript whitespace,
    lower-casing, `includes`, `trim` and `split(/\s+/)`.
    Strings are sequences of code points. */
module Text {

  /** The ECMAScript WhiteSpace and LineTerminator code points: exactly what
      the regular-expression class `\s` matches and what `trim` strips. */
  const Whitespace: set<char> := {
    '\t', '\n', '\U{B}', '\U{C}', '\r', ' ', '\U{A0}', '\U{1680}',
    '\U{2000}', '\U{2001}', '\U{2002}', '\U{2003}', '\U{2004}', '\U{2005}',
    '\U{2006}', '\U{2007}', '\U{2008}', '\U{2009}', '\U{200A}',
    '\U{2028}', '\U{2029}', '\U{202F}', '\U{205F}', '\U{3000}', '\U{FEFF}'
  }

  predicate IsSpace(c: char) {
    c in Whitespace
  }

  predicate SpaceFree(s: string) {
    forall i :: 0 <= i < |s| ==> !IsSpace(s[i])
  }

  predicate AllSpace(s: string) {
    forall i :: 0 <= i < |s| ==> IsSpace(s[i])
  }

  predicate IsUpper(c: char) {
    'A' <= c <= 'Z'
  }

  /** Lower-cases one character; only the ASCII letters A-Z change. */
  function LowerChar(c: char): (r: char)
    ensures !IsUpper(r)
    ensures r != c ==> IsUpper(c) && r as int == c as int + 32
    ensures IsSpace(r) <==> IsSpace(c)
  {
    if IsUpper(c) then (c as int + 32) as char else c
  }

  /** `toLowerCase`, restricted to ASCII letters: LowerChar on every character. */
  function Lower(s: string): (r: string) {
    seq(|s|, i requires 0 <= i < |s| => LowerChar(s[i]))
  }

  /** Lower-casing leaves a string without capital letters unchanged. */
  lemma LowerLeavesLowercase(s: string)
    requires forall i :: 0 <= i < |s| ==> !IsUpper(s[i])
    ensures Lower(s) == s
  {
  }

  /** A string of lower-case ASCII letters has no whitespace. */
  lemma LettersAreSpaceFree(s: string)
    requires forall i :: 0 <= i < |s| ==> 'a' <= s[i] <= 'z'
    ensures SpaceFree(s)
  {
  }

  /** needle occurs in hay starting at offset i. */
  predicate OccursAt(hay: string, needle: string, i: nat) {
    i + |needle| <= |hay| && hay[i..i + |needle|] == needle
  }

  /** `hay.includes(needle)`: is needle a prefix of hay or of one of its suffixes? */
  function Contains(hay: string, needle: string): bool
    decreases |hay|
  {
    if |needle| > |hay| then false
    else if needle <= hay then true
    else Contains(hay[1..], needle)
  }

  /** `includes` finds exactly the offsets at which needle occurs. */
  lemma {:induction false} ContainsIff(hay: string, needle: string)
    ensures Contains(hay, needle) <==> exists i: nat :: OccursAt(hay, needle, i)
    decreases |hay|
  {
    if |needle| > |hay| {
    } else if needle <= hay {
      assert OccursAt(hay, needle, 0);
    } else {
      ContainsIff(hay[1..], needle);
      if Contains(hay[1..], needle) {
        var j: nat :| OccursAt(hay[1..], needle, j);
        assert hay[j + 1..j + 1 + |needle|] == hay[1..][j..j + |needle|];
        assert OccursAt(hay, needle, j + 1);
      }
      if exists i: nat :: OccursAt(hay, needle, i) {
        var i: nat :| OccursAt(hay, needle, i);
        assert i != 0;
        assert hay[1..][i - 1..i - 1 + |needle|] == hay[i..i + |needle|];
        assert OccursAt(hay[1..], needle, i - 1);
      }
    }
  }

  /** A whitespace-free string never contains a needle that has whitespace in it. */
  lemma SpacedNeedleNeverContained(hay: string, needle: string, j: nat)
    requires SpaceFree(hay)
    requires j < |needle| && IsSpace(needle[j])
    ensures !Contains(hay, needle)
  {
    ContainsIff(hay, needle);
    forall i: nat | i + |needle| <= |hay|
      ensures !OccursAt(hay, needle, i)
    {
      assert hay[i..i + |needle|][j] == hay[i + j];
    }
  }

  /** `trimStart`: drops the leading whitespace. */
  function TrimStart(s: string): string {
    if s != [] && IsSpace(s[0]) then TrimStart(s[1..]) else s
  }

  /** r is s with a run of whitespace removed from its front, and r does not
      start with whitespace. */
  predicate StripsLeading(s: string, r: string) {
    |r| <= |s| && r == s[|s| - |r|..]
    && AllSpace(s[..|s| - |r|])
    && (r == [] || !IsSpace(r[0]))
  }

  /** `trimStart` removes exactly the leading whitespace; so it shortens a
      string that starts with whitespace. */
  lemma {:induction false} TrimStartStrips(s: string)
    ensures StripsLeading(s, TrimStart(s))
    ensures s != [] && IsSpace(s[0]) ==> |TrimStart(s)| < |s|
  {
    if s != [] && IsSpace(s[0]) {
      var t := s[1..];
      var r := TrimStart(t);
      TrimStartStrips(t);
      assert TrimStart(s) == r;
      assert s[|s| - |r|..] == t[|t| - |r|..];
      var gap := t[..|t| - |r|];
      assert s[..|s| - |r|] == [s[0]] + gap;
      assert AllSpace([s[0]] + gap) by {
        assert forall i :: 1 <= i < 1 + |gap| ==> ([s[0]] + gap)[i] == gap[i - 1];
      }
    }
  }

  /** `trimEnd`: drops the trailing whitespace. */
  function TrimEnd(s: string): string {
    if s != [] && IsSpace(s[|s| - 1]) then TrimEnd(s[..|s| - 1]) else s
  }

  /** r is s with a run of whitespace removed from its end, and r does not
      end with whitespace. */
  predicate StripsTrailing(s: string, r: string) {
    |r| <= |s| && r == s[..|r|]
    && AllSpace(s[|r|..])
    && (r == [] || !IsSpace(r[|r| - 1]))
  }

  /** `trimEnd` removes exactly the trailing whitespace. */
  lemma {:induction false} TrimEndStrips(s: string)
    ensures StripsTrailing(s, TrimEnd(s))
  {
    if s != [] && IsSpace(s[|s| - 1]) {
      var r := TrimEnd(s[..|s| - 1]);
      TrimEndStrips(s[..|s| - 1]);
      assert s[|r|..] == s[..|s| - 1][|r|..] + [s[|s| - 1]];
    }
  }

  /** `trim`. */
  function Trim(s: string): string {
    TrimEnd(TrimStart(s))
  }

  /** `!s.trim()`: nothing but whitespace is left after trimming. */
  predicate IsBlank(s: string) {
    Trim(s) == []
  }

  /** A string is blank exactly when it is all whitespace. */
  lemma BlankIffAllSpace(s: string)
    ensures IsBlank(s) <==> AllSpace(s)
  {
    var t := TrimStart(s);
    TrimStartStrips(s);
    TrimEndStrips(t);
    if Trim(s) == [] {
      assert AllSpace(t);
      assert s == s[..|s| - |t|] + t;
    }
  }

  /** Index of the first whitespace character, or |s| when there is none. */
  function FirstSpace(s: string): nat {
    if s == [] || IsSpace(s[0]) then 0 else 1 + FirstSpace(s[1..])
  }

  /** FirstSpace(s) is the length of the longest whitespace-free prefix of s. */
  lemma {:induction false} FirstSpaceBounds(s: string)
    ensures FirstSpace(s) <= |s|
    ensures SpaceFree(s[..FirstSpace(s)])
    ensures FirstSpace(s) < |s| ==> IsSpace(s[FirstSpace(s)])
  {
    if s != [] && !IsSpace(s[0]) {
      var i := FirstSpace(s);
      FirstSpaceBounds(s[1..]);
      assert s[..i] == [s[0]] + s[1..][..i - 1];
    }
  }

  /** `s.split(/\s+/)`: the pieces of s between maximal runs of whitespace.
      A leading run yields an empty first piece, a trailing run (or the
      empty string) an empty last piece; every other piece is non-empty. */
  function Split(s: string): seq<string>
    decreases |s|
  {
    FirstSpaceBounds(s);
    var i := FirstSpace(s);
    if i == |s| then [s]
    else
      TrimStartStrips(s[i..]);
      [s[..i]] + Split(TrimStart(s[i..]))
  }

  /** The pieces `split` returns: at least one, none containing whitespace,
      and only the first and the last may be empty; the first is not empty
      when s starts with a non-whitespace character. */
  lemma {:induction false} SplitPieces(s: string)
    ensures |Split(s)| >= 1
    ensures forall k :: 0 <= k < |Split(s)| ==> SpaceFree(Split(s)[k])
    ensures s != [] && !IsSpace(s[0]) ==> Split(s)[0] != []
    ensures forall k :: 0 < k < |Split(s)| - 1 ==> Split(s)[k] != []
    decreases |s|
  {
    FirstSpaceBounds(s);
    var i := FirstSpace(s);
    if i == |s| {
      assert s[..i] == s;
    } else {
      var rest := TrimStart(s[i..]);
      TrimStartStrips(s[i..]);
      SplitPieces(rest);
      assert rest == [] ==> Split(rest) == [[]];
    }
  }

  /** pieces[0] + gaps[0] + pieces[1] + ... + gaps[n-2] + pieces[n-1]. */
  function Interleave(pieces: seq<string>, gaps: seq<string>): string
    requires |pieces| == |gaps| + 1
    decreases |gaps|
  {
    if gaps == [] then pieces[0]
    else pieces[0] + gaps[0] + Interleave(pieces[1..], gaps[1..])
  }

  /** The cuts of `split` fall exactly on the maximal whitespace runs: s is its
      pieces glued back together with a non-empty run of whitespace between
      each two. With SplitPieces (no piece holds whitespace) this determines
      the pieces. */
  lemma {:induction false} SplitRebuild(s: string) returns (gaps: seq<string>)
    ensures |Split(s)| == |gaps| + 1
    ensures forall k :: 0 <= k < |gaps| ==> gaps[k] != [] && AllSpace(gaps[k])
    ensures s == Interleave(Split(s), gaps)
    decreases |s|
  {
    FirstSpaceBounds(s);
    var i := FirstSpace(s);
    if i == |s| {
      assert s[..i] == s;
      gaps := [];
    } else {
      TrimStartStrips(s[i..]);
      var word, gap, rest := Pieces(s, i);
      var inner := SplitRebuild(rest);
      SplitUnfold(s, i);
      var pieces := [word] + Split(rest);
      gaps := [gap] + inner;
      assert pieces[1..] == Split(rest) && gaps[1..] == inner;
      assert Split(s) == pieces;
      assert |gap| == |s| - |word| - |rest|;
    }
  }

  /** Every character of s that is not whitespace, in order. */
  function RemoveSpaces(s: string): string {
    if s == [] then []
    else if IsSpace(s[0]) then RemoveSpaces(s[1..])
    else [s[0]] + RemoveSpaces(s[1..])
  }

  function Concat(tokens: seq<string>): string {
    if tokens == [] then [] else tokens[0] + Concat(tokens[1..])
  }

  lemma {:induction false} RemoveSpacesAppend(a: string, b: string)
    ensures RemoveSpaces(a + b) == RemoveSpaces(a) + RemoveSpaces(b)
    decreases |a|
  {
    if a != [] {
      assert (a + b)[1..] == a[1..] + b;
      RemoveSpacesAppend(a[1..], b);
    } else {
      assert a + b == b;
    }
  }

  lemma {:induction false} RemoveSpacesOfSpaceFree(s: string)
    requires SpaceFree(s)
    ensures RemoveSpaces(s) == s
    decreases |s|
  {
    if s != [] {
      assert SpaceFree(s[1..]);
      RemoveSpacesOfSpaceFree(s[1..]);
    }
  }

  lemma {:induction false} RemoveSpacesOfAllSpace(s: string)
    requires AllSpace(s)
    ensures RemoveSpaces(s) == []
    decreases |s|
  {
    if s != [] {
      assert AllSpace(s[1..]);
      RemoveSpacesOfAllSpace(s[1..]);
    }
  }

  lemma ConcatCons(word: string, tokens: seq<string>)
    ensures Concat([word] + tokens) == word + Concat(tokens)
  {
    assert ([word] + tokens)[1..] == tokens;
  }

  /** Splitting loses exactly the whitespace: gluing the pieces back
      together gives the input with its whitespace removed. */
  lemma {:induction false} SplitLosesOnlySpaces(s: string)
    ensures Concat(Split(s)) == RemoveSpaces(s)
    decreases |s|
  {
    FirstSpaceBounds(s);
    var i := FirstSpace(s);
    if i == |s| {
      SplitSpaceFree(s);
    } else {
      TrimStartStrips(s[i..]);
      var rest := TrimStart(s[i..]);
      RemoveSpacesStep(s, i);
      SplitLosesOnlySpaces(rest);
      ConcatCons(s[..i], Split(rest));
      SplitUnfold(s, i);
    }
  }

  lemma SplitSpaceFree(s: string)
    requires FirstSpace(s) == |s|
    ensures Concat(Split(s)) == RemoveSpaces(s)
  {
    FirstSpaceBounds(s);
    assert s[..|s|] == s;
    RemoveSpacesOfSpaceFree(s);
    ConcatCons(s, []);
  }

  lemma SplitUnfold(s: string, i: nat)
    requires i == FirstSpace(s) && i < |s|
    ensures Split(s) == [s[..i]] + Split(TrimStart(s[i..]))
  {
    FirstSpaceBounds(s);
  }

  /** Removing the whitespace of s keeps its first piece and skips the gap after it. */
  lemma RemoveSpacesStep(s: string, i: nat)
    requires i == FirstSpace(s) && i < |s|
    ensures RemoveSpaces(s) == s[..i] + RemoveSpaces(TrimStart(s[i..]))
  {
    var word, gap, rest := Pieces(s, i);
    RemoveSpacesOfSpaceFree(word);
    RemoveSpacesOfAllSpace(gap);
    RemoveSpacesGlue(word, gap, rest);
  }

  /** The first piece of s, the whitespace run after it, and what follows. */
  lemma Pieces(s: string, i: nat) returns (word: string, gap: string, rest: string)
    requires i == FirstSpace(s) && i < |s|
    ensures s == word + gap + rest
    ensures word == s[..i] && rest == TrimStart(s[i..])
    ensures SpaceFree(word) && AllSpace(gap)
  {
    FirstSpaceBounds(s);
    var tail := s[i..];
    TrimStartStrips(tail);
    var m := |tail| - |TrimStart(tail)|;
    word, gap, rest := s[..i], tail[..m], TrimStart(tail);
    Reassemble(s, i, m);
  }

  /** Cutting s at i, and its tail again at m, and gluing the parts gives s back. */
  lemma Reassemble(s: string, i: nat, m: nat)
    requires i <= |s| && m <= |s| - i
    ensures s == s[..i] + s[i..][..m] + s[i..][m..]
  {
    assert s[i..] == s[i..][..m] + s[i..][m..];
  }

  lemma RemoveSpacesGlue(word: string, gap: string, rest: string)
    requires RemoveSpaces(word) == word && RemoveSpaces(gap) == []
    ensures RemoveSpaces(word + gap + rest) == word + RemoveSpaces(rest)
  {
    RemoveSpacesAppend(word + gap, rest);
    RemoveSpacesAppend(word, gap);
  }
}
