/// The phrase list of the "No" button (src/App.tsx, line 30):
/// `noButtonPhrases.split('\n').map(p => p.trim()).filter(Boolean)`.
module Phrases {

  /** The code points that String.prototype.trim removes (ECMA-262, section 22.1.3.32):
      WhiteSpace (TAB, VT, FF, SP, NBSP, ZWNBSP and every other Zs space separator)
      and LineTerminator (LF, CR, LS, PS). */
  predicate IsJsWhitespace(c: char) {
    var k := c as int;
    k == 0x09 || k == 0x0B || k == 0x0C || k == 0x20 || k == 0xA0 || k == 0xFEFF
    || k == 0x1680 || (0x2000 <= k <= 0x200A) || k == 0x202F || k == 0x205F || k == 0x3000
    || k == 0x0A || k == 0x0D || k == 0x2028 || k == 0x2029
  }

  predicate AllWhitespace(s: string) {
    forall i :: 0 <= i < |s| ==> IsJsWhitespace(s[i])
  }

  /** A string with no whitespace at either end (the empty string included). */
  predicate IsTrimmed(s: string) {
    s == [] || (!IsJsWhitespace(s[0]) && !IsJsWhitespace(s[|s| - 1]))
  }

  /** How many code points at the start of `s` are whitespace. */
  function LeadingWhitespace(s: string): (k: nat)
    ensures k <= |s| && AllWhitespace(s[..k])
    ensures k < |s| ==> !IsJsWhitespace(s[k])
  {
    if s != [] && IsJsWhitespace(s[0]) then 1 + LeadingWhitespace(s[1..]) else 0
  }

  /** How many code points at the end of `s` are whitespace. */
  function TrailingWhitespace(s: string): (k: nat)
    ensures k <= |s| && AllWhitespace(s[|s| - k..])
    ensures k < |s| ==> !IsJsWhitespace(s[|s| - 1 - k])
  {
    if s != [] && IsJsWhitespace(s[|s| - 1]) then
      var init := s[..|s| - 1];
      var k := TrailingWhitespace(init);
      assert s[|s| - 1 - k..] == init[|init| - k..] + [s[|s| - 1]];
      AllWhitespaceAppend(init[|init| - k..], [s[|s| - 1]]);
      assert k + 1 < |s| ==> s[|s| - 2 - k] == init[|init| - 1 - k];
      1 + k
    else 0
  }

  lemma AllWhitespaceAppend(a: string, b: string)
    requires AllWhitespace(a) && AllWhitespace(b)
    ensures AllWhitespace(a + b)
  {
    assert forall i :: 0 <= i < |a + b| ==> (a + b)[i] == if i < |a| then a[i] else b[i - |a|];
  }

  /** String.prototype.trim: the infix of `s` left once the whitespace at both ends is cut off. */
  function Trim(s: string): (r: string)
    ensures IsTrimmed(r)
    ensures exists i, j :: 0 <= i <= j <= |s| && r == s[i..j] && AllWhitespace(s[..i]) && AllWhitespace(s[j..])
    ensures forall c :: c in r ==> c in s
  {
    var i := LeadingWhitespace(s);
    var rest := s[i..];
    var k := TrailingWhitespace(rest);
    var j := |s| - k;
    assert s[i..j] == rest[..|rest| - k];
    assert s[j..] == rest[|rest| - k..];
    assert s[i..j] != [] ==> s[i..j][|s[i..j]| - 1] == rest[|rest| - 1 - k];
    s[i..j]
  }

  /** Trim leaves a string unchanged exactly when it has no whitespace at either end. */
  lemma TrimFixedIffTrimmed(s: string)
    ensures Trim(s) == s <==> IsTrimmed(s)
  {
    if IsTrimmed(s) {
      assert LeadingWhitespace(s) == 0;
      assert TrailingWhitespace(s) == 0;
      assert s[0..|s|] == s;
    }
  }

  /** Trimming twice is trimming once. */
  lemma TrimIdempotent(s: string)
    ensures Trim(Trim(s)) == Trim(s)
  {
    TrimFixedIffTrimmed(Trim(s));
  }

  /** The position of the first '\n' in `s`. */
  function IndexOfNewline(s: string): (i: nat)
    requires '\n' in s
    ensures i < |s| && s[i] == '\n' && '\n' !in s[..i]
  {
    if s[0] == '\n' then 0
    else
      assert s == [s[0]] + s[1..];
      var i := IndexOfNewline(s[1..]);
      assert s[..i + 1] == [s[0]] + s[1..][..i];
      i + 1
  }

  /** The pieces of `lines` with a '\n' between each two. */
  function Join(lines: seq<string>): string
  {
    if |lines| == 0 then ""
    else if |lines| == 1 then lines[0]
    else lines[0] + "\n" + Join(lines[1..])
  }

  /** `s.split('\n')` (ECMA-262, section 22.1.3.23): the maximal '\n'-free pieces between
      separators; "" gives [""] and a trailing '\n' gives a final "". Joining them again
      gives back `s`, and there is one more piece than there are separators. */
  function Split(s: string): (lines: seq<string>)
    ensures |lines| >= 1
    ensures forall k :: 0 <= k < |lines| ==> '\n' !in lines[k]
    ensures Join(lines) == s
    decreases |s|
  {
    if '\n' in s then
      var i := IndexOfNewline(s);
      var rest := Split(s[i + 1..]);
      assert s == s[..i] + "\n" + s[i + 1..];
      assert ([s[..i]] + rest)[1..] == rest;
      [s[..i]] + rest
    else
      [s]
  }

  /** There is one more piece than there are separators. */
  lemma {:induction false} SplitCountsSeparators(s: string)
    ensures |Split(s)| == multiset(s)['\n'] + 1
    decreases |s|
  {
    if '\n' in s {
      var i := IndexOfNewline(s);
      SplitCountsSeparators(s[i + 1..]);
      assert |Split(s)| == 1 + |Split(s[i + 1..])|;
      assert s == s[..i] + "\n" + s[i + 1..];
      assert multiset(s) == multiset(s[..i]) + multiset{'\n'} + multiset(s[i + 1..]);
      assert multiset(s[..i])['\n'] == 0;
    } else {
      assert multiset(s)['\n'] == 0;
    }
  }

  /** A '\n'-free piece followed by a separator is split off as the first piece. */
  lemma SplitFirst(first: string, rest: string)
    requires '\n' !in first
    ensures Split(first + "\n" + rest) == [first] + Split(rest)
  {
    var s := first + "\n" + rest;
    assert s[|first|] == '\n';
    var i := IndexOfNewline(s);
    assert i == |first| by {
      assert s[..|first|] == first;
    }
    assert s[..i] == first;
    assert s[i + 1..] == rest;
  }

  /** Splitting a join of '\n'-free pieces gives the pieces back. */
  lemma {:induction false} SplitJoin(lines: seq<string>)
    requires |lines| >= 1
    requires forall k :: 0 <= k < |lines| ==> '\n' !in lines[k]
    ensures Split(Join(lines)) == lines
  {
    if |lines| > 1 {
      var rest := lines[1..];
      assert Join(lines) == lines[0] + "\n" + Join(rest);
      SplitFirst(lines[0], Join(rest));
      SplitJoin(rest);
      assert lines == [lines[0]] + rest;
    }
  }

  /** `map(p => p.trim())`. */
  function TrimAll(lines: seq<string>): (r: seq<string>)
    ensures |r| == |lines|
    ensures forall k :: 0 <= k < |r| ==> r[k] == Trim(lines[k])
  {
    seq(|lines|, k requires 0 <= k < |lines| => Trim(lines[k]))
  }

  /** `xs` occurs in `ys` in order, possibly with gaps. */
  ghost predicate IsSubsequence<T>(xs: seq<T>, ys: seq<T>)
    decreases |ys|
  {
    xs == [] || (ys != [] && ((xs[0] == ys[0] && IsSubsequence(xs[1..], ys[1..])) || IsSubsequence(xs, ys[1..])))
  }

  /** `filter(Boolean)` on strings: the empty string is the only falsy string, so every
      non-empty element is kept, as often as it occurs, and every empty one is dropped. */
  function DropEmpty(xs: seq<string>): (r: seq<string>)
    ensures |r| <= |xs|
    ensures forall k :: 0 <= k < |r| ==> r[k] != "" && r[k] in xs
  {
    if xs == [] then []
    else if xs[0] == "" then DropEmpty(xs[1..]) else [xs[0]] + DropEmpty(xs[1..])
  }

  /** The filter drops every empty string and keeps every other one as often as it occurs. */
  lemma {:induction false} DropEmptyCounts(xs: seq<string>)
    ensures multiset(DropEmpty(xs))[""] == 0
    ensures forall x :: x != "" ==> multiset(DropEmpty(xs))[x] == multiset(xs)[x]
  {
    if xs != [] {
      DropEmptyCounts(xs[1..]);
      assert xs == [xs[0]] + xs[1..];
    }
  }

  /** Dropping the empty strings keeps the order of the rest. */
  lemma {:induction false} DropEmptyKeepsOrder(xs: seq<string>)
    ensures IsSubsequence(DropEmpty(xs), xs)
  {
    if xs != [] {
      DropEmptyKeepsOrder(xs[1..]);
      if xs[0] != "" {
        assert ([xs[0]] + DropEmpty(xs[1..]))[1..] == DropEmpty(xs[1..]);
      }
    }
  }

  /** A list without empty strings passes the filter unchanged. */
  lemma {:induction false} DropEmptyOfNonEmpty(xs: seq<string>)
    requires forall k :: 0 <= k < |xs| ==> xs[k] != ""
    ensures DropEmpty(xs) == xs
  {
    if xs != [] {
      DropEmptyOfNonEmpty(xs[1..]);
      assert xs == [xs[0]] + xs[1..];
    }
  }

  /** A phrase as the generated page may show it: non-empty, trimmed, on one line. */
  predicate IsPhrase(p: string) {
    p != "" && IsTrimmed(p) && '\n' !in p
  }

  /** Trimming '\n'-free lines and dropping the blank ones leaves only phrases. */
  lemma NonBlankTrimmedArePhrases(lines: seq<string>)
    requires forall k :: 0 <= k < |lines| ==> '\n' !in lines[k]
    ensures forall k :: 0 <= k < |DropEmpty(TrimAll(lines))| ==> IsPhrase(DropEmpty(TrimAll(lines))[k])
  {
    var trimmed := TrimAll(lines);
    assert forall k :: 0 <= k < |trimmed| ==> '\n' !in trimmed[k] by {
      forall k | 0 <= k < |trimmed| ensures '\n' !in trimmed[k] {
        assert '\n' !in lines[k];
      }
    }
    var r := DropEmpty(trimmed);
    forall k | 0 <= k < |r| ensures IsPhrase(r[k]) {
      var m :| 0 <= m < |trimmed| && trimmed[m] == r[k];
    }
  }

  /** The phrase list of src/App.tsx line 30. */
  function ParsePhrases(text: string): (phrases: seq<string>)
    ensures forall k :: 0 <= k < |phrases| ==> IsPhrase(phrases[k])
    ensures |phrases| <= |Split(text)|
  {
    var lines := Split(text);
    NonBlankTrimmedArePhrases(lines);
    DropEmpty(TrimAll(lines))
  }

  /** The phrases are the trimmed lines, in input order, without the blank ones: every
      line that is not blank after trimming is kept, as often as it occurs. */
  lemma ParsePhrasesKeepsLines(text: string)
    ensures IsSubsequence(ParsePhrases(text), TrimAll(Split(text)))
    ensures forall x :: x != "" ==> multiset(ParsePhrases(text))[x] == multiset(TrimAll(Split(text)))[x]
  {
    DropEmptyKeepsOrder(TrimAll(Split(text)));
    DropEmptyCounts(TrimAll(Split(text)));
  }

  /** Trimming leaves a list of trimmed strings unchanged. */
  lemma TrimAllOfTrimmed(lines: seq<string>)
    requires forall k :: 0 <= k < |lines| ==> IsTrimmed(lines[k])
    ensures TrimAll(lines) == lines
  {
    forall k | 0 <= k < |lines| ensures Trim(lines[k]) == lines[k] {
      TrimFixedIffTrimmed(lines[k]);
    }
  }

  /** Round trip: writing well-formed phrases one per line and parsing the text gives
      exactly those phrases back, in order. */
  lemma ParseJoin(phrases: seq<string>)
    requires forall k :: 0 <= k < |phrases| ==> IsPhrase(phrases[k])
    ensures ParsePhrases(Join(phrases)) == phrases
  {
    if phrases == [] {
      assert Split("") == [""];
      assert TrimAll([""]) == [""] by {
        TrimFixedIffTrimmed("");
      }
      assert DropEmpty([""]) == [];
    } else {
      var text := Join(phrases);
      assert Split(text) == phrases by {
        SplitJoin(phrases);
      }
      assert TrimAll(phrases) == phrases by {
        TrimAllOfTrimmed(phrases);
      }
      assert DropEmpty(phrases) == phrases by {
        DropEmptyOfNonEmpty(phrases);
      }
    }
  }

  /** Whitespace after the last visible character, a '\r' before a '\n' among it, is cut off by trim. */
  lemma {:induction false} TrimDropsTrailingWhitespace(p: string, w: string)
    requires p != "" && IsTrimmed(p) && AllWhitespace(w)
    ensures Trim(p + w) == p
  {
    if w == [] {
      assert p + w == p;
      TrimFixedIffTrimmed(p);
    } else {
      var s, w' := p + w, w[..|w| - 1];
      assert s[..|s| - 1] == p + w';
      TrimDropsTrailingWhitespace(p, w');
      assert LeadingWhitespace(s) == 0;
      assert TrailingWhitespace(p + w') == |w'| by {
        assert LeadingWhitespace(p + w') == 0;
      }
      assert s[0..|p|] == p;
    }
  }

  /** The two-line example: "Nope\nNever" gives ["Nope", "Never"]. */
  lemma ExamplePhrases()
    ensures ParsePhrases("Nope\nNever") == ["Nope", "Never"]
  {
    var phrases := ["Nope", "Never"];
    assert Join(phrases) == "Nope\nNever";
    assert IsPhrase(phrases[0]) && IsPhrase(phrases[1]);
    ParseJoin(phrases);
  }
}
