/** The JavaScript string operations the pages rely on: `trim`, `toLowerCase`,
    `toUpperCase` of one character, `includes`, `split` on one character and `join`. */
module Text {

  /** White space and line terminators as `String.prototype.trim` removes them. */
  predicate IsSpace(c: char) {
    var n := c as int;
    (9 <= n <= 13) || n == 32 || n == 0xA0 || n == 0x1680 || (0x2000 <= n <= 0x200A)
    || n == 0x2028 || n == 0x2029 || n == 0x202F || n == 0x205F || n == 0x3000 || n == 0xFEFF
  }

  /** Drops leading white space: the result is a suffix of `s` that does not start with a space. */
  function TrimStart(s: string): (r: string)
    ensures |r| <= |s| && r == s[|s| - |r|..]
    ensures r == [] || !IsSpace(r[0])
    ensures forall i :: 0 <= i < |s| - |r| ==> IsSpace(s[i])
  {
    if |s| > 0 && IsSpace(s[0]) then TrimStart(s[1..]) else s
  }

  /** Drops trailing white space: the result is a prefix of `s` that does not end with a space. */
  function TrimEnd(s: string): (r: string)
    ensures |r| <= |s| && r == s[..|r|]
    ensures r == [] || !IsSpace(r[|r| - 1])
    ensures forall i :: |r| <= i < |s| ==> IsSpace(s[i])
  {
    if |s| > 0 && IsSpace(s[|s| - 1]) then TrimEnd(s[..|s| - 1]) else s
  }

  /** `s.trim()`: the string is white space, then the result, then white space, and the result
      neither starts nor ends with white space. */
  function Trim(s: string): (r: string)
    ensures r == [] || (!IsSpace(r[0]) && !IsSpace(r[|r| - 1]))
    ensures exists i :: OccursAt(s, r, i) && (forall j :: 0 <= j < i ==> IsSpace(s[j]))
                        && (forall j :: i + |r| <= j < |s| ==> IsSpace(s[j]))
  {
    TrimBothEnds(s);
    TrimEnd(TrimStart(s))
  }

  lemma TrimBothEnds(s: string)
    ensures var r := TrimEnd(TrimStart(s)); r == [] || (!IsSpace(r[0]) && !IsSpace(r[|r| - 1]))
    ensures var r := TrimEnd(TrimStart(s));
            exists i :: OccursAt(s, r, i) && (forall j :: 0 <= j < i ==> IsSpace(s[j]))
                        && (forall j :: i + |r| <= j < |s| ==> IsSpace(s[j]))
  {
    var t := TrimStart(s);
    var r := TrimEnd(t);
    if r != [] {
      assert r[0] == t[0];
    }
    TrimSurround(s, t, r);
  }

  /** A suffix after leading spaces, cut before trailing spaces, is surrounded by spaces. */
  lemma TrimSurround(s: string, t: string, r: string)
    requires |t| <= |s| && t == s[|s| - |t|..] && forall j :: 0 <= j < |s| - |t| ==> IsSpace(s[j])
    requires |r| <= |t| && r == t[..|r|] && forall j :: |r| <= j < |t| ==> IsSpace(t[j])
    ensures exists i :: OccursAt(s, r, i) && (forall j :: 0 <= j < i ==> IsSpace(s[j]))
                        && (forall j :: i + |r| <= j < |s| ==> IsSpace(s[j]))
  {
    var i := |s| - |t|;
    assert t == s[i..] && r == t[..|r|];
    forall k | 0 <= k < |r|
      ensures s[i + k] == r[k]
    {
      assert r[k] == t[k] && t[k] == s[i + k];
    }
    assert s[i..i + |r|] == r;
    assert OccursAt(s, r, i);
    forall j | i + |r| <= j < |s|
      ensures IsSpace(s[j])
    {
      assert s[j] == t[j - i];
    }
    assert forall j :: 0 <= j < i ==> IsSpace(s[j]);
  }

  /** `s.trim()` is empty exactly when `s` is made of white space only (the empty string included). */
  lemma TrimEmptyIff(s: string)
    ensures Trim(s) == [] <==> forall i :: 0 <= i < |s| ==> IsSpace(s[i])
  {
    var t := TrimStart(s);
    if Trim(s) == [] {
      assert t == [];
    } else {
      var r := Trim(s);
      assert r == t[..|r|];
      assert !IsSpace(s[|s| - |t|]);
    }
  }

  /** Leading white space is dropped up to the first other character. */
  lemma {:induction false} TrimStartSpaces(pre: string, s: string)
    requires forall i :: 0 <= i < |pre| ==> IsSpace(pre[i])
    requires s == [] || !IsSpace(s[0])
    ensures TrimStart(pre + s) == s
  {
    if pre == [] {
      assert pre + s == s;
    } else {
      assert (pre + s)[0] == pre[0] && (pre + s)[1..] == pre[1..] + s;
      TrimStartSpaces(pre[1..], s);
    }
  }

  /** Trailing white space is dropped back to the last other character. */
  lemma {:induction false} TrimEndSpaces(s: string, post: string)
    requires forall i :: 0 <= i < |post| ==> IsSpace(post[i])
    requires s == [] || !IsSpace(s[|s| - 1])
    ensures TrimEnd(s + post) == s
    decreases |post|
  {
    if post == [] {
      assert s + post == s;
    } else {
      var n := |s + post|;
      assert (s + post)[n - 1] == post[|post| - 1];
      assert (s + post)[..n - 1] == s + post[..|post| - 1];
      TrimEndSpaces(s, post[..|post| - 1]);
    }
  }

  /** Trimming a padded word gives the word. */
  lemma TrimPadded(pre: string, core: string, post: string)
    requires forall i :: 0 <= i < |pre| ==> IsSpace(pre[i])
    requires forall i :: 0 <= i < |post| ==> IsSpace(post[i])
    requires core != [] && !IsSpace(core[0]) && !IsSpace(core[|core| - 1])
    ensures Trim(pre + core + post) == core
  {
    assert pre + core + post == pre + (core + post);
    assert (core + post)[0] == core[0];
    TrimStartSpaces(pre, core + post);
    TrimEndSpaces(core, post);
  }

  /** ASCII lower-casing of one character. */
  function LowerChar(c: char): char {
    if 'A' <= c <= 'Z' then (c as int + 32) as char else c
  }

  /** ASCII upper-casing of one character. */
  function UpperChar(c: char): char {
    if 'a' <= c <= 'z' then (c as int - 32) as char else c
  }

  /** `s.toLowerCase()`, character by character. */
  function Lower(s: string): (r: string)
    ensures |r| == |s|
    ensures forall i :: 0 <= i < |s| ==> r[i] == LowerChar(s[i])
  {
    if s == [] then [] else [LowerChar(s[0])] + Lower(s[1..])
  }

  /** Lower-casing a character twice changes nothing more, and leaves no upper-case letter. */
  lemma LowerCharIdempotent(c: char)
    ensures LowerChar(LowerChar(c)) == LowerChar(c)
    ensures !('A' <= LowerChar(c) <= 'Z')
  {
  }

  /** Lower-casing twice changes nothing more, and a lower-cased string has no upper-case letter. */
  lemma {:induction false} LowerIdempotent(s: string)
    ensures Lower(Lower(s)) == Lower(s)
    ensures forall i :: 0 <= i < |s| ==> !('A' <= Lower(s)[i] <= 'Z')
  {
    var l := Lower(s);
    forall i | 0 <= i < |s|
      ensures Lower(l)[i] == l[i] && !('A' <= l[i] <= 'Z')
    {
      LowerCharIdempotent(s[i]);
    }
  }

  /** A string without upper-case letters is its own lower case. */
  lemma {:induction false} LowerOfLowerCase(s: string)
    requires forall i :: 0 <= i < |s| ==> !('A' <= s[i] <= 'Z')
    ensures Lower(s) == s
  {
    var l := Lower(s);
    forall i | 0 <= i < |s| ensures l[i] == s[i] {
    }
  }

  /** `s.length`: JavaScript counts UTF-16 code units, two for a character beyond U+FFFF. */
  function Utf16Length(s: string): (n: nat)
    ensures n == |s| + |AstralPositions(s)|
    ensures |s| <= n <= 2 * |s|
    ensures (forall i :: 0 <= i < |s| ==> s[i] as int < 0x1_0000) ==> n == |s|
  {
    if s == [] then 0
    else
      var init := s[..|s| - 1];
      AstralPositionsSnoc(s);
      Utf16Length(init) + (if s[|s| - 1] as int < 0x1_0000 then 1 else 2)
  }

  /** The positions of the characters beyond U+FFFF, each written as a surrogate pair. */
  ghost function AstralPositions(s: string): set<int> {
    set i | 0 <= i < |s| && s[i] as int >= 0x1_0000
  }

  /** The last character adds its own position to those of the rest, or nothing. */
  lemma AstralPositionsSnoc(s: string)
    requires s != []
    ensures |AstralPositions(s)| == |AstralPositions(s[..|s| - 1])|
                                    + (if s[|s| - 1] as int < 0x1_0000 then 0 else 1)
  {
    var init := s[..|s| - 1];
    var last := |s| - 1;
    var a := AstralPositions(init);
    assert last !in a;
    if s[last] as int < 0x1_0000 {
      assert AstralPositions(s) == a;
    } else {
      assert AstralPositions(s) == a + {last};
    }
  }

  /** `needle` starts at position `i` of `hay`. */
  predicate OccursAt(hay: string, needle: string, i: int) {
    0 <= i && i + |needle| <= |hay| && hay[i..i + |needle|] == needle
  }

  /** `hay.includes(needle)`: tries each start position from the left. */
  function Contains(hay: string, needle: string): (r: bool)
    ensures r <==> exists i :: OccursAt(hay, needle, i)
    decreases |hay|
  {
    if needle <= hay then
      assert OccursAt(hay, needle, 0);
      true
    else if |hay| == 0 then
      assert forall i :: !OccursAt(hay, needle, i);
      false
    else
      var r := Contains(hay[1..], needle);
      assert forall i :: OccursAt(hay[1..], needle, i) <==> OccursAt(hay, needle, i + 1);
      assert !OccursAt(hay, needle, 0);
      assert r ==> exists i :: OccursAt(hay, needle, i) by {
        if r {
          var i :| OccursAt(hay[1..], needle, i);
          assert OccursAt(hay, needle, i + 1);
        }
      }
      assert (exists i :: OccursAt(hay, needle, i)) ==> r by {
        if exists i :: OccursAt(hay, needle, i) {
          var i :| OccursAt(hay, needle, i);
          assert i >= 1;
          assert OccursAt(hay[1..], needle, i - 1);
        }
      }
      r
  }

  /** A string only contains a needle at least as long as itself when the two are equal. */
  lemma ContainsNoLonger(hay: string, needle: string)
    requires |needle| >= |hay|
    ensures Contains(hay, needle) <==> hay == needle
  {
    if Contains(hay, needle) {
      var i :| OccursAt(hay, needle, i);
      assert i == 0 && hay[0..|needle|] == hay;
    } else {
      assert hay == needle ==> OccursAt(hay, needle, 0);
    }
  }

  /** `s.split(sep)` for a one-character separator: never empty, and no piece holds the separator. */
  function Split(s: string, sep: char): (r: seq<string>)
    ensures |r| >= 1
    ensures forall k :: 0 <= k < |r| ==> sep !in r[k]
  {
    if s == [] then [[]]
    else if s[0] == sep then [[]] + Split(s[1..], sep)
    else
      var rest := Split(s[1..], sep);
      [[s[0]] + rest[0]] + rest[1..]
  }

  /** `parts.join(sep)` for a one-character separator: the first piece, then (with more pieces)
      the separator. */
  function Join(parts: seq<string>, sep: char): (r: string)
    ensures |parts| >= 1 ==> parts[0] <= r
    ensures |parts| >= 2 ==> |r| > |parts[0]| && r[|parts[0]|] == sep
  {
    if |parts| == 0 then []
    else if |parts| == 1 then parts[0]
    else parts[0] + [sep] + Join(parts[1..], sep)
  }

  /** Putting a character in front of the first piece puts it in front of the joined string. */
  lemma {:induction false} JoinExtendFirst(c: char, parts: seq<string>, sep: char)
    requires |parts| >= 1
    ensures Join([[c] + parts[0]] + parts[1..], sep) == [c] + Join(parts, sep)
  {
    var q := [[c] + parts[0]] + parts[1..];
    assert q[0] == [c] + parts[0] && q[1..] == parts[1..];
    if |parts| > 1 {
      assert Join(q, sep) == ([c] + parts[0]) + [sep] + Join(parts[1..], sep);
      assert Join(parts, sep) == parts[0] + [sep] + Join(parts[1..], sep);
    }
  }

  /** Splitting on a character and joining with it gives back the original string. */
  lemma {:induction false} JoinSplit(s: string, sep: char)
    ensures Join(Split(s, sep), sep) == s
  {
    if s == [] {
    } else if s[0] == sep {
      var rest := Split(s[1..], sep);
      JoinSplit(s[1..], sep);
      var r := Split(s, sep);
      assert r == [[]] + rest && r[1..] == rest;
      assert Join(r, sep) == [] + [sep] + Join(rest, sep);
      assert s == [sep] + s[1..];
    } else {
      var rest := Split(s[1..], sep);
      JoinSplit(s[1..], sep);
      JoinExtendFirst(s[0], rest, sep);
      assert s == [s[0]] + s[1..];
    }
  }

  /** Splitting a string that starts with a separator-free piece followed by the separator. */
  lemma {:induction false} SplitAfterPiece(a: string, sep: char, b: string)
    requires sep !in a
    ensures Split(a + [sep] + b, sep) == [a] + Split(b, sep)
  {
    if a == [] {
      assert a + [sep] + b == [sep] + b;
      assert ([sep] + b)[1..] == b;
    } else {
      var s := a + [sep] + b;
      assert s[0] == a[0] && s[1..] == a[1..] + [sep] + b;
      SplitAfterPiece(a[1..], sep, b);
      assert [a[0]] + a[1..] == a;
    }
  }

  /** Joining separator-free pieces and splitting again gives back the pieces. */
  lemma {:induction false} SplitJoin(parts: seq<string>, sep: char)
    requires |parts| >= 1
    requires forall k :: 0 <= k < |parts| ==> sep !in parts[k]
    ensures Split(Join(parts, sep), sep) == parts
  {
    if |parts| == 1 {
      SplitOfPiece(parts[0], sep);
    } else {
      SplitJoin(parts[1..], sep);
      SplitAfterPiece(parts[0], sep, Join(parts[1..], sep));
      assert [parts[0]] + parts[1..] == parts;
    }
  }

  /** A string without the separator splits into itself alone. */
  lemma {:induction false} SplitOfPiece(a: string, sep: char)
    requires sep !in a
    ensures Split(a, sep) == [a]
  {
    if a != [] {
      SplitOfPiece(a[1..], sep);
      assert [a[0]] + a[1..] == a;
    }
  }
}
