/**
 * The JavaScript string operations the components use, on `seq<char>`:
 * `trim`, ASCII `toLowerCase`, `split` on one character and `join`.
 */
module Text {

  /** The characters `String.prototype.trim` removes: white space and line terminators. */
  predicate IsSpace(c: char)
  {
    var n := c as int;
    (9 <= n <= 13) || n == 0x20 || n == 0xA0 || n == 0x1680 || (0x2000 <= n <= 0x200A) ||
    n == 0x2028 || n == 0x2029 || n == 0x202F || n == 0x205F || n == 0x3000 || n == 0xFEFF
  }

  /** No white space at either end. */
  predicate IsTrimmed(s: string)
  {
    s == [] || (!IsSpace(s[0]) && !IsSpace(s[|s| - 1]))
  }

  /** The number of leading white-space characters. */
  function LeadingSpace(s: string): (n: nat)
    ensures n <= |s|
    ensures forall j | 0 <= j < n :: IsSpace(s[j])
    ensures n < |s| ==> !IsSpace(s[n])
  {
    if s != [] && IsSpace(s[0]) then
      var n := 1 + LeadingSpace(s[1..]);
      assert forall j | 1 <= j < n :: s[j] == s[1..][j - 1];
      n
    else 0
  }

  /** The length of `s` without its trailing white space. */
  function TrailingStart(s: string): (n: nat)
    ensures n <= |s|
    ensures forall j | n <= j < |s| :: IsSpace(s[j])
    ensures n > 0 ==> !IsSpace(s[n - 1])
  {
    if s != [] && IsSpace(s[|s| - 1]) then
      var n := TrailingStart(s[..|s| - 1]);
      assert forall j | n <= j < |s| - 1 :: s[j] == s[..|s| - 1][j];
      n
    else |s|
  }

  function TrimStart(s: string): string
  {
    s[LeadingSpace(s)..]
  }

  function TrimEnd(s: string): string
  {
    s[..TrailingStart(s)]
  }

  /** `s.trim()`: drops the white space at both ends, and nothing else. */
  function Trim(s: string): (r: string)
    ensures IsTrimmed(r)
    ensures |r| <= |s|
  {
    TrimEnd(TrimStart(s))
  }

  /** The trim is a slice of the input with nothing but white space around it. */
  lemma TrimIsSlice(s: string)
    ensures IsTrimOf(s, Trim(s))
  {
    var a, b := TrimBounds(s);
  }

  /** Where the trim starts and ends in the input. */
  lemma TrimBounds(s: string) returns (a: int, b: int)
    ensures 0 <= a <= b <= |s| && Trim(s) == s[a..b] && BlankOutside(s, a, b)
  {
    a := LeadingSpace(s);
    b := a + TrailingStart(s[a..]);
    assert s[a..][..TrailingStart(s[a..])] == s[a..b];
    assert forall j | b <= j < |s| :: s[j] == s[a..][j - a];
  }

  /** `r` is a slice of `s` with nothing but white space around it. */
  predicate IsTrimOf(s: string, r: string)
  {
    exists a, b | 0 <= a <= b <= |s| :: r == s[a..b] && BlankOutside(s, a, b)
  }

  /** Everything of `s` before `a` and from `b` on is white space. */
  predicate BlankOutside(s: string, a: int, b: int)
    requires 0 <= a <= b <= |s|
  {
    (forall j | 0 <= j < a :: IsSpace(s[j])) && (forall j | b <= j < |s| :: IsSpace(s[j]))
  }

  /**
   * The trim is the only trimmed slice with nothing but white space around
   * it.
   */
  lemma TrimUnique(s: string, r: string, a: int, b: int)
    requires 0 <= a <= b <= |s| && r == s[a..b] && BlankOutside(s, a, b) && IsTrimmed(r)
    ensures Trim(s) == r
  {
    var t := Trim(s);
    var a', b' := TrimBounds(s);
    TrimEmptyIffBlank(s);
    if r == [] {
      assert forall j | 0 <= j < |s| :: IsSpace(s[j]) by {
        forall j | 0 <= j < |s| ensures IsSpace(s[j]) {
          if j >= a { assert j >= b; }
        }
      }
    } else {
      assert r[0] == s[a] && r[|r| - 1] == s[b - 1];
      assert t != [];
      assert t[0] == s[a'] && t[|t| - 1] == s[b' - 1];
      SlicesAgree(s, a, b, a', b');
    }
  }

  /** Two non-empty slices with non-blank ends and only white space around them are the same slice. */
  lemma SlicesAgree(s: string, a: int, b: int, a': int, b': int)
    requires 0 <= a < b <= |s| && BlankOutside(s, a, b) && !IsSpace(s[a]) && !IsSpace(s[b - 1])
    requires 0 <= a' < b' <= |s| && BlankOutside(s, a', b') && !IsSpace(s[a']) && !IsSpace(s[b' - 1])
    ensures a == a' && b == b'
  {
  }

  /** Trailing white space does not survive a trim. */
  lemma TrimTrailingSpace(s: string, c: char)
    requires IsSpace(c)
    ensures Trim(s + [c]) == Trim(s)
  {
    var t := Trim(s);
    var a, b := TrimBounds(s);
    BlankOutsideSnoc(s, c, a, b);
    assert (s + [c])[a..b] == s[a..b];
    TrimUnique(s + [c], t, a, b);
  }

  /** White space appended to `s` stays outside the slice `s[a..b]`. */
  lemma BlankOutsideSnoc(s: string, c: char, a: int, b: int)
    requires IsSpace(c) && 0 <= a <= b <= |s| && BlankOutside(s, a, b)
    ensures BlankOutside(s + [c], a, b)
  {
    var sc := s + [c];
    forall j | 0 <= j < |sc| && (j < a || b <= j)
      ensures IsSpace(sc[j])
    {
      if j < |s| {
        assert sc[j] == s[j];
      }
    }
  }

  /** A trimmed string is its own trim. */
  lemma TrimOfTrimmed(s: string)
    requires IsTrimmed(s)
    ensures Trim(s) == s
  {
  }

  /** Trimming twice is trimming once. */
  lemma TrimIdempotent(s: string)
    ensures Trim(Trim(s)) == Trim(s)
  {
    TrimOfTrimmed(Trim(s));
  }

  /** Leading white space does not survive a trim. */
  lemma TrimLeadingSpace(c: char, s: string)
    requires IsSpace(c)
    ensures Trim([c] + s) == Trim(s)
  {
    assert ([c] + s)[1..] == s;
    assert TrimStart([c] + s) == TrimStart(s);
  }

  /** A string trims to nothing exactly when it is all white space. */
  lemma TrimEmptyIffBlank(s: string)
    ensures Trim(s) == [] <==> forall i | 0 <= i < |s| :: IsSpace(s[i])
  {
    var n := LeadingSpace(s);
    var rest := s[n..];
    if n < |s| {
      assert rest[0] == s[n];
      assert TrailingStart(rest) > 0;
    }
  }

  /** ASCII `toLowerCase` of one character. */
  function LowerChar(c: char): char
  {
    if 'A' <= c <= 'Z' then (c as int + 32) as char else c
  }

  /** `s.toLowerCase()` on the ASCII letters. */
  function ToLower(s: string): (r: string)
    ensures |r| == |s|
    ensures forall i | 0 <= i < |s| :: r[i] == LowerChar(s[i])
  {
    if s == [] then [] else [LowerChar(s[0])] + ToLower(s[1..])
  }

  /** No ASCII capital letter. */
  predicate IsLower(s: string)
  {
    forall i | 0 <= i < |s| :: !('A' <= s[i] <= 'Z')
  }

  lemma ToLowerIsLower(s: string)
    ensures IsLower(ToLower(s))
  {
  }

  lemma ToLowerOfLower(s: string)
    requires IsLower(s)
    ensures ToLower(s) == s
  {
  }

  /** Lower-casing never touches white space, so it keeps the string's ends. */
  lemma ToLowerKeepsSpace(s: string)
    ensures forall i | 0 <= i < |s| :: IsSpace(ToLower(s)[i]) <==> IsSpace(s[i])
  {
  }

  /** The first index of `c` in `s`, or `|s|` when there is none. */
  function IndexOf(s: string, c: char): (i: nat)
    ensures i <= |s|
    ensures i < |s| ==> s[i] == c
    ensures forall j | 0 <= j < i :: s[j] != c
  {
    if s == [] then 0 else if s[0] == c then 0 else 1 + IndexOf(s[1..], c)
  }

  /** `s.split(c)`: the pieces between occurrences of `c`; always at least one piece. */
  function Split(s: string, c: char): (parts: seq<string>)
    ensures |parts| >= 1
    ensures forall i | 0 <= i < |parts| :: c !in parts[i]
    decreases |s|
  {
    var i := IndexOf(s, c);
    if i == |s| then [s] else [s[..i]] + Split(s[i + 1..], c)
  }

  /** `parts.join(sep)`. */
  function Join(parts: seq<string>, sep: string): string
  {
    if parts == [] then [] else if |parts| == 1 then parts[0] else parts[0] + sep + Join(parts[1..], sep)
  }

  /** `IndexOf` is characterised by the position of the first occurrence. */
  lemma {:induction false} IndexOfAt(s: string, c: char, i: nat)
    requires i <= |s| && (i < |s| ==> s[i] == c) && forall k | 0 <= k < i :: s[k] != c
    ensures IndexOf(s, c) == i
  {
    if s != [] && s[0] != c {
      IndexOfAt(s[1..], c, i - 1);
    }
  }

  /** The text up to the first separator is the first piece. */
  lemma SplitHead(p: string, c: char, s: string)
    requires c !in p
    ensures Split(p + [c] + s, c) == [p] + Split(s, c)
  {
    var t := p + [c] + s;
    assert t[|p|] == c;
    assert forall k | 0 <= k < |p| :: t[k] == p[k];
    IndexOfAt(t, c, |p|);
    assert t[..|p|] == p;
    assert t[|p| + 1..] == s;
  }

  /** A leading character other than the separator joins the first piece. */
  lemma SplitCons(x: char, s: string, c: char)
    requires x != c
    ensures Split([x] + s, c) == [[x] + Split(s, c)[0]] + Split(s, c)[1..]
  {
    var xs := [x] + s;
    var i := IndexOf(s, c);
    assert xs[1..] == s;
    assert IndexOf(xs, c) == 1 + i;
    if i < |s| {
      assert xs[..1 + i] == [x] + s[..i];
      assert xs[1 + i + 1..] == s[i + 1..];
    }
  }

  /** Joining the pieces of a split with the separator gives the string back. */
  lemma {:induction false} SplitJoin(s: string, c: char)
    ensures Join(Split(s, c), [c]) == s
    decreases |s|
  {
    var i := IndexOf(s, c);
    if i < |s| {
      var rest := s[i + 1..];
      SplitJoin(rest, c);
      assert Split(s, c) == [s[..i]] + Split(rest, c);
      assert Join(Split(s, c), [c]) == s[..i] + [c] + Join(Split(rest, c), [c]);
      assert s == s[..i] + [c] + rest;
    }
  }

  /** Trims every piece. */
  function TrimAll(parts: seq<string>): (r: seq<string>)
    ensures |r| == |parts|
    ensures forall i | 0 <= i < |parts| :: r[i] == Trim(parts[i])
  {
    if parts == [] then [] else [Trim(parts[0])] + TrimAll(parts[1..])
  }

  lemma TrimAllCons(x: string, ys: seq<string>)
    ensures TrimAll([x] + ys) == [Trim(x)] + TrimAll(ys)
  {
    assert ([x] + ys)[1..] == ys;
  }

  /** Splitting a piece, the separator and a padded rest. */
  lemma SplitPaddedCons(p: string, c: char, pad: char, rest: string)
    requires c !in p && c != pad
    ensures Split(p + [c] + ([pad] + rest), c) == [p] + ([[pad] + Split(rest, c)[0]] + Split(rest, c)[1..])
  {
    SplitHead(p, c, [pad] + rest);
    SplitCons(pad, rest, c);
  }

  /** Leading white space on the first piece is trimmed away with the rest. */
  lemma TrimAllPadded(pad: char, tail: seq<string>)
    requires IsSpace(pad) && tail != []
    ensures TrimAll([[pad] + tail[0]] + tail[1..]) == TrimAll(tail)
  {
    TrimLeadingSpace(pad, tail[0]);
  }

  /** Joining with `c` and a pad, then splitting on `c`: the first piece, then the split rest with the pad on its front. */
  lemma SplitJoinCons(parts: seq<string>, c: char, pad: char)
    requires |parts| >= 2 && c != pad && c !in parts[0]
    ensures var tail := Split(Join(parts[1..], [c, pad]), c);
            Split(Join(parts, [c, pad]), c) == [parts[0]] + ([[pad] + tail[0]] + tail[1..])
  {
    var rest := Join(parts[1..], [c, pad]);
    assert Join(parts, [c, pad]) == parts[0] + [c] + ([pad] + rest);
    SplitPaddedCons(parts[0], c, pad, rest);
  }

  /** Trimming a trimmed first piece and a padded tail gives the piece and the trimmed tail. */
  lemma TrimAllStep(p: string, pad: char, tail: seq<string>)
    requires IsSpace(pad) && IsTrimmed(p) && tail != []
    ensures TrimAll([p] + ([[pad] + tail[0]] + tail[1..])) == [p] + TrimAll(tail)
  {
    TrimAllCons(p, [[pad] + tail[0]] + tail[1..]);
    TrimAllPadded(pad, tail);
    TrimOfTrimmed(p);
  }

  /** The step of `SplitJoinTrim`: the first piece is split off, and the pad before the rest is trimmed away. */
  lemma SplitJoinTrimStep(parts: seq<string>, c: char, pad: char)
    requires |parts| >= 2 && IsSpace(pad) && c != pad
    requires c !in parts[0] && IsTrimmed(parts[0])
    requires TrimAll(Split(Join(parts[1..], [c, pad]), c)) == parts[1..]
    ensures TrimAll(Split(Join(parts, [c, pad]), c)) == parts
  {
    var tail := Split(Join(parts[1..], [c, pad]), c);
    var padded := [[pad] + tail[0]] + tail[1..];
    SplitJoinCons(parts, c, pad);
    TrimAllStep(parts[0], pad, tail);
    HeadTail(parts);
    calc {
      TrimAll(Split(Join(parts, [c, pad]), c));
      TrimAll([parts[0]] + padded);
      [parts[0]] + TrimAll(tail);
      [parts[0]] + parts[1..];
      parts;
    }
  }

  lemma HeadTail(parts: seq<string>)
    requires parts != []
    ensures [parts[0]] + parts[1..] == parts
  {
  }

  /**
   * Joining trimmed, `c`-free pieces with `c` followed by white space, then
   * splitting on `c` and trimming, gives the pieces back.
   */
  lemma {:induction false} SplitJoinTrim(parts: seq<string>, c: char, pad: char)
    requires parts != [] && IsSpace(pad) && c != pad
    requires forall i | 0 <= i < |parts| :: c !in parts[i] && IsTrimmed(parts[i])
    ensures TrimAll(Split(Join(parts, [c, pad]), c)) == parts
    decreases |parts|
  {
    if |parts| == 1 {
      assert IndexOf(parts[0], c) == |parts[0]|;
      TrimOfTrimmed(parts[0]);
    } else {
      SplitJoinTrim(parts[1..], c, pad);
      SplitJoinTrimStep(parts, c, pad);
    }
  }
}
