/**
 * The few Python string primitives the downloader's logic is built from:
 * `str.strip`, `str.split`, `str.join`, ASCII case mapping and the `in`
 * substring test. Strings are sequences of characters.
 */
module Text {

  /** Python's `str.isspace` for a single character. */
  predicate IsSpace(c: char) {
    var n := c as int;
    n == 0x20 || 0x09 <= n <= 0x0D || 0x1C <= n <= 0x1F || n == 0x85 || n == 0xA0
    || n == 0x1680 || 0x2000 <= n <= 0x200A || n == 0x2028 || n == 0x2029
    || n == 0x202F || n == 0x205F || n == 0x3000
  }

  predicate AllSpace(s: string) {
    forall i :: 0 <= i < |s| ==> IsSpace(s[i])
  }

  /** The number of whitespace characters `s` starts with. */
  function LeadingSpace(s: string): (n: nat)
    ensures n <= |s|
  {
    if s != [] && IsSpace(s[0]) then 1 + LeadingSpace(s[1..]) else 0
  }

  /** The number of whitespace characters `s` ends with. */
  function TrailingSpace(s: string): (n: nat)
    ensures n <= |s|
  {
    if s != [] && IsSpace(s[|s| - 1]) then 1 + TrailingSpace(s[..|s| - 1]) else 0
  }

  /** The leading run is all whitespace, and the character after it is not. */
  lemma {:induction false} LeadingSpaceRun(s: string)
    ensures forall i :: 0 <= i < LeadingSpace(s) ==> IsSpace(s[i])
    ensures LeadingSpace(s) < |s| ==> !IsSpace(s[LeadingSpace(s)])
  {
    if s != [] && IsSpace(s[0]) {
      LeadingSpaceRun(s[1..]);
      forall i | 0 < i < LeadingSpace(s) ensures IsSpace(s[i]) {
        assert s[i] == s[1..][i - 1];
      }
      if LeadingSpace(s) < |s| {
        assert s[LeadingSpace(s)] == s[1..][LeadingSpace(s[1..])];
      }
    }
  }

  /** The trailing run is all whitespace, and the character before it is not. */
  lemma {:induction false} TrailingSpaceRun(s: string)
    ensures forall i :: |s| - TrailingSpace(s) <= i < |s| ==> IsSpace(s[i])
    ensures TrailingSpace(s) < |s| ==> !IsSpace(s[|s| - TrailingSpace(s) - 1])
  {
    if s != [] && IsSpace(s[|s| - 1]) {
      var p := s[..|s| - 1];
      TrailingSpaceRun(p);
      forall i | |s| - TrailingSpace(s) <= i < |s| - 1 ensures IsSpace(s[i]) {
        assert s[i] == p[i];
      }
      if TrailingSpace(s) < |s| {
        assert s[|s| - TrailingSpace(s) - 1] == p[|p| - TrailingSpace(p) - 1];
      }
    }
  }

  /** The number of leading whitespace characters `s.strip()` removes. */
  function StripOffset(s: string): (i: nat)
    ensures i <= |s|
  {
    LeadingSpace(s)
  }

  /** `s.strip()`. */
  function Strip(s: string): (r: string)
    ensures |r| <= |s|
  {
    var t := s[LeadingSpace(s)..];
    t[..|t| - TrailingSpace(t)]
  }

  /**
   * `s.strip()` is the infix of `s` left after removing whitespace at both
   * ends: the removed parts are all whitespace and the ends of the result
   * are not.
   */
  lemma StripSpec(s: string)
    ensures StripOffset(s) + |Strip(s)| <= |s|
    ensures Strip(s) == s[StripOffset(s)..StripOffset(s) + |Strip(s)|]
    ensures AllSpace(s[..StripOffset(s)]) && AllSpace(s[StripOffset(s) + |Strip(s)|..])
    ensures Strip(s) == [] || (!IsSpace(Strip(s)[0]) && !IsSpace(Strip(s)[|Strip(s)| - 1]))
  {
    var n := LeadingSpace(s);
    LeadingSpaceRun(s);
    assert AllSpace(s[..n]) by {
      forall i | 0 <= i < n ensures IsSpace(s[..n][i]) {
        assert s[..n][i] == s[i];
      }
    }
    StripTail(s[n..]);
    var t := s[n..];
    var r := Strip(s);
    assert s[n + |r|..] == t[|r|..];
    if r != [] {
      assert r[0] == s[n];
    }
  }

  /** Past the leading run, stripping drops only the trailing run. */
  lemma StripTail(t: string)
    ensures var r := t[..|t| - TrailingSpace(t)];
      && AllSpace(t[|r|..])
      && (r == [] || !IsSpace(r[|r| - 1]))
  {
    TrailingSpaceRun(t);
    var r := t[..|t| - TrailingSpace(t)];
    forall i | 0 <= i < |t[|r|..]| ensures IsSpace(t[|r|..][i]) {
      assert t[|r|..][i] == t[|r| + i];
    }
  }

  /** A text with no whitespace at either end is its own `strip()`. */
  lemma StripKeeps(s: string)
    requires s != [] && !IsSpace(s[0]) && !IsSpace(s[|s| - 1])
    ensures Strip(s) == s
  {
    assert LeadingSpace(s) == 0;
    assert s[0..] == s;
    assert TrailingSpace(s) == 0;
  }

  /** `s.strip()` is empty exactly when `s` is all whitespace. */
  lemma StripEmptyIff(s: string)
    ensures Strip(s) == [] <==> AllSpace(s)
  {
    StripSpec(s);
    var i := StripOffset(s);
    assert s == s[..i] + s[i..];
    AllSpaceConcat(s[..i], s[i..]);
    if Strip(s) == [] {
      assert s[i..] == s[i + |Strip(s)|..];
    }
  }

  lemma AllSpaceConcat(a: string, b: string)
    ensures AllSpace(a + b) <==> AllSpace(a) && AllSpace(b)
  {
    assert forall k :: 0 <= k < |a| ==> a[k] == (a + b)[k];
    assert forall k :: 0 <= k < |b| ==> b[k] == (a + b)[|a| + k];
    assert forall k :: |a| <= k < |a + b| ==> (a + b)[k] == b[k - |a|];
  }

  /** Stripping twice is stripping once. */
  lemma StripIdempotent(s: string)
    ensures Strip(Strip(s)) == Strip(s)
  {
    var r := Strip(s);
    if r != [] {
      StripSpec(s);
      StripKeeps(r);
    }
  }

  predicate IsAsciiUpper(c: char) { 'A' <= c <= 'Z' }
  predicate IsAsciiLower(c: char) { 'a' <= c <= 'z' }
  predicate IsAsciiLetter(c: char) { IsAsciiUpper(c) || IsAsciiLower(c) }

  function LowerChar(c: char): (d: char)
    ensures !IsAsciiUpper(d)
    ensures IsAsciiUpper(c) ==> d as int == c as int + 32
    ensures !IsAsciiUpper(c) ==> d == c
  {
    if IsAsciiUpper(c) then (c as int + 32) as char else c
  }

  function UpperChar(c: char): (d: char)
    ensures !IsAsciiLower(d)
    ensures IsAsciiLower(c) ==> d as int == c as int - 32
    ensures !IsAsciiLower(c) ==> d == c
  {
    if IsAsciiLower(c) then (c as int - 32) as char else c
  }

  /** `s.lower()` on the ASCII letters. */
  function Lower(s: string): (r: string)
    ensures |r| == |s|
    ensures forall i :: 0 <= i < |s| ==> r[i] == LowerChar(s[i])
  {
    if s == [] then [] else [LowerChar(s[0])] + Lower(s[1..])
  }

  /** `s.upper()` on the ASCII letters. */
  function Upper(s: string): (r: string)
    ensures |r| == |s|
    ensures forall i :: 0 <= i < |s| ==> r[i] == UpperChar(s[i])
  {
    if s == [] then [] else [UpperChar(s[0])] + Upper(s[1..])
  }

  /** Lowering is idempotent, so a lowered combo parses like itself. */
  lemma LowerIdempotent(s: string)
    ensures Lower(Lower(s)) == Lower(s)
  {
    assert forall i :: 0 <= i < |s| ==> Lower(Lower(s))[i] == Lower(s)[i];
  }

  /**
   * `s.split(sep)`: the maximal separator-free pieces of `s` in order,
   * always at least one (`"".split("+") == [""]`).
   */
  function Split(s: string, sep: char): (parts: seq<string>)
    ensures |parts| >= 1
  {
    if s == [] then [[]]
    else
      var rest := Split(s[1..], sep);
      if s[0] == sep then [[]] + rest else [[s[0]] + rest[0]] + rest[1..]
  }

  /** No piece of a split holds the separator. */
  lemma {:induction false} SplitPiecesSepFree(s: string, sep: char)
    ensures forall i :: 0 <= i < |Split(s, sep)| ==> sep !in Split(s, sep)[i]
  {
    if s != [] {
      SplitPiecesSepFree(s[1..], sep);
      var rest := Split(s[1..], sep);
      if s[0] != sep {
        assert sep !in [s[0]] + rest[0];
      }
    }
  }

  /** `sep.join(parts)`. */
  function Join(parts: seq<string>, sep: char): string
  {
    if |parts| == 0 then []
    else if |parts| == 1 then parts[0]
    else parts[0] + [sep] + Join(parts[1..], sep)
  }

  /** Joining the pieces of a split gives the original string back. */
  lemma {:induction false} JoinSplit(s: string, sep: char)
    ensures Join(Split(s, sep), sep) == s
  {
    if s != [] {
      var rest := Split(s[1..], sep);
      JoinSplit(s[1..], sep);
      if s[0] == sep {
        assert Split(s, sep) == [[]] + rest;
        assert Join(Split(s, sep), sep) == [] + [sep] + Join(rest, sep);
      } else if |rest| == 1 {
        assert Split(s, sep) == [[s[0]] + rest[0]];
      } else {
        assert Split(s, sep) == [[s[0]] + rest[0]] + rest[1..];
        assert Join(rest, sep) == rest[0] + [sep] + Join(rest[1..], sep);
      }
    }
  }

  /** A string without the separator is its own single piece. */
  lemma {:induction false} SplitNoSep(s: string, sep: char)
    requires sep !in s
    ensures Split(s, sep) == [s]
  {
    if s != [] {
      assert s[0] != sep && sep !in s[1..] by {
        assert s == [s[0]] + s[1..];
      }
      SplitNoSep(s[1..], sep);
    }
  }

  /** Splitting a string that starts with a known character. */
  lemma SplitCons(x: char, s: string, sep: char)
    ensures Split([x] + s, sep) ==
      if x == sep then [[]] + Split(s, sep)
      else [[x] + Split(s, sep)[0]] + Split(s, sep)[1..]
  {
    assert ([x] + s)[1..] == s;
  }

  /** Two piece lists with the last piece of `p` fused to the first of `q`. */
  function Fuse(p: seq<string>, q: seq<string>): seq<string>
    requires |p| >= 1 && |q| >= 1
  {
    p[..|p| - 1] + [p[|p| - 1] + q[0]] + q[1..]
  }

  lemma FuseCons(h: string, q: seq<string>, r: seq<string>)
    requires |q| >= 1 && |r| >= 1
    ensures Fuse([h] + q, r) == [h] + Fuse(q, r)
  {
    assert ([h] + q)[..|q|] == [h] + q[..|q| - 1];
  }

  lemma FuseSingle(h: string, r: seq<string>)
    requires |r| >= 1
    ensures Fuse([h], r) == [h + r[0]] + r[1..]
  {
  }

  /**
   * How a split distributes over concatenation: the last piece of `a` and
   * the first piece of `b` fuse into one.
   */
  lemma {:induction false} SplitConcat(a: string, b: string, sep: char)
    ensures Split(a + b, sep) == Fuse(Split(a, sep), Split(b, sep))
  {
    var pb := Split(b, sep);
    if a == [] {
      assert a + b == b;
      FuseSingle([], pb);
      assert [] + pb[0] == pb[0];
      assert [pb[0]] + pb[1..] == pb;
    } else {
      var x, a' := a[0], a[1..];
      SplitConcat(a', b, sep);
      SplitConcatCons(x, a', b, sep);
      assert a == [x] + a';
      assert a + b == [x] + (a' + b);
    }
  }

  /** The inductive step of `SplitConcat`: one more character in front. */
  lemma SplitConcatCons(x: char, a: string, b: string, sep: char)
    requires Split(a + b, sep) == Fuse(Split(a, sep), Split(b, sep))
    ensures Split([x] + (a + b), sep) == Fuse(Split([x] + a, sep), Split(b, sep))
  {
    var pb := Split(b, sep);
    var qa := Split(a, sep);
    SplitCons(x, a, sep);
    SplitCons(x, a + b, sep);
    if x == sep {
      FuseCons([], qa, pb);
      assert Split([x] + a, sep) == [[]] + qa;
    } else if |qa| == 1 {
      var rest := Fuse(qa, pb);
      FuseSingle(qa[0], pb);
      FuseSingle([x] + qa[0], pb);
      assert qa == [qa[0]];
      assert Split([x] + a, sep) == [[x] + qa[0]];
      assert rest[0] == qa[0] + pb[0] && rest[1..] == pb[1..];
      assert [x] + (qa[0] + pb[0]) == ([x] + qa[0]) + pb[0];
    } else {
      var rest := Fuse(qa, pb);
      assert qa == [qa[0]] + qa[1..];
      FuseCons(qa[0], qa[1..], pb);
      FuseCons([x] + qa[0], qa[1..], pb);
      assert rest[0] == qa[0] && rest[1..] == Fuse(qa[1..], pb);
      assert Split([x] + a, sep) == [[x] + qa[0]] + qa[1..];
    }
  }

  /** Splitting a join of separator-free pieces gives the pieces back. */
  lemma {:induction false} SplitJoin(parts: seq<string>, sep: char)
    requires |parts| >= 1
    requires forall i :: 0 <= i < |parts| ==> sep !in parts[i]
    ensures Split(Join(parts, sep), sep) == parts
  {
    if |parts| == 1 {
      SplitNoSep(parts[0], sep);
    } else {
      var tail := Join(parts[1..], sep);
      assert forall i :: 0 <= i < |parts[1..]| ==> sep !in parts[1..][i] by {
        forall i | 0 <= i < |parts[1..]| ensures sep !in parts[1..][i] {
          assert parts[1..][i] == parts[i + 1];
        }
      }
      SplitJoin(parts[1..], sep);
      SplitAtSep(parts[0], tail, sep);
      assert Join(parts, sep) == parts[0] + [sep] + tail;
      assert [parts[0]] + parts[1..] == parts;
    }
  }

  /** Splitting at a first separator peels off the piece before it. */
  lemma SplitAtSep(a: string, b: string, sep: char)
    requires sep !in a
    ensures Split(a + [sep] + b, sep) == [a] + Split(b, sep)
  {
    SplitNoSep(a, sep);
    SplitConcat(a, [sep] + b, sep);
    SplitCons(sep, b, sep);
    assert a + [sep] + b == a + ([sep] + b);
    assert Fuse([a], [[]] + Split(b, sep)) == [a + []] + Split(b, sep);
    assert a + [] == a;
  }

  /** Lower-casing never produces a non-letter that was not already there. */
  lemma LowerKeepsSepFree(a: string, sep: char)
    requires sep !in a && !IsAsciiLetter(sep)
    ensures sep !in Lower(a)
  {
  }

  /** Lower-casing works character by character, so it distributes over concatenation. */
  lemma LowerConcat(a: string, b: string)
    ensures Lower(a + b) == Lower(a) + Lower(b)
  {
    var l, r := Lower(a + b), Lower(a) + Lower(b);
    forall i | 0 <= i < |a + b| ensures l[i] == r[i] {
      if i < |a| {
        assert (a + b)[i] == a[i] && r[i] == Lower(a)[i];
      } else {
        assert (a + b)[i] == b[i - |a|] && r[i] == Lower(b)[i - |a|];
      }
    }
  }

  /** Python's `sub in s`. */
  predicate Contains(s: string, sub: string)
    decreases |s|
  {
    sub <= s || (s != [] && Contains(s[1..], sub))
  }

  /** `sub in s` holds exactly when `sub` occurs at some offset of `s`. */
  lemma {:induction false} ContainsIff(s: string, sub: string)
    ensures Contains(s, sub) <==> exists i :: 0 <= i <= |s| && sub <= s[i..]
  {
    if sub <= s {
      assert s[0..] == s;
    } else if s == [] {
    } else {
      ContainsIff(s[1..], sub);
      if Contains(s[1..], sub) {
        var i :| 0 <= i <= |s[1..]| && sub <= s[1..][i..];
        assert s[1..][i..] == s[i + 1..];
      }
      if exists i :: 0 <= i <= |s| && sub <= s[i..] {
        var i :| 0 <= i <= |s| && sub <= s[i..];
        assert i != 0;
        assert s[1..][i - 1..] == s[i..];
      }
    }
  }

  /** Text put in front of a string keeps every substring it had. */
  lemma {:induction false} ContainsAfter(p: string, s: string, sub: string)
    requires Contains(s, sub)
    ensures Contains(p + s, sub)
    decreases |p|
  {
    if p == [] {
      assert p + s == s;
    } else {
      ContainsAfter(p[1..], s, sub);
      assert (p + s)[1..] == p[1..] + s;
    }
  }
}
