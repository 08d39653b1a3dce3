/** The three JavaScript string operations the core relies on: `trim`, `toLowerCase` and `includes`. */
module Text {

  /** The characters `String.prototype.trim` strips: ECMAScript WhiteSpace and LineTerminator. */
  predicate IsSpace(c: char)
  {
    || c == ' ' || c == '\t' || c == '\n' || c == '\r'
    || c == '\U{000B}' || c == '\U{000C}' || c == '\U{00A0}' || c == '\U{1680}'
    || ('\U{2000}' <= c <= '\U{200A}')
    || c == '\U{2028}' || c == '\U{2029}' || c == '\U{202F}' || c == '\U{205F}'
    || c == '\U{3000}' || c == '\U{FEFF}'
  }

  predicate AllSpace(s: string)
  {
    forall k :: 0 <= k < |s| ==> IsSpace(s[k])
  }

  /** Drops leading white space: what remains is a suffix of `s` that starts with a non-space. */
  function TrimStart(s: string): (r: string)
    ensures |r| <= |s| && r == s[|s| - |r|..]
    ensures AllSpace(s[..|s| - |r|])
    ensures r == [] || !IsSpace(r[0])
  {
    if s != [] && IsSpace(s[0]) then
      var r := TrimStart(s[1..]);
      assert s[..|s| - |r|] == [s[0]] + s[1..][..|s| - 1 - |r|];
      AllSpaceConcat([s[0]], s[1..][..|s| - 1 - |r|]);
      r
    else s
  }

  /** Drops trailing white space: what remains is a prefix of `s` that ends with a non-space. */
  function TrimEnd(s: string): (r: string)
    ensures |r| <= |s| && r == s[..|r|]
    ensures AllSpace(s[|r|..])
    ensures r == [] || !IsSpace(r[|r| - 1])
  {
    if s != [] && IsSpace(s[|s| - 1]) then
      var r := TrimEnd(s[..|s| - 1]);
      assert s[|r|..] == s[..|s| - 1][|r|..] + [s[|s| - 1]];
      AllSpaceConcat(s[..|s| - 1][|r|..], [s[|s| - 1]]);
      r
    else s
  }

  /** `s.trim()`: `s` without its leading and trailing white space, empty exactly when `s` is all white space. */
  function Trim(s: string): (r: string)
    ensures r == [] <==> AllSpace(s)
    ensures r != [] ==> !IsSpace(r[0]) && !IsSpace(r[|r| - 1])
    ensures |r| <= |s|
    ensures exists i, j :: 0 <= i <= j <= |s| && r == s[i..j] && AllSpace(s[..i]) && AllSpace(s[j..])
  {
    var t := TrimStart(s);
    TrimEmptyIff(s, t, TrimEnd(t));
    TrimEnds(t, TrimEnd(t));
    TrimmedSlice(s, t, TrimEnd(t));
    TrimEnd(t)
  }

  /** The two strips leave nothing exactly when `s` is blank. */
  lemma TrimEmptyIff(s: string, t: string, r: string)
    requires |t| <= |s| && t == s[|s| - |t|..] && AllSpace(s[..|s| - |t|])
    requires t == [] || !IsSpace(t[0])
    requires |r| <= |t| && r == t[..|r|] && AllSpace(t[|r|..])
    ensures r == [] <==> AllSpace(s)
  {
    assert s == s[..|s| - |t|] + t;
    AllSpaceConcat(s[..|s| - |t|], t);
    if r == [] {
      assert t[|r|..] == t;
    }
    if t != [] {
      assert !IsSpace(t[0]);
      assert !AllSpace(t);
    }
  }

  /** A non-empty result of the two strips starts and ends with a non-space. */
  lemma TrimEnds(t: string, r: string)
    requires t == [] || !IsSpace(t[0])
    requires r == TrimEnd(t)
    ensures r != [] ==> !IsSpace(r[0]) && !IsSpace(r[|r| - 1])
  {
    if r != [] {
      assert r[0] == t[0];
    }
  }

  /** Stripping a white-space prefix and then a white-space suffix leaves a slice of `s`. */
  lemma TrimmedSlice(s: string, t: string, r: string)
    requires |t| <= |s| && t == s[|s| - |t|..] && AllSpace(s[..|s| - |t|])
    requires |r| <= |t| && r == t[..|r|] && AllSpace(t[|r|..])
    ensures exists i, j :: 0 <= i <= j <= |s| && r == s[i..j] && AllSpace(s[..i]) && AllSpace(s[j..])
  {
    var i := |s| - |t|;
    var j := i + |r|;
    assert r == s[i..j];
    assert s[j..] == t[|r|..];
  }

  /** A concatenation is all white space exactly when both parts are. */
  lemma AllSpaceConcat(a: string, b: string)
    ensures AllSpace(a + b) <==> AllSpace(a) && AllSpace(b)
  {
    if AllSpace(a + b) {
      forall k | 0 <= k < |a|
        ensures IsSpace(a[k])
      {
        assert a[k] == (a + b)[k];
      }
      forall k | 0 <= k < |b|
        ensures IsSpace(b[k])
      {
        assert b[k] == (a + b)[|a| + k];
      }
    }
    if AllSpace(a) && AllSpace(b) {
      forall k | 0 <= k < |a + b|
        ensures IsSpace((a + b)[k])
      {
        if k < |a| {
          assert (a + b)[k] == a[k];
        } else {
          assert (a + b)[k] == b[k - |a|];
        }
      }
    }
  }

  /** Trimming a trimmed string changes nothing. */
  lemma TrimIdempotent(s: string)
    ensures Trim(Trim(s)) == Trim(s)
  {
    var r := Trim(s);
    if r != [] {
      assert TrimStart(r) == r;
      assert TrimEnd(r) == r;
    }
  }

  /** ASCII case mapping of one character. */
  function LowerChar(c: char): char
  {
    if 'A' <= c <= 'Z' then (c as int + 32) as char else c
  }

  /** `s.toLowerCase()`, restricted to the ASCII letters. */
  function Lower(s: string): (r: string)
    ensures |r| == |s|
    ensures forall k :: 0 <= k < |s| ==> r[k] == LowerChar(s[k])
  {
    seq(|s|, k requires 0 <= k < |s| => LowerChar(s[k]))
  }

  /** Lower-casing twice is lower-casing once. */
  lemma LowerIdempotent(s: string)
    ensures Lower(Lower(s)) == Lower(s)
  {
  }

  /** Lower-casing commutes with taking a slice. */
  lemma LowerSlice(s: string, i: nat, j: nat)
    requires i <= j <= |s|
    ensures Lower(s)[i..j] == Lower(s[i..j])
  {
  }

  /** `s.includes(t)`: `t` occurs in `s` as a contiguous block. The empty string occurs everywhere. */
  predicate Contains(s: string, t: string)
    decreases |s|
  {
    t <= s || (s != [] && Contains(s[1..], t))
  }

  /** `t` occurs in `s` starting at position `i`. */
  predicate OccursAt(s: string, t: string, i: int)
  {
    0 <= i <= |s| - |t| && s[i..i + |t|] == t
  }

  /** An occurrence at a position makes `Contains` hold. */
  lemma {:induction false} OccursThenContains(s: string, t: string, i: int)
    requires OccursAt(s, t, i)
    ensures Contains(s, t)
    decreases i
  {
    if i == 0 {
      assert t == s[..|t|];
    } else {
      assert s[1..][i - 1..i - 1 + |t|] == s[i..i + |t|];
      OccursThenContains(s[1..], t, i - 1);
    }
  }

  /** `Contains` always has a witness position. */
  lemma {:induction false} ContainsThenOccurs(s: string, t: string) returns (i: int)
    requires Contains(s, t)
    ensures OccursAt(s, t, i)
    decreases |s|
  {
    if t <= s {
      i := 0;
      assert s[..|t|] == t;
    } else {
      var j := ContainsThenOccurs(s[1..], t);
      i := j + 1;
      assert s[1..][j..j + |t|] == s[i..i + |t|];
    }
  }

  /** `Contains` agrees with the positional definition of an occurrence. */
  lemma ContainsIff(s: string, t: string)
    ensures Contains(s, t) <==> exists i :: OccursAt(s, t, i)
  {
    if Contains(s, t) {
      var i := ContainsThenOccurs(s, t);
    }
    if exists i :: OccursAt(s, t, i) {
      var i :| OccursAt(s, t, i);
      OccursThenContains(s, t, i);
    }
  }

  /** An occurrence of `t` in `s` is an occurrence of `lower(t)` in `lower(s)`. */
  lemma ContainsLower(s: string, t: string)
    requires Contains(s, t)
    ensures Contains(Lower(s), Lower(t))
  {
    var i := ContainsThenOccurs(s, t);
    LowerSlice(s, i, i + |t|);
    OccursThenContains(Lower(s), Lower(t), i);
  }
}
