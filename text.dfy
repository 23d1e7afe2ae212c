/** The string primitives that the customer search relies on: JavaScript's
    `toLowerCase` (restricted to ASCII letters), `trim`, `startsWith` and
    `includes`, each defined on `string` and characterised by its contract. */
module Text {

  /** The characters JavaScript's `String.prototype.trim` removes: the
      WhiteSpace and LineTerminator code points of ECMAScript. */
  predicate IsSpace(c: char) {
    var n := c as int;
    n == 0x09 || n == 0x0A || n == 0x0B || n == 0x0C || n == 0x0D || n == 0x20
    || n == 0xA0 || n == 0x1680 || (0x2000 <= n <= 0x200A)
    || n == 0x2028 || n == 0x2029 || n == 0x202F || n == 0x205F
    || n == 0x3000 || n == 0xFEFF
  }

  predicate AllSpace(s: string) {
    forall i :: 0 <= i < |s| ==> IsSpace(s[i])
  }

  predicate IsUpper(c: char) {
    'A' <= c <= 'Z'
  }

  /** Lower-cases one character (ASCII letters only). */
  function LowerChar(c: char): (r: char)
    ensures IsUpper(c) ==> r as int == c as int + 32
    ensures !IsUpper(c) ==> r == c
    ensures !IsUpper(r)
    ensures IsSpace(r) <==> IsSpace(c)
  {
    if IsUpper(c) then (c as int + 32) as char else c
  }

  /** `toLowerCase`: lower-cases every character and keeps the length. */
  function Lower(s: string): (r: string)
    ensures |r| == |s|
    ensures forall i :: 0 <= i < |s| ==> r[i] == LowerChar(s[i])
  {
    seq(|s|, i requires 0 <= i < |s| => LowerChar(s[i]))
  }

  /** Drops the leading whitespace. `TrimStartSuffix` shows the result is
      the suffix of `s` that starts at its first non-space character. */
  function TrimStart(s: string): (r: string)
    ensures |r| <= |s|
    ensures r != [] ==> !IsSpace(r[0])
  {
    if s != [] && IsSpace(s[0]) then TrimStart(s[1..]) else s
  }

  /** Drops the trailing whitespace. `TrimEndPrefix` shows the result is the
      prefix of `s` that ends at its last non-space character. */
  function TrimEnd(s: string): (r: string)
    ensures |r| <= |s|
    ensures r != [] ==> !IsSpace(r[|r| - 1])
  {
    if s != [] && IsSpace(s[|s| - 1]) then TrimEnd(s[..|s| - 1]) else s
  }

  /** `TrimStart` keeps a suffix and drops only whitespace in front of it. */
  lemma {:induction false} TrimStartSuffix(s: string)
    ensures TrimStart(s) == s[|s| - |TrimStart(s)|..]
    ensures AllSpace(s[..|s| - |TrimStart(s)|])
    decreases |s|
  {
    if s != [] && IsSpace(s[0]) {
      TrimStartSuffix(s[1..]);
      var k := |s| - |TrimStart(s)|;
      assert s[1..][k - 1..] == s[k..];
      forall i | 0 <= i < k
        ensures IsSpace(s[..k][i])
      {
        if i > 0 {
          assert s[..k][i] == s[1..][..k - 1][i - 1];
        }
      }
    } else {
      assert s[..0] == [];
    }
  }

  /** `TrimEnd` keeps a prefix and drops only whitespace after it. */
  lemma {:induction false} TrimEndPrefix(s: string)
    ensures TrimEnd(s) == s[..|TrimEnd(s)|]
    ensures AllSpace(s[|TrimEnd(s)|..])
    decreases |s|
  {
    if s != [] && IsSpace(s[|s| - 1]) {
      var n := |s| - 1;
      TrimEndPrefix(s[..n]);
      var k := |TrimEnd(s)|;
      assert s[..n][..k] == s[..k];
      forall i | 0 <= i < |s| - k
        ensures IsSpace(s[k..][i])
      {
        if k + i < n {
          assert s[k..][i] == s[..n][k..][i];
        }
      }
    } else {
      assert s[|s|..] == [];
    }
  }

  /** `r` is the slice of `s` at offset `a`, with only whitespace before and
      after it. */
  predicate Between(s: string, r: string, a: int) {
    && 0 <= a && a + |r| <= |s| && r == s[a..a + |r|]
    && AllSpace(s[..a]) && AllSpace(s[a + |r|..])
  }

  /** `trim`: drops whitespace at both ends. The result is the slice of `s`
      between a whitespace prefix and a whitespace suffix; it is empty exactly
      when `s` is whitespace only, and otherwise neither starts nor ends with
      whitespace. */
  function Trim(s: string): (r: string)
    ensures |r| <= |s|
    ensures r == [] <==> AllSpace(s)
    ensures r != [] ==> !IsSpace(r[0]) && !IsSpace(r[|r| - 1])
    ensures exists a :: Between(s, r, a)
  {
    var t := TrimStart(s);
    TrimStartSuffix(s);
    assert t == [] ==> s[..|s|] == s;
    var r := TrimEnd(t);
    TrimEndPrefix(t);
    assert r == [] ==> t[|r|..] == t;
    var a := |s| - |t|;
    assert t == s[a..];
    assert s[a..a + |r|] == t[..|r|];
    assert s[a + |r|..] == t[|r|..];
    assert Between(s, r, a);
    r
  }

  /** `t` occurs in `s` at position `k`. */
  predicate OccursAt(s: string, t: string, k: int) {
    0 <= k <= |s| - |t| && s[k..k + |t|] == t
  }

  /** `s.startsWith(p)`: `p` occurs in `s` at position 0. */
  function StartsWith(s: string, p: string): (r: bool)
    ensures r <==> OccursAt(s, p, 0)
  {
    |p| <= |s| && s[..|p|] == p
  }

  /** `s.includes(t)`: some suffix of `s` starts with `t`. Only a text no
      longer than `s` can be included in it, and a prefix always is. */
  function Includes(s: string, t: string): (r: bool)
    ensures r ==> |t| <= |s|
    ensures StartsWith(s, t) ==> r
    decreases |s|
  {
    StartsWith(s, t) || (s != [] && Includes(s[1..], t))
  }

  /** `Includes` agrees with the positional definition of a substring. */
  lemma {:induction false} IncludesAt(s: string, t: string)
    ensures Includes(s, t) <==> exists k :: OccursAt(s, t, k)
    decreases |s|
  {
    if StartsWith(s, t) {
      assert OccursAt(s, t, 0);
    } else if s == [] {
    } else {
      IncludesAt(s[1..], t);
      if exists k :: OccursAt(s, t, k) {
        var k :| OccursAt(s, t, k);
        assert k != 0;
        assert OccursAt(s[1..], t, k - 1);
      }
      if Includes(s[1..], t) {
        var k :| OccursAt(s[1..], t, k);
        assert OccursAt(s, t, k + 1);
      }
    }
  }

  /** Lower-casing is idempotent. */
  lemma LowerIdempotent(s: string)
    ensures Lower(Lower(s)) == Lower(s)
  {
    assert forall i :: 0 <= i < |s| ==> Lower(Lower(s))[i] == Lower(s)[i];
  }

  /** Lower-casing and trimming commute, because lower-casing maps spaces to
      spaces and non-spaces to non-spaces. */
  lemma {:induction false} TrimStartLower(s: string)
    ensures TrimStart(Lower(s)) == Lower(TrimStart(s))
    decreases |s|
  {
    if s != [] {
      assert Lower(s)[1..] == Lower(s[1..]);
      if IsSpace(s[0]) {
        TrimStartLower(s[1..]);
      }
    }
  }

  lemma {:induction false} TrimEndLower(s: string)
    ensures TrimEnd(Lower(s)) == Lower(TrimEnd(s))
    decreases |s|
  {
    if s != [] {
      var n := |s| - 1;
      assert Lower(s)[..n] == Lower(s[..n]);
      assert IsSpace(Lower(s)[n]) <==> IsSpace(s[n]);
      if IsSpace(s[n]) {
        TrimEndLower(s[..n]);
        assert TrimEnd(Lower(s)) == TrimEnd(Lower(s[..n]));
      } else {
        assert TrimEnd(Lower(s)) == Lower(s);
      }
    }
  }

  lemma TrimLower(s: string)
    ensures Trim(Lower(s)) == Lower(Trim(s))
  {
    TrimStartLower(s);
    TrimEndLower(TrimStart(s));
  }

  /** Whitespace in front of a string that starts with whitespace only
      disappears under `TrimStart`. */
  lemma {:induction false} TrimStartAppend(s: string, t: string)
    ensures TrimStart(s + t) == if TrimStart(s) == [] then TrimStart(t) else TrimStart(s) + t
    decreases |s|
  {
    if s == [] {
      assert s + t == t;
    } else {
      assert (s + t)[1..] == s[1..] + t;
      if IsSpace(s[0]) {
        TrimStartAppend(s[1..], t);
      }
    }
  }

  lemma {:induction false} TrimEndAppendSpace(s: string, w: string)
    requires AllSpace(w)
    ensures TrimEnd(s + w) == TrimEnd(s)
    decreases |w|
  {
    if w != [] {
      var n := |w| - 1;
      assert (s + w)[..|s + w| - 1] == s + w[..n];
      TrimEndAppendSpace(s, w[..n]);
    } else {
      assert s + w == s;
    }
  }

  lemma TrimStartAllSpace(s: string)
    requires AllSpace(s)
    ensures TrimStart(s) == []
  {
  }

  /** Whitespace around a string does not change what it trims to. */
  lemma TrimPadding(pre: string, s: string, post: string)
    requires AllSpace(pre) && AllSpace(post)
    ensures Trim(pre + s + post) == Trim(s)
  {
    var u := s + post;
    assert pre + s + post == pre + u;
    TrimStartAllSpace(pre);
    TrimStartAppend(pre, u);
    assert TrimStart(pre + s + post) == TrimStart(u);
    TrimStartAppend(s, post);
    if TrimStart(s) == [] {
      TrimStartAllSpace(post);
      assert TrimStart(u) == [];
    } else {
      TrimEndAppendSpace(TrimStart(s), post);
    }
  }

  /** A string without upper-case letters is its own lower-case form. */
  lemma LowerUnchanged(s: string)
    requires forall i :: 0 <= i < |s| ==> !IsUpper(s[i])
    ensures Lower(s) == s
  {
  }

  /** Trimming twice trims no more than trimming once. */
  lemma TrimIdempotent(s: string)
    ensures Trim(Trim(s)) == Trim(s)
  {
    if Trim(s) != [] {
      TrimUnchanged(Trim(s));
    }
  }

  /** A string that neither starts nor ends with whitespace is its own
      trimmed form. */
  lemma TrimUnchanged(s: string)
    requires s != [] && !IsSpace(s[0]) && !IsSpace(s[|s| - 1])
    ensures Trim(s) == s
  {
  }
}
