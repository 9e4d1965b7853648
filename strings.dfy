/** Python string operations used by the detector: `str.lower()` (ASCII part),
    the substring test `sub in s`, and `' '.join(tokens)`. */
module Strings {

  /** Lower-cases one character; only ASCII letters are folded. */
  function LowerChar(c: char): char
  {
    if 'A' <= c <= 'Z' then (c as int + 32) as char else c
  }

  /** `s.lower()`, restricted to ASCII folding. */
  function Lower(s: string): (r: string)
    ensures |r| == |s|
    ensures forall i :: 0 <= i < |s| ==> r[i] == LowerChar(s[i])
  {
    seq(|s|, i requires 0 <= i < |s| => LowerChar(s[i]))
  }

  predicate NoUpper(s: string)
  {
    forall i :: 0 <= i < |s| ==> !('A' <= s[i] <= 'Z')
  }

  predicate NoSpace(s: string)
  {
    forall i :: 0 <= i < |s| ==> s[i] != ' '
  }

  predicate IsPrefix(p: string, s: string)
  {
    |p| <= |s| && s[..|p|] == p
  }

  /** Python's `sub in s`: `sub` occurs in `s` at some offset. */
  predicate Contains(s: string, sub: string)
    decreases |s|
  {
    IsPrefix(sub, s) || (|s| > 0 && Contains(s[1..], sub))
  }

  /** `any(k in s for k in subs)`. */
  predicate ContainsAny(s: string, subs: seq<string>)
  {
    exists k :: k in subs && Contains(s, k)
  }

  /** `' '.join(tokens)`. */
  function Join(tokens: seq<string>): string
  {
    if |tokens| == 0 then ""
    else if |tokens| == 1 then tokens[0]
    else tokens[0] + " " + Join(tokens[1..])
  }

  function LowerAll(tokens: seq<string>): (r: seq<string>)
    ensures |r| == |tokens|
    ensures forall i :: 0 <= i < |tokens| ==> r[i] == Lower(tokens[i])
  {
    seq(|tokens|, i requires 0 <= i < |tokens| => Lower(tokens[i]))
  }

  /** Folding a string that has no upper-case letter changes nothing. */
  lemma {:induction false} LowerOfLowerCase(s: string)
    requires NoUpper(s)
    ensures Lower(s) == s
  {
    if s != [] {
      assert NoUpper(s[1..]) by {
        forall i | 0 <= i < |s[1..]| ensures !('A' <= s[1..][i] <= 'Z') {
          assert s[1..][i] == s[i + 1];
        }
      }
      LowerOfLowerCase(s[1..]);
      assert Lower(s) == [LowerChar(s[0])] + Lower(s[1..]);
    }
  }

  lemma LowerAppend(a: string, b: string)
    ensures Lower(a + b) == Lower(a) + Lower(b)
  {
  }

  /** Folding commutes with joining, since the separator is not a letter. */
  lemma {:induction false} LowerJoin(tokens: seq<string>)
    ensures Lower(Join(tokens)) == Join(LowerAll(tokens))
  {
    if |tokens| >= 2 {
      LowerJoin(tokens[1..]);
      assert LowerAll(tokens[1..]) == LowerAll(tokens)[1..];
      LowerAppend(tokens[0] + " ", Join(tokens[1..]));
      LowerAppend(tokens[0], " ");
    }
  }

  /** An occurrence inside a prefix of `a` is an occurrence inside `a`. */
  lemma {:induction false} ContainsViaPrefix(a: string, b: string, c: string)
    requires IsPrefix(b, a) && Contains(b, c)
    ensures Contains(a, c)
    decreases |b|
  {
    if IsPrefix(c, b) {
      assert a[..|c|] == b[..|c|];
    } else {
      assert |b| > 0 && Contains(b[1..], c);
      assert IsPrefix(b[1..], a[1..]) by {
        assert a[1..][..|b| - 1] == a[..|b|][1..];
      }
      ContainsViaPrefix(a[1..], b[1..], c);
    }
  }

  /** Substring containment is transitive. */
  lemma {:induction false} ContainsTransitive(a: string, b: string, c: string)
    requires Contains(a, b) && Contains(b, c)
    ensures Contains(a, c)
    decreases |a|
  {
    if IsPrefix(b, a) {
      ContainsViaPrefix(a, b, c);
    } else {
      ContainsTransitive(a[1..], b, c);
    }
  }

  /** Lower-casing both sides preserves an occurrence. */
  lemma {:induction false} ContainsLower(s: string, sub: string)
    requires Contains(s, sub)
    ensures Contains(Lower(s), Lower(sub))
    decreases |s|
  {
    if IsPrefix(sub, s) {
      assert Lower(s)[..|sub|] == Lower(sub);
    } else {
      assert Lower(s)[1..] == Lower(s[1..]);
      ContainsLower(s[1..], sub);
    }
  }

  lemma {:induction false} ContainsInLeft(a: string, b: string, m: string)
    requires Contains(a, m)
    ensures Contains(a + b, m)
    decreases |a|
  {
    if IsPrefix(m, a) {
      assert (a + b)[..|m|] == a[..|m|];
    } else {
      assert (a + b)[1..] == a[1..] + b;
      ContainsInLeft(a[1..], b, m);
    }
  }

  lemma {:induction false} ContainsInRight(a: string, b: string, m: string)
    requires Contains(b, m)
    ensures Contains(a + b, m)
    decreases |a|
  {
    if a == [] {
      assert a + b == b;
    } else {
      assert (a + b)[1..] == a[1..] + b;
      ContainsInRight(a[1..], b, m);
    }
  }

  /** A space-free pattern found in `a + " " + b` lies wholly inside `a` or inside `b`. */
  lemma {:induction false} ContainsAcrossSpace(a: string, b: string, m: string)
    requires NoSpace(m) && Contains(a + " " + b, m)
    ensures Contains(a, m) || Contains(b, m)
    decreases |a|
  {
    var s := a + " " + b;
    assert s[|a|] == ' ';
    if IsPrefix(m, s) {
      assert |m| > |a| ==> ' ' in m;
      assert |m| <= |a|;
      assert a[..|m|] == s[..|m|];
    } else if a == [] {
      assert s[1..] == b;
    } else {
      assert s[1..] == a[1..] + " " + b;
      ContainsAcrossSpace(a[1..], b, m);
    }
  }

  /** A space-free pattern occurs in the joined string iff it occurs in one token. */
  lemma {:induction false} ContainsInJoin(tokens: seq<string>, m: string)
    requires |m| > 0 && NoSpace(m)
    ensures Contains(Join(tokens), m) <==> exists i :: 0 <= i < |tokens| && Contains(tokens[i], m)
  {
    if |tokens| == 1 {
      assert Join(tokens) == tokens[0];
    } else if |tokens| >= 2 {
      ContainsInJoin(tokens[1..], m);
      var rest := Join(tokens[1..]);
      assert Join(tokens) == tokens[0] + " " + rest;
      if Contains(Join(tokens), m) {
        ContainsAcrossSpace(tokens[0], rest, m);
        if Contains(rest, m) {
          var i :| 0 <= i < |tokens[1..]| && Contains(tokens[1..][i], m);
          assert tokens[i + 1] == tokens[1..][i];
        }
      }
      if i :| 0 <= i < |tokens| && Contains(tokens[i], m) {
        if i == 0 {
          ContainsInLeft(tokens[0], " " + rest, m);
          assert tokens[0] + (" " + rest) == Join(tokens);
        } else {
          assert tokens[1..][i - 1] == tokens[i];
          ContainsInRight(tokens[0] + " ", rest, m);
        }
      }
    }
  }

  /** An occurrence needs room for the pattern and its first character. */
  lemma {:induction false} ContainsBounds(s: string, m: string)
    requires Contains(s, m)
    ensures |m| <= |s|
    ensures |m| > 0 ==> m[0] in s
    decreases |s|
  {
    if !IsPrefix(m, s) {
      ContainsBounds(s[1..], m);
      if |m| > 0 {
        assert m[0] in s[1..];
      }
    } else if |m| > 0 {
      assert s[0] == m[0];
    }
  }
}
