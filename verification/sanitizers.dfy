/**
 The character-filter sanitizers and the checkbox coercion of the plugin's
 utility functions. Each filter is a `preg_replace` of a negated character
 class by the empty string: it deletes every character outside the class and
 keeps the rest in order.
 */
module Sanitizers {
  import opened Php

  predicate IsAlnum(c: char) {
    ('a' <= c <= 'z') || ('A' <= c <= 'Z') || ('0' <= c <= '9')
  }

  /** The characters a surrogate key may hold: `[a-zA-Z0-9_-]`. */
  predicate IsSurrogateKeyChar(c: char) {
    IsAlnum(c) || c == '_' || c == '-'
  }

  predicate All(s: string, p: char -> bool) {
    forall i :: 0 <= i < |s| ==> p(s[i])
  }

  /** `a` can be obtained from `b` by deleting characters. */
  ghost predicate IsSubsequence(a: string, b: string)
    decreases |b|
  {
    if a == [] then true
    else if b == [] then false
    else (a[0] == b[0] && IsSubsequence(a[1..], b[1..])) || IsSubsequence(a, b[1..])
  }

  /** The number of characters of `s` that satisfy `p`. */
  function Count(s: string, p: char -> bool): nat
    decreases |s|
  {
    if s == [] then 0 else (if p(s[0]) then 1 else 0) + Count(s[1..], p)
  }

  /** The characters of `s` that satisfy `p`, in their original order. */
  function Keep(s: string, p: char -> bool): (r: string)
    ensures All(r, p)
    ensures |r| <= |s|
    decreases |s|
  {
    if s == [] then [] else (if p(s[0]) then [s[0]] else []) + Keep(s[1..], p)
  }

  /**
   What a filter computes, stated without reference to how: the result is a
   subsequence of the input, every character satisfies `p`, and no character
   satisfying `p` was dropped.
   */
  lemma {:induction false} KeepCharacterized(s: string, p: char -> bool)
    ensures IsSubsequence(Keep(s, p), s)
    ensures |Keep(s, p)| == Count(s, p)
    decreases |s|
  {
    if s != [] {
      KeepCharacterized(s[1..], p);
      var rest := Keep(s[1..], p);
      if p(s[0]) {
        assert Keep(s, p) == [s[0]] + rest;
        assert (Keep(s, p))[1..] == rest;
      } else {
        assert Keep(s, p) == rest;
        SubsequenceDropHead(rest, s);
      }
    }
  }

  lemma SubsequenceDropHead(a: string, b: string)
    requires b != [] && IsSubsequence(a, b[1..])
    ensures IsSubsequence(a, b)
  {
  }

  /** A filter keeps each permitted character as often as it occurs and no other character. */
  lemma {:induction false} KeepMultiset(s: string, p: char -> bool, c: char)
    ensures multiset(Keep(s, p))[c] == if p(c) then multiset(s)[c] else 0
    decreases |s|
  {
    if s != [] {
      KeepMultiset(s[1..], p, c);
      assert s == [s[0]] + s[1..];
      assert multiset(s) == multiset([s[0]]) + multiset(s[1..]);
    }
  }

  /** A string whose every character is permitted passes through a filter unchanged. */
  lemma {:induction false} KeepIdentity(s: string, p: char -> bool)
    requires All(s, p)
    ensures Keep(s, p) == s
    decreases |s|
  {
    if s != [] {
      KeepIdentity(s[1..], p);
    }
  }

  /** Filtering by `p` and then by a stronger `q` is filtering by `q` alone. */
  lemma {:induction false} KeepStronger(s: string, p: char -> bool, q: char -> bool)
    requires forall c :: q(c) ==> p(c)
    ensures Keep(Keep(s, p), q) == Keep(s, q)
    decreases |s|
  {
    if s != [] {
      KeepStronger(s[1..], p, q);
      if p(s[0]) {
        var kp := Keep(s, p);
        assert kp == [s[0]] + Keep(s[1..], p);
        assert kp[0] == s[0] && kp[1..] == Keep(s[1..], p);
        assert Keep(kp, q) == (if q(s[0]) then [s[0]] else []) + Keep(Keep(s[1..], p), q);
      } else {
        assert !q(s[0]);
        assert Keep(s, p) == Keep(s[1..], p);
        assert Keep(s, q) == Keep(s[1..], q);
      }
    }
  }

  /** `purgely_sanitize_surrogate_key`: delete every character outside `[a-zA-Z0-9_-]`. */
  function SanitizeSurrogateKey(key: string): (r: string)
    ensures All(r, IsSurrogateKeyChar)
    ensures IsSubsequence(r, key)
    ensures |r| == Count(key, IsSurrogateKeyChar)
    ensures All(key, IsSurrogateKeyChar) ==> r == key
  {
    KeepCharacterized(key, IsSurrogateKeyChar);
    KeepIdentity'(key, IsSurrogateKeyChar);
    Keep(key, IsSurrogateKeyChar)
  }

  /** `purgely_sanitize_key`: delete every character outside `[a-zA-Z0-9]`, so `_` and `-` go too. */
  function SanitizeKey(key: string): (r: string)
    ensures All(r, IsAlnum)
    ensures IsSubsequence(r, key)
    ensures |r| == Count(key, IsAlnum)
    ensures All(key, IsAlnum) ==> r == key
  {
    KeepCharacterized(key, IsAlnum);
    KeepIdentity'(key, IsAlnum);
    Keep(key, IsAlnum)
  }

  lemma KeepIdentity'(s: string, p: char -> bool)
    ensures All(s, p) ==> Keep(s, p) == s
  {
    if All(s, p) {
      KeepIdentity(s, p);
    }
  }

  /** Sanitizing a surrogate key twice is sanitizing it once. */
  lemma SurrogateKeyIdempotent(key: string)
    ensures SanitizeSurrogateKey(SanitizeSurrogateKey(key)) == SanitizeSurrogateKey(key)
  {
  }

  /** Sanitizing an API key or service id twice is sanitizing it once. */
  lemma KeyIdempotent(key: string)
    ensures SanitizeKey(SanitizeKey(key)) == SanitizeKey(key)
  {
  }

  /**
   The API-key filter is strictly narrower: its output is already a clean
   surrogate key, and applying it after the surrogate-key filter is the same
   as applying it alone.
   */
  lemma KeyRefinesSurrogateKey(key: string)
    ensures SanitizeSurrogateKey(SanitizeKey(key)) == SanitizeKey(key)
    ensures SanitizeKey(SanitizeSurrogateKey(key)) == SanitizeKey(key)
  {
    KeepStronger(key, IsSurrogateKeyChar, IsAlnum);
  }

  /** A key with a space and a bang loses exactly those two characters. */
  lemma SanitizeExample()
    ensures SanitizeSurrogateKey("a b!") == "ab"
  {
    var p := IsSurrogateKeyChar;
    assert "a b!" == "a" + " b!";
    assert " b!" == " " + "b!";
    assert "b!" == "b" + "!";
    assert Keep("!", p) == [];
    KeepAppend("b", "!", p);
    assert Keep("b!", p) == "b";
    KeepAppend(" ", "b!", p);
    assert Keep(" b!", p) == "b";
    KeepAppend("a", " b!", p);
  }

  lemma {:induction false} KeepAppend(a: string, b: string, p: char -> bool)
    ensures Keep(a + b, p) == Keep(a, p) + Keep(b, p)
    decreases |a|
  {
    if a != [] {
      KeepAppend(a[1..], b, p);
      var h := if p(a[0]) then [a[0]] else [];
      assert (a + b)[0] == a[0];
      assert (a + b)[1..] == a[1..] + b;
      assert Keep(a + b, p) == h + Keep(a[1..] + b, p);
      assert Keep(a, p) == h + Keep(a[1..], p);
      assert Keep(a + b, p) == h + (Keep(a[1..], p) + Keep(b, p));
    } else {
      assert a + b == b;
    }
  }

  /**
   `purgely_sanitize_checkbox`: a strict `in_array` over `'1'`, `1`, `'true'`
   and `true`; no loose PHP comparison takes part.
   */
  function SanitizeCheckbox(v: Value): (r: bool)
    ensures r ==> !Empty(v)
    ensures r <==> v in {Str("1"), Int(1), Str("true"), Bool(true)}
  {
    v == Str("1") || v == Int(1) || v == Str("true") || v == Bool(true)
  }

  /**
   Re-sanitizing a sanitized checkbox keeps it, and values PHP would call
   truthy under loose comparison are still rejected.
   */
  lemma CheckboxFacts(v: Value)
    ensures SanitizeCheckbox(Bool(SanitizeCheckbox(v))) == SanitizeCheckbox(v)
    ensures !SanitizeCheckbox(Str("yes")) && !SanitizeCheckbox(Int(2)) && !SanitizeCheckbox(Str("TRUE"))
    ensures !SanitizeCheckbox(Int(0)) && !SanitizeCheckbox(Str("0")) && !SanitizeCheckbox(Bool(false))
    ensures !SanitizeCheckbox(Null) && !SanitizeCheckbox(Str(""))
  {
  }
}
