/** The key order of the map: `str_cmp`, a counted-string comparison built on the C library's `strncmp`. */
module StrOrder {

  type Byte = x: int | 0 <= x < 256

  /** A `str`: a buffer of bytes with a length. It is not NUL-terminated and may contain NUL bytes. */
  type Str = seq<Byte>

  /** `strncmp` on the first `n` bytes: it compares unsigned bytes and stops where both strings hold a NUL. */
  function StrNCmp(a: Str, b: Str, n: nat): int
    requires n <= |a| && n <= |b|
    decreases n
  {
    if n == 0 then 0
    else if a[0] != b[0] then a[0] - b[0]
    else if a[0] == 0 then 0
    else StrNCmp(a[1..], b[1..], n - 1)
  }

  function StrCmp(a: Str, b: Str): int {
    var ret := StrNCmp(a, b, if |a| < |b| then |a| else |b|);
    if ret == 0 then |a| - |b| else ret
  }

  ghost predicate NulFree(s: Str) {
    forall i | 0 <= i < |s| :: s[i] != 0
  }

  /** The part of a key the comparison can see: everything after the first NUL reads as NUL. */
  function Canon(s: Str): Str {
    if s == [] then []
    else if s[0] == 0 then seq(|s|, _ => 0)
    else [s[0]] + Canon(s[1..])
  }

  lemma {:induction false} CanonLength(s: Str)
    ensures |Canon(s)| == |s|
  {
    if s != [] && s[0] != 0 {
      CanonLength(s[1..]);
    }
  }

  lemma {:induction false} CanonNulFree(s: Str)
    requires NulFree(s)
    ensures Canon(s) == s
  {
    if s != [] {
      CanonNulFree(s[1..]);
    }
  }

  /** Stepping over an equal non-NUL first byte. */
  lemma StrCmpTail(a: Str, b: Str)
    requires a != [] && b != [] && a[0] == b[0] != 0
    ensures StrCmp(a, b) == StrCmp(a[1..], b[1..])
  {
  }

  lemma {:induction false} StrCmpAntisymmetric(a: Str, b: Str)
    ensures StrCmp(a, b) == -StrCmp(b, a)
  {
    if a != [] && b != [] && a[0] == b[0] != 0 {
      StrCmpTail(a, b);
      StrCmpTail(b, a);
      StrCmpAntisymmetric(a[1..], b[1..]);
    }
  }

  /** The comparison answers "equal" exactly for keys with the same visible part. */
  lemma {:induction false} StrCmpZero(a: Str, b: Str)
    ensures StrCmp(a, b) == 0 <==> Canon(a) == Canon(b)
  {
    CanonLength(a);
    CanonLength(b);
    if a != [] && b != [] {
      assert Canon(a)[0] == a[0] && Canon(b)[0] == b[0];
      if a[0] == b[0] != 0 {
        StrCmpTail(a, b);
        StrCmpZero(a[1..], b[1..]);
        assert Canon(a)[1..] == Canon(a[1..]) && Canon(b)[1..] == Canon(b[1..]);
      }
    }
  }

  lemma {:induction false} StrCmpTransitive(a: Str, b: Str, c: Str)
    requires StrCmp(a, b) <= 0 && StrCmp(b, c) <= 0
    ensures StrCmp(a, c) <= 0
    ensures StrCmp(a, b) < 0 || StrCmp(b, c) < 0 ==> StrCmp(a, c) < 0
  {
    if a != [] && b != [] && c != [] && a[0] == b[0] == c[0] != 0 {
      StrCmpTail(a, b);
      StrCmpTail(b, c);
      StrCmpTail(a, c);
      StrCmpTransitive(a[1..], b[1..], c[1..]);
    }
  }

  /** Alphabetical order, stated without the comparison: `a` is a proper prefix of `b`,
      or the two agree up to an index where `a` has the smaller byte. */
  ghost predicate Alphabetical(a: Str, b: Str) {
    (exists k :: 0 <= k < |a| && k < |b| && a[..k] == b[..k] && a[k] < b[k]) || a < b
  }

  /** On NUL-free keys the comparison is alphabetical order and equality. */
  lemma {:induction false} StrCmpAlphabetical(a: Str, b: Str)
    requires NulFree(a) && NulFree(b)
    ensures StrCmp(a, b) == 0 <==> a == b
    ensures StrCmp(a, b) < 0 <==> Alphabetical(a, b)
  {
    StrCmpZero(a, b);
    CanonNulFree(a);
    CanonNulFree(b);
    if a != [] && b != [] {
      if a[0] == b[0] {
        StrCmpTail(a, b);
        StrCmpAlphabetical(a[1..], b[1..]);
        AlphabeticalTail(a, b);
      } else if a[0] < b[0] {
        assert a[..0] == b[..0];
      }
    }
  }

  lemma AlphabeticalTail(a: Str, b: Str)
    requires a != [] && b != [] && a[0] == b[0]
    ensures Alphabetical(a, b) <==> Alphabetical(a[1..], b[1..])
  {
    var a', b' := a[1..], b[1..];
    assert a == [a[0]] + a' && b == [b[0]] + b';
    if k :| 0 <= k < |a'| && k < |b'| && a'[..k] == b'[..k] && a'[k] < b'[k] {
      assert a[..k+1] == [a[0]] + a'[..k] && b[..k+1] == [b[0]] + b'[..k];
      assert a[k+1] < b[k+1];
    }
    if k :| 0 <= k < |a| && k < |b| && a[..k] == b[..k] && a[k] < b[k] {
      assert k > 0;
      assert a'[..k-1] == a[..k][1..] && b'[..k-1] == b[..k][1..];
      assert a'[k-1] < b'[k-1];
    }
  }

  /** A key can only be confused with itself exactly when it holds no NUL before its last byte. */
  lemma StrCmpIdentifies(a: Str)
    ensures (forall b :: StrCmp(a, b) == 0 ==> a == b) <==> forall i :: 0 <= i < |a| - 1 ==> a[i] != 0
  {
    if i :| 0 <= i < |a| - 1 && a[i] == 0 {
      var b := a[|a| - 1 := if a[|a| - 1] == 0 then 1 else 0];
      CanonHides(a, b, i);
      StrCmpZero(a, b);
      assert a != b;
    } else {
      forall b | StrCmp(a, b) == 0
        ensures a == b
      {
        StrCmpZero(a, b);
        CanonReveals(a, b);
      }
    }
  }

  lemma {:induction false} CanonHides(a: Str, b: Str, i: nat)
    requires i < |a| == |b| && a[i] == 0 && a[..i+1] == b[..i+1]
    ensures Canon(a) == Canon(b)
  {
    assert a[i] == a[..i+1][i] && b[i] == b[..i+1][i];
    if i > 0 {
      assert a[0] == a[..i+1][0] && b[0] == b[..i+1][0];
      if a[0] != 0 {
        assert a[1..][..i] == a[..i+1][1..] && b[1..][..i] == b[..i+1][1..];
        CanonHides(a[1..], b[1..], i - 1);
      }
    }
  }

  lemma {:induction false} CanonReveals(a: Str, b: Str)
    requires Canon(a) == Canon(b)
    requires forall i :: 0 <= i < |a| - 1 ==> a[i] != 0
    ensures a == b
  {
    CanonLength(a);
    CanonLength(b);
    if a != [] {
      assert Canon(a)[0] == a[0] && Canon(b)[0] == b[0];
      if a[0] != 0 {
        assert Canon(a)[1..] == Canon(a[1..]) && Canon(b)[1..] == Canon(b[1..]);
        CanonReveals(a[1..], b[1..]);
      }
    }
  }
}
