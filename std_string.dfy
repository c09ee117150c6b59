/** Byte-level models of the standard-library pieces a shared string view is
    built on: the character type as `std::char_traits<char>` orders it, the
    lexicographic order on strings, `char_traits::compare`, the length of a
    null-terminated C string and a non-owning `string_view`. */
module StdString {

  /** A `char` as `std::char_traits<char>` compares it: an unsigned byte. */
  newtype Byte = b: int | 0 <= b < 256

  /** The characters of a `std::string`. */
  type Text = seq<Byte>

  /** One more than the largest `size_t`; the model assumes a 64-bit `size_t`. */
  const SizeLimit: nat := 0x1_0000_0000_0000_0000

  /** Unsigned `size_t` arithmetic: a sum taken modulo `SizeLimit`. */
  function WrapSize(x: nat): (w: nat)
    ensures w < SizeLimit
    ensures x < SizeLimit ==> w == x
  {
    x % SizeLimit
  }

  function Min(x: nat, y: nat): (m: nat)
    ensures m <= x && m <= y && (m == x || m == y)
  {
    if x < y then x else y
  }

  /** Cutting a slice short is slicing less of the whole. */
  lemma PrefixOfSlice(t: Text, i: nat, k: nat, j: nat)
    requires i <= k <= j <= |t|
    ensures t[i..j][..k - i] == t[i..k]
  {
    forall x | 0 <= x < k - i
      ensures t[i..j][..k - i][x] == t[i..k][x]
    {
    }
  }

  /** Strict lexicographic order on byte strings: the first differing byte
      decides, and a proper prefix sorts before the longer string. */
  ghost predicate Below(a: Text, b: Text)
  {
    if |a| == 0 then |b| > 0
    else if |b| == 0 then false
    else a[0] < b[0] || (a[0] == b[0] && Below(a[1..], b[1..]))
  }

  lemma {:induction false} BelowIrreflexive(a: Text)
    ensures !Below(a, a)
  {
    if |a| > 0 {
      BelowIrreflexive(a[1..]);
    }
  }

  lemma {:induction false} BelowAsymmetric(a: Text, b: Text)
    ensures Below(a, b) ==> !Below(b, a)
  {
    if |a| > 0 && |b| > 0 {
      BelowAsymmetric(a[1..], b[1..]);
    }
  }

  lemma {:induction false} BelowTransitive(a: Text, b: Text, c: Text)
    ensures Below(a, b) && Below(b, c) ==> Below(a, c)
  {
    if |a| > 0 && |b| > 0 && |c| > 0 {
      BelowTransitive(a[1..], b[1..], c[1..]);
    }
  }

  /** Any two different strings are ordered one way or the other. */
  lemma {:induction false} BelowTotal(a: Text, b: Text)
    ensures a == b || Below(a, b) || Below(b, a)
  {
    if |a| > 0 && |b| > 0 && a[0] == b[0] {
      BelowTotal(a[1..], b[1..]);
      if a[1..] == b[1..] {
        assert a == [a[0]] + a[1..] && b == [b[0]] + b[1..];
      }
    }
  }

  /** Comparing two strings is comparing their common-length prefixes, and,
      when those agree, their lengths. */
  lemma {:induction false} BelowByPrefix(a: Text, b: Text, m: nat)
    requires m == Min(|a|, |b|)
    ensures Below(a, b) <==> Below(a[..m], b[..m]) || (a[..m] == b[..m] && |a| < |b|)
  {
    if m > 0 {
      BelowByPrefix(a[1..], b[1..], m - 1);
      assert a[..m] == [a[0]] + a[1..][..m - 1];
      assert b[..m] == [b[0]] + b[1..][..m - 1];
      assert a[..m][1..] == a[1..][..m - 1];
      assert b[..m][1..] == b[1..][..m - 1];
    }
  }

  /** `char_traits<char>::compare(p, q, n)`: compares the first `n` bytes of
      `p` and `q` as unsigned bytes; the sign of the result gives their order. */
  function TraitsCompare(p: Text, q: Text, n: nat): (c: int)
    requires n <= |p| && n <= |q|
    ensures -1 <= c <= 1
    ensures c == 0 <==> p[..n] == q[..n]
    ensures c < 0 <==> Below(p[..n], q[..n])
    ensures c > 0 <==> Below(q[..n], p[..n])
    decreases n
  {
    if n == 0 then 0
    else if p[0] < q[0] then -1
    else if p[0] > q[0] then 1
    else
      assert p[..n] == [p[0]] + p[1..][..n - 1];
      assert q[..n] == [q[0]] + q[1..][..n - 1];
      assert p[..n][1..] == p[1..][..n - 1];
      assert q[..n][1..] == q[1..][..n - 1];
      TraitsCompare(p[1..], q[1..], n - 1)
  }

  /** `strlen`: the number of bytes of a null-terminated string before its
      first NUL. */
  function CStringLength(s: Text): (n: nat)
    requires 0 in s
    ensures n < |s| && s[n] == 0
    ensures forall i :: 0 <= i < n ==> s[i] != 0
  {
    if s[0] == 0 then 0
    else
      assert s == [s[0]] + s[1..];
      1 + CStringLength(s[1..])
  }

  /** A non-owning `std::string_view`: a pointer to `offset` within `text`
      and a size, valid only while `text` is alive. */
  datatype StringView = StringView(text: Text, offset: nat, size: nat)
  {
    ghost predicate Valid()
    {
      offset + size <= |text|
    }

    /** `string_view::to_string`: an owned copy of the viewed bytes. */
    function ToString(): (s: Text)
      requires Valid()
      ensures |s| == size
      ensures forall i :: 0 <= i < size ==> s[i] == text[offset + i]
    {
      text[offset..offset + size]
    }
  }
}
