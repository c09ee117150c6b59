/** `sjo::shared_string_view`: a cheap, copyable view `[begin, end)` over an
    immutable string buffer whose ownership the views share. */
module Sjo {
  import opened StdString

  /** The `shared_ptr<const std::string>` a view holds: either no buffer
      (a default-constructed or moved-from view) or a shared, immutable one.
      Since the buffer never changes, sharing it needs no further modelling. */
  datatype Buffer = Null | Shared(text: Text)

  /** The exception `at` throws. */
  datatype Error = OutOfRange

  datatype Result<T> = Success(value: T) | Failure(error: Error)

  class SharedStringView {
    var data: Buffer
    var begin: nat
    var end: nat

    /** The offsets are `size_t` values that never cross, and stay inside the
        buffer when there is one. */
    ghost predicate Valid()
      reads this
    {
      begin <= end < SizeLimit && (data.Shared? ==> end <= |data.text|)
    }

    /** Whether the shared pointer is non-null. */
    predicate HasBuffer()
      reads this
    {
      data.Shared?
    }

    /** A view whose buffer may be dereferenced: every operation except the
        capacity queries, narrowing, swap, copy and move construction and
        assignment needs one. */
    ghost predicate Readable()
      reads this
    {
      Valid() && HasBuffer()
    }

    /** The logical value of the view. */
    ghost function Content(): Text
      reads this
      requires Readable()
    {
      data.text[begin..end]
    }

    // ---------------------------------------------------------------- Construction

    /** From an owned string (whose length is a `size_t`): a fresh buffer,
        viewed whole. */
    constructor (s: Text)
      requires |s| < SizeLimit
      ensures Readable() && data == Shared(s)
      ensures begin == 0 && end == |s|
      ensures Content() == s
    {
      data := Shared(s);
      begin := 0;
      end := |s|;
    }

    /** From a `string_view`: an owned copy of the viewed bytes, viewed whole. */
    constructor FromStringView(sv: StringView)
      requires sv.Valid() && sv.size < SizeLimit
      ensures Readable() && data == Shared(sv.ToString())
      ensures begin == 0 && end == sv.size
      ensures Content() == sv.text[sv.offset..sv.offset + sv.size]
    {
      var s := sv.ToString();
      data := Shared(s);
      begin := 0;
      end := |s|;
    }

    /** From a null-terminated `const char*`: the bytes before the first NUL. */
    constructor FromCString(s: Text)
      requires 0 in s && |s| <= SizeLimit
      ensures Readable() && begin == 0
      ensures data == Shared(s[..CStringLength(s)]) && end == CStringLength(s)
      ensures Content() == s[..CStringLength(s)]
      ensures 0 !in Content()
    {
      var t := s[..CStringLength(s)];
      data := Shared(t);
      begin := 0;
      end := |t|;
    }

    /** The default view: no buffer and an empty range. */
    constructor Default()
      ensures Valid() && !HasBuffer()
      ensures begin == 0 && end == 0
      ensures Size() == 0 && IsEmpty()
    {
      data := Null;
      begin := 0;
      end := 0;
    }

    /** The copy constructor: shares the buffer and copies the offsets. */
    constructor Copy(v: SharedStringView)
      requires v.Valid()
      ensures Valid() && data == v.data && begin == v.begin && end == v.end
      ensures v.Readable() ==> Readable() && Content() == v.Content()
    {
      data := v.data;
      begin := v.begin;
      end := v.end;
    }

    /** The move constructor: takes over the buffer and copies the offsets;
        the source keeps its offsets but no longer holds a buffer. */
    constructor Move(v: SharedStringView)
      requires v.Valid()
      modifies v
      ensures Valid() && data == old(v.data) && begin == old(v.begin) && end == old(v.end)
      ensures v.Valid() && !v.HasBuffer() && v.begin == old(v.begin) && v.end == old(v.end)
    {
      data := v.data;
      begin := v.begin;
      end := v.end;
      v.data := Null;
    }

    /** Copy assignment. */
    method Assign(v: SharedStringView)
      requires v.Valid()
      modifies this
      ensures Valid() && data == v.data && begin == v.begin && end == v.end
      ensures v.Readable() ==> Readable() && Content() == v.Content()
    {
      data := v.data;
      begin := v.begin;
      end := v.end;
    }

    /** Move assignment: member by member, where moving a `shared_ptr` is
        `shared_ptr(std::move(v.data)).swap(data)`. The source keeps its
        offsets and, unless it is this very view, loses its buffer; a
        self-move changes nothing. */
    method MoveAssign(v: SharedStringView)
      requires v.Valid()
      modifies this, v
      ensures Valid() && data == old(v.data) && begin == old(v.begin) && end == old(v.end)
      ensures v != this ==> v.Valid() && !v.HasBuffer() && v.begin == old(v.begin) && v.end == old(v.end)
    {
      var d, b, e := v.data, v.begin, v.end;
      v.data := Null;
      data, begin, end := d, b, e;
    }

    // ---------------------------------------------------------------- Iterators

    /** `begin()`: the position of the first viewed byte in the buffer. */
    function Begin(): (p: nat)
      reads this
      requires Readable()
      ensures p + Size() <= |data.text|
    {
      begin
    }

    /** `end()`: one past the position of the last viewed byte. */
    function End(): (p: nat)
      reads this
      requires Readable()
      ensures Begin() + Size() == p <= |data.text|
    {
      end
    }

    /** `rbegin()`: a position in the reversed buffer, where the last viewed
        byte comes first. */
    function RBegin(): (p: nat)
      reads this
      requires Readable()
      ensures p + Size() <= |data.text|
    {
      |data.text| - end
    }

    /** `rend()`: one past the reversed position of the first viewed byte. */
    function REnd(): (p: nat)
      reads this
      requires Readable()
      ensures RBegin() + Size() == p <= |data.text|
    {
      |data.text| - begin
    }

    /** Dereferencing a forward iterator at buffer position `p`. */
    function Deref(p: nat): Byte
      reads this
      requires Readable() && p < |data.text|
    {
      data.text[p]
    }

    /** Dereferencing a reverse iterator at reversed position `p`: the byte
        just before the forward position it corresponds to. */
    function RDeref(p: nat): Byte
      reads this
      requires Readable() && p < |data.text|
    {
      data.text[|data.text| - 1 - p]
    }

    /** Walking `begin()`..`end()` visits the content in order, and walking
        `rbegin()`..`rend()` visits it backwards. */
    lemma Traversal(k: nat)
      requires Readable() && k < Size()
      ensures Deref(Begin() + k) == Content()[k]
      ensures RDeref(RBegin() + k) == Content()[Size() - 1 - k]
    {
    }

    // ---------------------------------------------------------------- Element access

    /** `operator[]`: unchecked `std::string::operator[]` at the `size_t` sum
        `begin + pos`; the position one past the buffer's last byte reads the
        string's terminating NUL. */
    function Get(pos: nat): (r: Byte)
      reads this
      requires Readable() && pos < SizeLimit && WrapSize(begin + pos) <= |data.text|
      ensures pos < Size() ==> r == Content()[pos]
      ensures WrapSize(begin + pos) < |data.text| ==> r == data.text[WrapSize(begin + pos)]
      ensures WrapSize(begin + pos) == |data.text| ==> r == 0
    {
      var i := WrapSize(begin + pos);
      if i < |data.text| then data.text[i] else 0
    }

    /** `at`: `std::string::at` on the whole buffer at the `size_t` sum
        `begin + pos`, so it fails only when that wrapped position falls
        outside the buffer, not when it leaves the view. */
    function At(pos: nat): (r: Result<Byte>)
      reads this
      requires Readable() && pos < SizeLimit
      ensures r.Failure? <==> WrapSize(begin + pos) >= |data.text|
      ensures r.Success? ==> r.value == data.text[WrapSize(begin + pos)]
      ensures pos < Size() ==> r == Success(Content()[pos])
      ensures begin + pos < SizeLimit ==> (r.Failure? <==> begin + pos >= |data.text|)
    {
      var i := WrapSize(begin + pos);
      if i < |data.text| then Success(data.text[i]) else Failure(OutOfRange)
    }

    /** The bounds check `at` is evidently meant to make: against the view. */
    function CheckedAt(pos: nat): (r: Result<Byte>)
      reads this
      requires Readable()
      ensures r.Failure? <==> pos >= |Content()|
      ensures r.Success? ==> r.value == Content()[pos]
    {
      if pos < Size() then Success(data.text[begin + pos]) else Failure(OutOfRange)
    }

    /** `front()`: the byte at `begin()`. */
    function Front(): (r: Byte)
      reads this
      requires Readable() && !IsEmpty()
      ensures r == Content()[0]
    {
      Deref(Begin())
    }

    /** `back()`: the byte at `rbegin()`. */
    function Back(): (r: Byte)
      reads this
      requires Readable() && !IsEmpty()
      ensures r == Content()[|Content()| - 1]
    {
      RDeref(RBegin())
    }

    /** `data()`: the buffer from the first viewed byte on; the view's bytes
        are its first `Size()` ones. */
    function Data(): (r: Text)
      reads this
      requires Readable()
      ensures Size() <= |r| && r[..Size()] == Content()
    {
      data.text[begin..]
    }

    // ---------------------------------------------------------------- Capacity

    function Size(): (n: nat)
      reads this
      requires Valid()
      ensures HasBuffer() ==> n == |Content()|
      ensures n == 0 <==> begin == end
    {
      end - begin
    }

    function Length(): (n: nat)
      reads this
      requires Valid()
      ensures n == Size()
      ensures HasBuffer() ==> n == |Content()|
    {
      end - begin
    }

    function IsEmpty(): (e: bool)
      reads this
      requires Valid()
      ensures e <==> Size() == 0
      ensures HasBuffer() ==> (e <==> Content() == [])
    {
      begin == end
    }

    // ---------------------------------------------------------------- Modifiers

    /** `remove_prefix(n)`: unchecked, so `n` may not exceed the length. */
    method RemovePrefix(n: nat)
      requires Valid() && n <= Size()
      modifies this
      ensures Valid() && data == old(data) && end == old(end)
      ensures begin == old(begin) + n && Size() == old(Size()) - n
      ensures HasBuffer() ==> Content() == old(Content())[n..]
    {
      begin := begin + n;
    }

    /** `remove_suffix(n)`: unchecked, so `n` may not exceed the length. */
    method RemoveSuffix(n: nat)
      requires Valid() && n <= Size()
      modifies this
      ensures Valid() && data == old(data) && begin == old(begin)
      ensures end == old(end) - n && Size() == old(Size()) - n
      ensures HasBuffer() ==> Content() == old(Content())[..old(Size()) - n]
    {
      assert n <= end - begin;
      end := end - n;
      if HasBuffer() {
        PrefixOfSlice(data.text, begin, end, old(end));
      }
    }

    /** `swap(v)`: exchanges the buffers and the offsets of two views. */
    method Swap(v: SharedStringView)
      requires Valid() && v.Valid()
      modifies this, v
      ensures data == old(v.data) && begin == old(v.begin) && end == old(v.end)
      ensures v.data == old(data) && v.begin == old(begin) && v.end == old(end)
      ensures Valid() && v.Valid()
      ensures old(v.Readable()) ==> Readable() && Content() == old(v.Content())
      ensures old(Readable()) ==> v.Readable() && v.Content() == old(Content())
    {
      var d := data;
      data := v.data;
      v.data := d;
      var b := begin;
      begin := v.begin;
      v.begin := b;
      var e := end;
      end := v.end;
      v.end := e;
    }

    // ---------------------------------------------------------------- Conversions

    /** `operator std::string`: an owned copy of exactly the viewed bytes. */
    function ToString(): (s: Text)
      reads this
      requires Readable()
      ensures s == Content()
    {
      data.text[Begin()..End()]
    }

    /** `operator string_view`: `(data(), size())` over the shared buffer,
        without copying it. */
    function ToStringView(): (sv: StringView)
      reads this
      requires Readable()
      ensures sv.Valid() && sv.text == data.text
      ensures sv.ToString() == Content()
    {
      StringView(data.text, begin, Size())
    }

    // ---------------------------------------------------------------- Comparison

    /** Three-way comparison: `char_traits::compare` over the common length
        decides, then the shorter view sorts first. */
    function Compare(v: SharedStringView): (c: int)
      reads this, v
      requires Readable() && v.Readable()
      ensures -1 <= c <= 1
      ensures c == 0 <==> Content() == v.Content()
      ensures c < 0 <==> Below(Content(), v.Content())
      ensures c > 0 <==> Below(v.Content(), Content())
    {
      var rlen := Min(Length(), v.Length());
      var cmp := TraitsCompare(Data(), v.Data(), rlen);
      CompareByPrefix(Content(), v.Content(), Data(), v.Data(), rlen);
      if cmp != 0 then cmp
      else if Length() < v.Length() then -1
      else if Length() > v.Length() then 1
      else 0
    }
  }

  /** The facts `Compare` rests on: how the order of two contents follows from
      the order of the buffers' suffixes over the common length. */
  lemma CompareByPrefix(a: Text, b: Text, p: Text, q: Text, m: nat)
    requires |a| <= |p| && p[..|a|] == a && |b| <= |q| && q[..|b|] == b
    requires m == Min(|a|, |b|)
    ensures p[..m] == a[..m] && q[..m] == b[..m]
    ensures Below(a, b) <==> Below(p[..m], q[..m]) || (p[..m] == q[..m] && |a| < |b|)
    ensures Below(b, a) <==> Below(q[..m], p[..m]) || (p[..m] == q[..m] && |b| < |a|)
    ensures a == b <==> p[..m] == q[..m] && |a| == |b|
  {
    assert p[..m] == a[..m] && q[..m] == b[..m];
    BelowByPrefix(a, b, m);
    BelowByPrefix(b, a, m);
    if |a| == |b| {
      assert a[..m] == a && b[..m] == b;
    }
  }

  // ------------------------------------------------------------------ Free functions

  /** `to_string(v)`. */
  function ToString(v: SharedStringView): (s: Text)
    reads v
    requires v.Readable()
    ensures s == v.Content()
  {
    v.ToString()
  }

  /** `to_string_view(v)`. */
  function ToStringView(v: SharedStringView): (sv: StringView)
    reads v
    requires v.Readable()
    ensures sv.Valid() && sv.text == v.data.text && sv.ToString() == v.Content()
  {
    v.ToStringView()
  }

  /** `subseq(s, b, e)` as written: on a copy of `s`, drop `b` bytes in front,
      then drop `length() - e` bytes at the back of what is left, which keeps
      `e` bytes. The caller's view is untouched. */
  method Subseq(s: SharedStringView, b: nat, e: nat) returns (r: SharedStringView)
    requires s.Valid() && b + e <= s.Size()
    ensures fresh(r) && r.Valid() && r.data == s.data
    ensures r.begin == s.begin + b && r.Size() == e
    ensures s.Readable() ==> r.Readable() && r.Content() == s.Content()[b..b + e]
  {
    r := new SharedStringView.Copy(s);
    r.RemovePrefix(b);
    r.RemoveSuffix(r.Length() - e);
  }

  /** The sub-range `[b, e)` of the view, as `subseq`'s parameter names promise. */
  method SubseqRange(s: SharedStringView, b: nat, e: nat) returns (r: SharedStringView)
    requires s.Valid() && b <= e <= s.Size()
    ensures fresh(r) && r.Valid() && r.data == s.data
    ensures r.begin == s.begin + b && r.Size() == e - b
    ensures s.Readable() ==> r.Readable() && r.Content() == s.Content()[b..e]
  {
    r := new SharedStringView.Copy(s);
    r.RemovePrefix(b);
    r.RemoveSuffix(r.Length() - (e - b));
  }

  // ------------------------------------------------------------------ Relational operators

  function Eq(a: SharedStringView, b: SharedStringView): (r: bool)
    reads a, b
    requires a.Readable() && b.Readable()
    ensures r <==> a.Content() == b.Content()
  {
    a.Compare(b) == 0
  }

  function Ne(a: SharedStringView, b: SharedStringView): (r: bool)
    reads a, b
    requires a.Readable() && b.Readable()
    ensures r <==> a.Content() != b.Content()
  {
    !Eq(a, b)
  }

  function Lt(a: SharedStringView, b: SharedStringView): (r: bool)
    reads a, b
    requires a.Readable() && b.Readable()
    ensures r <==> Below(a.Content(), b.Content())
  {
    a.Compare(b) < 0
  }

  function Gt(a: SharedStringView, b: SharedStringView): (r: bool)
    reads a, b
    requires a.Readable() && b.Readable()
    ensures r <==> Below(b.Content(), a.Content())
  {
    Lt(b, a)
  }

  function Le(a: SharedStringView, b: SharedStringView): (r: bool)
    reads a, b
    requires a.Readable() && b.Readable()
    ensures r <==> Below(a.Content(), b.Content()) || a.Content() == b.Content()
  {
    BelowTotal(a.Content(), b.Content());
    BelowAsymmetric(a.Content(), b.Content());
    BelowIrreflexive(a.Content());
    !Gt(a, b)
  }

  function Ge(a: SharedStringView, b: SharedStringView): (r: bool)
    reads a, b
    requires a.Readable() && b.Readable()
    ensures r <==> Below(b.Content(), a.Content()) || a.Content() == b.Content()
  {
    BelowTotal(a.Content(), b.Content());
    BelowAsymmetric(b.Content(), a.Content());
    BelowIrreflexive(a.Content());
    !Lt(a, b)
  }

  /** Swapping the operands of `compare` flips the sign of its result. */
  lemma CompareAntisymmetric(a: SharedStringView, b: SharedStringView)
    requires a.Readable() && b.Readable()
    ensures a.Compare(b) < 0 <==> b.Compare(a) > 0
    ensures a.Compare(b) > 0 <==> b.Compare(a) < 0
    ensures a.Compare(b) == 0 <==> b.Compare(a) == 0
  {
  }

  /** `<` is transitive, and with the lemma above a strict total order on
      contents. */
  lemma LtTransitive(a: SharedStringView, b: SharedStringView, c: SharedStringView)
    requires a.Readable() && b.Readable() && c.Readable()
    requires Lt(a, b) && Lt(b, c)
    ensures Lt(a, c)
  {
    BelowTransitive(a.Content(), b.Content(), c.Content());
  }

  /** Exactly one of `a < b`, `a == b`, `b < a` holds. */
  lemma Trichotomy(a: SharedStringView, b: SharedStringView)
    requires a.Readable() && b.Readable()
    ensures (Lt(a, b) && !Eq(a, b) && !Gt(a, b))
         || (!Lt(a, b) && Eq(a, b) && !Gt(a, b))
         || (!Lt(a, b) && !Eq(a, b) && Gt(a, b))
  {
  }

  // ------------------------------------------------------------------ Hashing

  /** `std::hash<shared_string_view>`: the `string_view` hash, given here as
      `hasher`, of `to_string_view(v)`. */
  function Hash(hasher: Text -> nat, v: SharedStringView): (h: nat)
    reads v
    requires v.Readable()
    ensures h == hasher(v.Content())
  {
    hasher(ToStringView(v).ToString())
  }

  /** Views that compare equal hash equal, whatever their buffers and offsets. */
  lemma HashRespectsEq(hasher: Text -> nat, a: SharedStringView, b: SharedStringView)
    requires a.Readable() && b.Readable() && Eq(a, b)
    ensures Hash(hasher, a) == Hash(hasher, b)
  {
  }
}
