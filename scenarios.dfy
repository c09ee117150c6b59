/** What a caller of `sjo::shared_string_view` can rely on, shown on views
    built and narrowed the way client code does it. */
module Scenarios {
  import opened StdString
  import opened Sjo

  /** Copies share the buffer but own their offsets: narrowing a copy leaves
      the original's offsets and content as they were. */
  method NarrowCopy(v: SharedStringView, n: nat, m: nat) returns (c: SharedStringView)
    requires v.Readable() && n + m <= v.Size()
    ensures c.Readable() && c.data == v.data
    ensures c.Content() == v.Content()[n..v.Size() - m]
    ensures v.Readable() && v.begin == old(v.begin) && v.end == old(v.end)
    ensures v.Content() == old(v.Content())
  {
    c := new SharedStringView.Copy(v);
    c.RemovePrefix(n);
    c.RemoveSuffix(m);
    assert c.Content() == v.Content()[n..][..v.Size() - n - m];
  }

  /** string -> view -> string gives back the string. */
  method StringRoundTrip(s: Text) returns (t: Text)
    requires |s| < SizeLimit
    ensures t == s
  {
    var v := new SharedStringView(s);
    t := ToString(v);
  }

  /** view -> string -> view gives a view with the same content, over a new
      buffer that holds exactly that content. */
  method ViewRoundTrip(v: SharedStringView) returns (w: SharedStringView)
    requires v.Readable()
    ensures w.Readable() && w.data == Shared(v.Content())
    ensures w.Content() == v.Content() && Eq(w, v)
  {
    w := new SharedStringView(ToString(v));
  }

  /** A view built from a `string_view` holds a copy of the viewed bytes. */
  method StringViewRoundTrip(v: SharedStringView) returns (w: SharedStringView)
    requires v.Readable()
    ensures w.Readable() && w.Content() == v.Content() && Eq(w, v)
  {
    w := new SharedStringView.FromStringView(ToStringView(v));
  }

  /** "hello world" with its first six bytes removed is "world". */
  method HelloWorld() returns (c: int)
    ensures c == 0
  {
    var hello: Text := [104, 101, 108, 108, 111, 32, 119, 111, 114, 108, 100];
    var world: Text := [119, 111, 114, 108, 100];
    var v := new SharedStringView(hello);
    v.RemovePrefix(6);
    v.RemoveSuffix(0);
    var w := new SharedStringView(world);
    assert v.Content() == world;
    c := v.Compare(w);
  }

  /** The order of `compare` is plain byte-string order: "ab" < "aba" < "abb". */
  method OrderExamples() returns (lt1: bool, lt2: bool, eq: bool)
    ensures lt1 && lt2 && eq
  {
    var ab := new SharedStringView([97, 98]);
    var aba := new SharedStringView([97, 98, 97]);
    var abb := new SharedStringView([97, 98, 98]);
    var x1 := new SharedStringView([120]);
    var x2 := new SharedStringView([120]);
    assert Below([98] + [], [98, 97]);
    assert Below([98], [98, 97]);
    assert Below([97], [98]);
    assert Below([98, 97], [98, 98]);
    lt1 := Lt(ab, aba);
    lt2 := Lt(aba, abb);
    eq := Eq(x1, x2);
  }

  /** `at(length())` on a view that stops short of its buffer's end returns
      the byte after the view instead of failing; the view-checked access fails. */
  method AtPastViewEnd() returns (asWritten: Result<Byte>, intended: Result<Byte>)
    ensures asWritten == Success(98)
    ensures intended == Failure(OutOfRange)
  {
    var v := new SharedStringView([97, 98]);
    v.RemoveSuffix(1);
    asWritten := v.At(v.Length());
    intended := v.CheckedAt(v.Length());
  }

  /** `at(SIZE_MAX)` on "ab" after `remove_prefix(1)`: `begin + pos` wraps to
      0, so it returns the byte before the view; the view-checked access fails. */
  method AtWrapsBeforeView() returns (asWritten: Result<Byte>, intended: Result<Byte>)
    ensures asWritten == Success(97)
    ensures intended == Failure(OutOfRange)
  {
    var v := new SharedStringView([97, 98]);
    v.RemovePrefix(1);
    asWritten := v.At(SizeLimit - 1);
    intended := v.CheckedAt(SizeLimit - 1);
  }

  /** `v[SIZE_MAX]` on "abc" after `remove_prefix(1)`: `begin + pos` wraps
      to 0, so it reads the byte before the view. */
  method GetWrapsBeforeView() returns (r: Byte)
    ensures r == 97
  {
    var v := new SharedStringView([97, 98, 99]);
    v.RemovePrefix(1);
    r := v.Get(SizeLimit - 1);
  }

  /** `v = std::move(v)` leaves the view as it was. */
  method SelfMove(v: SharedStringView)
    requires v.Readable()
    modifies v
    ensures v.Readable() && v.data == old(v.data) && v.begin == old(v.begin) && v.end == old(v.end)
    ensures v.Content() == old(v.Content())
  {
    v.MoveAssign(v);
  }

  /** `subseq(subseq(v, 1, 5), 1, 3)` and `subseq(v, 2, 4)` differ on
      "abcdef": "cde" against "cdef". */
  method SubseqDoesNotCompose() returns (x: Text, y: Text)
    ensures x == [99, 100, 101] && y == [99, 100, 101, 102]
    ensures x != y
  {
    var v := new SharedStringView([97, 98, 99, 100, 101, 102]);
    var a := Subseq(v, 1, 5);
    var b := Subseq(a, 1, 3);
    var c := Subseq(v, 2, 4);
    x := b.ToString();
    y := c.ToString();
  }

  /** Taking `[1, 5)` and then `[1, 3)` of that is taking `[2, 4)`. */
  method SubseqRangeComposes(v: SharedStringView) returns (x: Text, y: Text)
    requires v.Readable() && v.Size() >= 5
    ensures x == y == v.Content()[2..4]
  {
    var a := SubseqRange(v, 1, 5);
    var b := SubseqRange(a, 1, 3);
    var c := SubseqRange(v, 2, 4);
    x := b.ToString();
    y := c.ToString();
  }

  /** Two views over separately built but equal strings compare and hash equal. */
  method EqualContentEqualHash(hasher: Text -> nat, s: Text) returns (same: bool, h1: nat, h2: nat)
    requires |s| + 2 < SizeLimit
    ensures same && h1 == h2
  {
    var big := new SharedStringView([0] + s + [0]);
    big.RemovePrefix(1);
    big.RemoveSuffix(1);
    assert big.Content() == s;
    var small := new SharedStringView(s);
    same := Eq(big, small);
    h1 := Hash(hasher, big);
    h2 := Hash(hasher, small);
  }
}
