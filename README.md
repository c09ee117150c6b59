# sjo::shared_string_view in Dafny

A model of `sjo::shared_string_view` from `shared-string-view.hh`. This is a copyable
view `[begin, end)` over an immutable `std::string`. Views share ownership of that
string through a `shared_ptr`. Each copy has its own offsets and shares the bytes.

- `std_string.dfy` (module `StdString`) models the standard-library pieces the
  header depends on:
  - a `char`, modelled as an unsigned byte, which is how `char_traits<char>` compares it;
  - the strict lexicographic order `Below` on byte strings, with its order laws;
  - `char_traits::compare` (`TraitsCompare`);
  - `strlen` (`CStringLength`);
  - a non-owning `string_view`.
- `shared_string_view.dfy` (module `Sjo`) models the header itself:
  - The class `SharedStringView` has the fields `data`, `begin` and `end`.
  - `data` is `Null` or `Shared(text)` and stands for the `shared_ptr`.
  - `Valid()` is the offset invariant.
  - The ghost `Content()` is `text[begin..end]`.
  - Constructors, iterators (as buffer positions), element access, capacity,
    `remove_prefix`, `remove_suffix`, `swap`, the conversions and `compare` are members.
  - `to_string`, `to_string_view`, `subseq`, the six relational operators and
    `std::hash` are module-level functions.
- `scenarios.dfy` (module `Scenarios`) holds client code with proved results:
  - copy independence;
  - the round-trips;
  - the "hello world" scenario and ordering examples;
  - the counterexamples for the findings below.

Only `size`, `length`, `empty`, the narrowing operations, `swap`, copy and move
construction and assignment are defined on a view without a buffer (a
default-constructed or moved-from one). Every other operation dereferences the buffer
pointer, so it requires `Readable()`. In particular, comparing two buffer-less views,
even two empty ones, dereferences a null pointer in the code, so the model leaves it
undefined.

The model assumes a 64-bit `size_t`. The offsets `begin` and `end` are `size_t`
values, so `Valid()` keeps them below 2^64 (`SizeLimit`). A `std::string` cannot be
longer than that either, so the constructors require it of the string they copy.
Position arithmetic in `operator[]` and `at` wraps modulo 2^64. The wrap examples
below depend on this width.

## Model

| member | source | states |
|---|---|---|
| Sjo.SharedStringView.constructor | shared-string-view.hh:35-40 | the view owns a buffer equal to `s`, `begin = 0`, `end` = the length of `s`, and its content is `s` |
| Sjo.SharedStringView.FromStringView | shared-string-view.hh:42-45 | the buffer is a copy of the `string_view`'s bytes, viewed whole |
| Sjo.SharedStringView.FromCString | shared-string-view.hh:47-50 | the buffer is exactly the bytes before the first NUL, viewed whole (`begin = 0`, `end` = their count), and the content holds no NUL |
| Sjo.SharedStringView.Default | shared-string-view.hh:52-56 | no buffer, `begin = end = 0`, size 0 and empty |
| Sjo.SharedStringView.Copy | shared-string-view.hh:58 | the copy shares the buffer, has the same offsets and the same content |
| Sjo.SharedStringView.Move | shared-string-view.hh:59 | the new view takes the buffer and offsets; the source keeps its offsets and loses its buffer |
| Sjo.SharedStringView.Assign | shared-string-view.hh:60 | after copy assignment the target shares the source's buffer, offsets and content |
| Sjo.SharedStringView.MoveAssign | shared-string-view.hh:61 | the target takes the buffer and offsets; a different source keeps its offsets and loses its buffer; a self-move changes nothing |
| Sjo.SharedStringView.Begin | shared-string-view.hh:64-65 | the first viewed position, with `Size()` bytes of buffer after it |
| Sjo.SharedStringView.End | shared-string-view.hh:69-70 | `Begin() + Size()`, within the buffer |
| Sjo.SharedStringView.RBegin | shared-string-view.hh:66-67 | a reversed-buffer position with `Size()` positions after it |
| Sjo.SharedStringView.REnd | shared-string-view.hh:71-72 | `RBegin() + Size()`, within the buffer |
| Sjo.SharedStringView.Traversal | shared-string-view.hh:64-72 | walking `begin()..end()` yields the content in order; walking `rbegin()..rend()` yields it backwards |
| Sjo.SharedStringView.Get | shared-string-view.hh:75 | for a `size_t` position whose wrapped sum `(begin + pos) mod 2^64` is at most the buffer's length: the buffer byte there, which is `content[pos]` when `pos < size()`, and the string's NUL at the buffer's end |
| Sjo.SharedStringView.At | shared-string-view.hh:76 | for a `size_t` position: fails exactly when the wrapped sum `(begin + pos) mod 2^64` is outside the whole buffer; otherwise returns the buffer byte there, which is `content[pos]` when `pos < size()` |
| Sjo.SharedStringView.CheckedAt | shared-string-view.hh:76 | fails exactly when `pos >= size()`; otherwise returns `content[pos]` |
| Sjo.SharedStringView.Front | shared-string-view.hh:78 | on a non-empty view, the first content byte |
| Sjo.SharedStringView.Back | shared-string-view.hh:79 | on a non-empty view, the last content byte, read through the reverse iterator |
| Sjo.SharedStringView.Data | shared-string-view.hh:80 | the bytes from `data()` on; their first `size()` are the content |
| Sjo.SharedStringView.Size | shared-string-view.hh:83 | equals the content's length, and is 0 exactly when `begin == end` |
| Sjo.SharedStringView.Length | shared-string-view.hh:84 | equals `size()` and the content's length |
| Sjo.SharedStringView.IsEmpty | shared-string-view.hh:85 | holds exactly when the size is 0 and exactly when the content is empty |
| Sjo.SharedStringView.RemovePrefix | shared-string-view.hh:90 | with `n <= length()`: `begin` grows by `n`; `end` and the buffer are unchanged; the content loses its first `n` bytes |
| Sjo.SharedStringView.RemoveSuffix | shared-string-view.hh:91 | with `n <= length()`: `end` shrinks by `n`; `begin` and the buffer are unchanged; the content loses its last `n` bytes |
| Sjo.SharedStringView.Swap | shared-string-view.hh:93-97 | buffers, `begin` and `end` are exchanged, and so are the contents |
| Sjo.SharedStringView.ToString | shared-string-view.hh:100-102 | the owned string is exactly the content |
| Sjo.SharedStringView.ToStringView | shared-string-view.hh:104-106 | a `string_view` over the same buffer, without a copy, whose bytes are the content |
| Sjo.SharedStringView.Compare | shared-string-view.hh:108-118 | returns -1, 0 or +1; 0 iff the contents are equal; negative iff this content is lexicographically below the other; positive iff the reverse holds |
| Sjo.CompareByPrefix | shared-string-view.hh:109-117 | comparing `min(len)` bytes from `data()`, then the lengths, decides the lexicographic order and equality of the contents |
| Sjo.ToString | shared-string-view.hh:121-124 | `to_string(v)` is exactly the content |
| Sjo.ToStringView | shared-string-view.hh:126-129 | `to_string_view(v)` views the same buffer, and its bytes are the content |
| Sjo.Subseq | shared-string-view.hh:131-136 | with `b + e <= length()`: a new view on the same buffer whose content is `content[b..b+e]`; the argument is untouched |
| Sjo.SubseqRange | shared-string-view.hh:131-136 | with `b <= e <= length()`: a new view on the same buffer whose content is `content[b..e]` |
| Sjo.Eq | shared-string-view.hh:138-141 | `a == b` iff the contents are equal |
| Sjo.Ne | shared-string-view.hh:143-146 | `a != b` iff the contents differ |
| Sjo.Lt | shared-string-view.hh:148-151 | `a < b` iff a's content is lexicographically below b's |
| Sjo.Gt | shared-string-view.hh:153-156 | `a > b` iff b's content is below a's |
| Sjo.Le | shared-string-view.hh:158-161 | `a <= b` iff a's content is below or equal to b's |
| Sjo.Ge | shared-string-view.hh:163-166 | `a >= b` iff b's content is below or equal to a's |
| Sjo.CompareAntisymmetric | shared-string-view.hh:108-118 | swapping the operands flips the sign of `compare`: negative becomes positive, positive becomes negative, zero stays zero |
| Sjo.LtTransitive | shared-string-view.hh:148-151 | `<` is transitive |
| Sjo.Trichotomy | shared-string-view.hh:139-156 | exactly one of `a < b`, `a == b`, `a > b` holds |
| Sjo.Hash | shared-string-view.hh:182-185 | the hash is the `string_view` hash of the content alone |
| Sjo.HashRespectsEq | shared-string-view.hh:182-185 | views that compare equal hash equal, whatever their buffers and offsets |
| StdString.TraitsCompare | shared-string-view.hh:110 | -1/0/+1 by the lexicographic order of the first `n` bytes; 0 iff they are equal |
| StdString.CStringLength | shared-string-view.hh:47-50 | the index of the first NUL |
| StdString.StringView.ToString | shared-string-view.hh:42-45 | `string_view::to_string` copies exactly the viewed bytes |
| StdString.BelowByPrefix | shared-string-view.hh:109-117 | the lexicographic order is decided by the common-length prefixes and then the lengths |
| StdString.BelowIrreflexive | shared-string-view.hh:148-151 | no content is below itself |
| StdString.BelowAsymmetric | shared-string-view.hh:148-151 | below one way excludes below the other way |
| StdString.BelowTransitive | shared-string-view.hh:148-151 | the order is transitive |
| StdString.BelowTotal | shared-string-view.hh:158-166 | two different contents are ordered one way or the other |
| Scenarios.NarrowCopy | shared-string-view.hh:58-61 | narrowing a copy shrinks only the copy; the original's offsets and content are unchanged |
| Scenarios.StringRoundTrip | shared-string-view.hh:100-102 | string → view → string gives back the string |
| Scenarios.ViewRoundTrip | shared-string-view.hh:121-124 | view → string → view gives equal content over a fresh buffer |
| Scenarios.StringViewRoundTrip | shared-string-view.hh:42-45 | view → `string_view` → view gives equal content |
| Scenarios.HelloWorld | shared-string-view.hh:90-91 | "hello world" with 6 bytes removed in front compares equal to "world" |
| Scenarios.OrderExamples | shared-string-view.hh:108-118 | "ab" < "aba" < "abb" and "x" == "x" |
| Scenarios.EqualContentEqualHash | shared-string-view.hh:182-185 | views over separate buffers with equal content compare and hash equal |
| Scenarios.AtPastViewEnd | shared-string-view.hh:76 | `at(length())` succeeds on a view narrowed inside its buffer, while `CheckedAt` fails |
| Scenarios.AtWrapsBeforeView | shared-string-view.hh:76 | on "ab" after `remove_prefix(1)`, `at(2^64 - 1)` wraps to position 0 and returns 'a', a byte before the view, while `CheckedAt` fails |
| Scenarios.GetWrapsBeforeView | shared-string-view.hh:75 | on "abc" after `remove_prefix(1)`, `v[2^64 - 1]` wraps to position 0 and returns 'a', a byte before the view |
| Scenarios.SelfMove | shared-string-view.hh:61 | `v = std::move(v)` leaves the buffer, the offsets and the content as they were |
| Scenarios.SubseqDoesNotCompose | shared-string-view.hh:131-136 | on "abcdef", `subseq(subseq(v,1,5),1,3)` is "cde" but `subseq(v,2,4)` is "cdef" |
| Scenarios.SubseqRangeComposes | shared-string-view.hh:131-136 | with `[b, e)` sub-ranges, `[1,5)` then `[1,3)` equals `[2,4)` |

## Left out

- Reference counting and buffer lifetime (the `shared_ptr` and its atomic count). The
  buffer is an immutable value here, so sharing needs no bookkeeping.
- `operator<<`: it writes `size()` bytes from `data()` to a stream, which is I/O.
- `max_size()`: it is a library constant that does not depend on the view.
- The `std::hash<string_view>` algorithm is a library function. `Sjo.Hash` takes it as
  the parameter `hasher`.
- Iterator objects and raw pointers:
  - Iterators are buffer positions. `Deref` and `RDeref` read through them.
  - `cbegin`/`cend`/`crbegin`/`crend` are the same positions as
    `begin`/`end`/`rbegin`/`rend`.
  - `data()` is the suffix of the buffer from `begin` on.
- Sjo.SharedStringView.RemovePrefix, Sjo.SharedStringView.RemoveSuffix: the code does
  not check its bounds. A too-large argument wraps the `size_t` offsets. The model
  requires the argument to stay within the length, so it does not model that
  wrap-around.
- Sjo.Subseq: the model requires `b + e <= length()`. In the code, the wrap in
  `remove_prefix(b)` and the wrap in `remove_suffix(length() - e)` cancel. So the result
  is always the buffer range `[begin + b, begin + b + e)` modulo 2^64. When
  `b + e > length()` but `begin + b + e` is within the buffer, `subseq` returns a
  well-defined view that reaches past the end of `s`. The model does not cover this
  case.
- StdString.TraitsCompare: returns exactly -1, 0 or +1. The library promises only the
  sign, and `compare` passes its result through unchanged, so the model fixes one value
  for each sign.
- Operations on a view without a buffer, other than the capacity queries, narrowing,
  swap, copy and move construction and assignment, dereference a null pointer in the code. The model requires a
  buffer for them.

## Findings

| source | as written | input that shows it | evidently intended | confidence | as-written member | corrected member |
|---|---|---|---|---|---|---|
| shared-string-view.hh:76 | `at(pos)` checks `begin + pos` against the whole buffer | a view of "ab" with one byte removed from the back: `at(1)` returns 'b' | `at(pos)` fails with out-of-range when `pos >= length()` | high, not executed | Scenarios.AtPastViewEnd | Sjo.SharedStringView.CheckedAt |
| shared-string-view.hh:76 | `at(pos)` adds `pos` to `begin` in `size_t`, so a huge `pos` wraps to a position before the view | a view of "ab" after `remove_prefix(1)`: `at(2^64 - 1)` returns 'a' | `at(pos)` fails with out-of-range for every `pos >= length()` | high, not executed | Scenarios.AtWrapsBeforeView | Sjo.SharedStringView.CheckedAt |
| shared-string-view.hh:131-136 | `subseq(s, b, e)` removes `length() - e` after the prefix is gone, so the result is `content[b..b+e]` | `v` = "abcdef": `subseq(subseq(v,1,5),1,3)` is "cde" and `subseq(v,2,4)` is "cdef" | the sub-range `[b, e)`, which composes as `[b1+b2, b1+e2)` | medium, not executed | Scenarios.SubseqDoesNotCompose | Sjo.SubseqRange |
