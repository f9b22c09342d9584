/** Strings as UTF-8: characters with byte widths, byte offsets, and slices that exist only between
    character boundaries. Lowercasing and character classes are tables of the standard library, so
    they are parameters here. */
module CharText {

  /** `lower` may yield several characters, as `char::to_lowercase` does. */
  datatype Tables = Tables(lower: char -> seq<char>, isWord: char -> bool, isSpace: char -> bool)

  /** `char::len_utf8`. */
  function Width(c: char): nat
  {
    if c as int < 0x80 then 1 else if c as int < 0x800 then 2 else if c as int < 0x10000 then 3 else 4
  }

  /** The byte offset of character `i`. */
  function Offset(s: string, i: nat): nat
    requires i <= |s|
  {
    if i == 0 then 0 else Offset(s, i - 1) + Width(s[i - 1])
  }

  /** `str::len`, in bytes. */
  function ByteLen(s: string): nat
  {
    Offset(s, |s|)
  }

  ghost predicate IsBoundary(s: string, b: nat)
  {
    exists i :: 0 <= i <= |s| && Offset(s, i) == b
  }

  lemma {:induction false} OffsetsIncrease(s: string, i: nat, j: nat)
    requires i < j <= |s|
    ensures Offset(s, i) < Offset(s, j)
  {
    if i < j - 1 { OffsetsIncrease(s, i, j - 1); }
  }

  /** Only the characters in between count: a common stretch has the same byte length. */
  lemma {:induction false} StretchOffset(a: string, i: nat, b: string, k: nat)
    requires i + k <= |a| && k <= |b| && forall x :: 0 <= x < k ==> a[i + x] == b[x]
    ensures Offset(a, i + k) == Offset(a, i) + Offset(b, k)
  {
    if k == 0 {
    } else {
      StretchOffset(a, i, b, k - 1);
    }
  }

  /** The character that starts at a boundary offset, counted from `from`. */
  function IndexFrom(s: string, b: nat, from: nat): (i: nat)
    requires from <= |s| && IsBoundary(s, b) && Offset(s, from) <= b
    ensures i <= |s| && Offset(s, i) == b
    decreases |s| - from
  {
    if Offset(s, from) == b then from
    else
      assert from < |s| by {
        var j :| 0 <= j <= |s| && Offset(s, j) == b;
        if j < from { OffsetsIncrease(s, j, from); }
      }
      assert Offset(s, from + 1) <= b by {
        var j :| 0 <= j <= |s| && Offset(s, j) == b;
        if j < from { OffsetsIncrease(s, j, from); }
        if from + 1 < j { OffsetsIncrease(s, from + 1, j); }
      }
      IndexFrom(s, b, from + 1)
  }

  function Index(s: string, b: nat): (i: nat)
    requires IsBoundary(s, b)
    ensures i <= |s| && Offset(s, i) == b
  {
    IndexFrom(s, b, 0)
  }

  lemma IndexOfOffset(s: string, i: nat)
    requires i <= |s|
    ensures IsBoundary(s, Offset(s, i)) && Index(s, Offset(s, i)) == i
  {
    var j := Index(s, Offset(s, i));
    if j < i { OffsetsIncrease(s, j, i); }
    if i < j { OffsetsIncrease(s, i, j); }
  }

  /** `&s[a..b]`: panics in the source unless both ends are character boundaries. */
  function Slice(s: string, a: nat, b: nat): string
    requires IsBoundary(s, a) && IsBoundary(s, b) && Index(s, a) <= Index(s, b)
  {
    s[Index(s, a)..Index(s, b)]
  }

  lemma SliceAt(s: string, i: nat, j: nat)
    requires i <= j <= |s|
    ensures IsBoundary(s, Offset(s, i)) && IsBoundary(s, Offset(s, j))
    ensures Index(s, Offset(s, i)) == i && Index(s, Offset(s, j)) == j
    ensures Slice(s, Offset(s, i), Offset(s, j)) == s[i..j]
  {
    IndexOfOffset(s, i);
    IndexOfOffset(s, j);
  }

  // ----- lowercasing -----

  /** The lowercase of the first `i` characters, each mapped on its own. */
  function LowerTo(t: Tables, s: string, i: nat): string
    requires i <= |s|
  {
    if i == 0 then "" else LowerTo(t, s, i - 1) + t.lower(s[i - 1])
  }

  /** `str::to_lowercase`. */
  function Lower(t: Tables, s: string): string
  {
    LowerTo(t, s, |s|)
  }

  predicate AlignedChar(t: Tables, c: char)
  {
    |t.lower(c)| == 1 && Width(t.lower(c)[0]) == Width(c)
  }

  /** `is_lowercase_byte_aligned`: every character lowers to one of the same width. */
  predicate Aligned(t: Tables, s: string)
  {
    forall i :: 0 <= i < |s| ==> AlignedChar(t, s[i])
  }

  lemma {:induction false} LowerToAligned(t: Tables, s: string, n: nat)
    requires Aligned(t, s) && n <= |s|
    ensures |LowerTo(t, s, n)| == n
    ensures forall i :: 0 <= i < n ==> LowerTo(t, s, n)[i] == t.lower(s[i])[0]
  {
    if n == 0 {
    } else {
      LowerToAligned(t, s, n - 1);
      assert AlignedChar(t, s[n - 1]);
    }
  }

  /** On aligned text the lowercase copy holds the lowered characters one for one. */
  lemma AlignedAt(t: Tables, s: string)
    requires Aligned(t, s)
    ensures |Lower(t, s)| == |s|
    ensures forall i :: 0 <= i < |s| ==> Lower(t, s)[i] == t.lower(s[i])[0]
  {
    LowerToAligned(t, s, |s|);
  }

  /** ... and each at the byte offset of its original. */
  lemma {:induction false} AlignedOffsets(t: Tables, s: string, i: nat)
    requires Aligned(t, s) && i <= |s|
    ensures |Lower(t, s)| == |s| && Offset(Lower(t, s), i) == Offset(s, i)
  {
    AlignedAt(t, s);
    if i == 0 {
    } else {
      AlignedOffsets(t, s, i - 1);
      assert AlignedChar(t, s[i - 1]);
    }
  }

  // ----- trimming and keys -----

  function TrimStart(t: Tables, s: string): string
  {
    if s != "" && t.isSpace(s[0]) then TrimStart(t, s[1..]) else s
  }

  function TrimEnd(t: Tables, s: string): string
  {
    if s != "" && t.isSpace(s[|s| - 1]) then TrimEnd(t, s[..|s| - 1]) else s
  }

  function Trim(t: Tables, s: string): string
  {
    TrimEnd(t, TrimStart(t, s))
  }

  /** `normalize_entity_key`. */
  function EntityKey(t: Tables, name: string): string
  {
    Lower(t, Trim(t, name))
  }
}
