/**
 * The JavaScript `Array.prototype` operations the dashboard relies on
 * (`filter`, `map`, `join`, `splice`), as functions on sequences.
 */
module Arrays {
  import opened Wrappers

  /** `s.filter(p)`: the elements satisfying `p`, in their original order. */
  function Filter<T>(s: seq<T>, p: T -> bool): (r: seq<T>)
    ensures |r| <= |s|
    ensures forall i :: 0 <= i < |r| ==> p(r[i]) && r[i] in s
    ensures forall i :: 0 <= i < |s| && p(s[i]) ==> s[i] in r
  {
    if s == [] then []
    else if p(s[0]) then [s[0]] + Filter(s[1..], p)
    else Filter(s[1..], p)
  }

  /** Filtering a concatenation filters each part: `filter` keeps order and multiplicity. */
  lemma {:induction false} FilterAppend<T>(s: seq<T>, t: seq<T>, p: T -> bool)
    ensures Filter(s + t, p) == Filter(s, p) + Filter(t, p)
  {
    if s != [] {
      assert (s + t)[0] == s[0];
      assert (s + t)[1..] == s[1..] + t;
      FilterAppend(s[1..], t, p);
    } else {
      assert s + t == t;
    }
  }

  /** `filter` on no element or one element: with `FilterAppend` this fixes `filter` on every array. */
  lemma FilterSingleton<T>(x: T, p: T -> bool)
    ensures Filter([], p) == []
    ensures Filter([x], p) == if p(x) then [x] else []
  {
    assert [x][1..] == [];
  }

  /** `s.map(f)`. */
  function Map<T, U>(s: seq<T>, f: T -> U): (r: seq<U>)
    ensures |r| == |s|
    ensures forall i :: 0 <= i < |s| ==> r[i] == f(s[i])
  {
    seq(|s|, i requires 0 <= i < |s| => f(s[i]))
  }

  /** `ws.join(sep)`: the pieces with `sep` between neighbours; `[].join(sep)` is "". */
  function Join(ws: seq<string>, sep: string): string
  {
    if ws == [] then ""
    else if |ws| == 1 then ws[0]
    else ws[0] + sep + Join(ws[1..], sep)
  }

  /**
   * What `join` puts where: nothing for no pieces, the first piece at the
   * front and the last piece at the back.
   */
  lemma {:induction false} JoinEnds(ws: seq<string>, sep: string)
    ensures ws == [] ==> Join(ws, sep) == ""
    ensures ws != [] ==> ws[0] <= Join(ws, sep)
    ensures ws != [] ==> |ws[|ws| - 1]| <= |Join(ws, sep)|
    ensures ws != [] ==> Join(ws, sep)[|Join(ws, sep)| - |ws[|ws| - 1]|..] == ws[|ws| - 1]
  {
    if |ws| >= 2 {
      JoinEnds(ws[1..], sep);
      var rest := Join(ws[1..], sep);
      var last := ws[|ws| - 1];
      assert ws[1..][|ws[1..]| - 1] == last;
      assert Join(ws, sep) == ws[0] + sep + rest;
      assert (ws[0] + sep + rest)[|ws[0] + sep + rest| - |last|..] == rest[|rest| - |last|..];
    }
  }

  /** Joining with the empty separator is plain concatenation. */
  lemma {:induction false} JoinEmptyIsConcat(ws: seq<string>)
    ensures ws != [] ==> Join(ws, "") == ws[0] + Join(ws[1..], "")
  {
    if |ws| == 1 {
      assert ws[1..] == [];
    }
  }

  /**
   * Where `splice(start, ...)` begins: a negative `start` counts back from the end
   * and is clipped at 0, a positive one is clipped at the length.
   */
  function SpliceStart(len: nat, start: int): (k: nat)
    ensures k <= len
    ensures 0 <= start <= len ==> k == start
    ensures start < 0 && 0 <= len + start ==> k == len + start
    ensures start > len ==> k == len
    ensures start < 0 && len + start < 0 ==> k == 0
  {
    if start < 0 then (if len + start < 0 then 0 else len + start)
    else if start > len then len
    else start
  }

  /**
   * The array left behind by `s.splice(start, deleteCount)`, or by `s.splice(start)`
   * when `deleteCount` is None (then everything from `start` on is removed).
   * A negative count removes nothing; a count past the end stops at the end.
   */
  function Splice<T>(s: seq<T>, start: int, deleteCount: Option<int>): (r: seq<T>)
    ensures SpliceStart(|s|, start) <= |r| <= |s|
    ensures forall i :: 0 <= i < SpliceStart(|s|, start) ==> r[i] == s[i]
    ensures forall i :: SpliceStart(|s|, start) <= i < |r| ==> r[i] == s[i + |s| - |r|]
    ensures deleteCount.None? ==> |r| == SpliceStart(|s|, start)
    ensures deleteCount.Some? && deleteCount.value < 0 ==> r == s
    ensures deleteCount.Some? && 0 <= deleteCount.value <= |s| - SpliceStart(|s|, start) ==>
      |r| == |s| - deleteCount.value
    ensures deleteCount.Some? && deleteCount.value > |s| - SpliceStart(|s|, start) ==>
      |r| == SpliceStart(|s|, start)
  {
    var k := SpliceStart(|s|, start);
    var n := match deleteCount
      case None => |s| - k
      case Some(c) => if c < 0 then 0 else if c > |s| - k then |s| - k else c;
    s[..k] + s[k + n..]
  }

  /** Splicing only ever removes elements. */
  lemma SpliceKeepsOnlyElements<T>(s: seq<T>, start: int, deleteCount: Option<int>)
    ensures forall x :: x in Splice(s, start, deleteCount) ==> x in s
  {
    var k := SpliceStart(|s|, start);
    var r := Splice(s, start, deleteCount);
    assert r == s[..k] + s[k + |s| - |r|..];
  }

  /** Splicing one element out at a valid index removes exactly that element. */
  lemma SpliceOneAt<T>(s: seq<T>, k: int)
    requires 0 <= k < |s|
    ensures Splice(s, k, Some(1)) == s[..k] + s[k + 1..]
    ensures |Splice(s, k, Some(1))| == |s| - 1
    ensures forall i :: 0 <= i < k ==> Splice(s, k, Some(1))[i] == s[i]
    ensures forall i :: k <= i < |s| - 1 ==> Splice(s, k, Some(1))[i] == s[i + 1]
  {
  }

  /** `splice(-1, 1)` removes the last element of a non-empty array and nothing from an empty one. */
  lemma SpliceMinusOne<T>(s: seq<T>)
    ensures s != [] ==> Splice(s, -1, Some(1)) == s[..|s| - 1]
    ensures s == [] ==> Splice(s, -1, Some(1)) == []
  {
  }

  /**
   * `splice(k, 1)` with an index `findIndex` can return: the element at a
   * found index is removed, and -1 removes the last element.
   */
  lemma SpliceFound<T>(s: seq<T>, k: int)
    requires -1 <= k < |s|
    ensures k != -1 ==> |Splice(s, k, Some(1))| == |s| - 1 && Splice(s, k, Some(1)) == s[..k] + s[k + 1..]
    ensures k == -1 ==> Splice(s, k, Some(1)) == if s == [] then [] else s[..|s| - 1]
  {
    if k == -1 {
      SpliceMinusOne(s);
    } else {
      SpliceOneAt(s, k);
    }
  }
}
