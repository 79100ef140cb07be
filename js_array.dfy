/**
 * The three built-in JavaScript array operations the shop scripts rely on,
 * restricted to the arguments the scripts pass: `slice(start, end)` and
 * `splice(index, 1)` with non-negative indices, and `flat()` on an array of arrays.
 */
module JsArray {

  function Min(a: int, b: int): int { if a <= b then a else b }

  /**
   * `s.slice(start, end)`: the elements at indices `start` up to, but not
   * including, `end`, with `end` clipped to the length. An empty window,
   * or a window that starts at or past the end, gives the empty array.
   */
  function Slice<T>(s: seq<T>, start: nat, end: nat): (r: seq<T>)
    ensures |r| == if start < end && start < |s| then Min(end, |s|) - start else 0
    ensures forall k :: 0 <= k < |r| ==> r[k] == s[start + k]
  {
    if start < end && start < |s| then s[start..Min(end, |s|)] else []
  }

  /**
   * `s.splice(index, 1)` for its effect on `s`: the element at `index` is
   * removed and the later ones move down by one; an index past the end
   * removes nothing.
   */
  function SpliceOne<T>(s: seq<T>, index: nat): (r: seq<T>)
    ensures index < |s| ==> |r| == |s| - 1
    ensures index < |s| ==> forall k :: 0 <= k < index ==> r[k] == s[k]
    ensures index < |s| ==> forall k :: index <= k < |r| ==> r[k] == s[k + 1]
    ensures index >= |s| ==> r == s
  {
    if index < |s| then s[..index] + s[index + 1..] else s
  }

  /** Removing one element takes exactly that element out of the bag of elements. */
  lemma SpliceOneMultiset<T>(s: seq<T>, index: nat)
    requires index < |s|
    ensures multiset(SpliceOne(s, index)) + multiset{s[index]} == multiset(s)
  {
    assert s == s[..index] + [s[index]] + s[index + 1..];
  }

  /** `xss.flat()`: the arrays of `xss`, concatenated in order. */
  function Flat<T>(xss: seq<seq<T>>): seq<T>
  {
    if xss == [] then [] else xss[0] + Flat(xss[1..])
  }

  /** Flattening distributes over concatenation of the outer array. */
  lemma {:induction false} FlatAppend<T>(a: seq<seq<T>>, b: seq<seq<T>>)
    ensures Flat(a + b) == Flat(a) + Flat(b)
  {
    if a == [] {
      assert a + b == b;
    } else {
      assert (a + b)[1..] == a[1..] + b;
      FlatAppend(a[1..], b);
    }
  }

  /** Position in `Flat(xss)` at which the elements of `xss[c]` begin. */
  function Offset<T>(xss: seq<seq<T>>, c: nat): nat
    requires c <= |xss|
  {
    |Flat(xss[..c])|
  }

  /**
   * The inner arrays are laid out back to back in their own order: `xss[c]`
   * occupies the window of `Flat(xss)` starting at `Offset(xss, c)`, and the
   * next array starts right after it.
   */
  lemma FlatLayout<T>(xss: seq<seq<T>>, c: nat)
    requires c < |xss|
    ensures Offset(xss, c + 1) == Offset(xss, c) + |xss[c]|
    ensures Offset(xss, c) + |xss[c]| <= |Flat(xss)|
    ensures Flat(xss)[Offset(xss, c)..Offset(xss, c) + |xss[c]|] == xss[c]
  {
    assert xss[..c + 1] == xss[..c] + [xss[c]];
    FlatAppend(xss[..c], [xss[c]]);
    assert Flat([xss[c]]) == xss[c] by {
      assert [xss[c]][1..] == [];
    }
    assert xss == xss[..c + 1] + xss[c + 1..];
    FlatAppend(xss[..c + 1], xss[c + 1..]);
  }

  /** The whole array of `xss` has offset `|Flat(xss)|`, so nothing comes after the last inner array. */
  lemma FlatEnd<T>(xss: seq<seq<T>>)
    ensures Offset(xss, |xss|) == |Flat(xss)|
  {
    assert xss[..|xss|] == xss;
  }

  /** An element is in the flattened array exactly when it is in one of the inner arrays. */
  lemma {:induction false} FlatMembers<T>(xss: seq<seq<T>>, x: T)
    ensures x in Flat(xss) <==> exists c :: 0 <= c < |xss| && x in xss[c]
  {
    if xss != [] {
      FlatMembers(xss[1..], x);
      if x in Flat(xss[1..]) {
        var c :| 0 <= c < |xss[1..]| && x in xss[1..][c];
        assert x in xss[c + 1];
      }
      if exists c :: 0 <= c < |xss| && x in xss[c] {
        var c :| 0 <= c < |xss| && x in xss[c];
        if c > 0 {
          assert x in xss[1..][c - 1];
        }
      }
    }
  }
}
