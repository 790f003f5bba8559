/** The two JavaScript array operations the models use to unlink a child id from its parent's list. */
module JsArray {

  /** `Array.prototype.indexOf`: the first position of `x`, or -1. */
  function IndexOf<T(==)>(s: seq<T>, x: T): (i: int)
    ensures -1 <= i < |s|
    ensures i == -1 <==> x !in s
    ensures 0 <= i ==> s[i] == x && x !in s[..i]
  {
    if |s| == 0 then -1
    else if s[0] == x then 0
    else
      var j := IndexOf(s[1..], x);
      if j == -1 then -1
      else
        assert s[..j + 1] == [s[0]] + s[1..][..j];
        j + 1
  }

  /** `s.splice(start, 1)` on an array `s`: the array left behind. A negative start counts
      from the end and is clamped at 0; a start at or past the end deletes nothing. */
  function SpliceOne<T>(s: seq<T>, start: int): (r: seq<T>)
    ensures 0 <= start < |s| ==> r == s[..start] + s[start + 1..]
    ensures start == -1 && s != [] ==> r == s[..|s| - 1]
    ensures s == [] ==> r == []
  {
    var from :=
      if start < 0 then (if |s| + start < 0 then 0 else |s| + start)
      else if start < |s| then start else |s|;
    if from < |s| then s[..from] + s[from + 1..] else s
  }

  /** `s.splice(s.indexOf(x), 1)`: the first occurrence of `x` is removed; when `x` does not
      occur, indexOf gives -1 and the LAST element is removed instead. */
  function SpliceOut<T(==)>(s: seq<T>, x: T): (r: seq<T>)
    ensures x in s ==> r == s[..IndexOf(s, x)] + s[IndexOf(s, x) + 1..]
    ensures x in s ==> multiset(r) == multiset(s) - multiset{x}
    ensures x !in s ==> r == if s == [] then [] else s[..|s| - 1]
  {
    var i := IndexOf(s, x);
    if 0 <= i then
      assert s == s[..i] + [s[i]] + s[i + 1..];
      SpliceOne(s, i)
    else SpliceOne(s, i)
  }
}
