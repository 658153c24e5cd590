/** The array idioms the editing forms use to compute a new list from the
    old one: `filter((_, i) => i !== index)`, `filter(keep)`,
    `find(matches)` and `map(x => matches(x) ? y : x)`. Each is written the
    way the array method walks the list, and its contract says what the
    result holds. */
module ListEdits {
  import opened Common

  /** `s.filter((_, i) => i !== index)`: keeps every position but `index`. */
  function RemoveAt<T>(s: seq<T>, index: int): (r: seq<T>)
    decreases |s|
  {
    if s == [] then []
    else (if index == 0 then [] else [s[0]]) + RemoveAt(s[1..], index - 1)
  }

  /** Removing an index drops exactly that position and keeps the others in
      order; an index outside the list leaves it as it was. */
  lemma {:induction false} RemoveAtSpec<T>(s: seq<T>, index: int)
    ensures 0 <= index < |s| ==> RemoveAt(s, index) == s[..index] + s[index + 1..]
    ensures !(0 <= index < |s|) ==> RemoveAt(s, index) == s
    decreases |s|
  {
    if s != [] {
      RemoveAtSpec(s[1..], index - 1);
      if index == 0 {
        assert s[1..] == s[..0] + s[1..];
      } else if 0 < index < |s| {
        assert s[..index] == [s[0]] + s[1..][..index - 1];
        assert s[index + 1..] == s[1..][index..];
      } else {
        assert s == [s[0]] + s[1..];
      }
    }
  }

  /** `s.filter(keep)` */
  function Filter<T>(s: seq<T>, keep: T -> bool): (r: seq<T>)
    ensures |r| <= |s|
    ensures forall x :: x in r ==> x in s && keep(x)
    ensures forall x :: x in s && keep(x) ==> x in r
    ensures (forall x :: x in s ==> keep(x)) ==> r == s
    ensures forall i :: 0 <= i < |s| && keep(s[i]) ==> multiset(r)[s[i]] == multiset(s)[s[i]]
    decreases |s|
  {
    if s == [] then []
    else
      var rest := Filter(s[1..], keep);
      assert s == [s[0]] + s[1..];
      assert forall x :: x in s ==> x == s[0] || x in s[1..];
      if keep(s[0]) then [s[0]] + rest else rest
  }

  /** `sub` can be had from `s` by deleting elements, the rest keeping
      their order. */
  predicate IsSubsequence<T(==)>(sub: seq<T>, s: seq<T>)
    decreases |s|
  {
    if sub == [] then true
    else if s == [] then false
    else if sub[0] == s[0] then IsSubsequence(sub[1..], s[1..])
    else IsSubsequence(sub, s[1..])
  }

  /** A filtered list is a subsequence of the original: same order. */
  lemma {:induction false} FilterIsSubsequence<T>(s: seq<T>, keep: T -> bool)
    ensures IsSubsequence(Filter(s, keep), s)
    decreases |s|
  {
    if s != [] {
      FilterIsSubsequence(s[1..], keep);
      var rest := Filter(s[1..], keep);
      if keep(s[0]) {
        assert ([s[0]] + rest)[1..] == rest;
      } else if rest != [] {
        SubsequenceSkip(rest, s);
      }
    }
  }

  /** A subsequence of the tail is a subsequence of the whole list. */
  lemma {:induction false} SubsequenceSkip<T>(sub: seq<T>, s: seq<T>)
    requires s != []
    requires IsSubsequence(sub, s[1..])
    ensures IsSubsequence(sub, s)
    decreases |s|, 0
  {
    if sub != [] && sub[0] == s[0] {
      if sub[0] == s[1..][0] {
        SubsequenceSkip(sub[1..], s[1..]);
      } else {
        SubsequenceDropHead(sub, s[1..][1..]);
        SubsequenceSkip(sub[1..], s[1..]);
      }
    }
  }

  /** Dropping the first element of a subsequence keeps it a subsequence. */
  lemma {:induction false} SubsequenceDropHead<T>(sub: seq<T>, s: seq<T>)
    requires sub != []
    requires IsSubsequence(sub, s)
    ensures IsSubsequence(sub[1..], s)
    decreases |s|, 1
  {
    if sub[0] == s[0] {
      SubsequenceSkip(sub[1..], s);
    } else {
      SubsequenceDropHead(sub, s[1..]);
      SubsequenceSkip(sub[1..], s);
    }
  }

  /** `s.find(matches)`: the first element that matches, if there is one. */
  function Find<T>(s: seq<T>, matches: T -> bool): (r: Option<T>)
    ensures r.None? <==> forall i :: 0 <= i < |s| ==> !matches(s[i])
    ensures r.Some? ==> exists i :: (0 <= i < |s| && s[i] == r.value && matches(s[i])
                                    && forall j :: 0 <= j < i ==> !matches(s[j]))
    decreases |s|
  {
    if s == [] then None
    else if matches(s[0]) then Some(s[0])
    else
      var r := Find(s[1..], matches);
      assert r.Some? ==> exists i :: (0 <= i < |s| && s[i] == r.value && matches(s[i])
                                      && forall j :: 0 <= j < i ==> !matches(s[j])) by {
        if r.Some? {
          var k :| 0 <= k < |s[1..]| && s[1..][k] == r.value && matches(s[1..][k])
            && forall j :: 0 <= j < k ==> !matches(s[1..][j]);
          assert s[k + 1] == r.value;
          forall j | 0 <= j < k + 1 ensures !matches(s[j]) {
            if j > 0 { assert s[j] == s[1..][j - 1]; }
          }
        }
      }
      r
  }

  /** `s.map(x => matches(x) ? y : x)`: every element that matches is
      replaced by `y`, every other stays, and length and order are kept. */
  function ReplaceWhere<T>(s: seq<T>, matches: T -> bool, y: T): (r: seq<T>)
    ensures |r| == |s|
    ensures forall i :: 0 <= i < |s| ==> r[i] == if matches(s[i]) then y else s[i]
    decreases |s|
  {
    if s == [] then []
    else [if matches(s[0]) then y else s[0]] + ReplaceWhere(s[1..], matches, y)
  }
}
