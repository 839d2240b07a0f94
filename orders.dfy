/** Facts about sequences ordered by a total preorder, independent of what
    is being ordered. */
module Orders {

  ghost predicate TotalPreorder<T(!new)>(le: (T, T) -> bool) {
    && (forall x, y :: le(x, y) || le(y, x))
    && (forall x, y, z :: le(x, y) && le(y, z) ==> le(x, z))
  }

  ghost predicate SortedBy<T>(le: (T, T) -> bool, s: seq<T>) {
    forall i, j :: 0 <= i < j < |s| ==> le(s[i], s[j])
  }

  lemma SortedTail<T>(le: (T, T) -> bool, s: seq<T>)
    requires SortedBy(le, s) && s != []
    ensures SortedBy(le, s[1..])
  {
    var s' := s[1..];
    forall x, y | 0 <= x < y < |s'| ensures le(s'[x], s'[y]) {
      assert s'[x] == s[x + 1] && s'[y] == s[y + 1];
    }
  }

  lemma SortedWithout<T>(le: (T, T) -> bool, t: seq<T>, b: int)
    requires SortedBy(le, t) && 0 <= b < |t|
    ensures SortedBy(le, t[..b] + t[b + 1..])
  {
    var t' := t[..b] + t[b + 1..];
    forall x, y | 0 <= x < y < |t'| ensures le(t'[x], t'[y]) {
      var x' := if x < b then x else x + 1;
      var y' := if y < b then y else y + 1;
      assert t'[x] == t[x'] && t'[y] == t[y'];
    }
  }

  lemma MultisetWithout<T>(s: seq<T>, t: seq<T>, b: int)
    requires multiset(s) == multiset(t) && 0 <= b < |t| && s != [] && t[b] == s[0]
    ensures multiset(s[1..]) == multiset(t[..b] + t[b + 1..])
  {
    assert t == t[..b] + [t[b]] + t[b + 1..];
    assert s == [s[0]] + s[1..];
    assert multiset(s[1..]) == multiset(s) - multiset{s[0]};
    assert multiset(t[..b] + t[b + 1..]) == multiset(t) - multiset{s[0]};
  }

  /** The first element of one ordering is tied with every element of the
      other up to the place where it stands there. */
  lemma FrontTied<T(!new)>(le: (T, T) -> bool, s: seq<T>, t: seq<T>, b: int)
    requires TotalPreorder(le)
    requires SortedBy(le, s) && SortedBy(le, t) && multiset(s) == multiset(t)
    requires 0 <= b < |t| && s != [] && t[b] == s[0]
    ensures forall k :: 0 <= k <= b ==> le(t[k], s[0]) && le(s[0], t[k])
  {
    assert t[0] in multiset(s);
    var a :| 0 <= a < |s| && s[a] == t[0];
    assert le(s[0], t[0]) by { if a > 0 { assert le(s[0], s[a]); } }
    forall k | 0 <= k <= b ensures le(t[k], s[0]) && le(s[0], t[k]) {
      if k > 0 { assert le(t[0], t[k]); }
      if k < b { assert le(t[k], t[b]); }
    }
  }

  /** Two orderings of the same elements by the same total preorder agree
      position by position up to ties. */
  lemma {:induction false} SortedUpToTies<T(!new)>(le: (T, T) -> bool, s: seq<T>, t: seq<T>, i: int)
    requires TotalPreorder(le)
    requires SortedBy(le, s) && SortedBy(le, t) && multiset(s) == multiset(t)
    requires 0 <= i < |s|
    ensures |t| == |s|
    ensures le(s[i], t[i]) && le(t[i], s[i])
    decreases |s|
  {
    assert |t| == |multiset(t)| == |multiset(s)| == |s|;
    assert s[0] in multiset(t);
    var b :| 0 <= b < |t| && t[b] == s[0];
    FrontTied(le, s, t, b);
    if i > 0 {
      var t' := t[..b] + t[b + 1..];
      MultisetWithout(s, t, b);
      SortedTail(le, s);
      SortedWithout(le, t, b);
      SortedUpToTies(le, s[1..], t', i - 1);
      assert s[1..][i - 1] == s[i];
      if i <= b {
        assert t'[i - 1] == t[i - 1];
      } else {
        assert t'[i - 1] == t[i];
      }
    }
  }
}
