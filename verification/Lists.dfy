/** Sequences as lists: insertion and removal at a position, and what they leave in place. */
module Lists {

  ghost predicate Distinct<N>(s: seq<N>) {
    forall i, j | 0 <= i < j < |s| :: s[i] != s[j]
  }

  function InsertAt<N>(s: seq<N>, k: nat, n: N): (r: seq<N>)
    requires k <= |s|
  {
    s[..k] + [n] + s[k..]
  }

  function DeleteAt<N>(s: seq<N>, k: nat): (r: seq<N>)
    requires k < |s|
  {
    s[..k] + s[k + 1..]
  }

  /** The first position of `x`, or the length of the list. */
  function IndexOf<N(==)>(s: seq<N>, x: N): (k: nat)
    ensures k <= |s| && (k < |s| <==> x in s) && (k < |s| ==> s[k] == x)
    ensures forall j | 0 <= j < k :: s[j] != x
  {
    if s == [] || s[0] == x then 0 else
    assert s == [s[0]] + s[1..];
    1 + IndexOf(s[1..], x)
  }

  function Without<N(==)>(s: seq<N>, x: N): (r: seq<N>) {
    if x in s then DeleteAt(s, IndexOf(s, x)) else s
  }

  lemma InsertAtIndex<N>(s: seq<N>, k: nat, n: N)
    requires k <= |s|
    ensures |InsertAt(s, k, n)| == |s| + 1
    ensures forall i | 0 <= i <= |s| :: InsertAt(s, k, n)[i] == if i < k then s[i] else if i == k then n else s[i - 1]
  {
  }

  lemma DeleteAtIndex<N>(s: seq<N>, k: nat)
    requires k < |s|
    ensures |DeleteAt(s, k)| == |s| - 1
    ensures forall i | 0 <= i < |s| - 1 :: DeleteAt(s, k)[i] == if i < k then s[i] else s[i + 1]
  {
  }

  lemma InsertIn<N>(s: seq<N>, k: nat, n: N)
    requires k <= |s|
    ensures forall x :: x in InsertAt(s, k, n) <==> x in s || x == n
  {
    assert s == s[..k] + s[k..];
  }

  lemma InsertDistinct<N>(s: seq<N>, k: nat, n: N)
    requires k <= |s| && Distinct(s) && n !in s
    ensures Distinct(InsertAt(s, k, n))
  {
    InsertAtIndex(s, k, n);
  }

  lemma DeleteIn<N>(s: seq<N>, k: nat)
    requires k < |s| && Distinct(s)
    ensures forall x :: x in DeleteAt(s, k) <==> x in s && x != s[k]
    ensures Distinct(DeleteAt(s, k))
  {
    DeleteAtIndex(s, k);
    forall x ensures x in DeleteAt(s, k) <==> x in s && x != s[k] {
      if x in s && x != s[k] {
        var i :| 0 <= i < |s| && s[i] == x;
        assert DeleteAt(s, k)[if i < k then i else i - 1] == x;
      }
    }
  }

  lemma DeleteParts<N>(s: seq<N>, k: nat)
    requires k < |s| && Distinct(s)
    ensures var r := DeleteAt(s, k);
            && r[k..] == s[k + 1..] && (forall j | 0 <= j < k :: r[j] == s[j])
            && s[k] !in s[k + 1..] && s[k..] == [s[k]] + s[k + 1..]
  {
    DeleteAtIndex(s, k);
    forall j | k < j < |s| ensures s[j] != s[k] {}
  }

  lemma WithoutIn<N>(s: seq<N>, n: N)
    requires Distinct(s)
    ensures forall x :: x in Without(s, n) <==> x in s && x != n
    ensures Distinct(Without(s, n))
  {
    if n in s {
      DeleteIn(s, IndexOf(s, n));
    }
  }

  lemma TailIn<N>(s: seq<N>)
    requires Distinct(s) && s != []
    ensures Distinct(s[1..]) && forall x :: x in s[1..] <==> x in s && x != s[0]
  {
    assert s == [s[0]] + s[1..];
  }

  lemma AppendIn<N>(s: seq<N>, n: N)
    requires Distinct(s) && n !in s
    ensures Distinct(s + [n]) && forall x :: x in s + [n] <==> x in s || x == n
  {
  }

  lemma ConsIn<N>(s: seq<N>, n: N)
    requires Distinct(s) && n !in s
    ensures Distinct([n] + s) && forall x :: x in [n] + s <==> x in s || x == n
  {
  }
}
