/**
 Hash chains, keyed or not. A digest is a free term over what it was computed
 from: two digests are equal only when computed from equal inputs, and none
 equals the genesis value.
 */
module Chain {

  type Key = string

  datatype Digest<C> =
    | Genesis
    | Junk(text: string)
    | Seal(key: Key, prev: Digest<C>, content: C)

  datatype Link<C> = Link(prev: Digest<C>, digest: Digest<C>, key: Key, content: C)

  /** The digest the link at position `i` has to follow. */
  function Before<C>(links: seq<Link<C>>, i: nat): Digest<C>
    requires i <= |links|
  {
    if i == 0 then Genesis else links[i - 1].digest
  }

  function Tip<C>(links: seq<Link<C>>): Digest<C> {
    Before(links, |links|)
  }

  predicate LinkFits<C(==)>(l: Link<C>, prev: Digest<C>) {
    l.prev == prev && l.digest == Seal(l.key, l.prev, l.content)
  }

  predicate FitsAt<C(==)>(links: seq<Link<C>>, i: nat)
    requires i < |links|
  {
    LinkFits(links[i], Before(links, i))
  }

  /** Every link follows on from the one before and carries the digest of its own content. */
  ghost predicate Valid<C(!new)>(links: seq<Link<C>>) {
    forall i :: 0 <= i < |links| ==> FitsAt(links, i)
  }

  lemma ValidSnoc<C(!new)>(links: seq<Link<C>>, l: Link<C>)
    ensures Valid(links + [l]) <==> Valid(links) && LinkFits(l, Tip(links))
  {
    var all := links + [l];
    assert FitsAt(all, |links|) <==> LinkFits(l, Tip(links));
    forall i | 0 <= i < |links| ensures FitsAt(all, i) <==> FitsAt(links, i) {}
  }

  lemma ValidPrefix<C(!new)>(links: seq<Link<C>>, n: nat)
    requires n <= |links| && Valid(links)
    ensures Valid(links[..n])
  {
    forall i | 0 <= i < n ensures FitsAt(links[..n], i) {
      assert FitsAt(links, i);
    }
  }

  /** A valid chain comes back to an earlier digest nowhere, so positions with equal predecessors are equal. */
  lemma {:induction false} PositionsDistinct<C(!new)>(links: seq<Link<C>>, i: nat, j: nat)
    requires Valid(links) && i <= |links| && j <= |links| && Before(links, i) == Before(links, j)
    ensures i == j
    decreases i
  {
    if i > 0 {
      assert FitsAt(links, i - 1);
    }
    if j > 0 {
      assert FitsAt(links, j - 1);
    }
    if i > 0 && j > 0 {
      PositionsDistinct(links, i - 1, j - 1);
    }
  }

  /** The elements of `all` at the chosen positions: possibly fewer, repeated, or out of order. */
  function Chosen<T>(all: seq<T>, at: seq<nat>): (s: seq<T>)
    requires forall i :: 0 <= i < |at| ==> at[i] < |all|
    ensures |s| == |at| && forall i :: 0 <= i < |at| ==> s[i] == all[at[i]]
  {
    seq(|at|, i requires 0 <= i < |at| => all[at[i]])
  }

  ghost predicate InPlace(at: seq<nat>) {
    forall i :: 0 <= i < |at| ==> at[i] == i
  }

  /** Deleting, repeating or reordering links of a valid chain goes unnoticed exactly when a prefix is left. */
  lemma RearrangementIsPrefix<C(!new)>(links: seq<Link<C>>, at: seq<nat>)
    requires Valid(links) && forall i :: 0 <= i < |at| ==> at[i] < |links|
    ensures Valid(Chosen(links, at)) <==> InPlace(at)
  {
    var s := Chosen(links, at);
    if Valid(s) {
      for i := 0 to |at|
        invariant forall k :: 0 <= k < i ==> at[k] == k
      {
        PositionForced(links, at, i);
      }
    }
    if InPlace(at) {
      assert s == links[..|at|] by {
        if |at| > 0 {
          assert at[|at| - 1] == |at| - 1;
        }
      }
      ValidPrefix(links, |at|);
    }
  }

  lemma PositionForced<C(!new)>(links: seq<Link<C>>, at: seq<nat>, i: nat)
    requires Valid(links) && i < |at| && forall k :: 0 <= k < |at| ==> at[k] < |links|
    requires Valid(Chosen(links, at)) && forall k :: 0 <= k < i ==> at[k] == k
    ensures at[i] == i
  {
    var s := Chosen(links, at);
    assert i > 0 ==> at[i - 1] == i - 1;
    assert Before(s, i) == Before(links, i);
    assert FitsAt(s, i) && FitsAt(links, at[i]);
    PositionsDistinct(links, at[i], i);
  }

  /** A valid chain is determined by its last digest. */
  lemma EqualTipsEqualChains<C(!new)>(a: seq<Link<C>>, b: seq<Link<C>>)
    requires Valid(a) && Valid(b) && Tip(a) == Tip(b)
    ensures a == b
  {
    EqualBefore(a, b, |a|, |b|);
    assert a[..|a|] == a && b[..|b|] == b;
  }

  lemma {:induction false} EqualBefore<C(!new)>(a: seq<Link<C>>, b: seq<Link<C>>, m: nat, n: nat)
    requires Valid(a) && Valid(b) && m <= |a| && n <= |b| && Before(a, m) == Before(b, n)
    ensures m == n && a[..m] == b[..n]
    decreases m
  {
    if m > 0 {
      assert FitsAt(a, m - 1);
    }
    if n > 0 {
      assert FitsAt(b, n - 1);
    }
    if m > 0 && n > 0 {
      EqualBefore(a, b, m - 1, n - 1);
      assert a[..m] == a[..m - 1] + [a[m - 1]] && b[..n] == b[..n - 1] + [b[n - 1]];
    }
  }

  /** Removing any link but the last one is noticed. */
  lemma DeletionNoticed<C(!new)>(links: seq<Link<C>>, i: nat)
    requires Valid(links) && i < |links|
    ensures Valid(links[..i] + links[i + 1..]) <==> i == |links| - 1
  {
    var n := |links| - 1;
    var at: seq<nat> := seq(n, k requires 0 <= k < n => if k < i then k else k + 1);
    RearrangementIsPrefix(links, at);
    assert Chosen(links, at) == links[..i] + links[i + 1..];
    if i < n {
      assert at[i] == i + 1;
    }
  }
}
