/** Keyed, hash-chained, append-only ledgers and the key provider they are verified against. */
module Ledger {
  import opened Prelude
  import Chain

  type KeyId = string
  type Keys = map<KeyId, Chain.Key>

  datatype Row<C> = Row(prevMac: Chain.Digest<C>, mac: Option<Chain.Digest<C>>, keyId: Option<KeyId>, content: C)

  /** The stored code of a row was computed over these parts under a key the provider still knows. */
  predicate MacVerifies<C(==)>(keys: Keys, mac: Option<Chain.Digest<C>>, keyId: Option<KeyId>, prev: Chain.Digest<C>, content: C) {
    && mac.Some? && keyId.Some?
    && keyId.value in keys
    && mac.value == Chain.Seal(keys[keyId.value], prev, content)
  }

  function LinkOf<C(==)>(keys: Keys, r: Row<C>): Chain.Link<C> {
    if r.mac.Some? && r.keyId.Some? && r.keyId.value in keys then
      Chain.Link(r.prevMac, r.mac.value, keys[r.keyId.value], r.content)
    else
      Chain.Link(r.prevMac, Chain.Junk(""), "", r.content)
  }

  function LinksOf<C(==)>(keys: Keys, rows: seq<Row<C>>): (links: seq<Chain.Link<C>>)
    ensures |links| == |rows| && forall i :: 0 <= i < |rows| ==> links[i] == LinkOf(keys, rows[i])
  {
    seq(|rows|, i requires 0 <= i < |rows| => LinkOf(keys, rows[i]))
  }

  /** The whole chain verifies under `keys`. */
  ghost predicate Verified<C(!new)>(keys: Keys, rows: seq<Row<C>>) {
    Chain.Valid(LinksOf(keys, rows))
  }

  /** The code the next row has to follow; a row without a code leaves nothing to follow. */
  function TipMac<C>(rows: seq<Row<C>>): Option<Chain.Digest<C>> {
    if rows == [] then Some(Chain.Genesis) else rows[|rows| - 1].mac
  }

  function Appended<C(==)>(keys: Keys, current: KeyId, rows: seq<Row<C>>, content: C): seq<Row<C>>
    requires current in keys && TipMac(rows).Some?
  {
    var prev := TipMac(rows).value;
    rows + [Row(prev, Some(Chain.Seal(keys[current], prev, content)), Some(current), content)]
  }

  lemma VerifiedRow<C(!new)>(keys: Keys, rows: seq<Row<C>>, i: nat)
    requires Verified(keys, rows) && i < |rows|
    ensures MacVerifies(keys, rows[i].mac, rows[i].keyId, rows[i].prevMac, rows[i].content)
    ensures rows[i].mac == Some(LinksOf(keys, rows)[i].digest)
    ensures LinksOf(keys, rows)[i].key == keys[rows[i].keyId.value]
  {
    assert Chain.FitsAt(LinksOf(keys, rows), i);
  }

  lemma TipOfVerified<C(!new)>(keys: Keys, rows: seq<Row<C>>)
    requires Verified(keys, rows)
    ensures TipMac(rows) == Some(Chain.Tip(LinksOf(keys, rows)))
  {
    if rows != [] {
      VerifiedRow(keys, rows, |rows| - 1);
    }
  }

  lemma AppendStaysVerified<C(!new)>(keys: Keys, current: KeyId, rows: seq<Row<C>>, content: C)
    requires Verified(keys, rows) && current in keys
    ensures TipMac(rows).Some? && Verified(keys, Appended(keys, current, rows, content))
  {
    TipOfVerified(keys, rows);
    var longer := Appended(keys, current, rows, content);
    assert LinksOf(keys, longer) == LinksOf(keys, rows) + [LinkOf(keys, longer[|rows|])];
    Chain.ValidSnoc(LinksOf(keys, rows), LinkOf(keys, longer[|rows|]));
  }

  // ---- what deletion, reordering and truncation look like ----

  /**
   Any selection of the rows of a verified ledger, in any order and with any
   repetition, verifies exactly when it is a prefix: every deletion of an entry
   that is not the tip is caught, truncation at the tip is not.
   */
  lemma SelectionVerifiesExactlyAsPrefix<C(!new)>(keys: Keys, rows: seq<Row<C>>, at: seq<nat>)
    requires Verified(keys, rows) && forall i :: 0 <= i < |at| ==> at[i] < |rows|
    ensures Verified(keys, Chain.Chosen(rows, at)) <==> Chain.InPlace(at)
  {
    assert LinksOf(keys, Chain.Chosen(rows, at)) == Chain.Chosen(LinksOf(keys, rows), at);
    Chain.RearrangementIsPrefix(LinksOf(keys, rows), at);
  }

  lemma DeletionCaught<C(!new)>(keys: Keys, rows: seq<Row<C>>, i: nat)
    requires Verified(keys, rows) && i < |rows|
    ensures Verified(keys, rows[..i] + rows[i + 1..]) <==> i == |rows| - 1
  {
    var links := LinksOf(keys, rows);
    assert LinksOf(keys, rows[..i] + rows[i + 1..]) == links[..i] + links[i + 1..];
    Chain.DeletionNoticed(links, i);
  }

  // ---- equal tips ----

  ghost predicate DistinctKeys(keys: Keys) {
    forall a, b :: a in keys && b in keys && keys[a] == keys[b] ==> a == b
  }

  /** Verified ledgers with the same tip agree on everything but, possibly, the names of their keys. */
  lemma EqualTipsAgree<C(!new)>(keys: Keys, a: seq<Row<C>>, b: seq<Row<C>>)
    requires Verified(keys, a) && Verified(keys, b) && TipMac(a) == TipMac(b)
    ensures |a| == |b|
    ensures forall i :: 0 <= i < |a| ==> a[i].(keyId := None) == b[i].(keyId := None)
    ensures DistinctKeys(keys) ==> a == b
  {
    TipOfVerified(keys, a);
    TipOfVerified(keys, b);
    Chain.EqualTipsEqualChains(LinksOf(keys, a), LinksOf(keys, b));
    assert |a| == |LinksOf(keys, a)| == |LinksOf(keys, b)| == |b|;
    forall i | 0 <= i < |a|
      ensures a[i].(keyId := None) == b[i].(keyId := None)
      ensures DistinctKeys(keys) ==> a[i] == b[i]
    {
      VerifiedRow(keys, a, i);
      VerifiedRow(keys, b, i);
    }
  }

  /** The key id is not part of a code: equal tips mean equal ledgers exactly when no two ids share a key. */
  lemma EqualTipsEqualLedgersExactly<C(!new)>(keys: Keys, c: C)
    ensures DistinctKeys(keys)
       <==> forall a: seq<Row<C>>, b: seq<Row<C>> ::
              Verified(keys, a) && Verified(keys, b) && TipMac(a) == TipMac(b) ==> a == b
  {
    if DistinctKeys(keys) {
      forall a: seq<Row<C>>, b: seq<Row<C>> | Verified(keys, a) && Verified(keys, b) && TipMac(a) == TipMac(b)
        ensures a == b
      {
        EqualTipsAgree(keys, a, b);
      }
    } else {
      var x, y :| x in keys && y in keys && keys[x] == keys[y] && x != y;
      var none: seq<Row<C>> := [];
      var a, b := Appended(keys, x, none, c), Appended(keys, y, none, c);
      AppendStaysVerified(keys, x, none, c);
      AppendStaysVerified(keys, y, none, c);
      assert TipMac(a) == TipMac(b) && a[0].keyId != b[0].keyId;
    }
  }

  // ---- rotation ----

  /** Rotation keeps a ledger verifying exactly when it does not rebind an id the ledger was written under. */
  lemma RotationKeepsVerifyingExactly<C(!new)>(keys: Keys, rows: seq<Row<C>>, id: KeyId, key: Chain.Key)
    requires Verified(keys, rows)
    ensures Verified(keys[id := key], rows)
       <==> (id in keys && keys[id] != key ==> forall i :: 0 <= i < |rows| ==> rows[i].keyId != Some(id))
  {
    var rotated := keys[id := key];
    if id in keys && keys[id] != key && exists i :: 0 <= i < |rows| && rows[i].keyId == Some(id) {
      var i :| 0 <= i < |rows| && rows[i].keyId == Some(id);
      VerifiedRow(keys, rows, i);
      assert !Chain.FitsAt(LinksOf(rotated, rows), i);
    } else {
      forall i | 0 <= i < |rows| ensures LinkOf(rotated, rows[i]) == LinkOf(keys, rows[i]) {
        VerifiedRow(keys, rows, i);
      }
      assert LinksOf(rotated, rows) == LinksOf(keys, rows);
    }
  }

  // ---- the provider and the table ----

  class InMemoryKeyProvider {
    var currentId: KeyId
    var keys: Keys

    ghost predicate Valid()
      reads this
    {
      currentId in keys
    }

    constructor (keyId: KeyId, key: Chain.Key)
      ensures Valid() && currentId == keyId && keys == map[keyId := key]
    {
      currentId, keys := keyId, map[keyId := key];
    }

    method Current() returns (id: KeyId, key: Chain.Key)
      requires Valid()
      ensures id == currentId && key == keys[id]
    {
      id, key := currentId, keys[currentId];
    }

    method Get(keyId: KeyId) returns (key: Option<Chain.Key>)
      ensures key == if keyId in keys then Some(keys[keyId]) else None
    {
      key := if keyId in keys then Some(keys[keyId]) else None;
    }

    method Rotate(keyId: KeyId, key: Chain.Key)
      modifies this
      ensures Valid() && currentId == keyId && keys == old(keys)[keyId := key]
    {
      keys := keys[keyId := key];
      currentId := keyId;
    }
  }

  datatype Breach = ChainBroken(at: nat) | BadMac(at: nat)

  /** Walks the chain from genesis and stops at the first row that does not follow or does not verify. */
  method VerifyHashChain<C(==,!new)>(rows: seq<Row<C>>, provider: InMemoryKeyProvider?) returns (r: Result<(), Breach>)
    ensures provider == null ==> r.Ok?
    ensures provider != null ==> (r.Ok? <==> Verified(provider.keys, rows))
    ensures r.Err? ==>
              && r.error.at < |rows|
              && Verified(provider.keys, rows[..r.error.at]) && !Verified(provider.keys, rows[..r.error.at + 1])
              && (r.error.ChainBroken? <==> TipMac(rows[..r.error.at]) != Some(rows[r.error.at].prevMac))
  {
    if provider == null {
      return Ok(());
    }
    ghost var links := LinksOf(provider.keys, rows);
    var expectedPrev: Chain.Digest<C> := Chain.Genesis;
    for i := 0 to |rows|
      invariant expectedPrev == Chain.Before(links, i)
      invariant forall j :: 0 <= j < i ==> Chain.FitsAt(links, j)
    {
      var row := rows[i];
      assert Chain.FitsAt(links, i) <==>
             (row.prevMac == expectedPrev && MacVerifies(provider.keys, row.mac, row.keyId, row.prevMac, row.content));
      if row.prevMac != expectedPrev {
        PrefixVerified(provider.keys, rows, i);
        TipOfPrefix(provider.keys, rows, i);
        return Err(ChainBroken(i));
      }
      if row.mac.None? || row.keyId.None? {
        PrefixVerified(provider.keys, rows, i);
        TipOfPrefix(provider.keys, rows, i);
        return Err(BadMac(i));
      }
      var key := provider.Get(row.keyId.value);
      if key.None? || row.mac.value != Chain.Seal(key.value, row.prevMac, row.content) {
        PrefixVerified(provider.keys, rows, i);
        TipOfPrefix(provider.keys, rows, i);
        return Err(BadMac(i));
      }
      expectedPrev := row.mac.value;
    }
    return Ok(());
  }

  lemma TipOfPrefix<C(!new)>(keys: Keys, rows: seq<Row<C>>, n: nat)
    requires n <= |rows| && Verified(keys, rows[..n])
    ensures TipMac(rows[..n]) == Some(Chain.Before(LinksOf(keys, rows), n))
  {
    TipOfVerified(keys, rows[..n]);
    assert LinksOf(keys, rows[..n]) == LinksOf(keys, rows)[..n];
  }

  /** The rows before the first one that does not fit verify, and no longer do with it. */
  lemma PrefixVerified<C(!new)>(keys: Keys, rows: seq<Row<C>>, n: nat)
    requires n < |rows| && !Chain.FitsAt(LinksOf(keys, rows), n)
    requires forall j :: 0 <= j < n ==> Chain.FitsAt(LinksOf(keys, rows), j)
    ensures Verified(keys, rows[..n]) && !Verified(keys, rows[..n + 1])
  {
    var links := LinksOf(keys, rows);
    assert LinksOf(keys, rows[..n]) == links[..n] && LinksOf(keys, rows[..n + 1]) == links[..n + 1];
    forall j | 0 <= j < n ensures Chain.FitsAt(links[..n], j) {
      assert Chain.FitsAt(links, j);
    }
    assert !Chain.FitsAt(links[..n + 1], n);
  }

  class LedgerTable<C(==,!new)> {
    var rows: seq<Row<C>>

    constructor ()
      ensures rows == []
    {
      rows := [];
    }

    /** Refused only when the last row carries no code to chain onto. */
    method Append(content: C, provider: InMemoryKeyProvider) returns (ok: bool)
      requires provider.Valid()
      modifies this
      ensures ok == TipMac(old(rows)).Some?
      ensures rows == if ok then Appended(provider.keys, provider.currentId, old(rows), content) else old(rows)
      ensures Verified(provider.keys, old(rows)) ==> ok && Verified(provider.keys, rows)
      ensures ok ==>
                && |rows| == |old(rows)| + 1 && rows[..|old(rows)|] == old(rows)
                && var row := rows[|old(rows)|];
                   && row.content == content && row.keyId == Some(provider.currentId)
                   && Some(row.prevMac) == TipMac(old(rows))
                   && MacVerifies(provider.keys, row.mac, row.keyId, row.prevMac, content)
    {
      if Verified(provider.keys, rows) {
        AppendStaysVerified(provider.keys, provider.currentId, rows, content);
      }
      var prev: Chain.Digest<C> := Chain.Genesis;
      if rows != [] {
        if rows[|rows| - 1].mac.None? {
          return false;
        }
        prev := rows[|rows| - 1].mac.value;
      }
      var id, key := provider.Current();
      rows := rows + [Row(prev, Some(Chain.Seal(key, prev, content)), Some(id), content)];
      return true;
    }
  }
}
