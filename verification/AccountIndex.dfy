/**
 * The account index: the ordered list of account numbers that the chaincode
 * keeps under one reserved key, and the "remove the first occurrence" splice
 * that `Delete` applies to it.
 */
module AccountIndex {

  predicate NoDuplicates(ids: seq<string>)
  {
    forall i, j | 0 <= i < j < |ids| :: ids[i] != ids[j]
  }

  /** How often `id` occurs in `ids`. */
  function Occurrences(ids: seq<string>, id: string): nat
  {
    multiset(ids)[id]
  }

  /**
   * `ids` without its first `name`; unchanged when `name` does not occur.
   * The other entries keep their relative order.
   */
  function RemoveFirst(ids: seq<string>, name: string): (r: seq<string>)
    ensures name !in ids ==> r == ids
    ensures name in ids ==> |r| == |ids| - 1
    ensures multiset(r) == multiset(ids) - multiset{name}
  {
    if ids == [] then []
    else
      assert ids == [ids[0]] + ids[1..];
      if ids[0] == name then ids[1..] else [ids[0]] + RemoveFirst(ids[1..], name)
  }

  /** Removing the first `name` from `prefix + ([name] + suffix)`, with no `name` in `prefix`, leaves `prefix + suffix`. */
  lemma {:induction false} RemoveFirstAfter(prefix: seq<string>, name: string, suffix: seq<string>)
    requires name !in prefix
    ensures RemoveFirst(prefix + ([name] + suffix), name) == prefix + suffix
  {
    var ids := prefix + ([name] + suffix);
    if prefix == [] {
      assert ids == [name] + suffix;
      assert ids[1..] == suffix;
    } else {
      Uncons(prefix, [name] + suffix);
      assert ids[0] == prefix[0] != name;
      RemoveFirstAfter(prefix[1..], name, suffix);
      Uncons(prefix, suffix);
    }
  }

  /** A non-empty `a` followed by `b` is its head followed by the rest. */
  lemma Uncons(a: seq<string>, b: seq<string>)
    requires a != []
    ensures a + b == [a[0]] + (a[1..] + b)
    ensures (a + b)[0] == a[0] && (a + b)[1..] == a[1..] + b
  {
  }

  /**
   * When `i` is the position of the first `name`, removing the first
   * occurrence is exactly the splice `ids[..i] + ids[i+1..]`.
   */
  lemma RemoveFirstIsSplice(ids: seq<string>, name: string, i: nat)
    requires i < |ids| && ids[i] == name && name !in ids[..i]
    ensures RemoveFirst(ids, name) == ids[..i] + ids[i + 1..]
  {
    assert ids == ids[..i] + ([name] + ids[i + 1..]);
    RemoveFirstAfter(ids[..i], name, ids[i + 1..]);
  }

  /** Removing `name` keeps every other entry and adds none. */
  lemma RemoveFirstMembers(ids: seq<string>, name: string, x: string)
    ensures x in RemoveFirst(ids, name) ==> x in ids
    ensures x != name ==> (x in RemoveFirst(ids, name) <==> x in ids)
  {
    var r := RemoveFirst(ids, name);
    assert x in r <==> multiset(r)[x] > 0;
    assert x in ids <==> multiset(ids)[x] > 0;
  }

  /** In a list without duplicates, removing `name` removes it altogether and keeps the list duplicate-free. */
  lemma {:induction false} RemoveFirstUnique(ids: seq<string>, name: string)
    requires NoDuplicates(ids)
    ensures name !in RemoveFirst(ids, name)
    ensures NoDuplicates(RemoveFirst(ids, name))
  {
    var r := RemoveFirst(ids, name);
    if name in ids {
      assert multiset(ids)[name] == 1 by {
        var i :| 0 <= i < |ids| && ids[i] == name;
        SingleOccurrence(ids, i);
      }
    }
    assert multiset(r)[name] == 0;
    forall a, b | 0 <= a < b < |r| ensures r[a] != r[b] {
      if r[a] == r[b] {
        TwiceMeansTwo(r, a, b);
        assert multiset(r)[r[a]] <= multiset(ids)[r[a]];
        NoDuplicatesAtMostOnce(ids, r[a]);
        assert false;
      }
    }
  }

  lemma {:induction false} SingleOccurrence(ids: seq<string>, i: nat)
    requires NoDuplicates(ids) && i < |ids|
    ensures multiset(ids)[ids[i]] == 1
  {
    assert ids == ids[..i] + [ids[i]] + ids[i + 1..];
    assert ids[i] !in ids[..i];
    assert ids[i] !in ids[i + 1..];
  }

  lemma NoDuplicatesAtMostOnce(ids: seq<string>, x: string)
    requires NoDuplicates(ids)
    ensures multiset(ids)[x] <= 1
  {
    if x in ids {
      var i :| 0 <= i < |ids| && ids[i] == x;
      SingleOccurrence(ids, i);
    }
  }

  lemma TwiceMeansTwo(s: seq<string>, a: nat, b: nat)
    requires a < b < |s| && s[a] == s[b]
    ensures multiset(s)[s[a]] >= 2
  {
    assert s == s[..a] + [s[a]] + s[a + 1..b] + [s[b]] + s[b + 1..];
  }

  /** Appending an absent id keeps the index duplicate-free and holds it once. */
  lemma AppendFresh(ids: seq<string>, id: string)
    requires NoDuplicates(ids) && id !in ids
    ensures NoDuplicates(ids + [id])
    ensures Occurrences(ids + [id], id) == 1
  {
    assert multiset(ids + [id]) == multiset(ids) + multiset{id};
  }

  /**
   * The position of the first `name` in `ids`, or `|ids|` when there is none:
   * the scan of the index that precedes the splice.
   */
  method FirstIndexOf(ids: seq<string>, name: string) returns (i: nat)
    ensures i <= |ids|
    ensures i < |ids| ==> ids[i] == name
    ensures name !in ids[..i]
  {
    i := 0;
    while i < |ids|
      invariant i <= |ids|
      invariant name !in ids[..i]
    {
      if ids[i] == name {
        return;
      }
      assert ids[..i + 1] == ids[..i] + [ids[i]];
      i := i + 1;
    }
  }
}
