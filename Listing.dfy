/** How a query hands back the rows of a relation. The ids a SERIAL column
    issues grow with every insert, so "no ORDER BY" is modelled as ascending id
    order and "ORDER BY created_at DESC" as descending id order (the store keeps
    `created_at` increasing with the id). */
module Listing {

  /** The members of `keys` in [lo, hi), smallest first. */
  function Ascending(keys: set<int>, lo: int, hi: int): (r: seq<int>)
    ensures forall k :: k in r <==> k in keys && lo <= k < hi
    ensures Increasing(r)
    decreases hi - lo
  {
    if lo >= hi then []
    else
      var rest := Ascending(keys, lo + 1, hi);
      assert forall j :: 0 <= j < |rest| ==> lo < rest[j] by {
        forall j | 0 <= j < |rest| ensures lo < rest[j] {
          assert rest[j] in rest;
        }
      }
      (if lo in keys then [lo] else []) + rest
  }

  /** The members of `keys` in [lo, hi), largest first. */
  function Descending(keys: set<int>, lo: int, hi: int): (r: seq<int>)
    ensures forall k :: k in r <==> k in keys && lo <= k < hi
    ensures Decreasing(r)
    decreases hi - lo
  {
    if lo >= hi then []
    else
      var rest := Descending(keys, lo, hi - 1);
      assert forall j :: 0 <= j < |rest| ==> rest[j] < hi - 1 by {
        forall j | 0 <= j < |rest| ensures rest[j] < hi - 1 {
          assert rest[j] in rest;
        }
      }
      (if hi - 1 in keys then [hi - 1] else []) + rest
  }

  predicate Increasing(ids: seq<int>) {
    forall i, j :: 0 <= i < j < |ids| ==> ids[i] < ids[j]
  }

  predicate Decreasing(ids: seq<int>) {
    forall i, j :: 0 <= i < j < |ids| ==> ids[i] > ids[j]
  }

  /** The ids that satisfy a WHERE clause (the set `keep`), in their original order. */
  function Where(ids: seq<int>, keep: set<int>): (r: seq<int>)
    ensures forall k :: k in r <==> k in ids && k in keep
  {
    if ids == [] then [] else (if ids[0] in keep then [ids[0]] else []) + Where(ids[1..], keep)
  }

  /** Every member of a strictly ordered `ids` other than its head lies beyond the head. */
  lemma BeyondHead(ids: seq<int>, x: int, ascending: bool)
    requires ids != [] && x in ids[1..]
    requires ascending ==> Increasing(ids)
    requires !ascending ==> Decreasing(ids)
    ensures ascending ==> ids[0] < x
    ensures !ascending ==> ids[0] > x
  {
    var m :| 0 <= m < |ids[1..]| && ids[1..][m] == x;
    assert ids[m + 1] == x;
  }

  /** A WHERE clause keeps the order of the rows it filters. */
  lemma {:induction false} WhereKeepsOrder(ids: seq<int>, keep: set<int>, ascending: bool)
    requires ascending ==> Increasing(ids)
    requires !ascending ==> Decreasing(ids)
    ensures ascending ==> Increasing(Where(ids, keep))
    ensures !ascending ==> Decreasing(Where(ids, keep))
  {
    if ids != [] {
      var rest := Where(ids[1..], keep);
      WhereKeepsOrder(ids[1..], keep, ascending);
      forall j | 0 <= j < |rest|
        ensures ascending ==> ids[0] < rest[j]
        ensures !ascending ==> ids[0] > rest[j]
      {
        assert rest[j] in rest;
        BeyondHead(ids, rest[j], ascending);
      }
    }
  }

  /** The keys of `m` that a WHERE clause accepts (the set `keep`), in
      ascending or descending key order. Every key of `m` lies below `hi`. */
  function Select<R>(m: map<int, R>, hi: int, keep: set<int>, ascending: bool): (ids: seq<int>)
    requires forall k :: k in m ==> 1 <= k < hi
    ensures forall i :: 0 <= i < |ids| ==> ids[i] in m && ids[i] in keep
    ensures forall k :: k in m && k in keep ==> k in ids
    ensures ascending ==> Increasing(ids)
    ensures !ascending ==> Decreasing(ids)
  {
    var all := if ascending then Ascending(m.Keys, 1, hi) else Descending(m.Keys, 1, hi);
    var ids := Where(all, keep);
    WhereKeepsOrder(all, keep, ascending);
    assert forall i :: 0 <= i < |ids| ==> ids[i] in ids;
    ids
  }

  /** The rows of `m` under `ids`, in that order. */
  function Rows<R>(m: map<int, R>, ids: seq<int>): (r: seq<R>)
    requires forall i :: 0 <= i < |ids| ==> ids[i] in m
    ensures |r| == |ids|
    ensures forall i :: 0 <= i < |ids| ==> r[i] == m[ids[i]]
  {
    seq(|ids|, i requires 0 <= i < |ids| => m[ids[i]])
  }

  /** A key listed in `ids` has its row somewhere in `Rows(m, ids)`. */
  lemma RowListed<R>(m: map<int, R>, ids: seq<int>, k: int)
    requires forall i :: 0 <= i < |ids| ==> ids[i] in m
    requires k in ids
    ensures exists i :: 0 <= i < |ids| && Rows(m, ids)[i] == m[k]
  {
    var i :| 0 <= i < |ids| && ids[i] == k;
    assert Rows(m, ids)[i] == m[ids[i]];
  }
}
