/** A document collection of the store (one per Mongoose model): documents
    keyed by id, plus the natural order in which `find()` lists them. */
module Store {
  import opened Common

  predicate NoDuplicates(s: seq<Id>) {
    forall i, j :: 0 <= i < j < |s| ==> s[i] != s[j]
  }

  /** `s` with `x` taken out, the rest in its original order. */
  function Erase(s: seq<Id>, x: Id): (r: seq<Id>)
    ensures forall y :: y in r <==> y in s && y != x
    ensures NoDuplicates(s) ==> NoDuplicates(r)
    ensures x !in s ==> r == s
  {
    if s == [] then []
    else if s[0] == x then Erase(s[1..], x)
    else
      var rest := Erase(s[1..], x);
      assert NoDuplicates(s) ==> s[0] !in s[1..];
      [s[0]] + rest
  }

  /** The position of the first `x` in `s`. */
  function IndexOf(s: seq<Id>, x: Id): (k: nat)
    requires x in s
    ensures k < |s| && s[k] == x && x !in s[..k]
  {
    if s[0] == x then 0 else 1 + IndexOf(s[1..], x)
  }

  /** In a duplicate-free sequence, erasing `x` cuts out exactly its one
      occurrence and leaves everything before and after it in place. */
  lemma {:induction false} EraseCutsOne(s: seq<Id>, x: Id)
    requires NoDuplicates(s) && x in s
    ensures Erase(s, x) == s[..IndexOf(s, x)] + s[IndexOf(s, x) + 1..]
  {
    if s[0] == x {
      assert x !in s[1..];
      assert s[..0] + s[1..] == s[1..];
    } else {
      var rest := s[1..];
      assert x in rest && NoDuplicates(rest);
      EraseCutsOne(rest, x);
      var i := IndexOf(rest, x);
      assert IndexOf(s, x) == i + 1;
      assert s[..i + 1] == [s[0]] + rest[..i];
      assert s[i + 2..] == rest[i + 1..];
    }
  }

  /** The documents named by `order`, in that order. */
  function Listing<T>(docs: map<Id, T>, order: seq<Id>): (r: seq<T>)
    requires forall i :: 0 <= i < |order| ==> order[i] in docs
    ensures |r| == |order|
    ensures forall i :: 0 <= i < |order| ==> r[i] == docs[order[i]]
  {
    if order == [] then [] else [docs[order[0]]] + Listing(docs, order[1..])
  }

  /** A duplicate-free enumeration of a set of keys is exactly as long as
      the set is large. */
  lemma {:induction false} DistinctCount(order: seq<Id>, keys: set<Id>)
    requires NoDuplicates(order)
    requires forall id :: id in keys <==> id in order
    ensures |order| == |keys|
  {
    if order != [] {
      var rest := order[1..];
      forall id ensures id in keys - {order[0]} <==> id in rest {
        if id in rest {
          var k :| 0 <= k < |rest| && rest[k] == id;
          assert order[k + 1] == id;
        }
        if id in keys - {order[0]} {
          var k :| 0 <= k < |order| && order[k] == id;
          assert k != 0;
          assert rest[k - 1] == id;
        }
      }
      DistinctCount(rest, keys - {order[0]});
    }
  }

  class Collection<T> {
    var docs: map<Id, T>
    var order: seq<Id>

    /** `order` lists every document exactly once. */
    ghost predicate Valid()
      reads this
    {
      NoDuplicates(order) && (forall id :: id in docs <==> id in order)
    }

    constructor ()
      ensures Valid() && docs == map[] && order == []
    {
      docs := map[];
      order := [];
    }

    /** `countDocuments()`. */
    function Count(): nat
      reads this
    {
      |docs|
    }

    /** `find()`: every document, once each, in natural order. */
    function Find(): (r: seq<T>)
      reads this
      requires Valid()
      ensures |r| == |order| == Count()
      ensures forall i :: 0 <= i < |r| ==> order[i] in docs && r[i] == docs[order[i]]
    {
      DistinctCount(order, docs.Keys);
      Listing(docs, order)
    }

    /** Saving a new document under a fresh store-generated id. */
    method Insert(id: Id, doc: T)
      requires Valid() && id !in docs
      modifies this
      ensures Valid()
      ensures docs == old(docs)[id := doc] && order == old(order) + [id]
    {
      docs := docs[id := doc];
      order := order + [id];
    }

    /** Writing an updated document back under its id. */
    method Replace(id: Id, doc: T)
      requires Valid() && id in docs
      modifies this
      ensures Valid()
      ensures docs == old(docs)[id := doc] && order == old(order)
    {
      docs := docs[id := doc];
    }

    /** `findByIdAndDelete`: removes the document and hands it back, or
        hands back `null` when there is none. */
    method FindByIdAndDelete(id: Id) returns (removed: Option<T>)
      requires Valid()
      modifies this
      ensures Valid()
      ensures removed == if id in old(docs) then Some(old(docs)[id]) else None
      ensures docs == old(docs) - {id} && order == Erase(old(order), id)
    {
      removed := if id in docs then Some(docs[id]) else None;
      docs := docs - {id};
      order := Erase(order, id);
    }
  }
}
