/** The on-wire formats: a stored entry, the `{id, fulltext}` record that edits return, and the
    whole store, whose entries the reordering and update code overwrite in place. */
module Wire {

  /** `WireEntry`: the summary fields (`id`, `hash`, `epochUpdateMsecs`) and the full text. */
  datatype WireEntry = WireEntry(id: string, hash: string, epochUpdateMsecs: int, fulltext: string)

  /** `WireEntryUnhashed`: the id and new full text of an entry an edit changed. */
  datatype WireEntryUnhashed = WireEntryUnhashed(id: string, fulltext: string)

  predicate Distinct(keys: seq<string>) {
    forall i, j :: 0 <= i < j < |keys| ==> keys[i] != keys[j]
  }

  /** `Object.values(entries)`: the values of the keys in `order`, in that order. */
  function OrderedValues(entries: map<string, WireEntry>, order: seq<string>): (r: seq<WireEntry>)
    requires forall k :: k in order ==> k in entries
    ensures |r| == |order|
    ensures forall i :: 0 <= i < |order| ==> r[i] == entries[order[i]]
  {
    if order == [] then []
    else OrderedValues(entries, order[..|order| - 1]) + [entries[order[|order| - 1]]]
  }

  /** `WireDbFull`: the store, keyed by entry id. `order` is the order in which `Object.values`
      enumerates the keys. */
  class WireDbFull {
    var epochUpdateMsecs: int
    var entries: map<string, WireEntry>
    var order: seq<string>

    /** `order` lists every key exactly once. */
    ghost predicate Valid()
      reads this
    {
      Distinct(order) && (forall k :: k in entries <==> k in order)
    }

    constructor(epochUpdateMsecs: int, entries: map<string, WireEntry>, order: seq<string>)
      requires Distinct(order) && (forall k :: k in entries <==> k in order)
      ensures Valid()
      ensures this.epochUpdateMsecs == epochUpdateMsecs && this.entries == entries && this.order == order
    {
      this.epochUpdateMsecs := epochUpdateMsecs;
      this.entries := entries;
      this.order := order;
    }

    /** `store.entries[id].fulltext = fulltext`: the entry under `id` is overwritten in place. */
    method SetFulltext(id: string, fulltext: string)
      requires Valid() && id in entries
      modifies this
      ensures Valid() && order == old(order) && epochUpdateMsecs == old(epochUpdateMsecs)
      ensures entries == old(entries)[id := old(entries)[id].(fulltext := fulltext)]
    {
      entries := entries[id := entries[id].(fulltext := fulltext)];
      assert Valid() by {
        forall k ensures k in entries <==> k in order {
          assert k in entries <==> k in old(entries);
        }
      }
    }

    /** The store's entries, one per key, in enumeration order. */
    function Values(): (r: seq<WireEntry>)
      reads this
      requires Valid()
      ensures |r| == |order| == |entries|
      ensures forall i :: 0 <= i < |r| ==> order[i] in entries && r[i] == entries[order[i]]
    {
      DistinctCard(order, entries);
      OrderedValues(entries, order)
    }
  }

  /** A duplicate-free list of exactly the keys of `m` is as long as `m` has keys. */
  lemma {:induction false} DistinctCard(order: seq<string>, m: map<string, WireEntry>)
    requires Distinct(order) && (forall k :: k in m <==> k in order)
    ensures |order| == |m|
  {
    DistinctKeysCard(order, m.Keys);
  }

  /** A duplicate-free list of exactly the members of `ks` is as long as `ks`. */
  lemma {:induction false} DistinctKeysCard(order: seq<string>, ks: set<string>)
    requires Distinct(order) && (forall k :: k in ks <==> k in order)
    ensures |order| == |ks|
  {
    if order == [] {
      assert ks == {};
    } else {
      var last := order[|order| - 1];
      var rest := order[..|order| - 1];
      DropLast(order, ks);
      DistinctKeysCard(rest, ks - {last});
    }
  }

  /** Dropping the last key of the list drops it, and only it, from the set. */
  lemma {:induction false} DropLast(order: seq<string>, ks: set<string>)
    requires |order| > 0 && Distinct(order) && (forall k :: k in ks <==> k in order)
    ensures Distinct(order[..|order| - 1])
    ensures order[|order| - 1] in ks
    ensures forall k :: (k in ks && k != order[|order| - 1]) <==> k in order[..|order| - 1]
  {
    var last := order[|order| - 1];
    var rest := order[..|order| - 1];
    forall k ensures (k in ks && k != last) <==> k in rest {
      if k in rest {
        var i :| 0 <= i < |rest| && rest[i] == k;
        assert order[i] == k;
      }
      if k in order && k != last {
        var i :| 0 <= i < |order| && order[i] == k;
        assert rest[i] == k;
      }
    }
  }
}
