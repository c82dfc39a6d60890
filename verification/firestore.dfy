/**
 * The part of Firestore's behaviour the worker depends on: how a conditional
 * write or a transaction commit can end, and how an update keyed by dotted
 * field paths (`{"steps.s1.status": ...}`) lands in a document.  The path
 * semantics are those of the fake client in
 * tests/tasks/T-004/test_orchestration.py: each key is split on `.`, and a
 * missing or non-map value along the way is replaced by an empty map.
 */
module Firestore {
  import opened Json
  import opened Strings

  /** How a conditional write or a commit ended: committed, lost a precondition/abort race, or failed otherwise. */
  datatype WriteOutcome = Written | Conflict | OtherError(reason: string)

  type Doc = map<string, Json>

  /** An update: (dotted field path, value) pairs in insertion order. */
  type Update = seq<(string, Json)>

  /** The value at a path of field names; a missing field or a non-map along the way reads as null. */
  function Lookup(doc: Doc, path: seq<string>): Json
    requires |path| > 0
    decreases |path|
  {
    var v := Get(doc, path[0]);
    if |path| == 1 then v
    else if v.JObj? then Lookup(v.fields, path[1..])
    else JNull
  }

  /** A path of three names reads through two nested maps. */
  lemma LookupThree(doc: Doc, a: string, b: string, c: string)
    ensures Lookup(doc, [a, b, c])
         == (var v := Get(doc, a);
             if !v.JObj? then JNull
             else var w := Get(v.fields, b); if !w.JObj? then JNull else Get(w.fields, c))
  {
    assert [a, b, c][1..] == [b, c];
    assert [b, c][1..] == [c];
    var v := Get(doc, a);
    if v.JObj? {
      assert Lookup(doc, [a, b, c]) == Lookup(v.fields, [b, c]);
      var w := Get(v.fields, b);
      if w.JObj? {
        assert Lookup(v.fields, [b, c]) == Lookup(w.fields, [c]);
      }
    }
  }

  /** Setting one field path; missing or non-map intermediates become maps. */
  function SetPath(doc: Doc, path: seq<string>, value: Json): (r: Doc)
    requires |path| > 0
    ensures r.Keys == doc.Keys + {path[0]}
    ensures forall k :: k in doc && k != path[0] ==> r[k] == doc[k]
    decreases |path|
  {
    if |path| == 1 then doc[path[0] := value]
    else
      var next := Get(doc, path[0]);
      var sub := if next.JObj? then next.fields else map[];
      doc[path[0] := JObj(SetPath(sub, path[1..], value))]
  }

  /** The field path a key names. */
  function PathOf(key: string): (path: seq<string>)
    ensures |path| > 0
  {
    Split(key, '.')
  }

  /** Applying an update entry by entry, in order. */
  function ApplyUpdate(doc: Doc, update: Update): Doc
    decreases |update|
  {
    if |update| == 0 then doc
    else ApplyUpdate(SetPath(doc, PathOf(update[0].0), update[0].1), update[1..])
  }

  /** Two paths that part ways: at some position where neither has ended, the names differ. */
  predicate Diverge(p: seq<string>, q: seq<string>)
    decreases |p|
  {
    |p| > 0 && |q| > 0 && (p[0] != q[0] || Diverge(p[1..], q[1..]))
  }

  lemma {:induction false} DivergeSymmetric(p: seq<string>, q: seq<string>)
    requires Diverge(p, q)
    ensures Diverge(q, p)
    decreases |p|
  {
    if p[0] == q[0] {
      DivergeSymmetric(p[1..], q[1..]);
    }
  }

  /** A path reads back the value just set at it. */
  lemma {:induction false} SetPathThenLookup(doc: Doc, path: seq<string>, value: Json)
    requires |path| > 0
    ensures Lookup(SetPath(doc, path, value), path) == value
    decreases |path|
  {
    if |path| > 1 {
      var next := Get(doc, path[0]);
      var sub := if next.JObj? then next.fields else map[];
      SetPathThenLookup(sub, path[1..], value);
    }
  }

  /** Setting a path leaves every path that parts ways with it as it was. */
  lemma {:induction false} SetPathKeepsDiverging(doc: Doc, p: seq<string>, q: seq<string>, value: Json)
    requires Diverge(p, q)
    ensures Lookup(SetPath(doc, p, value), q) == Lookup(doc, q)
    decreases |p|
  {
    if p[0] == q[0] {
      var next := Get(doc, p[0]);
      var sub := if next.JObj? then next.fields else map[];
      var after := SetPath(doc, p, value);
      assert |p| > 1 && |q| > 1;
      assert Get(after, q[0]) == JObj(SetPath(sub, p[1..], value));
      SetPathKeepsDiverging(sub, p[1..], q[1..], value);
      if !next.JObj? {
        EmptyLookup(q[1..]);
      }
    }
  }

  lemma {:induction false} EmptyLookup(q: seq<string>)
    requires |q| > 0
    ensures Lookup(map[], q) == JNull
  {
  }

  /** An update none of whose paths meets `q` leaves the value at `q` alone. */
  lemma {:induction false} ApplyUpdateKeeps(doc: Doc, update: Update, q: seq<string>)
    requires |q| > 0
    requires forall k :: 0 <= k < |update| ==> Diverge(PathOf(update[k].0), q)
    ensures Lookup(ApplyUpdate(doc, update), q) == Lookup(doc, q)
    decreases |update|
  {
    if |update| > 0 {
      var next := SetPath(doc, PathOf(update[0].0), update[0].1);
      SetPathKeepsDiverging(doc, PathOf(update[0].0), q, update[0].1);
      assert forall k :: 0 <= k < |update[1..]| ==> update[1..][k] == update[k + 1];
      ApplyUpdateKeeps(next, update[1..], q);
    }
  }

  /** The paths of an update part ways pairwise. */
  predicate DisjointPaths(update: Update) {
    forall i, j :: 0 <= i < j < |update| ==> Diverge(PathOf(update[i].0), PathOf(update[j].0))
  }

  /** When the paths of an update part ways pairwise, every entry lands with its value. */
  lemma {:induction false} ApplyUpdateSets(doc: Doc, update: Update, k: nat)
    requires k < |update|
    requires DisjointPaths(update)
    ensures Lookup(ApplyUpdate(doc, update), PathOf(update[k].0)) == update[k].1
    decreases |update|
  {
    var next := SetPath(doc, PathOf(update[0].0), update[0].1);
    var rest := update[1..];
    assert forall i :: 0 <= i < |rest| ==> rest[i] == update[i + 1];
    if k == 0 {
      SetPathThenLookup(doc, PathOf(update[0].0), update[0].1);
      forall i | 0 <= i < |rest|
        ensures Diverge(PathOf(rest[i].0), PathOf(update[0].0))
      {
        DivergeSymmetric(PathOf(update[0].0), PathOf(update[i + 1].0));
      }
      ApplyUpdateKeeps(next, rest, PathOf(update[0].0));
    } else {
      ApplyUpdateSets(next, rest, k - 1);
    }
  }
}
