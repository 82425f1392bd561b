/** Name indexes: a hash map collected from an ordered list of names, against a scan of that list by `Get`. */
module Index {
  import opened Wrappers

  /** Collecting into a `HashMap`: of two entries with one name the later stays. */
  function Collect(entries: seq<(string, nat)>): map<string, nat> {
    if entries == [] then map[]
    else var n := |entries| - 1; Collect(entries[..n])[entries[n].0 := entries[n].1]
  }

  function Lookup(index: map<string, nat>, name: string): Option<nat> {
    if name in index then Some(index[name]) else None
  }

  /** No name is given twice. */
  predicate Distinct(entries: seq<(string, nat)>) {
    forall i, j | 0 <= i < j < |entries| :: entries[i].0 != entries[j].0
  }

  lemma {:induction false} CollectHoldsLast(entries: seq<(string, nat)>, name: string)
    ensures name in Collect(entries) <==> exists i | 0 <= i < |entries| :: entries[i].0 == name
    ensures name in Collect(entries) ==>
              exists i | 0 <= i < |entries| :: entries[i] == (name, Collect(entries)[name])
                                               && forall j | i < j < |entries| :: entries[j].0 != name
  {
    if entries != [] {
      var n := |entries| - 1;
      CollectHoldsLast(entries[..n], name);
      if entries[n].0 == name {
        assert entries[n] == (name, Collect(entries)[name]);
      } else if name in Collect(entries) {
        var i :| 0 <= i < n && entries[..n][i] == (name, Collect(entries)[name])
                 && forall j | i < j < n :: entries[..n][j].0 != name;
        assert entries[i] == (name, Collect(entries)[name]);
        assert forall j | i < j < |entries| :: j < n ==> entries[j] == entries[..n][j];
      }
    }
  }

  /** With distinct names the index answers every lookup as the scan does. */
  lemma IndexIsScan(entries: seq<(string, nat)>, name: string)
    requires Distinct(entries)
    ensures Lookup(Collect(entries), name) == Get(entries, name)
  {
    CollectHoldsLast(entries, name);
    if name in Collect(entries) {
      var i :| 0 <= i < |entries| && entries[i] == (name, Collect(entries)[name]);
      GetAt(entries, i);
    }
  }

  /** For entries of distinct values, distinct names are exactly what the index needs. */
  lemma IndexIsScanIff(entries: seq<(string, nat)>)
    requires forall i, j | 0 <= i < j < |entries| :: entries[i].1 != entries[j].1
    ensures (forall name :: Lookup(Collect(entries), name) == Get(entries, name)) <==> Distinct(entries)
  {
    if Distinct(entries) {
      forall name ensures Lookup(Collect(entries), name) == Get(entries, name) {
        IndexIsScan(entries, name);
      }
    } else {
      var i, j := FirstRepeated(entries, |entries|);
      var name := entries[i].0;
      GetAt(entries, i);
      CollectHoldsLast(entries, name);
      var k :| 0 <= k < |entries| && entries[k] == (name, Collect(entries)[name])
               && forall m | k < m < |entries| :: entries[m].0 != name;
      assert j <= k;
      assert Lookup(Collect(entries), name) != Get(entries, name);
    }
  }

  /** Some repeated name, at its first occurrence and a later one. */
  lemma {:induction false} FirstRepeated(entries: seq<(string, nat)>, n: nat) returns (i: nat, j: nat)
    requires n <= |entries|
    requires exists a, b | 0 <= a < b < |entries| :: a < n && entries[a].0 == entries[b].0
    ensures i < j < |entries| && entries[i].0 == entries[j].0
    ensures forall a | 0 <= a < i :: entries[a].0 != entries[i].0
  {
    var a, b :| 0 <= a < b < |entries| && a < n && entries[a].0 == entries[b].0;
    if c :| 0 <= c < a && entries[c].0 == entries[a].0 {
      assert 0 <= c < a < |entries| && c < a;
      i, j := FirstRepeated(entries, a);
    } else {
      i, j := a, b;
    }
  }
}
