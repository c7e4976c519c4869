/** The total of a finite map of amounts. */
module Totals {

  function Total(m: map<nat, nat>): nat {
    if m == map[] then 0
    else
      var k := Least(m.Keys);
      m[k] + Total(m - {k})
  }

  function Least(keys: set<nat>): (k: nat)
    requires keys != {}
    ensures IsLeast(k, keys)
  {
    LeastExists(keys);
    var k :| IsLeast(k, keys);
    k
  }

  predicate IsLeast(k: nat, keys: set<nat>) {
    k in keys && forall j :: j in keys ==> k <= j
  }

  lemma {:induction false} LeastExists(keys: set<nat>)
    requires keys != {}
    ensures exists k :: IsLeast(k, keys)
    decreases |keys|
  {
    var k :| k in keys;
    var rest := keys - {k};
    if rest == {} {
      assert keys == {k};
      assert IsLeast(k, keys);
    } else {
      LeastExists(rest);
      var least :| IsLeast(least, rest);
      assert keys == rest + {k};
      assert IsLeast(if k <= least then k else least, keys);
    }
  }

  lemma {:induction false} TotalWithout(m: map<nat, nat>, id: nat)
    requires id in m
    ensures Total(m) == m[id] + Total(m - {id})
  {
    var k := Least(m.Keys);
    if k != id {
      TotalWithout(m - {k}, id);
      assert k in (m - {id}).Keys;
      assert Least((m - {id}).Keys) == k;
      assert (m - {id}) - {k} == (m - {k}) - {id};
    }
  }

  lemma TotalWith(m: map<nat, nat>, id: nat, bytes: nat)
    requires id !in m
    ensures Total(m[id := bytes]) == Total(m) + bytes
  {
    TotalWithout(m[id := bytes], id);
    assert m[id := bytes] - {id} == m;
  }

  lemma TotalHolds(m: map<nat, nat>)
    ensures Total(m) > 0 ==> m != map[]
  {
  }
}
