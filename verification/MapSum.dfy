/** Sums over finite maps. */
module MapSum {
  lemma HasKey(m: map<int, int>)
    requires m != map[]
    ensures exists p :: p in m
  {
    assert (forall p :: p !in m) ==> m == map[];
  }

  ghost function Sum(m: map<int, int>): int
    decreases |m|
  {
    if m == map[] then 0
    else
      HasKey(m);
      var p :| p in m;
      m[p] + Sum(m - {p})
  }

  lemma {:induction false} SumRemove(m: map<int, int>, p: int)
    requires p in m
    ensures Sum(m) == m[p] + Sum(m - {p})
    decreases |m|
  {
    HasKey(m);
    var q :| q in m && Sum(m) == m[q] + Sum(m - {q});
    if q != p {
      SumRemove(m - {q}, p);
      SumRemove(m - {p}, q);
      assert m - {q} - {p} == m - {p} - {q};
    }
  }

  lemma SumAdd(m: map<int, int>, p: int, v: int)
    requires p !in m
    ensures Sum(m[p := v]) == Sum(m) + v
  {
    SumRemove(m[p := v], p);
    assert m[p := v] - {p} == m;
  }

  lemma SumUpdate(m: map<int, int>, p: int, v: int)
    requires p in m
    ensures Sum(m[p := v]) == Sum(m) - m[p] + v
  {
    SumRemove(m, p);
    SumRemove(m[p := v], p);
    assert m[p := v] - {p} == m - {p};
  }
}
