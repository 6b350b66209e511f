/** Keys that must not be found on two sides of a split. */
module Sides {
  /** Whatever shares a key is on the same side. */
  predicate OneSided<K(==), S(==)>(ps: seq<(K, S)>) {
    forall i, j :: 0 <= i < j < |ps| && ps[i].0 == ps[j].0 ==> ps[i].1 == ps[j].1
  }

  /** The side of each key read so far. */
  ghost predicate Noted<K(!new), S(!new)>(m: map<K, S>, ps: seq<(K, S)>) {
    && (forall i :: 0 <= i < |ps| ==> ps[i].0 in m && m[ps[i].0] == ps[i].1)
    && forall k :: k in m ==> exists i :: 0 <= i < |ps| && ps[i].0 == k
  }

  /** Notes one more key, or refuses it if it was noted with another side. */
  method Note<K(==, !new), S(==, !new)>(m: map<K, S>, ghost ps: seq<(K, S)>, k: K, s: S)
    returns (ok: bool, n: map<K, S>)
    requires Noted(m, ps) && OneSided(ps)
    ensures ok <==> OneSided(ps + [(k, s)])
    ensures ok ==> Noted(n, ps + [(k, s)])
  {
    ghost var qs := ps + [(k, s)];
    if k in m && m[k] != s {
      ghost var j :| 0 <= j < |ps| && ps[j].0 == k;
      assert qs[j].0 == qs[|ps|].0 && qs[j].1 != qs[|ps|].1;
      return false, m;
    }
    assert qs[..|ps|] == ps && qs[..|ps| + 1] == qs;
    NoteNext(m, qs, |ps|);
    ok, n := true, m[k := s];
  }

  lemma OneSidedPrefix<K, S>(ps: seq<(K, S)>, qs: seq<(K, S)>)
    requires ps <= qs && OneSided(qs)
    ensures OneSided(ps)
  { }

  /** Refuses a key found on two sides. */
  method CheckSides<K(==, !new), S(==, !new)>(ps: seq<(K, S)>) returns (ok: bool)
    ensures ok <==> OneSided(ps)
  {
    hide Noted;
    var m: map<K, S> := map[];
    NothingNoted<K, S>();
    for i := 0 to |ps|
      invariant Noted(m, ps[..i]) && OneSided(ps[..i])
    {
      assert ps[..i + 1] == ps[..i] + [(ps[i].0, ps[i].1)];
      ok, m := Note(m, ps[..i], ps[i].0, ps[i].1);
      if !ok { return; }
    }
    assert ps[..|ps|] == ps;
    ok := true;
  }

  lemma NothingNoted<K(!new), S(!new)>()
    ensures Noted<K, S>(map[], [])
  { }

  lemma NoteNext<K(!new), S(!new)>(m: map<K, S>, ps: seq<(K, S)>, i: nat)
    requires i < |ps| && Noted(m, ps[..i]) && (ps[i].0 in m ==> m[ps[i].0] == ps[i].1)
    ensures Noted(m[ps[i].0 := ps[i].1], ps[..i + 1])
  {
    var n, qs := m[ps[i].0 := ps[i].1], ps[..i + 1];
    assert qs == ps[..i] + [ps[i]];
    forall k | k in n ensures exists j :: 0 <= j < |qs| && qs[j].0 == k {
      if k in m {
        var j :| 0 <= j < i && ps[..i][j].0 == k;
        assert qs[j].0 == k;
      } else {
        assert qs[i].0 == k;
      }
    }
  }
}
