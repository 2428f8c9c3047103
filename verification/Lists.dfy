/** Lists without repetitions, and removal by swapping with the last element. */
module Lists {

  ghost predicate NoRepeats<T>(cs: seq<T>) {
    forall i, j {:trigger cs[i], cs[j]} :: 0 <= i < j < |cs| ==> cs[i] != cs[j]
  }

  /** children[i] = children[children.length - 1]; children.splice(children.length - 1, 1) */
  function SwapRemove<T>(cs: seq<T>, i: nat): seq<T>
    requires i < |cs|
  {
    cs[i := cs[|cs| - 1]][..|cs| - 1]
  }

  lemma SwapRemoveFacts<T>(cs: seq<T>, i: nat)
    requires i < |cs| && NoRepeats(cs)
    ensures NoRepeats(SwapRemove(cs, i))
    ensures SwapRemove(cs, i)[..i] == cs[..i]
    ensures forall c :: c in SwapRemove(cs, i) <==> c in cs && c != cs[i]
    ensures forall c :: c in SwapRemove(cs, i)[i..] <==> c in cs[i..] && c != cs[i]
  {
    var r := SwapRemove(cs, i);
    forall c | c in cs && c != cs[i] ensures c in r {
      var k :| 0 <= k < |cs| && cs[k] == c;
      assert r[if k < |cs| - 1 then k else i] == c;
    }
    forall c | c in cs[i..] && c != cs[i] ensures c in r[i..] {
      var k :| 0 <= k < |cs[i..]| && cs[i..][k] == c;
      assert cs[i + k] == c;
      assert r[i..][if i + k < |cs| - 1 then k else 0] == c;
    }
    forall c | c in r[i..] ensures c in cs[i..] && c != cs[i] {
      var k :| 0 <= k < |r[i..]| && r[i..][k] == c;
      if k == 0 {
        assert c == cs[i..][|cs| - 1 - i];
      } else {
        assert c == cs[i..][k];
      }
    }
  }

  lemma RepeatsNot<T>(cs: seq<T>, c: T)
    requires NoRepeats(cs) && c !in cs
    ensures NoRepeats(cs + [c])
  {
  }

  lemma RepeatsJoin<T>(a: seq<T>, b: seq<T>)
    requires NoRepeats(a) && NoRepeats(b) && forall m :: m in a ==> m !in b
    ensures NoRepeats(a + b)
  {
    forall i, j | 0 <= i < j < |a + b| ensures (a + b)[i] != (a + b)[j] {
      if i < |a| <= j { assert a[i] in a; }
    }
  }
}
