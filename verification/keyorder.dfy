/**
 The order in which a full-range scan of the world state yields keys.
 Go compares strings byte by byte; over UTF-8 that is the same as comparing
 code points one by one, which is how Dafny orders `char`, and a proper
 prefix sorts first. `SortedKeys` enumerates the keys of a map in that
 order, as the host's range iterator does.
 */
module KeyOrder {

  /** Strict lexicographic order on keys */
  predicate Below(a: string, b: string)
    decreases |a|
  {
    if |a| == 0 then |b| > 0
    else if |b| == 0 then false
    else if a[0] != b[0] then a[0] < b[0]
    else Below(a[1..], b[1..])
  }

  lemma {:induction false} BelowIrreflexive(a: string)
    ensures !Below(a, a)
    decreases |a|
  {
    if |a| > 0 {
      BelowIrreflexive(a[1..]);
    }
  }

  lemma {:induction false} BelowAsymmetric(a: string, b: string)
    requires Below(a, b)
    ensures !Below(b, a)
    decreases |a|
  {
    if |a| > 0 && a[0] == b[0] {
      BelowAsymmetric(a[1..], b[1..]);
    }
  }

  lemma {:induction false} BelowTransitive(a: string, b: string, c: string)
    requires Below(a, b) && Below(b, c)
    ensures Below(a, c)
    decreases |a|
  {
    if |a| > 0 && a[0] == b[0] && b[0] == c[0] {
      BelowTransitive(a[1..], b[1..], c[1..]);
    }
  }

  lemma {:induction false} BelowTotal(a: string, b: string)
    ensures a == b || Below(a, b) || Below(b, a)
    decreases |a|
  {
    if |a| > 0 && |b| > 0 && a[0] == b[0] {
      BelowTotal(a[1..], b[1..]);
      if a[1..] == b[1..] {
        assert a == [a[0]] + a[1..];
        assert b == [b[0]] + b[1..];
      }
    }
  }

  ghost predicate StrictlyAscending(keys: seq<string>) {
    forall i, j :: 0 <= i < j < |keys| ==> Below(keys[i], keys[j])
  }

  /** `m` comes before every other element of `s` */
  predicate IsLeast(m: string, s: set<string>) {
    forall k :: k in s && k != m ==> Below(m, k)
  }

  lemma {:induction false} LeastExists(s: set<string>)
    requires s != {}
    ensures exists m :: m in s && IsLeast(m, s)
    decreases s
  {
    var x :| x in s;
    if s == {x} {
      assert IsLeast(x, s);
    } else {
      var rest := s - {x};
      LeastExists(rest);
      var m :| m in rest && IsLeast(m, rest);
      BelowTotal(x, m);
      if Below(x, m) {
        forall k | k in s && k != x
          ensures Below(x, k)
        {
          if k != m {
            BelowTransitive(x, m, k);
          }
        }
        assert IsLeast(x, s);
      } else {
        assert IsLeast(m, s);
      }
    }
  }

  /** Two strictly ascending sequences with the same elements are equal: the
      order of a scan is determined by the set of keys alone. */
  lemma {:induction false} AscendingUnique(a: seq<string>, b: seq<string>)
    requires StrictlyAscending(a) && StrictlyAscending(b)
    requires forall k :: k in a <==> k in b
    ensures a == b
    decreases |a|
  {
    if |a| > 0 {
      assert a[0] in b;
    }
    if |b| > 0 {
      assert b[0] in a;
    }
    if |a| > 0 {
      if a[0] != b[0] {
        var i :| 0 <= i < |a| && a[i] == b[0];
        var j :| 0 <= j < |b| && b[j] == a[0];
        assert Below(a[0], a[i]);
        assert Below(b[0], b[j]);
        BelowAsymmetric(a[0], a[i]);
        assert false;
      }
      forall k | k in a[1..]
        ensures k in b[1..]
      {
        var i :| 1 <= i < |a| && a[i] == k;
        assert Below(a[0], k);
        BelowIrreflexive(k);
        assert k in b;
      }
      forall k | k in b[1..]
        ensures k in a[1..]
      {
        var j :| 1 <= j < |b| && b[j] == k;
        assert Below(b[0], k);
        BelowIrreflexive(k);
        assert k in a;
      }
      AscendingUnique(a[1..], b[1..]);
      assert a == [a[0]] + a[1..];
      assert b == [b[0]] + b[1..];
    }
  }

  /** The keys of `m`, each once, in ascending order */
  method SortedKeys<V>(m: map<string, V>) returns (keys: seq<string>)
    ensures StrictlyAscending(keys)
    ensures forall k :: k in keys <==> k in m
  {
    keys := [];
    var rest := m.Keys;
    while rest != {}
      invariant rest <= m.Keys
      invariant StrictlyAscending(keys)
      invariant forall k :: k in keys <==> k in m && k !in rest
      invariant forall i, k :: 0 <= i < |keys| && k in rest ==> Below(keys[i], k)
      decreases rest
    {
      LeastExists(rest);
      var least :| least in rest && IsLeast(least, rest);
      keys := keys + [least];
      rest := rest - {least};
    }
  }
}
