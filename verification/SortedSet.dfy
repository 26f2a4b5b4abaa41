/** ZRANGE WITHSCORES: the (score, member) pairs of a sorted set, listed in rank order. */
module SortedSet {
  import opened QueueStore

  type Scored = (real, Driver)

  predicate Less(a: Scored, b: Scored) {
    Before(a.0, a.1, b.0, b.1)
  }

  predicate IsLeast(es: set<Scored>, e: Scored) {
    e in es && forall f | f in es :: f == e || Less(e, f)
  }

  lemma {:induction false} LeastExists(es: set<Scored>)
    requires es != {}
    ensures exists e :: IsLeast(es, e)
  {
    var x :| x in es;
    if es == {x} {
      assert IsLeast(es, x);
    } else {
      LeastExists(es - {x});
      var y :| IsLeast(es - {x}, y);
      assert forall f | f in es :: f == x || f in es - {x};
      if Less(x, y) {
        assert IsLeast(es, x);
      } else {
        assert IsLeast(es, y);
      }
    }
  }

  function Listing(es: set<Scored>): seq<Scored> {
    if es == {} then []
    else
      LeastExists(es);
      var e :| IsLeast(es, e);
      [e] + Listing(es - {e})
  }

  ghost predicate StrictlySorted(l: seq<Scored>) {
    forall i, j :: 0 <= i < j < |l| ==> Less(l[i], l[j])
  }

  /** A listing holds exactly the pairs of the set, once each, in strictly increasing order. */
  lemma {:induction false} ListingSorts(es: set<Scored>)
    ensures |Listing(es)| == |es|
    ensures forall e :: e in Listing(es) <==> e in es
    ensures StrictlySorted(Listing(es))
  {
    if es != {} {
      LeastExists(es);
      var e :| IsLeast(es, e) && Listing(es) == [e] + Listing(es - {e});
      ListingSorts(es - {e});
      var l := Listing(es - {e});
      forall i | 0 <= i < |l| ensures Less(e, l[i]) {
        assert l[i] in es - {e};
      }
    }
  }

  /** A set of pairs has one listing. */
  lemma {:induction false} ListingIsUnique(a: seq<Scored>, b: seq<Scored>)
    requires StrictlySorted(a) && StrictlySorted(b) && forall e :: e in a <==> e in b
    ensures a == b
  {
    if a != [] {
      SameHead(a, b);
      SameTail(a, b);
      ListingIsUnique(a[1..], b[1..]);
    } else if b != [] {
      SameHead(b, a);
    }
  }

  lemma SameHead(a: seq<Scored>, b: seq<Scored>)
    requires StrictlySorted(a) && StrictlySorted(b) && a != [] && forall e :: e in a <==> e in b
    ensures b != [] && a[0] == b[0]
  {
    assert a[0] in a && a[0] in b;
    assert b[0] in b && b[0] in a;
    var i :| 0 <= i < |b| && b[i] == a[0];
    var j :| 0 <= j < |a| && a[j] == b[0];
  }

  lemma SameTail(a: seq<Scored>, b: seq<Scored>)
    requires StrictlySorted(a) && StrictlySorted(b) && a != [] && b != [] && a[0] == b[0]
    requires forall e :: e in a <==> e in b
    ensures forall e :: e in a[1..] <==> e in b[1..]
  {
    assert a == [a[0]] + a[1..] && b == [b[0]] + b[1..];
    forall e ensures e in a[1..] <==> e in a && e != a[0] {
      HeadIsOnce(a, e);
    }
    forall e ensures e in b[1..] <==> e in b && e != b[0] {
      HeadIsOnce(b, e);
    }
  }

  lemma HeadIsOnce(l: seq<Scored>, e: Scored)
    requires StrictlySorted(l) && l != []
    ensures e in l[1..] <==> e in l && e != l[0]
  {
    if e in l[1..] {
      var i :| 0 <= i < |l[1..]| && l[1..][i] == e;
      assert l[i + 1] == e && Less(l[0], l[i + 1]);
    }
    if e in l && e != l[0] {
      var i :| 0 <= i < |l| && l[i] == e;
      assert l[1..][i - 1] == e;
    }
  }

  function Below(es: set<Scored>, x: Scored): set<Scored> {
    set e | e in es && Less(e, x)
  }

  /** A prefix of a strictly sorted list has as many elements as places. */
  lemma {:induction false} PrefixSize(l: seq<Scored>, c: nat)
    requires StrictlySorted(l) && c <= |l|
    ensures |set i | 0 <= i < c :: l[i]| == c
  {
    var prefix := set i | 0 <= i < c :: l[i];
    if c == 0 {
      assert prefix == {};
    } else {
      PrefixSize(l, c - 1);
      var shorter := set i | 0 <= i < c - 1 :: l[i];
      assert prefix == shorter + {l[c - 1]};
      assert l[c - 1] !in shorter;
    }
  }

  /** The number of pairs below x is c exactly when x falls between places c-1 and c of the listing. */
  lemma BelowCounts(es: set<Scored>, x: Scored, c: nat)
    requires c <= |es| == |Listing(es)|
    ensures |Below(es, x)| == c <==>
            (c == 0 || Less(Listing(es)[c - 1], x)) && (c == |es| || !Less(Listing(es)[c], x))
  {
    ListingSorts(es);
    var l := Listing(es);
    var n := 0;
    while n < |l| && Less(l[n], x)
      invariant n <= |l|
      invariant forall i :: 0 <= i < n ==> Less(l[i], x)
    {
      n := n + 1;
    }
    forall i | n <= i < |l| ensures !Less(l[i], x) {
      assert n < i ==> Less(l[n], l[i]);
    }
    assert Below(es, x) == set i | 0 <= i < n :: l[i] by {
      forall e | e in Below(es, x) ensures e in set i | 0 <= i < n :: l[i] {
        assert e in l;
        var i :| 0 <= i < |l| && l[i] == e;
      }
      forall i | 0 <= i < n ensures l[i] in Below(es, x) {
        assert l[i] in l;
      }
    }
    PrefixSize(l, n);
  }
}
