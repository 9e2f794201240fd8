/** Enumerating a set of hrefs in ascending order, as iterating a BTreeMap does. */
module HrefOrder {
  import opened ResourceTypes

  /** Lexicographic order. */
  predicate AtMost(a: Href, b: Href) {
    || a == ""
    || (b != "" && (a[0] < b[0] || (a[0] == b[0] && AtMost(a[1..], b[1..]))))
  }

  lemma {:induction false} Antisymmetric(a: Href, b: Href)
    requires AtMost(a, b) && AtMost(b, a)
    ensures a == b
  {
    if a != "" {
      Antisymmetric(a[1..], b[1..]);
      assert a == [a[0]] + a[1..] && b == [b[0]] + b[1..];
    }
  }

  lemma {:induction false} Total(a: Href, b: Href)
    ensures AtMost(a, b) || AtMost(b, a)
  {
    if a != "" && b != "" && a[0] == b[0] {
      Total(a[1..], b[1..]);
    }
  }

  lemma {:induction false} Transitive(a: Href, b: Href, c: Href)
    requires AtMost(a, b) && AtMost(b, c)
    ensures AtMost(a, c)
  {
    if a != "" && a[0] == b[0] == c[0] {
      Transitive(a[1..], b[1..], c[1..]);
    }
  }

  /** The hrefs agree up to here, where the first has the smaller character. */
  predicate SmallerAt(a: Href, b: Href, i: int) {
    0 <= i < |a| && i < |b| && a[..i] == b[..i] && a[i] < b[i]
  }

  /** As in a dictionary: a proper beginning of the other, or smaller where they first differ. */
  ghost predicate IsBefore(a: Href, b: Href) {
    a < b || exists i :: SmallerAt(a, b, i)
  }

  lemma {:induction false} AtMostIsBefore(a: Href, b: Href)
    ensures AtMost(a, b) <==> a == b || IsBefore(a, b)
  {
    if a != "" && b != "" {
      assert a == [a[0]] + a[1..] && b == [b[0]] + b[1..];
      if a[0] < b[0] {
        assert SmallerAt(a, b, 0);
      } else if a[0] == b[0] {
        AtMostIsBefore(a[1..], b[1..]);
        assert a[1..] < b[1..] <==> a < b;
        if i :| SmallerAt(a[1..], b[1..], i) {
          assert a[..i + 1] == [a[0]] + a[1..][..i] && b[..i + 1] == [b[0]] + b[1..][..i];
          assert SmallerAt(a, b, i + 1);
        }
        if i :| SmallerAt(a, b, i) {
          assert a[1..][..i - 1] == a[..i][1..] && b[1..][..i - 1] == b[..i][1..];
          assert SmallerAt(a[1..], b[1..], i - 1);
        }
      } else {
        forall i ensures !SmallerAt(a, b, i) {
          if 0 < i < |a| && i < |b| { assert a[..i][0] == a[0] && b[..i][0] == b[0]; }
        }
      }
    }
  }

  predicate IsLeast(s: set<Href>, h: Href) {
    h in s && forall k :: k in s ==> AtMost(h, k)
  }

  lemma {:induction false} LeastExists(s: set<Href>)
    requires s != {}
    ensures exists h :: IsLeast(s, h)
  {
    var h :| h in s;
    Total(h, h);
    if s == {h} {
      assert IsLeast(s, h);
    } else {
      var rest := s - {h};
      LeastExists(rest);
      var k :| IsLeast(rest, k);
      Total(h, k);
      if AtMost(h, k) {
        forall j | j in rest ensures AtMost(h, j) {
          Transitive(h, k, j);
        }
        assert IsLeast(s, h);
      } else {
        assert IsLeast(s, k);
      }
    }
  }

  function Least(s: set<Href>): (h: Href)
    requires s != {}
    ensures IsLeast(s, h)
  {
    LeastExists(s);
    assert forall a, b :: IsLeast(s, a) && IsLeast(s, b) ==> a == b by {
      forall a, b | IsLeast(s, a) && IsLeast(s, b) ensures a == b {
        Antisymmetric(a, b);
      }
    }
    var h :| h in s && IsLeast(s, h);
    h
  }

  ghost predicate Ascending(hrefs: seq<Href>) {
    forall i, j :: 0 <= i < j < |hrefs| ==> AtMost(hrefs[i], hrefs[j]) && hrefs[i] != hrefs[j]
  }

  /** The elements of a set, each once, in ascending order. */
  function InOrder(s: set<Href>): (r: seq<Href>)
    ensures forall h :: h in r <==> h in s
    ensures Ascending(r)
  {
    if s == {} then [] else
    var h := Least(s);
    [h] + InOrder(s - {h})
  }
}
