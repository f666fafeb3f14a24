/** The order of std::string. */
module TextOrder {

  predicate TextLess(a: string, b: string) {
    b != [] && (a == [] || a[0] < b[0] || (a[0] == b[0] && TextLess(a[1..], b[1..])))
  }

  lemma {:induction false} TextIsTotal(a: string, b: string)
    ensures !(TextLess(a, b) && TextLess(b, a))
    ensures TextLess(a, b) || TextLess(b, a) || a == b
    ensures a == b ==> !TextLess(a, b)
  {
    if a == [] || b == [] {
    } else {
      TextIsTotal(a[1..], b[1..]);
      assert a[0] == b[0] && a[1..] == b[1..] ==> a == [a[0]] + a[1..] == b;
    }
  }

  /** A text comes before those that continue it; otherwise the first character in which two differ decides. */
  lemma {:induction false} FirstDifferenceDecides(a: string, b: string, k: nat)
    requires k <= |a| && k <= |b| && a[..k] == b[..k]
    ensures k == |a| < |b| ==> TextLess(a, b)
    ensures k < |a| && k < |b| && a[k] != b[k] ==> (TextLess(a, b) <==> a[k] < b[k])
  {
    if k == 0 {
    } else {
      assert a[0] == a[..k][0] && b[0] == b[..k][0];
      assert a[1..][..k - 1] == a[..k][1..] && b[1..][..k - 1] == b[..k][1..];
      FirstDifferenceDecides(a[1..], b[1..], k - 1);
    }
  }

  lemma {:induction false} TextTransitive(a: string, b: string, c: string)
    requires TextLess(a, b) && TextLess(b, c)
    ensures TextLess(a, c)
  {
    if a == [] || a[0] < b[0] || b[0] < c[0] {
    } else {
      TextTransitive(a[1..], b[1..], c[1..]);
    }
  }

  predicate LeastText(least: string, keys: set<string>) {
    least in keys && forall k :: k in keys && k != least ==> TextLess(least, k)
  }

  lemma {:induction false} LeastTextExists(keys: set<string>) returns (least: string)
    requires keys != {}
    ensures LeastText(least, keys)
    decreases |keys|
  {
    var k :| k in keys;
    var rest := keys - {k};
    assert keys == rest + {k};
    if rest == {} {
      least := k;
    } else {
      least := LeastTextExists(rest);
      TextIsTotal(k, least);
      if TextLess(k, least) {
        forall j | j in rest && j != least
          ensures TextLess(k, j)
        {
          TextTransitive(k, least, j);
        }
        least := k;
      }
    }
  }

  lemma LeastTextUnique(a: string, b: string, keys: set<string>)
    requires LeastText(a, keys) && LeastText(b, keys)
    ensures a == b
  {
    TextIsTotal(a, b);
  }
}
