/** The byte-wise order that the ordered containers of the catalog use for their string keys,
    and the ascending listing of a finite set of keys. */
module Strings {

  predicate Less(a: string, b: string) {
    if b == "" then false
    else if a == "" then true
    else a[0] < b[0] || (a[0] == b[0] && Less(a[1..], b[1..]))
  }

  ghost predicate Ascending(s: seq<string>) {
    forall i, j | 0 <= i < j < |s| :: Less(s[i], s[j])
  }

  lemma {:induction false} Irreflexive(a: string)
    ensures !Less(a, a)
  {
    if a != "" { Irreflexive(a[1..]); }
  }

  lemma {:induction false} Transitive(a: string, b: string, c: string)
    requires Less(a, b) && Less(b, c)
    ensures Less(a, c)
  {
    if a != "" && a[0] == b[0] && b[0] == c[0] { Transitive(a[1..], b[1..], c[1..]); }
  }

  lemma {:induction false} Total(a: string, b: string)
    ensures a == b || Less(a, b) || Less(b, a)
  {
    if a != "" && b != "" && a[0] == b[0] {
      Total(a[1..], b[1..]);
      assert a == [a[0]] + a[1..] && b == [b[0]] + b[1..];
    }
  }

  ghost predicate IsLeast(m: string, s: set<string>) {
    m in s && forall x | x in s :: x == m || Less(m, x)
  }

  lemma {:induction false} LeastExists(s: set<string>)
    requires s != {}
    ensures exists m :: IsLeast(m, s)
    decreases s
  {
    var x :| x in s;
    var rest := s - {x};
    if rest == {} {
      assert s == {x};
      assert IsLeast(x, s);
    } else {
      LeastExists(rest);
      var m :| IsLeast(m, rest);
      Total(x, m);
      if Less(x, m) {
        forall y | y in s ensures y == x || Less(x, y) {
          if y != x && y != m { Transitive(x, m, y); }
        }
        assert IsLeast(x, s);
      } else {
        assert IsLeast(m, s);
      }
    }
  }

  ghost function Least(s: set<string>): (m: string)
    requires s != {}
    ensures IsLeast(m, s)
  {
    LeastExists(s);
    var m :| IsLeast(m, s);
    m
  }

  /** The members of `s` in ascending order: what iterating an ordered set yields. */
  ghost function Listing(s: set<string>): seq<string>
    decreases s
  {
    if s == {} then [] else
      var m := Least(s);
      var rest := Listing(s - {m});
      [m] + rest
  }

  lemma {:induction false} ListingSpec(s: set<string>)
    ensures forall x :: x in Listing(s) <==> x in s
    ensures |Listing(s)| == |s|
    ensures Ascending(Listing(s))
    decreases s
  {
    if s != {} {
      var m, rest := Least(s), Listing(s - {Least(s)});
      ListingSpec(s - {m});
      assert Listing(s) == [m] + rest;
      forall i, j | 0 <= i < j < |rest| + 1 ensures Less(([m] + rest)[i], ([m] + rest)[j]) {
        assert rest[j - 1] in s - {m};
      }
    }
  }
}
