/** The order a sorted directory listing is in. */
module Order {
  /** Python's order on text, which sorted() uses for the paths of one directory. */
  predicate Less(a: string, b: string) {
    b != "" && (a == "" || a[0] < b[0] || (a[0] == b[0] && Less(a[1..], b[1..])))
  }

  lemma {:induction false} LessIrreflexive(a: string)
    ensures !Less(a, a)
  {
    if a != "" {
      LessIrreflexive(a[1..]);
    }
  }

  lemma {:induction false} LessTransitive(a: string, b: string, c: string)
    requires Less(a, b) && Less(b, c)
    ensures Less(a, c)
  {
    if a != "" && a[0] == b[0] && b[0] == c[0] {
      LessTransitive(a[1..], b[1..], c[1..]);
    }
  }

  predicate Ascending(a: seq<string>) {
    forall i, j :: 0 <= i < j < |a| ==> Less(a[i], a[j])
  }

  lemma LeastFirst(a: seq<string>, b: seq<string>)
    requires Ascending(a) && Ascending(b) && a != [] && b != []
    requires forall x :: x in a <==> x in b
    ensures a[0] == b[0]
  {
    assert a[0] in b && b[0] in a;
    var i :| 0 <= i < |b| && b[i] == a[0];
    var j :| 0 <= j < |a| && a[j] == b[0];
    if i > 0 && j > 0 {
      assert Less(b[0], b[i]) && Less(a[0], a[j]);
      LessTransitive(a[0], b[0], a[0]);
      LessIrreflexive(a[0]);
    }
  }

  /** Two ascending sequences with the same members are the same. */
  lemma {:induction false} AscendingUnique(a: seq<string>, b: seq<string>)
    requires Ascending(a) && Ascending(b)
    requires forall x :: x in a <==> x in b
    ensures a == b
    decreases |a|
  {
    assert b != [] ==> b[0] in a;
    if a != [] {
      assert a[0] in b;
      LeastFirst(a, b);
      forall x ensures x in a[1..] <==> x in b[1..] {
        RestMembers(a, x);
        RestMembers(b, x);
      }
      AscendingUnique(a[1..], b[1..]);
      assert a == [a[0]] + a[1..] && b == [b[0]] + b[1..];
    }
  }

  lemma RestMembers(a: seq<string>, x: string)
    requires Ascending(a) && a != []
    ensures x in a[1..] <==> x in a && x != a[0]
  {
    LessIrreflexive(a[0]);
    if x in a && x != a[0] {
      var i :| 0 <= i < |a| && a[i] == x;
      assert a[1..][i - 1] == x;
    }
    if x in a[1..] {
      var i :| 0 <= i < |a| - 1 && a[1..][i] == x;
      assert Less(a[0], a[i + 1]);
    }
  }

  lemma {:induction false} LessTotal(a: string, b: string)
    ensures a == b || Less(a, b) || Less(b, a)
  {
    if a != "" && b != "" && a[0] == b[0] {
      LessTotal(a[1..], b[1..]);
      assert a == [a[0]] + a[1..] && b == [b[0]] + b[1..];
    }
  }

  /** A name put in its place among ascending ones. */
  function Insert(a: seq<string>, x: string): seq<string> {
    if a == [] || Less(x, a[0]) then [x] + a else [a[0]] + Insert(a[1..], x)
  }

  lemma {:induction false} InsertAscends(a: seq<string>, x: string)
    requires Ascending(a) && x !in a
    ensures Ascending(Insert(a, x)) && forall y :: y in Insert(a, x) <==> y in a || y == x
  {
    hide Less;
    if a != [] && !Less(x, a[0]) {
      LessTotal(x, a[0]);
      InsertAscends(a[1..], x);
      var tail := Insert(a[1..], x);
      forall y | y in tail ensures Less(a[0], y) {
        if y != x {
          var i :| 0 <= i < |a| - 1 && a[1..][i] == y;
          assert a[i + 1] == y;
        }
      }
    } else if a != [] {
      forall i | 0 <= i < |a| ensures Less(x, a[i]) {
        if i > 0 { LessTransitive(x, a[0], a[i]); }
      }
    }
  }

  /** The names in ascending order. */
  ghost function Listing(names: set<string>): (listing: seq<string>)
    ensures Ascending(listing) && forall x :: x in listing <==> x in names
  {
    if names == {} then []
    else
      var x :| x in names;
      var rest := Listing(names - {x});
      InsertAscends(rest, x);
      Insert(rest, x)
  }

  /** sorted() over the names of one directory. */
  method Sorted(names: set<string>) returns (listing: seq<string>)
    ensures Ascending(listing) && forall x :: x in listing <==> x in names
    ensures listing == Listing(names)
  {
    listing := [];
    var rest := names;
    while rest != {}
      invariant rest <= names && Ascending(listing)
      invariant forall x :: x in listing <==> x in names - rest
    {
      var x :| x in rest;
      InsertAscends(listing, x);
      listing := Insert(listing, x);
      rest := rest - {x};
    }
    AscendingUnique(listing, Listing(names));
  }
}
