/** The keys of a set of strings in ascending order. */
module SortedKeys {
  import opened Text

  predicate Ascending(s: seq<string>) {
    forall i, j :: 0 <= i < j < |s| ==> Less(s[i], s[j])
  }

  function Insert(s: seq<string>, x: string): seq<string> {
    if s == [] || Less(x, s[0]) then [x] + s else [s[0]] + Insert(s[1..], x)
  }

  lemma {:induction false} InsertKeepsOrder(s: seq<string>, x: string)
    requires Ascending(s) && x !in s
    ensures Ascending(Insert(s, x))
    ensures forall y :: y in Insert(s, x) <==> y == x || y in s
  {
    hide Less;
    if s != [] {
      assert s == [s[0]] + s[1..];
      if Less(x, s[0]) {
        forall j | 0 < j < |s|
          ensures Less(x, s[j])
        {
          LessTransitive(x, s[0], s[j]);
        }
      } else {
        LessTrichotomy(x, s[0]);
        InsertKeepsOrder(s[1..], x);
        var t := Insert(s[1..], x);
        forall j | 0 <= j < |t|
          ensures Less(s[0], t[j])
        {
          assert t[j] in t;
        }
      }
    }
  }

  ghost function SortedOf(keys: set<string>): (s: seq<string>)
    ensures Ascending(s)
    ensures forall x :: x in s <==> x in keys
  {
    if keys == {} then []
    else
      var x :| x in keys;
      InsertKeepsOrder(SortedOf(keys - {x}), x);
      Insert(SortedOf(keys - {x}), x)
  }

  lemma TailMembers(a: seq<string>, x: string)
    requires Ascending(a) && a != []
    ensures x in a[1..] <==> x in a && x != a[0]
  {
    hide Less;
    LessTrichotomy(a[0], a[0]);
    assert forall j :: 0 <= j < |a| - 1 ==> a[1..][j] == a[j + 1] && Less(a[0], a[j + 1]);
    assert a == [a[0]] + a[1..];
  }

  /** Two ascending lists with the same members are the same list. */
  lemma {:induction false} AscendingUnique(a: seq<string>, b: seq<string>)
    requires Ascending(a) && Ascending(b) && forall x :: x in a <==> x in b
    ensures a == b
  {
    hide Less;
    assert b != [] ==> b[0] in a;
    if a != [] {
      assert a[0] in b;
      LessTrichotomy(a[0], b[0]);
      assert a[0] == b[0];
      forall x
        ensures x in a[1..] <==> x in b[1..]
      {
        TailMembers(a, x);
        TailMembers(b, x);
      }
      AscendingUnique(a[1..], b[1..]);
      assert a == [a[0]] + a[1..] && b == [b[0]] + b[1..];
    }
  }

  method MapKeys(input: set<string>) returns (r: seq<string>)
    ensures r == SortedOf(input)
  {
    r := [];
    var rest := input;
    while rest != {}
      invariant rest <= input
      invariant Ascending(r)
      invariant forall x :: x in r <==> x in input && x !in rest
      decreases rest
    {
      var x :| x in rest;
      InsertKeepsOrder(r, x);
      r := Insert(r, x);
      rest := rest - {x};
    }
    AscendingUnique(r, SortedOf(input));
  }
}
