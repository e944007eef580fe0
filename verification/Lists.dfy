/** Lists of strings cleaned up the way every service does it: each entry normalised, blank
    entries dropped, and only the first occurrence of each kept. */
module Lists {

  ghost predicate SameMembers<T(!new)>(a: seq<T>, b: seq<T>) {
    forall x :: x in a <==> x in b
  }

  /** The normalised, non-blank entries of a list, in order. */
  function Kept(s: seq<string>, normalize: string -> string): seq<string> {
    if s == [] then []
    else
      var last := normalize(s[|s| - 1]);
      Kept(s[..|s| - 1], normalize) + if last == "" then [] else [last]
  }

  /** A list with every repetition after the first occurrence removed. */
  function FirstOccurrences(s: seq<string>): seq<string> {
    if s == [] then []
    else
      var last := s[|s| - 1];
      FirstOccurrences(s[..|s| - 1]) + if last in s[..|s| - 1] then [] else [last]
  }

  lemma KeptSnoc(added: seq<string>, j: nat, normalize: string -> string)
    requires j < |added|
    ensures Kept(added[..j + 1], normalize) ==
      Kept(added[..j], normalize) + if normalize(added[j]) == "" then [] else [normalize(added[j])]
  {
    assert added[..j + 1][..j] == added[..j];
  }

  /** First occurrences keep every member, repeat none, and follow the original order. */
  lemma {:induction false} FirstOccurrencesMeaning(s: seq<string>)
    ensures SameMembers(FirstOccurrences(s), s)
    ensures forall i, j :: 0 <= i < j < |FirstOccurrences(s)| ==> FirstOccurrences(s)[i] != FirstOccurrences(s)[j]
    ensures forall n :: 0 <= n <= |s| ==> FirstOccurrences(s[..n]) <= FirstOccurrences(s)
  {
    if s != [] {
      var t, last := s[..|s| - 1], s[|s| - 1];
      FirstOccurrencesMeaning(t);
      assert s == t + [last];
      forall n | 0 <= n <= |s|
        ensures FirstOccurrences(s[..n]) <= FirstOccurrences(s)
      {
        if n < |s| {
          assert s[..n] == t[..n];
        } else {
          assert s[..n] == s;
        }
      }
    }
  }

  lemma {:induction false} KeptMembers(s: seq<string>, normalize: string -> string, x: string)
    ensures x in Kept(s, normalize) <==>
      x != "" && exists i :: 0 <= i < |s| && normalize(s[i]) == x
  {
    if s != [] {
      var t := s[..|s| - 1];
      KeptMembers(t, normalize, x);
      assert forall i :: 0 <= i < |t| ==> s[i] == t[i];
    }
  }

  function Members<T>(s: seq<T>): set<T> {
    set x | x in s
  }

  lemma NextKept(before: seq<string>, added: seq<string>, j: nat, normalize: string -> string)
    requires j < |added|
    ensures var all, x := before + Kept(added[..j], normalize), normalize(added[j]);
      before + Kept(added[..j + 1], normalize) == if x == "" then all else all + [x]
  {
    hide Kept;
    KeptSnoc(added, j, normalize);
  }

  lemma NextOccurrence(all: seq<string>, x: string)
    ensures FirstOccurrences(all + [x]) == if x in Members(all) then FirstOccurrences(all)
      else FirstOccurrences(all) + [x]
    ensures Members(all + [x]) == Members(all) + {x}
  {
  }

  lemma NothingKept(before: seq<string>, normalize: string -> string)
    ensures before + Kept([], normalize) == before
    ensures Members(FirstOccurrences(before)) == Members(before)
  {
    FirstOccurrencesMeaning(before);
  }

  /** Appends to a cleaned-up list the new entries of another. */
  method AddFirstOccurrences(sofar: seq<string>, ghost before: seq<string>, added: seq<string>,
                             normalize: string -> string)
    returns (r: seq<string>)
    requires sofar == FirstOccurrences(before)
    ensures r == FirstOccurrences(before + Kept(added, normalize))
  {
    hide FirstOccurrences, Kept, Members;
    r := sofar;
    var seen := Members(sofar);
    NothingKept(before, normalize);
    assert added[..0] == [];
    for j := 0 to |added|
      invariant r == FirstOccurrences(before + Kept(added[..j], normalize))
      invariant seen == Members(before + Kept(added[..j], normalize))
    {
      NextKept(before, added, j, normalize);
      var normalized := normalize(added[j]);
      if normalized != "" {
        NextOccurrence(before + Kept(added[..j], normalize), normalized);
        if normalized !in seen {
          seen := seen + {normalized};
          r := r + [normalized];
        }
        assert normalized in seen ==> seen + {normalized} == seen;
      }
    }
    assert added[..|added|] == added;
  }

  method Dedupe(values: seq<string>, normalize: string -> string) returns (r: seq<string>)
    ensures r == FirstOccurrences(Kept(values, normalize))
  {
    r := AddFirstOccurrences([], [], values, normalize);
    assert [] + Kept(values, normalize) == Kept(values, normalize);
  }
}
