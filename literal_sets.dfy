/**
  Literals and the list algebra the interpreter builds its goals with:
  duplicate stripping, membership and cover tests, and the merge of two
  conjuncts.  Literals are compared structurally; the source compares them
  by object identity.
*/
module LiteralSets {

  /** A possibly negated relation over object identifiers. */
  datatype Literal = Literal(pol: bool, rel: string, args: seq<string>)

  /** A conjunction of literals. */
  type Conjunct = seq<Literal>

  /** A goal in disjunctive normal form: any one conjunct satisfies it. */
  type Goal = seq<Conjunct>

  predicate Distinct(s: seq<Literal>) {
    forall i, j :: 0 <= i < j < |s| ==> s[i] != s[j]
  }

  /** `s` with every literal after its first occurrence removed. */
  function Deduped(s: seq<Literal>): seq<Literal>
  {
    if s == [] then []
    else
      var r := Deduped(s[..|s| - 1]);
      if s[|s| - 1] in r then r else r + [s[|s| - 1]]
  }

  lemma DedupedSnoc(s: seq<Literal>, x: Literal)
    ensures Deduped(s + [x]) == if x in Deduped(s) then Deduped(s) else Deduped(s) + [x]
  {
    assert (s + [x])[..|s|] == s;
  }

  lemma {:induction false} DedupedMembers(s: seq<Literal>)
    ensures forall x :: x in Deduped(s) <==> x in s
  {
    if s != [] {
      DedupedMembers(s[..|s| - 1]);
      assert s == s[..|s| - 1] + [s[|s| - 1]];
    }
  }

  lemma {:induction false} DedupedDistinct(s: seq<Literal>)
    ensures Distinct(Deduped(s))
  {
    if s != [] {
      DedupedDistinct(s[..|s| - 1]);
    }
  }

  lemma {:induction false} DedupedOfDistinct(s: seq<Literal>)
    requires Distinct(s)
    ensures Deduped(s) == s
  {
    if s != [] {
      var init := s[..|s| - 1];
      assert Distinct(init);
      DedupedOfDistinct(init);
      assert s == init + [s[|s| - 1]];
    }
  }

  /** Stripping duplicates twice changes nothing. */
  lemma DedupedIdempotent(s: seq<Literal>)
    ensures Deduped(Deduped(s)) == Deduped(s)
  {
    DedupedDistinct(s);
    DedupedOfDistinct(Deduped(s));
  }

  /** Appending can only extend the stripped list: first occurrences stay where they were. */
  lemma {:induction false} DedupedPrefix(x: seq<Literal>, y: seq<Literal>)
    ensures Deduped(x) <= Deduped(x + y)
  {
    if y != [] {
      var y' := y[..|y| - 1];
      DedupedPrefix(x, y');
      assert x + y == (x + y') + [y[|y| - 1]];
      DedupedSnoc(x + y', y[|y| - 1]);
    } else {
      assert x + y == x;
    }
  }

  /** Appending literals that are already present changes nothing. */
  lemma {:induction false} DedupedAbsorbs(x: seq<Literal>, y: seq<Literal>)
    requires forall e :: e in y ==> e in x
    ensures Deduped(x + y) == Deduped(x)
  {
    if y != [] {
      var y' := y[..|y| - 1];
      DedupedAbsorbs(x, y');
      assert x + y == (x + y') + [y[|y| - 1]];
      DedupedSnoc(x + y', y[|y| - 1]);
      DedupedMembers(x);
    } else {
      assert x + y == x;
    }
  }

  lemma DedupedOfDoubled(s: seq<Literal>)
    ensures Deduped(s + s) == Deduped(s)
  {
    DedupedAbsorbs(s, s);
  }

  /** The position of the first occurrence of `x` in `s`. */
  function FirstIndex(s: seq<Literal>, x: Literal): (k: nat)
    requires x in s
    ensures k < |s| && s[k] == x && x !in s[..k]
  {
    if s[0] == x then 0 else 1 + FirstIndex(s[1..], x)
  }

  lemma FirstIndexUnique(s: seq<Literal>, x: Literal, k: nat)
    requires k < |s| && s[k] == x && x !in s[..k]
    ensures FirstIndex(s, x) == k
  {
  }

  /** The kept literals appear in the order of their first occurrences in the input. */
  lemma {:induction false} DedupedKeepsFirstOccurrenceOrder(s: seq<Literal>)
    ensures forall x :: x in Deduped(s) ==> x in s
    ensures forall i, j :: 0 <= i < j < |Deduped(s)| ==>
              FirstIndex(s, Deduped(s)[i]) < FirstIndex(s, Deduped(s)[j])
  {
    DedupedMembers(s);
    if s != [] {
      var init, e := s[..|s| - 1], s[|s| - 1];
      assert s == init + [e];
      DedupedKeepsFirstOccurrenceOrder(init);
      DedupedMembers(init);
      var d, d' := Deduped(s), Deduped(init);
      forall x | x in d'
        ensures FirstIndex(s, x) == FirstIndex(init, x)
      {
        var k := FirstIndex(init, x);
        assert s[..k] == init[..k];
        FirstIndexUnique(s, x, k);
      }
      if e !in d' {
        assert e !in init;
        assert s[..|s| - 1] == init;
        FirstIndexUnique(s, e, |s| - 1);
        forall i, j | 0 <= i < j < |d|
          ensures FirstIndex(s, d[i]) < FirstIndex(s, d[j])
        {
          assert d[i] in d';
          if j < |d'| {
            assert d[j] in d';
          }
        }
      }
    }
  }

  method ListContainsObject(list: seq<Literal>, obj: Literal) returns (found: bool)
    ensures found <==> obj in list
  {
    var i := 0;
    while i < |list|
      invariant 0 <= i <= |list|
      invariant obj !in list[..i]
    {
      if list[i] == obj {
        return true;
      }
      i := i + 1;
    }
    assert list[..i] == list;
    return false;
  }

  method StripDuplicates(literals: seq<Literal>) returns (newLiterals: seq<Literal>)
    ensures newLiterals == Deduped(literals)
  {
    newLiterals := [];
    var i := 0;
    while i < |literals|
      invariant 0 <= i <= |literals|
      invariant newLiterals == Deduped(literals[..i])
    {
      var present := ListContainsObject(newLiterals, literals[i]);
      if !present {
        newLiterals := newLiterals + [literals[i]];
      }
      assert literals[..i + 1] == literals[..i] + [literals[i]];
      DedupedSnoc(literals[..i], literals[i]);
      i := i + 1;
    }
    assert literals[..i] == literals;
  }

  /** Every literal of `l` occurs in `c`: a subset test, not equality. */
  predicate ContainsAll(c: Conjunct, l: Conjunct) {
    forall m :: 0 <= m < |l| ==> l[m] in c
  }

  /** Some conjunct of `ll` contains every literal of `l`. */
  predicate SomeContainsAll(ll: Goal, l: Conjunct) {
    exists i :: 0 <= i < |ll| && ContainsAll(ll[i], l)
  }

  method ListContainsList(listlist: Goal, list: Conjunct) returns (found: bool)
    ensures found <==> SomeContainsAll(listlist, list)
  {
    var i := 0;
    while i < |listlist|
      invariant 0 <= i <= |listlist|
      invariant forall k :: 0 <= k < i ==> !ContainsAll(listlist[k], list)
    {
      var isEqual := true;
      var j := 0;
      while j < |list|
        invariant 0 <= j <= |list|
        invariant isEqual <==> forall m :: 0 <= m < j ==> list[m] in listlist[i]
      {
        var present := ListContainsObject(listlist[i], list[j]);
        if !present {
          isEqual := false;
        }
        j := j + 1;
      }
      if isEqual {
        return true;
      }
      i := i + 1;
    }
    return false;
  }

  /**
    The merge `concatLiterals` computes: the literals of both conjuncts
    without duplicates, except that an empty first conjunct yields nothing,
    because the merging loop runs once per literal of the first.
  */
  function Merged(a: Conjunct, b: Conjunct): Conjunct
  {
    if a == [] then [] else Deduped(a + b)
  }

  /** A merge with a non-empty first conjunct is the duplicate-free union, led by the first. */
  lemma MergedIsUnion(a: Conjunct, b: Conjunct)
    requires a != []
    ensures Distinct(Merged(a, b))
    ensures forall x :: x in Merged(a, b) <==> x in a || x in b
    ensures Deduped(a) <= Merged(a, b)
  {
    DedupedDistinct(a + b);
    DedupedMembers(a + b);
    DedupedPrefix(a, b);
  }

  method ConcatLiterals(literals1: Conjunct, literals2: Conjunct) returns (r: Conjunct)
    ensures r == Merged(literals1, literals2)
  {
    var literals := literals1;
    var i := 0;
    while i < |literals1|
      invariant 0 <= i <= |literals1|
      invariant i == 0 ==> literals == literals1
      invariant i > 0 ==> Deduped(literals) == Deduped(literals1 + literals2)
    {
      assert literals1 + literals2[..0] == literals1;
      var j := 0;
      while j < |literals2|
        invariant 0 <= j <= |literals2|
        invariant Deduped(literals) == Deduped(literals1 + if i == 0 then literals2[..j] else literals2)
      {
        ghost var before := literals;
        if literals1[i] != literals2[j] {
          literals := literals + [literals2[j]];
        }
        MergeStep(literals1, literals2, i, j, before, literals);
        j := j + 1;
      }
      assert literals2[..|literals2|] == literals2;
      i := i + 1;
    }
    r := StripDuplicates(literals);
  }

  /** One step of the merging loop keeps the stripped accumulator on course. */
  lemma MergeStep(a: Conjunct, b: Conjunct, i: nat, j: nat, before: Conjunct, after: Conjunct)
    requires i < |a| && j < |b|
    requires Deduped(before) == Deduped(a + if i == 0 then b[..j] else b)
    requires after == if a[i] != b[j] then before + [b[j]] else before
    ensures Deduped(after) == Deduped(a + if i == 0 then b[..j + 1] else b)
  {
    if i == 0 {
      FirstRowStep(a, b, j, before, after);
    } else if a[i] != b[j] {
      DedupedMembers(a + b);
      assert b[j] in a + b;
      DedupedSnoc(before, b[j]);
    }
  }

  lemma FirstRowStep(a: Conjunct, b: Conjunct, j: nat, before: Conjunct, after: Conjunct)
    requires 0 < |a| && j < |b|
    requires Deduped(before) == Deduped(a + b[..j])
    requires after == if a[0] != b[j] then before + [b[j]] else before
    ensures Deduped(after) == Deduped(a + b[..j + 1])
  {
    var seen, x := a + b[..j], b[j];
    assert a + b[..j + 1] == seen + [x] by {
      assert b[..j + 1] == b[..j] + [x];
    }
    if a[0] == x {
      assert seen[0] == x;
      DedupedSnocPresent(seen, x);
    } else {
      DedupedSnoc(before, x);
      DedupedSnoc(seen, x);
    }
  }

  lemma DedupedSnocPresent(s: seq<Literal>, x: Literal)
    requires x in s
    ensures Deduped(s + [x]) == Deduped(s)
  {
    DedupedMembers(s);
    DedupedSnoc(s, x);
  }
}
