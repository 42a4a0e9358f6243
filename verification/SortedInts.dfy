/** Ordered integer sets kept as ascending sequences. */
module SortedInts {

  function InsertInt(s: seq<int>, x: int): seq<int> {
    if s == [] || x < s[0] then [x] + s else if x == s[0] then s else [s[0]] + InsertInt(s[1..], x)
  }

  ghost predicate RisingInts(s: seq<int>) { forall i, j | 0 <= i < j < |s| :: s[i] < s[j] }

  lemma {:induction false} InsertIntOk(s: seq<int>, x: int)
    requires RisingInts(s)
    ensures RisingInts(InsertInt(s, x)) && forall y :: y in InsertInt(s, x) <==> y == x || y in s
    decreases |s|
  {
    if s != [] && x > s[0] {
      InsertIntOk(s[1..], x);
      var rest := InsertInt(s[1..], x);
      assert s == [s[0]] + s[1..];
      forall j | 0 <= j < |rest| ensures s[0] < rest[j] { assert rest[j] in rest; }
    }
  }

  /** Sorted, each once. */
  method SortUnique(xs: seq<int>) returns (s: seq<int>)
    ensures RisingInts(s) && forall y :: y in s <==> y in xs
  {
    s := [];
    for i := 0 to |xs|
      invariant RisingInts(s) && forall y :: y in s <==> y in xs[..i]
    {
      assert xs[..i + 1] == xs[..i] + [xs[i]];
      InsertIntOk(s, xs[i]);
      s := InsertInt(s, xs[i]);
    }
    assert xs[..|xs|] == xs;
  }
}
