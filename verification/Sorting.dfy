/** The stable sort the engine leans on: inserting each element after everything not above it. */
module Sorting {

  ghost predicate TotalPreorder<T(!new)>(le: (T, T) -> bool) {
    && (forall a, b :: le(a, b) || le(b, a))
    && (forall a, b, c :: le(a, b) && le(b, c) ==> le(a, c))
  }

  ghost predicate Sorted<T>(s: seq<T>, le: (T, T) -> bool) {
    forall i, j :: 0 <= i < j < |s| ==> le(s[i], s[j])
  }

  function Insert<T>(x: T, s: seq<T>, le: (T, T) -> bool): seq<T> {
    if |s| == 0 then [x]
    else if le(s[|s| - 1], x) then s + [x]
    else Insert(x, s[..|s| - 1], le) + [s[|s| - 1]]
  }

  function Sort<T>(s: seq<T>, le: (T, T) -> bool): seq<T> {
    if |s| == 0 then [] else Insert(s[|s| - 1], Sort(s[..|s| - 1], le), le)
  }

  lemma {:induction false} InsertKeeps<T>(x: T, s: seq<T>, le: (T, T) -> bool)
    ensures multiset(Insert(x, s, le)) == multiset(s) + multiset{x}
  {
    if |s| > 0 {
      var init, last := s[..|s| - 1], s[|s| - 1];
      assert s == init + [last];
      if !le(last, x) { InsertKeeps(x, init, le); }
    }
  }

  lemma {:induction false} SortKeeps<T>(s: seq<T>, le: (T, T) -> bool)
    ensures multiset(Sort(s, le)) == multiset(s)
    ensures |Sort(s, le)| == |s|
    ensures forall x :: x in Sort(s, le) <==> x in s
  {
    if |s| > 0 {
      var init, last := s[..|s| - 1], s[|s| - 1];
      assert s == init + [last];
      SortKeeps(init, le);
      InsertKeeps(last, Sort(init, le), le);
    }
    assert |multiset(Sort(s, le))| == |Sort(s, le)| && |multiset(s)| == |s|;
    forall x ensures x in Sort(s, le) <==> x in s {
      assert x in Sort(s, le) <==> x in multiset(Sort(s, le));
      assert x in s <==> x in multiset(s);
    }
  }

  lemma {:induction false} InsertSorted<T(!new)>(x: T, s: seq<T>, le: (T, T) -> bool)
    requires TotalPreorder(le) && Sorted(s, le)
    ensures Sorted(Insert(x, s, le), le)
  {
    if |s| > 0 {
      var init, last := s[..|s| - 1], s[|s| - 1];
      if le(last, x) {
        assert forall i :: 0 <= i < |s| ==> le(s[i], last);
      } else {
        InsertSorted(x, init, le);
        InsertKeeps(x, init, le);
        var inserted := Insert(x, init, le);
        forall i | 0 <= i < |inserted|
          ensures le(inserted[i], last)
        {
          assert inserted[i] in multiset(inserted);
          if inserted[i] != x {
            assert inserted[i] in init;
            var k :| 0 <= k < |init| && init[k] == inserted[i];
            assert le(s[k], s[|s| - 1]);
          }
        }
      }
    }
  }

  lemma {:induction false} SortSorted<T(!new)>(s: seq<T>, le: (T, T) -> bool)
    requires TotalPreorder(le)
    ensures Sorted(Sort(s, le), le)
  {
    if |s| > 0 {
      SortSorted(s[..|s| - 1], le);
      InsertSorted(s[|s| - 1], Sort(s[..|s| - 1], le), le);
    }
  }

  // ---------------------------------------------------------------- splitting at a threshold

  function Select<T>(s: seq<T>, p: T -> bool): seq<T> {
    if |s| == 0 then [] else Select(s[..|s| - 1], p) + if p(s[|s| - 1]) then [s[|s| - 1]] else []
  }

  lemma {:induction false} SelectMember<T>(s: seq<T>, p: T -> bool, x: T)
    ensures x in Select(s, p) <==> x in s && p(x)
  {
    if |s| > 0 {
      SelectMember(s[..|s| - 1], p, x);
      assert s == s[..|s| - 1] + [s[|s| - 1]];
    }
  }

  /** Inserting below a tail that lies wholly above, or above a head that lies wholly below. */
  lemma {:induction false} InsertBelow<T>(x: T, lo: seq<T>, hi: seq<T>, le: (T, T) -> bool)
    requires forall h :: h in hi ==> !le(h, x)
    ensures Insert(x, lo + hi, le) == Insert(x, lo, le) + hi
  {
    if |hi| == 0 {
      assert lo + hi == lo;
    } else {
      InsertBelow(x, lo, hi[..|hi| - 1], le);
      assert (lo + hi)[..|lo + hi| - 1] == lo + hi[..|hi| - 1];
    }
  }

  lemma {:induction false} InsertAbove<T>(x: T, lo: seq<T>, hi: seq<T>, le: (T, T) -> bool)
    requires forall l :: l in lo ==> le(l, x)
    ensures Insert(x, lo + hi, le) == lo + Insert(x, hi, le)
  {
    if |hi| == 0 {
      assert lo + hi == lo;
    } else {
      InsertAbove(x, lo, hi[..|hi| - 1], le);
      assert (lo + hi)[..|lo + hi| - 1] == lo + hi[..|hi| - 1];
    }
  }

  /** When everything in `low` sorts strictly before everything outside it, the sort is the sorted
      low part followed by the sorted rest. */
  lemma {:induction false} SortSplits<T(!new)>(s: seq<T>, le: (T, T) -> bool, low: T -> bool)
    requires TotalPreorder(le)
    requires forall a, b :: a in s && b in s && low(a) && !low(b) ==> !le(b, a)
    ensures Sort(s, le) == Sort(Select(s, low), le) + Sort(Select(s, (x: T) => !low(x)), le)
  {
    if |s| > 0 {
      var init, x := s[..|s| - 1], s[|s| - 1];
      var high := (y: T) => !low(y);
      SortSplits(init, le, low);
      var lo, hi := Sort(Select(init, low), le), Sort(Select(init, high), le);
      SortKeeps(Select(init, low), le);
      SortKeeps(Select(init, high), le);
      forall y ensures (y in lo <==> y in init && low(y)) && (y in hi <==> y in init && !low(y)) {
        SelectMember(init, low, y);
        SelectMember(init, high, y);
      }
      assert forall y :: y in init ==> y in s;
      if low(x) {
        InsertBelow(x, lo, hi, le);
        assert Select(s, low) == Select(init, low) + [x]
               && (Select(init, low) + [x])[..|Select(init, low)|] == Select(init, low);
        assert Select(s, high) == Select(init, high);
      } else {
        InsertAbove(x, lo, hi, le);
        assert Select(s, high) == Select(init, high) + [x]
               && (Select(init, high) + [x])[..|Select(init, high)|] == Select(init, high);
        assert Select(s, low) == Select(init, low);
      }
    }
  }
}
