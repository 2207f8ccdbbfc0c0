/**
 Link discovery post-processing: the raw hrefs collected from the listing page are
 turned into `sorted(list(set(all_hrefs)))`, the URL sequence the download loop walks.
 */
module Discovery {
  import opened Strings

  /** Every element is smaller than every later one, in Python's `str` order. */
  predicate StrictlyAscending(s: seq<string>)
  {
    forall i, j :: 0 <= i < j < |s| ==> Less(s[i], s[j])
  }

  /** The set of elements of a sequence, Python's `set(s)`. */
  function Elems(s: seq<string>): set<string>
  {
    set x | x in s
  }

  predicate NoDuplicates(s: seq<string>)
  {
    forall i, j :: 0 <= i < j < |s| ==> s[i] != s[j]
  }

  /** Adds `x` to a strictly ascending sequence, keeping it strictly ascending. */
  function Insert(x: string, s: seq<string>): (r: seq<string>)
    requires StrictlyAscending(s)
    ensures StrictlyAscending(r)
    ensures Elems(r) == Elems(s) + {x}
  {
    if s == [] then [x]
    else if x == s[0] then s
    else if Less(x, s[0]) then
      assert forall k :: 0 <= k < |s| ==> Less(x, s[k]) by {
        forall k | 0 < k < |s| ensures Less(x, s[k]) { LessTransitive(x, s[0], s[k]); }
      }
      [x] + s
    else
      LessTotal(x, s[0]);
      var tail := Insert(x, s[1..]);
      ConsAscending(s, x, tail);
      [s[0]] + tail
  }

  /** The head of `s` goes in front of an ascending `tail` holding the rest of `s` and `x > s[0]`. */
  lemma ConsAscending(s: seq<string>, x: string, tail: seq<string>)
    requires StrictlyAscending(s) && |s| > 0 && Less(s[0], x)
    requires StrictlyAscending(tail) && Elems(tail) == Elems(s[1..]) + {x}
    ensures StrictlyAscending([s[0]] + tail)
    ensures Elems([s[0]] + tail) == Elems(s) + {x}
  {
    forall k | 0 <= k < |tail| ensures Less(s[0], tail[k]) {
      assert tail[k] in Elems(tail);
    }
    assert Elems(s) == {s[0]} + Elems(s[1..]) by { assert s == [s[0]] + s[1..]; }
    assert Elems([s[0]] + tail) == {s[0]} + Elems(tail);
  }

  /** `sorted(list(set(hrefs)))`. */
  function UniqueSorted(hrefs: seq<string>): (urls: seq<string>)
    ensures StrictlyAscending(urls)
    ensures Elems(urls) == Elems(hrefs)
  {
    if hrefs == [] then []
    else
      var n := |hrefs| - 1;
      assert Elems(hrefs) == Elems(hrefs[..n]) + {hrefs[n]} by {
        assert hrefs == hrefs[..n] + [hrefs[n]];
      }
      Insert(hrefs[n], UniqueSorted(hrefs[..n]))
  }

  /** A strictly ascending sequence holds no element twice. */
  lemma AscendingHasNoDuplicates(s: seq<string>)
    requires StrictlyAscending(s)
    ensures NoDuplicates(s)
  {
    forall i, j | 0 <= i < j < |s| ensures s[i] != s[j] {
      LessIrreflexive(s[i]);
    }
  }

  /** The head of a non-empty strictly ascending sequence is below every other element. */
  lemma HeadIsLeast(s: seq<string>, y: string)
    requires StrictlyAscending(s) && |s| > 0
    requires y in Elems(s) && y != s[0]
    ensures Less(s[0], y)
  {
    var k :| 0 <= k < |s| && s[k] == y;
  }

  /** A set has exactly one strictly ascending arrangement. */
  lemma {:induction false} AscendingUnique(a: seq<string>, b: seq<string>)
    requires StrictlyAscending(a) && StrictlyAscending(b)
    requires Elems(a) == Elems(b)
    ensures a == b
    decreases |a|
  {
    assert a != [] ==> a[0] in Elems(a);
    assert b != [] ==> b[0] in Elems(b);
    if a != [] && b != [] {
      if a[0] != b[0] {
        HeadIsLeast(a, b[0]);
        HeadIsLeast(b, a[0]);
        LessAsymmetric(a[0], b[0]);
      }
      LessIrreflexive(a[0]);
      assert a[0] !in Elems(a[1..]);
      assert b[0] !in Elems(b[1..]);
      assert Elems(a) == Elems(a[1..]) + {a[0]} by { assert a == [a[0]] + a[1..]; }
      assert Elems(b) == Elems(b[1..]) + {b[0]} by { assert b == [b[0]] + b[1..]; }
      assert Elems(a[1..]) == Elems(b[1..]);
      AscendingUnique(a[1..], b[1..]);
      assert a == [a[0]] + a[1..];
      assert b == [b[0]] + b[1..];
    }
  }

  /**
   Discovery is deterministic: two raw href collections with the same elements, in any
   order and with any repetitions, give the same URL sequence.
   */
  lemma UniqueSortedDeterministic(h1: seq<string>, h2: seq<string>)
    requires Elems(h1) == Elems(h2)
    ensures UniqueSorted(h1) == UniqueSorted(h2)
  {
    AscendingUnique(UniqueSorted(h1), UniqueSorted(h2));
  }

  /** The discovered sequence holds every raw href exactly once and nothing else. */
  lemma UniqueSortedExactlyOnce(hrefs: seq<string>, x: string)
    ensures x in hrefs <==> x in UniqueSorted(hrefs)
    ensures NoDuplicates(UniqueSorted(hrefs))
  {
    AscendingHasNoDuplicates(UniqueSorted(hrefs));
    assert x in hrefs <==> x in Elems(hrefs);
    assert x in UniqueSorted(hrefs) <==> x in Elems(UniqueSorted(hrefs));
  }

  /** Two relative listing links, one of them repeated, come out once each and in order. */
  lemma DuplicatedListingScenario()
    ensures UniqueSorted(["/richtlijn/b", "/richtlijn/a", "/richtlijn/a"])
         == ["/richtlijn/a", "/richtlijn/b"]
  {
    var p := "/richtlijn/";
    var a, b := p + "a", p + "b";
    assert a == "/richtlijn/a" && b == "/richtlijn/b";
    LessCommonPrefix(p, "a", "b");
    assert Elems([b, a, a]) == {a, b} == Elems([a, b]);
    AscendingUnique(UniqueSorted([b, a, a]), [a, b]);
  }
}
