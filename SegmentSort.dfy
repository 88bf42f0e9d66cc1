/** The segments of one report entry and the order the report puts them in:
    `sorted(segments, key=lambda k: k['end'], reverse=True)`, a stable sort
    on the `end` text, latest first. Python keeps equal keys in their
    original order even with `reverse=True`. */
module SegmentSort {
  import opened Text

  /** One reservation as the report shows it. */
  datatype Segment = Segment(end: string, id: string, name: string, owner: string, start: string)

  /** `end` never increases from one segment to a later one. */
  predicate SortedByEndDesc(s: seq<Segment>)
  {
    forall i, j :: 0 <= i < j < |s| ==> LexLe(s[j].end, s[i].end)
  }

  /** The segments of `s` whose `end` is `key`, in their order in `s`. */
  function WithEnd(s: seq<Segment>, key: string): seq<Segment>
  {
    if s == [] then []
    else (if s[0].end == key then [s[0]] else []) + WithEnd(s[1..], key)
  }

  /** Puts `x` in front of the first segment that does not end later than
      it, so that `x` precedes the segments whose `end` equals its own. */
  function Insert(x: Segment, s: seq<Segment>): seq<Segment>
  {
    if s == [] || LexLe(s[0].end, x.end) then [x] + s
    else [s[0]] + Insert(x, s[1..])
  }

  /** The stable descending sort on `end`, as insertion of each segment in
      front of the sorted rest. */
  function SortByEndDesc(s: seq<Segment>): seq<Segment>
  {
    if s == [] then [] else Insert(s[0], SortByEndDesc(s[1..]))
  }

  lemma WithEndCons(x: Segment, s: seq<Segment>, key: string)
    ensures WithEnd([x] + s, key) == (if x.end == key then [x] else []) + WithEnd(s, key)
  {
    assert ([x] + s)[1..] == s;
  }

  /** `WithEnd` only selects: what it returns comes from `s` and has `key`. */
  lemma {:induction false} WithEndSelects(s: seq<Segment>, key: string, y: Segment)
    requires y in WithEnd(s, key)
    ensures y in s && y.end == key
  {
    if s[0] != y || s[0].end != key {
      WithEndSelects(s[1..], key, y);
    }
  }

  lemma {:induction false} InsertPermutes(x: Segment, s: seq<Segment>)
    ensures multiset(Insert(x, s)) == multiset(s) + multiset{x}
  {
    if s != [] && !LexLe(s[0].end, x.end) {
      InsertPermutes(x, s[1..]);
      assert s == [s[0]] + s[1..];
    }
  }

  /** A segment that ends no earlier than any segment of a sorted sequence
      can go in front of it. */
  lemma SortedCons(y: Segment, t: seq<Segment>)
    requires SortedByEndDesc(t)
    requires forall k :: 0 <= k < |t| ==> LexLe(t[k].end, y.end)
    ensures SortedByEndDesc([y] + t)
  {
    var r := [y] + t;
    forall i, j | 0 <= i < j < |r| ensures LexLe(r[j].end, r[i].end) {
      assert r[j] == t[j - 1];
      if i > 0 {
        assert r[i] == t[i - 1];
      }
    }
  }

  /** In a sorted sequence, every segment ends no later than one that the
      first segment does not end after. */
  lemma BelowFirst(y: Segment, s: seq<Segment>)
    requires SortedByEndDesc(s) && s != [] && LexLe(s[0].end, y.end)
    ensures forall k :: 0 <= k < |s| ==> LexLe(s[k].end, y.end)
  {
    forall k | 0 < k < |s| ensures LexLe(s[k].end, y.end) {
      LexLeTransitive(s[k].end, s[0].end, y.end);
    }
  }

  lemma {:induction false} InsertSorted(x: Segment, s: seq<Segment>)
    requires SortedByEndDesc(s)
    ensures SortedByEndDesc(Insert(x, s))
  {
    if s == [] {
    } else if LexLe(s[0].end, x.end) {
      BelowFirst(x, s);
      SortedCons(x, s);
    } else {
      LexLeTotal(s[0].end, x.end);
      var t := Insert(x, s[1..]);
      assert SortedByEndDesc(s[1..]);
      InsertSorted(x, s[1..]);
      InsertPermutes(x, s[1..]);
      forall k | 0 <= k < |t| ensures LexLe(t[k].end, s[0].end) {
        var y := t[k];
        assert y in multiset(t);
        if y != x {
          assert y in multiset(s[1..]);
          var m :| 0 <= m < |s[1..]| && s[1..][m] == y;
          assert s[m + 1] == y;
        }
      }
      SortedCons(s[0], t);
    }
  }

  /** The per-key view of two sequences one after the other is the view
      of the first followed by the view of the second. */
  lemma {:induction false} WithEndAppend(s: seq<Segment>, t: seq<Segment>, key: string)
    ensures WithEnd(s + t, key) == WithEnd(s, key) + WithEnd(t, key)
  {
    if s == [] {
      assert s + t == t;
    } else {
      var first := if s[0].end == key then [s[0]] else [];
      WithEndAppend(s[1..], t, key);
      assert s + t == [s[0]] + (s[1..] + t);
      WithEndCons(s[0], s[1..] + t, key);
      assert s == [s[0]] + s[1..];
      WithEndCons(s[0], s[1..], key);
      assert first + (WithEnd(s[1..], key) + WithEnd(t, key)) == first + WithEnd(s[1..], key) + WithEnd(t, key);
    }
  }

  lemma {:induction false} InsertStable(x: Segment, s: seq<Segment>, key: string)
    ensures WithEnd(Insert(x, s), key) == WithEnd([x] + s, key)
  {
    if s != [] && !LexLe(s[0].end, x.end) {
      var t := Insert(x, s[1..]);
      var first := if s[0].end == key then [s[0]] else [];
      var mine := if x.end == key then [x] else [];
      LexLeReflexive(x.end);
      assert s[0].end != x.end;
      calc {
        WithEnd(Insert(x, s), key);
        { assert Insert(x, s) == [s[0]] + t; WithEndCons(s[0], t, key); }
        first + WithEnd(t, key);
        { InsertStable(x, s[1..], key); WithEndCons(x, s[1..], key); }
        first + (mine + WithEnd(s[1..], key));
        { if s[0].end == key { assert mine == []; } else { assert first == []; } }
        mine + (first + WithEnd(s[1..], key));
        { WithEndCons(s[0], s[1..], key); assert [s[0]] + s[1..] == s; }
        mine + WithEnd(s, key);
        { WithEndCons(x, s, key); }
        WithEnd([x] + s, key);
      }
    }
  }

  /** The result is ordered latest `end` first. */
  lemma {:induction false} SortByEndDescSorted(s: seq<Segment>)
    ensures SortedByEndDesc(SortByEndDesc(s))
  {
    if s != [] {
      SortByEndDescSorted(s[1..]);
      InsertSorted(s[0], SortByEndDesc(s[1..]));
    }
  }

  /** The result holds exactly the input segments, each as often. */
  lemma {:induction false} SortByEndDescPermutes(s: seq<Segment>)
    ensures multiset(SortByEndDesc(s)) == multiset(s)
    ensures |SortByEndDesc(s)| == |s|
  {
    if s != [] {
      SortByEndDescPermutes(s[1..]);
      InsertPermutes(s[0], SortByEndDesc(s[1..]));
      assert s == [s[0]] + s[1..];
    }
    assert |SortByEndDesc(s)| == |multiset(SortByEndDesc(s))|;
  }

  /** Stability: the segments that share an `end` keep their input order. */
  lemma {:induction false} SortByEndDescStable(s: seq<Segment>, key: string)
    ensures WithEnd(SortByEndDesc(s), key) == WithEnd(s, key)
  {
    if s != [] {
      SortByEndDescStable(s[1..], key);
      InsertStable(s[0], SortByEndDesc(s[1..]), key);
      WithEndCons(s[0], SortByEndDesc(s[1..]), key);
      WithEndCons(s[0], s[1..], key);
      assert [s[0]] + s[1..] == s;
    }
  }

  /** In a sequence sorted latest first, the first segment ends no earlier
      than any other. */
  lemma SortedFirstIsLatest(s: seq<Segment>, y: Segment)
    requires SortedByEndDesc(s) && y in s
    ensures LexLe(y.end, s[0].end)
  {
    var i :| 0 <= i < |s| && s[i] == y;
    if i == 0 {
      LexLeReflexive(y.end);
    }
  }

  /** Two sorted sequences with the same segments per `end` start alike. */
  lemma SortedStableSameFirst(a: seq<Segment>, b: seq<Segment>)
    requires SortedByEndDesc(a) && SortedByEndDesc(b)
    requires a != [] && b != []
    requires forall key :: WithEnd(a, key) == WithEnd(b, key)
    ensures a[0] == b[0]
  {
    var ka, kb := a[0].end, b[0].end;
    assert WithEnd(b, kb) == [b[0]] + WithEnd(b[1..], kb);
    WithEndSelects(a, kb, b[0]);
    SortedFirstIsLatest(a, b[0]);
    assert WithEnd(a, ka) == [a[0]] + WithEnd(a[1..], ka);
    WithEndSelects(b, ka, a[0]);
    SortedFirstIsLatest(b, a[0]);
    LexLeAntisymmetric(ka, kb);
    assert WithEnd(b, ka) == [b[0]] + WithEnd(b[1..], ka);
    assert WithEnd(a, ka)[0] == a[0];
  }

  /** Being ordered by `end` and keeping the order among equal `end`s pins a
      sequence down completely: any two such arrangements are equal. */
  lemma {:induction false} SortedStableUnique(a: seq<Segment>, b: seq<Segment>)
    requires SortedByEndDesc(a) && SortedByEndDesc(b)
    requires forall key :: WithEnd(a, key) == WithEnd(b, key)
    ensures a == b
    decreases |a|
  {
    if a == [] || b == [] {
      if a != [] {
        ghost var firstKey := WithEnd(a, a[0].end);
        assert false;
      }
      if b != [] {
        ghost var firstKey := WithEnd(b, b[0].end);
        assert false;
      }
    } else {
      SortedStableSameFirst(a, b);
      forall key ensures WithEnd(a[1..], key) == WithEnd(b[1..], key) {
        var first := if a[0].end == key then [a[0]] else [];
        assert WithEnd(a, key) == first + WithEnd(a[1..], key);
        assert WithEnd(b, key) == first + WithEnd(b[1..], key);
        assert WithEnd(a[1..], key) == WithEnd(a, key)[|first|..];
      }
      SortedStableUnique(a[1..], b[1..]);
    }
  }

  /** Together: `SortByEndDesc` is the one arrangement that a stable sort
      by `end`, latest first, can produce. */
  lemma SortByEndDescIsStableSort(s: seq<Segment>, r: seq<Segment>)
    requires SortedByEndDesc(r)
    requires forall key :: WithEnd(r, key) == WithEnd(s, key)
    ensures r == SortByEndDesc(s)
  {
    SortByEndDescSorted(s);
    forall key ensures WithEnd(SortByEndDesc(s), key) == WithEnd(r, key) {
      SortByEndDescStable(s, key);
    }
    SortedStableUnique(SortByEndDesc(s), r);
  }
}
