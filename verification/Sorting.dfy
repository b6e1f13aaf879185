/** A stable sort by a numeric key, and how it respects order between inputs. */
module Sorting {
  ghost predicate SortedBy<T>(s: seq<T>, key: T -> real) {
    forall i, j :: 0 <= i < j < |s| ==> key(s[i]) <= key(s[j])
  }

  /** `x` goes in front of the first element it comes before. */
  function Place<T>(x: T, s: seq<T>, before: (T, T) -> bool): (r: seq<T>)
    ensures |r| == |s| + 1
  {
    if s == [] || before(x, s[0]) then [x] + s else [s[0]] + Place(x, s[1..], before)
  }

  function Under<T>(key: T -> real): (T, T) -> bool {
    (a: T, b: T) => key(a) < key(b)
  }

  function Insert<T>(x: T, s: seq<T>, key: T -> real): (r: seq<T>)
    ensures |r| == |s| + 1
  {
    Place(x, s, Under(key))
  }

  /** Later elements are placed after earlier ones with the same key. */
  function Sort<T>(s: seq<T>, key: T -> real): (r: seq<T>)
    ensures |r| == |s|
  {
    if s == [] then [] else Insert(s[|s| - 1], Sort(s[..|s| - 1], key), key)
  }

  lemma {:induction false} InsertKeeps<T>(x: T, s: seq<T>, key: T -> real)
    ensures multiset(Insert(x, s, key)) == multiset(s) + multiset{x}
  {
    if s != [] && !(key(x) < key(s[0])) {
      InsertKeeps(x, s[1..], key);
      assert s == [s[0]] + s[1..];
    }
  }

  lemma {:induction false} InsertSorts<T>(x: T, s: seq<T>, key: T -> real)
    requires SortedBy(s, key)
    ensures SortedBy(Insert(x, s, key), key)
  {
    if s != [] && !(key(x) < key(s[0])) {
      InsertSorts(x, s[1..], key);
      var r := Insert(x, s[1..], key);
      forall j | 0 <= j < |r| ensures key(s[0]) <= key(r[j]) {
        InsertKeeps(x, s[1..], key);
        assert r[j] in multiset(r);
        assert r[j] == x || r[j] in s[1..];
      }
    }
  }

  lemma {:induction false} SortSorts<T>(s: seq<T>, key: T -> real)
    ensures SortedBy(Sort(s, key), key)
    ensures multiset(Sort(s, key)) == multiset(s)
  {
    if s != [] {
      var init := s[..|s| - 1];
      SortSorts(init, key);
      InsertSorts(s[|s| - 1], Sort(init, key), key);
      InsertKeeps(s[|s| - 1], Sort(init, key), key);
      assert s == init + [s[|s| - 1]];
    }
  }

  lemma {:induction false} SortKeepsMembers<T>(s: seq<T>, key: T -> real)
    ensures forall x :: x in Sort(s, key) <==> x in s
  {
    SortSorts(s, key);
    forall x ensures x in Sort(s, key) <==> x in s {
      assert x in multiset(Sort(s, key)) <==> x in multiset(s);
    }
  }

  lemma TwicePlaced<T>(s: seq<T>, i: nat, j: nat)
    requires i < j < |s|
    ensures s[i] == s[j] ==> multiset(s)[s[j]] >= 2
  {
    assert s == s[..j] + [s[j]] + s[j + 1..];
    assert s[..j][i] in multiset(s[..j]);
  }

  ghost predicate Below<T>(a: seq<T>, b: seq<T>, key: T -> real) {
    |a| == |b| && forall i :: 0 <= i < |a| ==> key(a[i]) <= key(b[i])
  }

  lemma {:induction false} InsertMonotone<T>(x: T, y: T, s: seq<T>, t: seq<T>, key: T -> real)
    requires key(x) <= key(y) && Below(s, t, key) && SortedBy(s, key) && SortedBy(t, key)
    ensures Below(Insert(x, s, key), Insert(y, t, key), key)
    decreases |s|
  {
    if s != [] {
      if key(x) < key(s[0]) {
        // `x` leads on the left; on the right everything is at least what `s` holds there.
        InsertHead(y, t, key);
        var r := Insert(y, t, key);
        forall i | 0 <= i < |r| ensures key(([x] + s)[i]) <= key(r[i]) {
          if i > 0 {
            InsertShift(y, t, key, i - 1);
            assert key(s[i - 1]) <= key(t[i - 1]);
          }
        }
      } else if key(y) < key(t[0]) {
        InsertShiftDown(x, s, key);
        var l := Insert(x, s, key);
        forall i | 0 <= i < |l| ensures key(l[i]) <= key(([y] + t)[i]) {
          if i > 0 {
            assert key(l[i]) <= key(s[i - 1]) || key(l[i]) <= key(x);
            assert key(s[i - 1]) <= key(t[i - 1]) && key(t[0]) <= key(t[i - 1]);
          }
        }
      } else {
        InsertMonotone(x, y, s[1..], t[1..], key);
      }
    }
  }

  lemma InsertHead<T>(y: T, t: seq<T>, key: T -> real)
    ensures Insert(y, t, key)[0] == if t == [] || key(y) < key(t[0]) then y else t[0]
    ensures t != [] && !(key(y) < key(t[0])) ==> Insert(y, t, key)[1..] == Insert(y, t[1..], key)
  {
  }

  /** Inserting moves no element down: position `i + 1` afterwards is at least position `i` before. */
  lemma {:induction false} InsertShift<T>(y: T, t: seq<T>, key: T -> real, i: nat)
    requires SortedBy(t, key) && i < |t|
    ensures key(t[i]) <= key(Insert(y, t, key)[i + 1])
    decreases |t|
  {
    InsertHead(y, t, key);
    var r := Insert(y, t, key);
    if key(y) < key(t[0]) {
      assert r == [y] + t;
    } else {
      assert r[i + 1] == r[1..][i];
      if i == 0 {
        InsertHead(y, t[1..], key);
      } else {
        InsertShift(y, t[1..], key, i - 1);
      }
    }
  }

  /** And past the first place, what stands at `i` is at most what stood at `i - 1`, or the newcomer. */
  lemma {:induction false} InsertShiftDown<T>(x: T, s: seq<T>, key: T -> real)
    requires SortedBy(s, key)
    ensures forall i :: 0 < i <= |s| ==> key(Insert(x, s, key)[i]) <= key(s[i - 1]) || key(Insert(x, s, key)[i]) <= key(x)
  {
    if s != [] && !(key(x) < key(s[0])) {
      InsertShiftDown(x, s[1..], key);
      var r := Insert(x, s[1..], key);
      forall i | 0 < i <= |s| ensures key(Insert(x, s, key)[i]) <= key(s[i - 1]) || key(Insert(x, s, key)[i]) <= key(x) {
        if i - 1 > 0 {
          assert key(r[i - 1]) <= key(s[1..][i - 2]) || key(r[i - 1]) <= key(x);
        }
      }
    }
  }

  /** Sorting is monotone: raising every element raises every rank. */
  lemma {:induction false} SortMonotone<T>(a: seq<T>, b: seq<T>, key: T -> real)
    requires Below(a, b, key)
    ensures Below(Sort(a, key), Sort(b, key), key)
    decreases |a|
  {
    if a != [] {
      var n := |a| - 1;
      SortMonotone(a[..n], b[..n], key);
      SortSorts(a[..n], key);
      SortSorts(b[..n], key);
      InsertMonotone(a[n], b[n], Sort(a[..n], key), Sort(b[..n], key), key);
    }
  }
}
