/** The order in which S3Client::list_keys returns keys: lexicographic, by code point. */
module Order {

  predicate Less(a: string, b: string)
  {
    b != [] && (a == [] || a[0] < b[0] || (a[0] == b[0] && Less(a[1..], b[1..])))
  }

  lemma {:induction false} LessTotal(a: string, b: string)
    ensures Less(a, b) || a == b || Less(b, a)
  {
    if a != [] && b != [] && a[0] == b[0] {
      LessTotal(a[1..], b[1..]);
      assert a == [a[0]] + a[1..] && b == [b[0]] + b[1..];
    }
  }

  lemma {:induction false} LessTransitive(a: string, b: string, c: string)
    requires Less(a, b) && Less(b, c)
    ensures Less(a, c)
  {
    if a != [] && a[0] == b[0] == c[0] {
      LessTransitive(a[1..], b[1..], c[1..]);
    }
  }

  lemma {:induction false} LessIrreflexive(a: string)
    ensures !Less(a, a)
  {
    if a != [] {
      LessIrreflexive(a[1..]);
    }
  }

  /** A common prefix plays no part in the comparison. */
  lemma {:induction false} LessCancelsPrefix(p: string, a: string, b: string)
    ensures Less(p + a, p + b) <==> Less(a, b)
  {
    if p == [] {
      assert p + a == a && p + b == b;
    } else {
      assert (p + a)[1..] == p[1..] + a && (p + b)[1..] == p[1..] + b;
      LessCancelsPrefix(p[1..], a, b);
    }
  }

  // ---------- sorted key lists ----------

  ghost predicate StrictlySorted(keys: seq<string>)
  {
    forall i, j :: 0 <= i < j < |keys| ==> Less(keys[i], keys[j])
  }

  ghost predicate IsLeast(m: string, s: set<string>)
  {
    m in s && forall x :: x in s ==> x == m || Less(m, x)
  }

  lemma {:induction false} LeastExists(s: set<string>)
    requires s != {}
    ensures exists m :: IsLeast(m, s)
  {
    var x :| x in s;
    var rest := s - {x};
    if rest == {} {
      assert s == {x};
      assert IsLeast(x, s);
    } else {
      LeastExists(rest);
      var m :| IsLeast(m, rest);
      LessTotal(x, m);
      if Less(x, m) {
        forall y | y in s
          ensures y == x || Less(x, y)
        {
          if y != x && y != m {
            LessTransitive(x, m, y);
          }
        }
        assert IsLeast(x, s);
      } else {
        assert IsLeast(m, s);
      }
    }
  }

  /** The listing of a finite set of keys. */
  ghost function SortedKeys(s: set<string>): (keys: seq<string>)
    ensures StrictlySorted(keys)
    ensures forall k :: k in keys <==> k in s
  {
    if s == {} then []
    else
      LeastExists(s);
      var m :| IsLeast(m, s);
      [m] + SortedKeys(s - {m})
  }

  /** A strictly sorted enumeration of a set is its listing: there is only one. */
  lemma {:induction false} SortedKeysUnique(keys: seq<string>, s: set<string>)
    requires StrictlySorted(keys) && forall k :: k in keys <==> k in s
    ensures keys == SortedKeys(s)
    decreases |keys|
  {
    var other := SortedKeys(s);
    if keys == [] {
      assert s == {};
    } else {
      assert keys[0] in s;
      var m := other[0];
      assert m in s;
      if keys[0] != m {
        assert Less(keys[0], m) && Less(m, keys[0]) by {
          var i :| 0 <= i < |keys| && keys[i] == m;
          var j :| 0 <= j < |other| && other[j] == keys[0];
        }
        LessTransitive(m, keys[0], m);
        LessIrreflexive(m);
        assert false;
      }
      forall k
        ensures k in keys[1..] <==> k in s - {m}
      {
        LessIrreflexive(m);
      }
      SortedKeysUnique(keys[1..], s - {m});
      assert other == [m] + SortedKeys(s - {m});
    }
  }

  // ---------- sorting ----------

  function Insert(k: string, keys: seq<string>): (r: seq<string>)
  {
    if keys == [] || Less(k, keys[0]) then [k] + keys else [keys[0]] + Insert(k, keys[1..])
  }

  function Sort(keys: seq<string>): (r: seq<string>)
  {
    if keys == [] then [] else Insert(keys[0], Sort(keys[1..]))
  }

  lemma {:induction false} InsertSorts(k: string, keys: seq<string>)
    requires StrictlySorted(keys) && k !in keys
    ensures StrictlySorted(Insert(k, keys))
    ensures forall x :: x in Insert(k, keys) <==> x == k || x in keys
  {
    if keys != [] {
      if Less(k, keys[0]) {
        forall j | 0 <= j < |keys|
          ensures Less(k, keys[j])
        {
          if j > 0 {
            LessTransitive(k, keys[0], keys[j]);
          }
        }
      } else {
        LessTotal(k, keys[0]);
        InsertSorts(k, keys[1..]);
        var tail := Insert(k, keys[1..]);
        forall j | 0 <= j < |tail|
          ensures Less(keys[0], tail[j])
        {
          assert tail[j] in tail;
        }
        assert keys == [keys[0]] + keys[1..];
      }
    }
  }

  /** Sorting a duplicate-free enumeration of a set gives its listing. */
  lemma {:induction false} SortGivesListing(keys: seq<string>, s: set<string>)
    requires forall i, j :: 0 <= i < j < |keys| ==> keys[i] != keys[j]
    requires forall k :: k in keys <==> k in s
    ensures Sort(keys) == SortedKeys(s)
  {
    SortSorts(keys);
    SortedKeysUnique(Sort(keys), s);
  }

  lemma {:induction false} SortSorts(keys: seq<string>)
    requires forall i, j :: 0 <= i < j < |keys| ==> keys[i] != keys[j]
    ensures StrictlySorted(Sort(keys))
    ensures forall k :: k in Sort(keys) <==> k in keys
  {
    if keys != [] {
      SortSorts(keys[1..]);
      InsertSorts(keys[0], Sort(keys[1..]));
    }
  }
}
