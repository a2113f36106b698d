/** The optional value used for SQL NULL and for request fields that may be absent. */
module Wrappers {
  datatype Option<+T> = None | Some(value: T)
}

/** Generic table machinery: a table is a map from primary key to row. This module
    gives the listing order of a query (ascending key, then newest first), the
    auto-increment key of an insert, and the `LIKE '%kw%'` substring test. */
module Tables {

  /** A set that is not empty has an element. */
  lemma HasElement(s: set<int>)
    requires s != {}
    ensures exists x :: x in s
  {
    if forall x :: x !in s {
      assert false;
    }
  }

  /** A value stored in a map is stored under some key. */
  lemma HasKey<T>(m: map<int, T>, x: T)
    requires x in m.Values
    ensures exists k :: k in m && m[k] == x
  {
    if forall k :: k in m ==> m[k] != x {
      assert false;
    }
  }

  /** `m` is the least element of `s`. */
  predicate IsLeast(m: int, s: set<int>)
  {
    m in s && forall k :: k in s ==> m <= k
  }

  /** Every finite non-empty set of keys has a least element. */
  lemma {:induction false} HasLeast(s: set<int>)
    requires s != {}
    ensures exists m :: IsLeast(m, s)
    decreases |s|
  {
    HasElement(s);
    var x :| x in s;
    var rest := s - {x};
    if rest == {} {
      forall k | k in s ensures x <= k {
        assert k !in rest;
      }
      assert IsLeast(x, s);
    } else {
      HasLeast(rest);
      var m :| IsLeast(m, rest);
      var least := if x < m then x else m;
      forall k | k in s ensures least <= k {
        if k != x {
          assert k in rest;
        }
      }
      assert IsLeast(least, s);
    }
  }

  /** The least key of a non-empty set of keys. */
  function Least(s: set<int>): (m: int)
    requires s != {}
    ensures m in s
    ensures forall k :: k in s ==> m <= k
  {
    HasLeast(s);
    var m :| IsLeast(m, s);
    m
  }

  /** `r` lists exactly the keys of `s`, each once, in increasing order. */
  ghost predicate ListsAscending(r: seq<int>, s: set<int>)
  {
    && |r| == |s|
    && (forall k :: k in r <==> k in s)
    && (forall i, j :: 0 <= i < j < |r| ==> r[i] < r[j])
  }

  /** Putting the least key in front of the ascending listing of the others
      gives the ascending listing of all. */
  lemma PrependLeast(s: set<int>, m: int, rest: seq<int>)
    requires m in s && forall k :: k in s ==> m <= k
    requires ListsAscending(rest, s - {m})
    ensures ListsAscending([m] + rest, s)
  {
    assert |s - {m}| == |s| - 1;
    forall k ensures k in [m] + rest <==> k in s {
      assert k in [m] + rest <==> k == m || k in rest;
    }
    forall j | 0 <= j < |rest| ensures m < rest[j] {
      assert rest[j] in s - {m};
    }
  }

  /** The keys of `s` in strictly increasing order. */
  function Ascending(s: set<int>): (r: seq<int>)
    ensures ListsAscending(r, s)
    decreases |s|
  {
    if s == {} then []
    else
      var m := Least(s);
      var rest := Ascending(s - {m});
      PrependLeast(s, m, rest);
      [m] + rest
  }

  /** A key that no row of `m` uses, larger than every key in use: the value an
      auto-increment primary key takes on the next insert. */
  function FreshKey<T>(m: map<int, T>): (k: int)
    ensures k !in m && k >= 1
    ensures forall j :: j in m ==> j < k
  {
    var ks := Ascending(m.Keys);
    if |ks| == 0 then 1
    else
      assert forall j :: j in m ==> j <= ks[|ks| - 1] by {
        forall j | j in m ensures j <= ks[|ks| - 1] {
          var i :| 0 <= i < |ks| && ks[i] == j;
          assert i == |ks| - 1 || ks[i] < ks[|ks| - 1];
        }
      }
      if ks[|ks| - 1] < 1 then 1 else ks[|ks| - 1] + 1
  }

  /** The rows of `m` that satisfy `p`, each once, in ascending key order. */
  function Select<T(==, !new)>(m: map<int, T>, p: T -> bool): (r: seq<T>)
    ensures forall x :: x in r <==> x in m.Values && p(x)
    ensures |r| == |Matching(m, p)|
  {
    var ks := Ascending(Matching(m, p));
    var r := seq(|ks|, i requires 0 <= i < |ks| => assert ks[i] in ks; m[ks[i]]);
    assert forall x :: x in r <==> x in m.Values && p(x) by {
      forall x | x in r ensures x in m.Values && p(x) {
        var i :| 0 <= i < |r| && r[i] == x;
        assert ks[i] in ks;
      }
      forall x | x in m.Values && p(x) ensures x in r {
        HasKey(m, x);
        var k :| k in m && m[k] == x;
        assert k in ks;
        var i :| 0 <= i < |ks| && ks[i] == k;
        assert r[i] == x;
      }
    }
    r
  }

  /** `s` lists newest rows first: no row is older than a row after it. */
  predicate NewestFirstOrdered<T>(s: seq<T>, stamp: T -> int)
  {
    forall i, j :: 0 <= i < j < |s| ==> stamp(s[i]) >= stamp(s[j])
  }

  /** Places `x` before the first row of `s` that is not newer than it. */
  function InsertNewest<T>(x: T, s: seq<T>, stamp: T -> int): (r: seq<T>)
    requires NewestFirstOrdered(s, stamp)
    ensures multiset(r) == multiset(s) + multiset{x}
    ensures NewestFirstOrdered(r, stamp)
    ensures r[0] == x || (s != [] && r[0] == s[0])
  {
    if s == [] || stamp(x) >= stamp(s[0]) then [x] + s
    else
      var t := InsertNewest(x, s[1..], stamp);
      assert s == [s[0]] + s[1..];
      assert forall j :: 0 <= j < |t| ==> stamp(s[0]) >= stamp(t[j]) by {
        forall j | 0 <= j < |t| ensures stamp(s[0]) >= stamp(t[j]) {
          assert stamp(t[0]) >= stamp(t[j]);
        }
      }
      [s[0]] + t
  }

  /** `ORDER BY created_at DESC`: the rows of `s` rearranged newest first; rows
      with equal stamps keep their relative order. */
  function NewestFirst<T>(s: seq<T>, stamp: T -> int): (r: seq<T>)
    ensures multiset(r) == multiset(s)
    ensures NewestFirstOrdered(r, stamp)
  {
    if s == [] then []
    else
      assert s == [s[0]] + s[1..];
      InsertNewest(s[0], NewestFirst(s[1..], stamp), stamp)
  }

  /** The keys of the rows of `m` that satisfy `p`. */
  function Matching<T>(m: map<int, T>, p: T -> bool): set<int>
  {
    set k | k in m && p(m[k])
  }

  /** `SELECT ... WHERE p ORDER BY created_at DESC`: the rows of `m` that
      satisfy `p`, each once, newest first. */
  function Query<T(==, !new)>(m: map<int, T>, p: T -> bool, stamp: T -> int): (r: seq<T>)
    ensures forall x :: x in r <==> x in m.Values && p(x)
    ensures |r| == |Matching(m, p)|
    ensures NewestFirstOrdered(r, stamp)
  {
    var rows := Select(m, p);
    var r := NewestFirst(rows, stamp);
    assert forall x :: x in r <==> x in rows by {
      forall x ensures x in r <==> x in rows {
        assert x in r <==> x in multiset(r);
      }
    }
    assert |r| == |multiset(r)| == |rows|;
    r
  }

  /** SQL `LIKE '%part%'`: `part` occurs in `text` as a contiguous substring. */
  predicate Contains(text: string, part: string)
  {
    exists i | 0 <= i <= |text| - |part| :: OccursAt(text, part, i)
  }

  /** `part` occurs in `text` starting at position `i`. */
  predicate OccursAt(text: string, part: string, i: int)
  {
    0 <= i <= |text| - |part| && text[i..i + |part|] == part
  }

  /** An empty keyword matches every text, so "no keyword" and "empty keyword"
      select the same rows. */
  lemma EmptyKeywordMatches(text: string)
    ensures Contains(text, "")
  {
    assert OccursAt(text, "", 0);
  }
}

/** JavaScript's `String.prototype.trim`, which the rating handler applies to
    review text. */
module Text {

  /** The characters `trim` removes: ECMAScript's WhiteSpace and LineTerminator
      code points. */
  predicate IsSpace(c: char)
  {
    var n := c as int;
    || (0x09 <= n <= 0x0D) || n == 0x20 || n == 0xA0 || n == 0x1680
    || (0x2000 <= n <= 0x200A) || n == 0x2028 || n == 0x2029 || n == 0x202F
    || n == 0x205F || n == 0x3000 || n == 0xFEFF
  }

  /** How many whitespace characters `s` starts with. */
  function Leading(s: string): (n: nat)
    ensures n <= |s|
    ensures forall k :: 0 <= k < n ==> IsSpace(s[k])
    ensures n == |s| || !IsSpace(s[n])
  {
    if s != [] && IsSpace(s[0]) then 1 + Leading(s[1..]) else 0
  }

  /** How many whitespace characters `s` ends with. */
  function Trailing(s: string): (n: nat)
    ensures n <= |s|
    ensures forall k :: |s| - n <= k < |s| ==> IsSpace(s[k])
    ensures n == |s| || !IsSpace(s[|s| - n - 1])
  {
    if s != [] && IsSpace(s[|s| - 1]) then 1 + Trailing(s[..|s| - 1]) else 0
  }

  /** `s` without its leading and trailing whitespace: a piece of `s` that
      starts at its first non-whitespace character, and nothing at all when
      `s` is whitespace only. */
  function Trim(s: string): (r: string)
    ensures Leading(s) + |r| <= |s|
    ensures r == s[Leading(s)..Leading(s) + |r|]
    ensures Leading(s) == |s| ==> r == []
  {
    var front := Leading(s);
    var rest := s[front..];
    rest[..|rest| - Trailing(rest)]
  }

  /** What `trim` keeps is one contiguous piece of the input, everything it
      drops is whitespace, and what it keeps neither starts nor ends with
      whitespace. */
  lemma TrimKeepsCore(s: string)
    ensures exists i, j ::
      && 0 <= i <= j <= |s| && Trim(s) == s[i..j]
      && (forall k :: 0 <= k < i ==> IsSpace(s[k]))
      && (forall k :: j <= k < |s| ==> IsSpace(s[k]))
    ensures Trim(s) == [] || (!IsSpace(Trim(s)[0]) && !IsSpace(Trim(s)[|Trim(s)| - 1]))
  {
    var i := Leading(s);
    var rest := s[i..];
    var j := i + |rest| - Trailing(rest);
    assert Trim(s) == s[i..j];
    forall k | j <= k < |s| ensures IsSpace(s[k]) {
      assert s[k] == rest[k - i];
    }
    var r := Trim(s);
    if r != [] {
      assert r[0] == rest[0];
    }
  }

  /** Trimming twice is trimming once. */
  lemma TrimIdempotent(s: string)
    ensures Trim(Trim(s)) == Trim(s)
  {
    TrimKeepsCore(s);
    var r := Trim(s);
    if r != [] {
      assert Leading(r) == 0;
      assert Trailing(r) == 0;
    } else {
      assert Trim(r) == [];
    }
  }
}
