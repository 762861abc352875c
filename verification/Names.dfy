/** Flag names in the order of `String::cmp`, and lists sorted by name. */
module Names {

  /** Lexicographic order by code point. */
  predicate Less(a: string, b: string) {
    b != [] && (a == [] || a[0] < b[0] || (a[0] == b[0] && Less(a[1..], b[1..])))
  }

  lemma {:induction false} LessTotal(a: string, b: string)
    ensures Less(a, b) || Less(b, a) || a == b
  {
    if a != [] && b != [] && a[0] == b[0] {
      LessTotal(a[1..], b[1..]);
      assert a == [a[0]] + a[1..] && b == [b[0]] + b[1..];
    }
  }

  lemma {:induction false} LessTrans(a: string, b: string, c: string)
    requires Less(a, b) && Less(b, c)
    ensures Less(a, c)
  {
    if a != [] && a[0] == b[0] && b[0] == c[0] { LessTrans(a[1..], b[1..], c[1..]); }
  }

  lemma {:induction false} LessIrreflexive(a: string)
    ensures !Less(a, a)
  {
    if a != [] { LessIrreflexive(a[1..]); }
  }

  /** One name comes before another where they first differ, or as a proper prefix of it. */
  lemma {:induction false} LessMeaning(a: string, b: string)
    ensures Less(a, b) <==> (a < b || exists k :: 0 <= k < |a| && k < |b| && a[..k] == b[..k] && a[k] < b[k])
  {
    if a != [] && b != [] && a[0] == b[0] {
      LessMeaning(a[1..], b[1..]);
      assert a == [a[0]] + a[1..] && b == [b[0]] + b[1..];
      if k :| 0 <= k < |a[1..]| && k < |b[1..]| && a[1..][..k] == b[1..][..k] && a[1..][k] < b[1..][k] {
        assert a[..k + 1] == [a[0]] + a[1..][..k] && b[..k + 1] == [b[0]] + b[1..][..k];
        assert a[k + 1] < b[k + 1];
      }
      if k :| 0 <= k < |a| && k < |b| && a[..k] == b[..k] && a[k] < b[k] {
        assert a[1..][..k - 1] == a[..k][1..] && b[1..][..k - 1] == b[..k][1..];
        assert a[1..][k - 1] < b[1..][k - 1];
      }
    } else if a != [] && b != [] && a[0] < b[0] {
      assert a[..0] == b[..0];
    }
  }

  ghost predicate Ascending(s: seq<string>) {
    forall i, j :: 0 <= i < j < |s| ==> Less(s[i], s[j])
  }

  /** Insert into an ascending list, once. */
  function InsertName(s: seq<string>, n: string): (r: seq<string>)
    ensures forall x :: x in r <==> x in s || x == n
  {
    if s == [] then [n]
    else if s[|s| - 1] == n then s
    else if Less(s[|s| - 1], n) then s + [n]
    else
      assert s == s[..|s| - 1] + [s[|s| - 1]];
      InsertName(s[..|s| - 1], n) + [s[|s| - 1]]
  }

  lemma {:induction false} InsertNameAscends(s: seq<string>, n: string)
    requires Ascending(s)
    ensures Ascending(InsertName(s, n))
  {
    if s != [] && s[|s| - 1] != n {
      var front, last := s[..|s| - 1], s[|s| - 1];
      if Less(last, n) {
        forall i | 0 <= i < |s| ensures Less(s[i], n) {
          if i < |s| - 1 { LessTrans(s[i], last, n); }
        }
      } else {
        LessTotal(last, n);
        InsertNameAscends(front, n);
        var r := InsertName(front, n);
        forall i | 0 <= i < |r| ensures Less(r[i], last) { assert r[i] in r; }
      }
    }
  }

  /** The names of a list, ascending and without repetition. */
  function Sorted(names: seq<string>): (r: seq<string>)
    ensures forall x :: x in r <==> x in names
  {
    if names == [] then [] else
    assert names == names[..|names| - 1] + [names[|names| - 1]];
    InsertName(Sorted(names[..|names| - 1]), names[|names| - 1])
  }

  lemma {:induction false} SortedAscends(names: seq<string>)
    ensures Ascending(Sorted(names))
  {
    if names != [] {
      SortedAscends(names[..|names| - 1]);
      InsertNameAscends(Sorted(names[..|names| - 1]), names[|names| - 1]);
    }
  }

  function Members(s: seq<string>): set<string> {
    set x | x in s
  }

  /** An ascending list is determined by its members. */
  lemma {:induction false} AscendingUnique(a: seq<string>, b: seq<string>)
    requires Ascending(a) && Ascending(b) && Members(a) == Members(b)
    ensures a == b
  {
    assert a != [] ==> a[|a| - 1] in Members(b);
    assert b != [] ==> b[|b| - 1] in Members(a);
    if a != [] && b != [] {
      SameLast(a, b);
      MembersOfFront(a);
      MembersOfFront(b);
      AscendingUnique(a[..|a| - 1], b[..|b| - 1]);
      assert a == a[..|a| - 1] + [a[|a| - 1]] && b == b[..|b| - 1] + [b[|b| - 1]];
    }
  }

  lemma {:induction false} SameLast(a: seq<string>, b: seq<string>)
    requires Ascending(a) && Ascending(b) && a != [] && b != []
    requires a[|a| - 1] in b && b[|b| - 1] in a
    ensures a[|a| - 1] == b[|b| - 1]
  {
    var x, y := a[|a| - 1], b[|b| - 1];
    var i :| 0 <= i < |b| && b[i] == x;
    var j :| 0 <= j < |a| && a[j] == y;
    LessIrreflexive(x);
    if Less(x, y) && Less(y, x) { LessTrans(x, y, x); }
  }

  lemma {:induction false} MembersOfFront(a: seq<string>)
    requires Ascending(a) && a != []
    ensures Members(a[..|a| - 1]) == Members(a) - {a[|a| - 1]}
  {
    var front, last := a[..|a| - 1], a[|a| - 1];
    assert a == front + [last];
    LessIrreflexive(last);
  }
}
