/**
  The order in which file names are compared when the recent-session list is
  sorted. On Unix a file name compares byte-wise, and byte-wise order of UTF-8
  text is the lexicographic order of its code points, so names are compared
  here character by character, a proper prefix coming first.
 */
module StringOrder {

  /** `a` sorts strictly before `b`. */
  predicate Below(a: string, b: string)
    decreases |a|
  {
    if |a| == 0 then |b| > 0
    else if |b| == 0 then false
    else if a[0] != b[0] then a[0] < b[0]
    else Below(a[1..], b[1..])
  }

  lemma {:induction false} BelowIrreflexive(a: string)
    ensures !Below(a, a)
    decreases |a|
  {
    if |a| > 0 {
      BelowIrreflexive(a[1..]);
    }
  }

  lemma {:induction false} BelowTransitive(a: string, b: string, c: string)
    requires Below(a, b) && Below(b, c)
    ensures Below(a, c)
    decreases |a|
  {
    if |a| > 0 && a[0] == b[0] && b[0] == c[0] {
      BelowTransitive(a[1..], b[1..], c[1..]);
    }
  }

  lemma {:induction false} BelowTotal(a: string, b: string)
    requires a != b
    ensures Below(a, b) || Below(b, a)
    decreases |a|
  {
    if |a| > 0 && |b| > 0 && a[0] == b[0] {
      assert a == [a[0]] + a[1..] && b == [b[0]] + b[1..];
      BelowTotal(a[1..], b[1..]);
    }
  }

  /** `m` is a member of `s` that no member of `s` sorts after. */
  predicate IsGreatest(m: string, s: set<string>) {
    m in s && forall y :: y in s ==> !Below(m, y)
  }

  lemma {:induction false} GreatestExists(s: set<string>)
    requires s != {}
    ensures exists m :: IsGreatest(m, s)
    decreases |s|
  {
    var x :| x in s;
    if s != {x} {
      var rest := s - {x};
      GreatestExists(rest);
      var m :| IsGreatest(m, rest);
      if Below(m, x) {
        forall y | y in s ensures !Below(x, y) {
          if y == x {
            BelowIrreflexive(x);
          } else if Below(x, y) {
            BelowTransitive(m, x, y);
          }
        }
        assert IsGreatest(x, s);
      } else {
        assert IsGreatest(m, s) by {
          if x != m { BelowTotal(x, m); }
          BelowIrreflexive(x);
        }
      }
    } else {
      BelowIrreflexive(x);
      assert IsGreatest(x, s);
    }
  }

  lemma GreatestUnique(s: set<string>)
    ensures forall a, b :: IsGreatest(a, s) && IsGreatest(b, s) ==> a == b
  {
    forall a, b | IsGreatest(a, s) && IsGreatest(b, s) ensures a == b {
      if a != b {
        BelowTotal(a, b);
      }
    }
  }

  function Greatest(s: set<string>): (m: string)
    requires s != {}
    ensures IsGreatest(m, s)
  {
    GreatestExists(s);
    GreatestUnique(s);
    var m :| IsGreatest(m, s); m
  }

  predicate StrictlyDescending(names: seq<string>) {
    forall i, j :: 0 <= i < j < |names| ==> Below(names[j], names[i])
  }

  /** The members of `s`, greatest first: `sort_by(|a, b| b.cmp(a))` over a set of distinct names. */
  function SortDescending(s: set<string>): (names: seq<string>)
    ensures |names| == |s|
    ensures forall i :: 0 <= i < |names| ==> names[i] in s
    ensures forall x :: x in s ==> x in names
    ensures StrictlyDescending(names)
    decreases |s|
  {
    if s == {} then []
    else
      var m := Greatest(s);
      var rest := SortDescending(s - {m});
      assert forall i :: 0 <= i < |rest| ==> Below(rest[i], m) by {
        forall i | 0 <= i < |rest| ensures Below(rest[i], m) {
          assert rest[i] in s && rest[i] != m;
          BelowTotal(rest[i], m);
        }
      }
      [m] + rest
  }
}
