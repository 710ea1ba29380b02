/** Sums over finite sets of names, and the byte order on names. */
module Sums {
  ghost function SumOver(s: set<string>, f: string -> int): int {
    if s == {} then 0 else var x :| x in s; f(x) + SumOver(s - {x}, f)
  }

  lemma {:induction false} SumPick(s: set<string>, f: string -> int, x: string)
    requires x in s
    ensures SumOver(s, f) == f(x) + SumOver(s - {x}, f)
    decreases s
  {
    var y :| y in s && SumOver(s, f) == f(y) + SumOver(s - {y}, f);
    if y != x {
      SumPick(s - {y}, f, x);
      SumPick(s - {x}, f, y);
      assert s - {y} - {x} == s - {x} - {y};
    }
  }

  lemma {:induction false} SumAgree(s: set<string>, f: string -> int, g: string -> int)
    requires forall x | x in s :: f(x) == g(x)
    ensures SumOver(s, f) == SumOver(s, g)
    decreases s
  {
    if s != {} {
      var x :| x in s;
      SumPick(s, f, x);
      SumPick(s, g, x);
      SumAgree(s - {x}, f, g);
    }
  }

  lemma {:induction false} SumSplit(s: set<string>, t: set<string>, f: string -> int)
    requires s !! t
    ensures SumOver(s + t, f) == SumOver(s, f) + SumOver(t, f)
    decreases t
  {
    if t == {} {
      assert s + t == s;
    } else {
      var x :| x in t;
      SumPick(t, f, x);
      SumPick(s + t, f, x);
      assert s + t - {x} == s + (t - {x});
      SumSplit(s, t - {x}, f);
    }
  }

  lemma {:induction false} SumNonNegative(s: set<string>, f: string -> int)
    requires forall x | x in s :: f(x) >= 0
    ensures SumOver(s, f) >= 0
    decreases s
  {
    if s != {} {
      var x :| x in s;
      SumPick(s, f, x);
      SumNonNegative(s - {x}, f);
    }
  }

  lemma SumSubset(s: set<string>, t: set<string>, f: string -> int)
    requires s <= t && forall x | x in t :: f(x) >= 0
    ensures SumOver(s, f) <= SumOver(t, f)
  {
    SumSplit(s, t - s, f);
    assert s + (t - s) == t;
    SumNonNegative(t - s, f);
  }

  lemma {:induction false} SumAdd(s: set<string>, f: string -> int, g: string -> int, h: string -> int)
    requires forall x | x in s :: h(x) == f(x) + g(x)
    ensures SumOver(s, h) == SumOver(s, f) + SumOver(s, g)
    decreases s
  {
    if s != {} {
      var x :| x in s;
      SumPick(s, f, x);
      SumPick(s, g, x);
      SumPick(s, h, x);
      SumAdd(s - {x}, f, g, h);
    }
  }

  lemma SumIgnoresZeros(s: set<string>, t: set<string>, f: string -> int)
    requires s <= t && forall x | x in t - s :: f(x) == 0
    ensures SumOver(s, f) == SumOver(t, f)
  {
    SumSplit(s, t - s, f);
    assert s + (t - s) == t;
    SumZero(t - s, f);
  }

  lemma {:induction false} SumZero(s: set<string>, f: string -> int)
    requires forall x | x in s :: f(x) == 0
    ensures SumOver(s, f) == 0
    decreases s
  {
    if s != {} {
      var x :| x in s;
      SumPick(s, f, x);
      SumZero(s - {x}, f);
    }
  }

  // ---------------------------------------------------------------------------
  // Names

  predicate Less(a: string, b: string) {
    b != "" && (a == "" || a[0] < b[0] || (a[0] == b[0] && Less(a[1..], b[1..])))
  }

  lemma {:induction false} LessIrreflexive(a: string)
    ensures !Less(a, a)
  {
    if a != "" {
      LessIrreflexive(a[1..]);
    }
  }

  lemma {:induction false} LessTransitive(a: string, b: string, c: string)
    requires Less(a, b) && Less(b, c)
    ensures Less(a, c)
  {
    if a != "" && a[0] == b[0] && b[0] == c[0] {
      LessTransitive(a[1..], b[1..], c[1..]);
    }
  }

  lemma {:induction false} LessTotal(a: string, b: string)
    ensures Less(a, b) || Less(b, a) || a == b
  {
    if a != "" && b != "" && a[0] == b[0] {
      LessTotal(a[1..], b[1..]);
      if a[1..] == b[1..] {
        assert a == [a[0]] + a[1..] && b == [b[0]] + b[1..];
      }
    }
  }

  predicate DiffersAt(a: string, b: string, k: int) {
    0 <= k < |a| && k < |b| && a[..k] == b[..k] && a[k] != b[k]
  }

  /** Go's `<` on strings: a proper prefix, or the smaller character where they first differ. */
  ghost predicate StringLess(a: string, b: string) {
    a < b || exists k :: DiffersAt(a, b, k) && a[k] < b[k]
  }

  lemma SameBefore(a: string, b: string, k: int)
    requires DiffersAt(a, b, k)
    ensures k > 0 ==> a[0] == b[0]
  {
    if k > 0 {
      assert a[..k][0] == a[0] && b[..k][0] == b[0];
    }
  }

  lemma OtherHead(a: string, b: string)
    requires a != "" && b != "" && a[0] != b[0]
    ensures StringLess(a, b) <==> a[0] < b[0]
  {
    assert DiffersAt(a, b, 0);
    if k :| DiffersAt(a, b, k) && a[k] < b[k] {
      SameBefore(a, b, k);
    }
  }

  lemma SameHead(a: string, b: string)
    requires a != "" && b != "" && a[0] == b[0]
    ensures StringLess(a, b) <==> StringLess(a[1..], b[1..])
  {
    var c, ta, tb := a[0], a[1..], b[1..];
    assert a == [c] + ta && b == [c] + tb;
    if k :| DiffersAt(a, b, k) && a[k] < b[k] {
      DropHead(c, ta, tb, k);
    }
    if k :| DiffersAt(ta, tb, k) && ta[k] < tb[k] {
      DropHead(c, ta, tb, k + 1);
    }
    assert a < b <==> ta < tb;
  }

  lemma DropHead(c: char, a: string, b: string, k: int)
    ensures DiffersAt([c] + a, [c] + b, k) <==> k > 0 && DiffersAt(a, b, k - 1)
  {
    if 0 < k <= |a| && k <= |b| {
      assert ([c] + a)[..k] == [c] + a[..k - 1] && ([c] + b)[..k] == [c] + b[..k - 1];
      assert ([c] + a)[..k][1..] == a[..k - 1] && ([c] + b)[..k][1..] == b[..k - 1];
    }
  }

  lemma {:induction false} LessIsStringOrder(a: string, b: string)
    ensures Less(a, b) <==> StringLess(a, b)
    decreases |a|
  {
    if a != "" && b != "" {
      if a[0] == b[0] {
        SameHead(a, b);
        LessIsStringOrder(a[1..], b[1..]);
      } else {
        OtherHead(a, b);
      }
    }
  }
}
