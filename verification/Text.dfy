/** Strings as the operator uses them: Go's `<` on strings, `sort.Strings`, `%d`
    formatting and `strings.Contains`. A string is a sequence of code points; on
    valid UTF-8 the byte order of Go and the code point order are the same. */
module Text {
  import opened Collections

  /** Go's `a < b` on strings: lexicographic. */
  predicate Less(a: string, b: string)
  {
    b != [] && (a == [] || a[0] < b[0] || (a[0] == b[0] && Less(a[1..], b[1..])))
  }

  /** A proper prefix comes first; otherwise the first character in which the strings
      differ decides. */
  lemma {:induction false} LessIff(a: string, b: string)
    ensures Less(a, b) <==>
              a != b && (a <= b || exists i :: 0 <= i < |a| && i < |b| && a[..i] == b[..i] && a[i] < b[i])
  {
    if a != [] && b != [] {
      if a[0] == b[0] {
        var x, y := a[1..], b[1..];
        LessIff(x, y);
        assert a == [a[0]] + x && b == [b[0]] + y;
        if i :| 0 <= i < |x| && i < |y| && x[..i] == y[..i] && x[i] < y[i] {
          assert a[..i + 1] == [a[0]] + x[..i] && b[..i + 1] == [b[0]] + y[..i];
          assert a[i + 1] < b[i + 1];
        }
        if i :| 0 <= i < |a| && i < |b| && a[..i] == b[..i] && a[i] < b[i] {
          assert x[..i - 1] == a[..i][1..] && y[..i - 1] == b[..i][1..];
          assert x[i - 1] < y[i - 1];
        }
      } else {
        assert a[..0] == b[..0];
        forall i | 0 < i < |a| && i < |b| ensures a[..i] != b[..i] {
          assert a[..i][0] == a[0] && b[..i][0] == b[0];
        }
      }
    }
  }

  lemma {:induction false} LessIrreflexive(a: string)
    ensures !Less(a, a)
  {
    if a != [] { LessIrreflexive(a[1..]); }
  }

  lemma {:induction false} LessTransitive(a: string, b: string, c: string)
    requires Less(a, b) && Less(b, c)
    ensures Less(a, c)
  {
    if a != [] && a[0] == b[0] && b[0] == c[0] {
      LessTransitive(a[1..], b[1..], c[1..]);
    }
  }

  lemma {:induction false} LessTotal(a: string, b: string)
    ensures Less(a, b) || a == b || Less(b, a)
  {
    if a != [] && b != [] && a[0] == b[0] {
      LessTotal(a[1..], b[1..]);
      assert a == [a[0]] + a[1..] && b == [b[0]] + b[1..];
    }
  }

  lemma LessAsymmetric(a: string, b: string)
    requires Less(a, b)
    ensures !Less(b, a)
  {
    if Less(b, a) {
      LessTransitive(a, b, a);
      LessIrreflexive(a);
    }
  }

  /** No element is smaller than one that stands before it. */
  ghost predicate Sorted(xs: seq<string>)
  {
    forall i, j :: 0 <= i < j < |xs| ==> !Less(xs[j], xs[i])
  }

  function InsertSorted(x: string, xs: seq<string>): (ys: seq<string>)
    requires Sorted(xs)
    ensures Sorted(ys) && multiset(ys) == multiset(xs) + multiset{x}
    ensures xs != [] ==> ys[0] == x || ys[0] == xs[0]
  {
    if xs == [] then [x]
    else if Less(x, xs[0]) then
      InsertFront(x, xs);
      assert multiset([x] + xs) == multiset(xs) + multiset{x};
      [x] + xs
    else
      var rest := InsertSorted(x, xs[1..]);
      InsertBehind(x, xs, rest);
      [xs[0]] + rest
  }

  lemma InsertFront(x: string, xs: seq<string>)
    requires xs != [] && Sorted(xs) && Less(x, xs[0])
    ensures Sorted([x] + xs)
  {
    forall j | 0 <= j < |xs| ensures !Less(xs[j], x) {
      if Less(xs[j], x) {
        LessTransitive(xs[j], x, xs[0]);
        LessIrreflexive(xs[0]);
      }
    }
  }

  lemma InsertBehind(x: string, xs: seq<string>, rest: seq<string>)
    requires xs != [] && Sorted(xs) && !Less(x, xs[0])
    requires Sorted(rest) && multiset(rest) == multiset(xs[1..]) + multiset{x}
    ensures Sorted([xs[0]] + rest)
    ensures multiset([xs[0]] + rest) == multiset(xs) + multiset{x}
  {
    assert xs == [xs[0]] + xs[1..];
    forall j | 0 <= j < |rest| ensures !Less(rest[j], xs[0]) {
      assert rest[j] in multiset(rest);
      assert rest[j] == x || rest[j] in xs[1..];
    }
  }

  /** `sort.Strings`. */
  function SortStrings(xs: seq<string>): (ys: seq<string>)
    ensures Sorted(ys) && multiset(ys) == multiset(xs)
  {
    if xs == [] then [] else
      assert xs == [xs[0]] + xs[1..];
      InsertSorted(xs[0], SortStrings(xs[1..]))
  }

  lemma SortedSameHead(a: seq<string>, b: seq<string>)
    requires Sorted(a) && Sorted(b) && multiset(a) == multiset(b) && a != [] && b != []
    ensures a[0] == b[0]
  {
    assert a[0] in multiset(b) && b[0] in multiset(a);
    var i :| 0 <= i < |b| && b[i] == a[0];
    var j :| 0 <= j < |a| && a[j] == b[0];
    LessTotal(a[0], b[0]);
  }

  /** A multiset of strings has one sorted listing, so the order in which a map was
      walked before the sort cannot be seen afterwards. */
  lemma {:induction false} SortedUnique(a: seq<string>, b: seq<string>)
    requires Sorted(a) && Sorted(b) && multiset(a) == multiset(b)
    ensures a == b
  {
    assert |multiset(a)| == |a| && |multiset(b)| == |b|;
    if a != [] {
      SortedSameHead(a, b);
      assert a == [a[0]] + a[1..] && b == [b[0]] + b[1..];
      assert multiset(a[1..]) == multiset(a) - multiset{a[0]};
      assert multiset(b[1..]) == multiset(b) - multiset{b[0]};
      SortedUnique(a[1..], b[1..]);
    }
  }

  lemma SortKeepsElements(xs: seq<string>)
    ensures forall x :: x in SortStrings(xs) <==> x in xs
  {
    var ys := SortStrings(xs);
    forall x ensures x in ys <==> x in xs {
      assert x in multiset(ys) <==> x in ys;
      assert x in multiset(xs) <==> x in xs;
    }
  }

  lemma SortKeepsNoDuplicates(xs: seq<string>)
    requires NoDuplicates(xs)
    ensures NoDuplicates(SortStrings(xs))
  {
    var ys := SortStrings(xs);
    forall i, j | 0 <= i < j < |ys| ensures ys[i] != ys[j] {
      if ys[i] == ys[j] {
        RepeatedCountsTwice(ys, i, j);
        NoDuplicatesCount(xs, ys[i]);
      }
    }
  }

  /** `%d` of a number that is not negative. */
  function Decimal(n: nat): string
  {
    if n < 10 then [Digit(n)] else Decimal(n / 10) + [Digit(n % 10)]
  }

  function Digit(d: nat): (c: char)
    requires d < 10
    ensures '0' <= c <= '9' && c as int == 48 + d
  {
    (48 + d) as char
  }

  function DecimalValue(s: string): int
  {
    if s == [] then 0 else 10 * DecimalValue(s[..|s| - 1]) + (s[|s| - 1] as int - 48)
  }

  lemma {:induction false} DecimalRoundTrip(n: nat)
    ensures DecimalValue(Decimal(n)) == n
    ensures |Decimal(n)| > 0 && forall i :: 0 <= i < |Decimal(n)| ==> '0' <= Decimal(n)[i] <= '9'
  {
    if n >= 10 {
      DecimalRoundTrip(n / 10);
      assert Decimal(n)[..|Decimal(n)| - 1] == Decimal(n / 10);
    } else {
      assert Decimal(n)[..0] == [];
      assert DecimalValue([]) == 0;
    }
  }

  lemma DecimalInjective(m: nat, n: nat)
    requires Decimal(m) == Decimal(n)
    ensures m == n
  {
    DecimalRoundTrip(m);
    DecimalRoundTrip(n);
  }

  /** `fmt.Sprintf("%s-%d", name, i)`. */
  function Numbered(name: string, i: nat): string
  {
    name + "-" + Decimal(i)
  }

  /** The number has no dash in it, so the last dash separates the two parts. */
  lemma NumberedInjective(a: string, i: nat, b: string, j: nat)
    requires Numbered(a, i) == Numbered(b, j)
    ensures a == b && i == j
  {
    DecimalRoundTrip(i);
    DecimalRoundTrip(j);
    var s, t := Numbered(a, i), Numbered(b, j);
    assert s[|a|] == '-' && t[|b|] == '-';
    assert |a| == |b|;
    assert a == s[..|a|] && b == t[..|b|];
    assert Decimal(i) == s[|a| + 1..] && Decimal(j) == t[|b| + 1..];
    DecimalInjective(i, j);
  }

  /** `strings.Contains(s, sub)`. */
  predicate HasSubstring(s: string, sub: string)
  {
    exists i :: 0 <= i <= |s| && sub <= s[i..]
  }

  /** A string is missing as a substring when one of its characters is. */
  lemma LacksCharLacksSubstring(s: string, sub: string, k: nat)
    requires k < |sub| && sub[k] !in s
    ensures !HasSubstring(s, sub)
  {
    forall i | 0 <= i <= |s| ensures !(sub <= s[i..]) {
      if i + k < |s| {
        assert s[i..][k] == s[i + k];
      }
    }
  }
}
