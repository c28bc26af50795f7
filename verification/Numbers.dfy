/** Integer arithmetic and finite-set cardinality shared by the other modules. */
module Numbers {

  datatype Option<+T> = None | Some(value: T)

  datatype Result<+T, +E> = Ok(value: T) | Err(error: E)

  function Min(a: int, b: int): int { if a <= b then a else b }

  function Max(a: int, b: int): int { if a >= b then a else b }

  function RealMin(a: real, b: real): real { if a <= b then a else b }

  function RealCeil(x: real): int { -((-x).Floor) }

  type Byte = b: int | 0 <= b < 256

  function SaturatingSub(a: nat, b: nat): nat { if a >= b then a - b else 0 }

  /** Decimal digits of a natural number. */
  function Decimal(n: nat): (s: string)
    ensures s != ""
  {
    var digit := ['0' + (n % 10) as char];
    if n < 10 then digit else Decimal(n / 10) + digit
  }

  lemma {:induction false} DecimalIsDigits(n: nat)
    ensures forall c :: c in Decimal(n) ==> '0' <= c <= '9'
  {
    if n >= 10 { DecimalIsDigits(n / 10); }
  }

  /** The number that a string of digits stands for. */
  function NumberOf(digits: string): nat {
    if digits == "" then 0
    else
      var last := digits[|digits| - 1];
      10 * NumberOf(digits[..|digits| - 1]) + if '0' <= last <= '9' then (last - '0') as nat else 0
  }

  lemma {:induction false} DecimalReadsBack(n: nat)
    ensures NumberOf(Decimal(n)) == n
  {
    var front, digit := if n < 10 then "" else Decimal(n / 10), ['0' + (n % 10) as char];
    assert Decimal(n) == front + digit;
    assert (front + digit)[..|front|] == front;
    if n >= 10 { DecimalReadsBack(n / 10); }
  }

  lemma DecimalIsUnique(m: nat, n: nat)
    requires Decimal(m) == Decimal(n)
    ensures m == n
  {
    DecimalReadsBack(m);
    DecimalReadsBack(n);
  }

  /** Quotient rounded up: `div_ceil` in Rust, `ceil(a / b)` in Python. */
  function CeilDiv(a: nat, b: nat): (q: nat)
    requires b > 0
  {
    if a == 0 then 0 else if a <= b then 1 else 1 + CeilDiv(a - b, b)
  }

  lemma {:induction false} CeilDivBounds(a: nat, b: nat)
    requires b > 0
    ensures CeilDiv(a, b) * b - b < a <= CeilDiv(a, b) * b
  {
    if a > b {
      CeilDivBounds(a - b, b);
      assert (1 + CeilDiv(a - b, b)) * b == b + CeilDiv(a - b, b) * b;
    }
  }

  lemma MulLe(a: int, b: int, c: int)
    requires a <= b && 0 <= c
    ensures a * c <= b * c
  {
  }

  lemma MulCommutes(a: int, b: int)
    ensures a * b == b * a
  {
  }

  /** Distinct multiples of `m` are at least `m` apart. */
  lemma MulGap(p: int, q: int, m: int)
    requires p < q && 0 <= m
    ensures p * m + m <= q * m
  {
    MulLe(p + 1, q, m);
    assert (p + 1) * m == p * m + m;
  }

  /** The rounded-up quotient is the only multiplier whose multiple first reaches `a`. */
  lemma CeilDivUnique(a: nat, b: nat, q: int)
    requires b > 0 && q * b - b < a <= q * b
    ensures CeilDiv(a, b) == q
  {
    var c := CeilDiv(a, b);
    CeilDivBounds(a, b);
    hide CeilDiv;
    if c < q {
      MulGap(c, q, b);
    } else if q < c {
      MulGap(q, c, b);
    }
  }

  lemma CeilDivAtMost(t: nat, size: nat)
    requires t > 0 && size > 0
    ensures 1 <= CeilDiv(t, size) <= t
  {
    var d := CeilDiv(t, size);
    CeilDivBounds(t, size);
    hide CeilDiv;
    if d > t {
      MulGap(t, d, size);
      MulLe(1, size, t);
      MulCommutes(size, t);
    }
    if d < 1 { MulLe(d, 0, size); }
  }

  /** A stride of as many elements as there are batches takes at most a batch. */
  lemma StrideAtMost(t: nat, d: nat, b: nat, size: nat)
    requires size > 0 && d == CeilDiv(t, size) && b < d <= t
    ensures 1 <= CeilDiv(t - b, d) <= size
  {
    var c := CeilDiv(t - b, d);
    CeilDivBounds(t, size);
    CeilDivAtMost(t - b, d);
    CeilDivBounds(t - b, d);
    hide CeilDiv;
    if c > size {
      MulGap(size, c, d);
      MulCommutes(size, d);
    }
  }

  lemma DivModUnique(x: int, d: int, q: int, r: int)
    requires 0 <= r < d && x == q * d + r
    ensures x / d == q && x % d == r
  {
    var k := x / d;
    assert x == k * d + x % d;
    if k < q {
      MulGap(k, q, d);
    } else if q < k {
      MulGap(q, k, d);
    }
  }

  lemma SameDivMod(a: int, b: int, d: int)
    requires d > 0 && a / d == b / d && a % d == b % d
    ensures a == b
  {
    assert a == d * (a / d) + a % d && b == d * (b / d) + b % d;
  }

  lemma QuotientBelow(x: nat, d: nat, p: nat)
    requires x < d * p
    ensures d > 0 && x / d < p
  {
    if d == 0 { MulLe(0, p, 0); }
    assert x == d * (x / d) + x % d;
    if x / d >= p { MulLe(p, x / d, d); }
  }

  lemma ModShift(x: int, d: int)
    requires d > 0
    ensures (x - d) % d == x % d
  {
    assert x == (x / d) * d + x % d;
    assert (x / d) * d - d == (x / d - 1) * d;
    DivModUnique(x - d, d, x / d - 1, x % d);
  }

  /** Any M consecutive integers contain a member of every residue class modulo M. */
  lemma ResidueInWindow(start: int, m: int, r: int) returns (c: int)
    requires 0 <= r < m
    ensures start <= c < start + m && c % m == r
  {
    var k := (r - start) / m;
    c := start + (r - start) % m;
    assert r - start == k * m + (r - start) % m;
    assert c == (-k) * m + r;
    DivModUnique(c, m, -k, r);
  }

  /** ... and only one. */
  lemma ResidueUniqueInWindow(start: int, m: int, a: int, b: int)
    requires m > 0 && start <= a < start + m && start <= b < start + m
    requires a % m == b % m
    ensures a == b
  {
    var p, q := a / m, b / m;
    assert a == p * m + a % m && b == q * m + b % m;
    if p < q {
      MulGap(p, q, m);
    } else if q < p {
      MulGap(q, p, m);
    }
  }

  ghost predicate NoDuplicates<T>(s: seq<T>)
  {
    forall i, j :: 0 <= i < j < |s| ==> s[i] != s[j]
  }

  lemma NoDuplicatesConcat<T>(a: seq<T>, b: seq<T>)
    requires NoDuplicates(a) && NoDuplicates(b)
    requires forall x :: x in a ==> x !in b
    ensures NoDuplicates(a + b)
  {
    forall i, j | 0 <= i < j < |a + b| ensures (a + b)[i] != (a + b)[j] {
      if i < |a| <= j { assert a[i] in a && b[j - |a|] in b; }
    }
  }

  ghost function ToSet<T>(s: seq<T>): set<T>
  {
    set x | x in s
  }

  lemma {:induction false} NoDuplicatesCard<T>(s: seq<T>)
    requires NoDuplicates(s)
    ensures |ToSet(s)| == |s|
  {
    if s != [] {
      var t := s[..|s| - 1];
      NoDuplicatesCard(t);
      assert s == t + [s[|s| - 1]];
      assert ToSet(s) == ToSet(t) + {s[|s| - 1]};
      assert s[|s| - 1] !in ToSet(t);
    }
  }

  predicate InRange(i: int, n: int)
  {
    0 <= i < n
  }

  function Below(n: nat): set<int>
  {
    set i | 0 <= i < n && InRange(i, n)
  }

  lemma {:induction false} BelowCard(n: nat)
    ensures |Below(n)| == n
  {
    if n > 0 {
      BelowCard(n - 1);
      assert Below(n) == Below(n - 1) + {n - 1};
    }
  }

  ghost function Product<A, B>(xs: set<A>, ys: set<B>): set<(A, B)>
  {
    set x, y | x in xs && y in ys :: (x, y)
  }

  lemma {:induction false} RowCard<A, B>(x: A, ys: set<B>)
    ensures |Product({x}, ys)| == |ys|
  {
    if ys == {} {
      assert Product({x}, ys) == {};
    } else {
      var y :| y in ys;
      RowCard(x, ys - {y});
      assert Product({x}, ys) == Product({x}, ys - {y}) + {(x, y)};
    }
  }

  lemma {:induction false} ProductCard<A, B>(xs: set<A>, ys: set<B>)
    ensures |Product(xs, ys)| == |xs| * |ys|
  {
    if xs == {} {
      assert Product(xs, ys) == {};
    } else {
      var x :| x in xs;
      ProductCard(xs - {x}, ys);
      RowCard(x, ys);
      SplitRow(xs, ys, x);
      hide Product;
      MulSuccessor(|xs - {x}|, |ys|);
    }
  }

  lemma SplitRow<A, B>(xs: set<A>, ys: set<B>, x: A)
    requires x in xs
    ensures |Product(xs, ys)| == |Product(xs - {x}, ys)| + |Product({x}, ys)|
  {
    assert Product(xs, ys) == Product(xs - {x}, ys) + Product({x}, ys);
    assert Product(xs - {x}, ys) !! Product({x}, ys);
  }

  lemma MulSuccessor(a: int, b: int)
    ensures (a + 1) * b == a * b + b
  {
  }

  lemma SubsetCard<T>(a: set<T>, b: set<T>)
    requires a <= b
    ensures |a| <= |b|
    ensures |a| == |b| ==> a == b
  {
    assert b == a + (b - a);
    assert |b| == |a| + |b - a|;
  }
}
