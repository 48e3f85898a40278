/** Shared vocabulary for the dashboard model: optional values, the JavaScript
    string operations the front end relies on (`includes`, `trim`, `\s`,
    `toLowerCase`, `join`, number-to-string), plain objects as ordered
    key/value lists with the object-spread merge, and the integer forms of
    `Math.round` and `Math.ceil` over ratios. */
module Common {

  datatype Option<+T> = None | Some(value: T) {
    function GetOr(default: T): T {
      match this
      case Some(v) => v
      case None => default
    }
  }

  // ---------------------------------------------------------------------------
  // Strings

  /** p occurs in s starting at index i. */
  predicate OccursAt(s: string, p: string, i: int) {
    0 <= i <= |s| - |p| && s[i..i + |p|] == p
  }

  /** `s.includes(p)`: p occurs in s at some position. */
  predicate Contains(s: string, p: string) {
    exists i | 0 <= i <= |s| - |p| :: OccursAt(s, p, i)
  }

  lemma ContainsAt(s: string, p: string, i: int)
    requires OccursAt(s, p, i)
    ensures Contains(s, p)
  {
  }

  /** The empty pattern occurs in every string (so `"".includes("")` holds). */
  lemma ContainsEmpty(s: string)
    ensures Contains(s, "")
  {
    assert OccursAt(s, "", 0);
  }

  /** An occurrence inside a prefix or a suffix is an occurrence in the whole. */
  lemma ContainsConcat(a: string, b: string, p: string)
    requires Contains(a, p) || Contains(b, p)
    ensures Contains(a + b, p)
  {
    if Contains(a, p) {
      var i :| 0 <= i <= |a| - |p| && OccursAt(a, p, i);
      assert (a + b)[i..i + |p|] == a[i..i + |p|];
      assert OccursAt(a + b, p, i);
    } else {
      var i :| 0 <= i <= |b| - |p| && OccursAt(b, p, i);
      assert (a + b)[|a| + i..|a| + i + |p|] == b[i..i + |p|];
      assert OccursAt(a + b, p, |a| + i);
    }
  }

  /** The characters matched by `\s` in a JavaScript regular expression, which
      are also the characters `String.prototype.trim` removes. */
  predicate IsSpace(c: char) {
    c == ' ' || c == '\t' || c == '\n' || c == '\r' || c == '\U{B}' || c == '\U{C}'
    || c == '\U{A0}' || c == '\U{1680}' || ('\U{2000}' <= c <= '\U{200A}')
    || c == '\U{2028}' || c == '\U{2029}' || c == '\U{202F}' || c == '\U{205F}'
    || c == '\U{3000}' || c == '\U{FEFF}'
  }

  predicate NoSpace(s: string) {
    forall i | 0 <= i < |s| :: !IsSpace(s[i])
  }

  lemma NoSpaceSlice(s: string, a: int, b: int)
    requires NoSpace(s) && 0 <= a <= b <= |s|
    ensures NoSpace(s[a..b])
  {
    forall m | 0 <= m < b - a ensures !IsSpace(s[a..b][m]) {
      assert s[a..b][m] == s[a + m];
    }
  }

  function TrimStart(s: string): (r: string)
    ensures |r| <= |s| && r == s[|s| - |r|..]
    ensures r == "" || !IsSpace(r[0])
  {
    if |s| > 0 && IsSpace(s[0]) then TrimStart(s[1..]) else s
  }

  function TrimEnd(s: string): (r: string)
    ensures |r| <= |s| && r == s[..|r|]
    ensures r == "" || !IsSpace(r[|r| - 1])
  {
    if |s| > 0 && IsSpace(s[|s| - 1]) then TrimEnd(s[..|s| - 1]) else s
  }

  /** `s.trim()`. */
  function Trim(s: string): string {
    TrimEnd(TrimStart(s))
  }

  /** `!s.trim()`: the string is empty or made of white space only. */
  predicate IsBlank(s: string) {
    Trim(s) == ""
  }

  lemma {:induction false} TrimStartEmptyIffSpaces(s: string)
    ensures TrimStart(s) == "" <==> forall i | 0 <= i < |s| :: IsSpace(s[i])
  {
    if |s| > 0 && IsSpace(s[0]) {
      TrimStartEmptyIffSpaces(s[1..]);
      assert forall i | 1 <= i < |s| :: s[i] == s[1..][i - 1];
    }
  }

  /** A string is blank exactly when every character in it is white space. */
  lemma {:induction false} BlankIffAllSpace(s: string)
    ensures IsBlank(s) <==> forall i | 0 <= i < |s| :: IsSpace(s[i])
  {
    TrimStartEmptyIffSpaces(s);
    TrimEndOnlySpacesRemoved(TrimStart(s));
  }

  /** TrimEnd yields the empty string only from the empty string or from white space. */
  lemma {:induction false} TrimEndOnlySpacesRemoved(s: string)
    ensures TrimEnd(s) == "" <==> forall i | 0 <= i < |s| :: IsSpace(s[i])
  {
    if |s| > 0 && IsSpace(s[|s| - 1]) {
      TrimEndOnlySpacesRemoved(s[..|s| - 1]);
      assert forall i | 0 <= i < |s| - 1 :: s[i] == s[..|s| - 1][i];
    }
  }

  /** ASCII `toLowerCase`. */
  function LowerChar(c: char): char {
    if 'A' <= c <= 'Z' then (c as int - 'A' as int + 'a' as int) as char else c
  }

  function Lower(s: string): (r: string)
    ensures |r| == |s| && forall i | 0 <= i < |s| :: r[i] == LowerChar(s[i])
  {
    seq(|s|, i requires 0 <= i < |s| => LowerChar(s[i]))
  }

  /** `a.toLowerCase() === b.toLowerCase()`. */
  predicate SameIgnoringCase(a: string, b: string) {
    Lower(a) == Lower(b)
  }

  /** `parts.join(sep)`. */
  function Join(parts: seq<string>, sep: string): string {
    if |parts| == 0 then ""
    else if |parts| == 1 then parts[0]
    else parts[0] + sep + Join(parts[1..], sep)
  }

  function DigitChar(d: int): char
    requires 0 <= d < 10
  {
    "0123456789"[d]
  }

  /** Decimal digits of a natural number, as `String(n)` prints it. */
  function NatToString(n: nat): (r: string)
    ensures |r| >= 1
    ensures forall i | 0 <= i < |r| :: '0' <= r[i] <= '9'
  {
    if n < 10 then [DigitChar(n)] else NatToString(n / 10) + [DigitChar(n % 10)]
  }

  /** `String(n)` for an integer. */
  function IntToString(n: int): string {
    if n < 0 then "-" + NatToString(-n) else NatToString(n)
  }

  // ---------------------------------------------------------------------------
  // Plain objects

  /** A JavaScript plain object, as its own enumerable properties in insertion
      order. */
  type Obj<V> = seq<(string, V)>

  function Keys<V>(o: Obj<V>): seq<string> {
    seq(|o|, i requires 0 <= i < |o| => o[i].0)
  }

  predicate HasKey<V>(o: Obj<V>, k: string) {
    exists i | 0 <= i < |o| :: o[i].0 == k
  }

  /** Own property names are distinct, as in every JavaScript object. */
  predicate UniqueKeys<V>(o: Obj<V>) {
    forall i, j | 0 <= i < j < |o| :: o[i].0 != o[j].0
  }

  /** `o[k]`, or None when k is not an own property. */
  function Get<V>(o: Obj<V>, k: string): (r: Option<V>)
    ensures r.Some? <==> HasKey(o, k)
  {
    if |o| == 0 then None
    else if o[0].0 == k then Some(o[0].1)
    else Get(o[1..], k)
  }

  /** Reading a property finds its first occurrence. */
  lemma {:induction false} GetAt<V>(o: Obj<V>, i: int)
    requires 0 <= i < |o|
    requires forall j | 0 <= j < i :: o[j].0 != o[i].0
    ensures Get(o, o[i].0) == Some(o[i].1)
  {
    if i > 0 {
      GetAt(o[1..], i - 1);
    }
  }

  /** `o[k] = v`: an existing property keeps its position and takes the new
      value; a new property is appended. */
  function Assign<V>(o: Obj<V>, k: string, v: V): (r: Obj<V>)
    ensures Get(r, k) == Some(v)
    ensures forall j :: j != k ==> Get(r, j) == Get(o, j)
  {
    if |o| == 0 then [(k, v)]
    else if o[0].0 == k then [(k, v)] + o[1..]
    else
      var rest := Assign(o[1..], k, v);
      assert forall j :: j != k && j != o[0].0 ==> Get([o[0]] + rest, j) == Get(rest, j);
      [o[0]] + rest
  }

  /** `{ ...base, ...over }`: the properties of `over`, in order, assigned onto a
      copy of `base`. */
  function Spread<V>(base: Obj<V>, over: Obj<V>): Obj<V>
    decreases |over|
  {
    if |over| == 0 then base else Spread(Assign(base, over[0].0, over[0].1), over[1..])
  }

  /** Object spread: a property of the later object wins, every other property
      keeps the earlier object's value, and nothing else appears. */
  lemma {:induction false} SpreadGet<V>(base: Obj<V>, over: Obj<V>, k: string)
    requires UniqueKeys(over)
    ensures Get(Spread(base, over), k) == if HasKey(over, k) then Get(over, k) else Get(base, k)
    decreases |over|
  {
    if |over| > 0 {
      SpreadGet(Assign(base, over[0].0, over[0].1), over[1..], k);
      if over[0].0 != k {
        assert HasKey(over, k) ==> HasKey(over[1..], k) by {
          if HasKey(over, k) {
            var i :| 0 <= i < |over| && over[i].0 == k;
            assert over[1..][i - 1].0 == k;
          }
        }
        assert HasKey(over[1..], k) ==> HasKey(over, k) by {
          if HasKey(over[1..], k) {
            var i :| 0 <= i < |over[1..]| && over[1..][i].0 == k;
            assert over[i + 1].0 == k;
          }
        }
      } else {
        forall i | 0 <= i < |over[1..]|
          ensures over[1..][i].0 != k
        {
          assert over[1..][i] == over[i + 1];
        }
      }
    }
  }

  // ---------------------------------------------------------------------------
  // Integer forms of Math.round / Math.ceil

  /** `Math.round(a / b)` for b > 0: floor(a/b + 1/2), computed exactly. */
  function RoundDiv(a: int, b: int): int
    requires b > 0
  {
    (2 * a + b) / (2 * b)
  }

  /** The rounding is within one half of the exact ratio:
      `2*a - b <= 2*b*r < 2*a + b`. */
  lemma RoundDivBounds(a: int, b: int)
    requires b > 0
    ensures 2 * b * RoundDiv(a, b) <= 2 * a + b < 2 * b * RoundDiv(a, b) + 2 * b
  {
  }

  /** Rounding a ratio that lies in [lo, hi] stays in [lo, hi]. */
  lemma RoundDivBetween(a: int, b: int, lo: int, hi: int)
    requires b > 0 && lo * b <= a <= hi * b
    ensures lo <= RoundDiv(a, b) <= hi
  {
    var r := RoundDiv(a, b);
    RoundDivBounds(a, b);
    if r < lo {
      assert 2 * b * r + 2 * b <= 2 * b * lo by {
        assert r + 1 <= lo;
        MulLe(2 * b, r + 1, lo);
      }
    }
    if r > hi {
      assert 2 * b * (hi + 1) <= 2 * b * r by {
        MulLe(2 * b, hi + 1, r);
      }
    }
  }

  lemma MulLe(k: int, x: int, y: int)
    requires k >= 0 && x <= y
    ensures k * x <= k * y
  {
  }

  lemma MulMono(k: int, x: int, y: int)
    requires k >= 0
    ensures x <= y ==> k * x <= k * y
  {
    if x <= y {
      MulLe(k, x, y);
    }
  }

  /** Floor division is determined by the bracket the quotient lies in. */
  lemma DivBetween(x: int, d: int, q: int)
    requires d > 0 && q * d <= x < q * d + d
    ensures x / d == q
  {
    var r := x / d;
    assert d * r <= x < d * r + d;
    MulMono(d, q + 1, r);
    MulMono(d, r + 1, q);
    assert d * (q + 1) == d * q + d;
    assert d * (r + 1) == d * r + d;
  }

  lemma DivMono(x: int, y: int, d: int)
    requires d > 0 && x <= y
    ensures x / d <= y / d
  {
    var a, b := x / d, y / d;
    assert d * a <= x < d * a + d;
    assert d * b <= y < d * b + d;
    MulMono(d, b + 1, a);
    assert d * (b + 1) == d * b + d;
  }

  /** A whole ratio is not changed by rounding. */
  lemma RoundDivExact(k: int, b: int)
    requires b > 0
    ensures RoundDiv(k * b, b) == k
  {
    assert 2 * (k * b) + b == k * (2 * b) + b;
    DivBetween(2 * (k * b) + b, 2 * b, k);
  }

  lemma RoundDivMonotone(a: int, b: int, d: int)
    requires d > 0 && a <= b
    ensures RoundDiv(a, d) <= RoundDiv(b, d)
  {
    DivMono(2 * a + d, 2 * b + d, 2 * d);
  }

  /** `Math.ceil(a / b)` for b > 0. */
  function CeilDiv(a: int, b: int): int
    requires b > 0
  {
    -((-a) / b)
  }

  lemma CeilDivBounds(a: int, b: int)
    requires b > 0
    ensures b * CeilDiv(a, b) - b < a <= b * CeilDiv(a, b)
  {
  }
}
