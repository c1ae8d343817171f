/**
 * The version gate: a dotted target version is accepted when every
 * component of the current version is at least the target's component in
 * the same place, over the places both versions have.
 */
module Versions {
  import opened Common

  /** The range of a Kotlin `Int`. */
  const IntMin: int := -0x8000_0000
  const IntMax: int := 0x7fff_ffff

  predicate IsDigit(c: char) {
    '0' <= c <= '9'
  }

  predicate AllDigits(s: string) {
    forall k :: 0 <= k < |s| ==> IsDigit(s[k])
  }

  /** The value of a run of decimal digits, most significant first. */
  function DigitsValue(ds: string): nat
    requires AllDigits(ds)
    decreases |ds|
  {
    if |ds| == 0 then 0
    else DigitsValue(ds[..|ds| - 1]) * 10 + (ds[|ds| - 1] as int - '0' as int)
  }

  /** The message of the `NumberFormatException` a failed `toInt()` throws. */
  function NumberFormatError(s: string): string {
    "For input string: \"" + s + "\""
  }

  /**
   * Kotlin `String.toInt()`: an optional '+' or '-', then at least one
   * decimal digit, and the value must fit in an `Int`; anything else throws.
   */
  function ParseInt(s: string): (r: Result<int>)
    ensures r.Ok? ==> IntMin <= r.value <= IntMax
    ensures r.Err? ==> r.message == NumberFormatError(s)
    ensures r.Ok? ==> |s| > 0 && (IsDigit(s[0]) || s[0] == '-' || s[0] == '+')
    ensures r.Ok? ==> AllDigits(s[1..])
  {
    if |s| == 0 then Err(NumberFormatError(s))
    else
      var digits := if s[0] == '-' || s[0] == '+' then s[1..] else s;
      if |digits| == 0 || !AllDigits(digits) then Err(NumberFormatError(s))
      else
        var v: int := if s[0] == '-' then -(DigitsValue(digits) as int) else DigitsValue(digits);
        if v < IntMin || v > IntMax then Err(NumberFormatError(s)) else Ok(v)
  }

  /**
   * `parts.map { it.toInt() }`: every part parsed in order; the first part
   * that does not parse throws and ends the mapping.
   */
  function ParseAll(parts: seq<string>): (r: Result<seq<int>>)
    ensures r.Ok? <==> forall k :: 0 <= k < |parts| ==> ParseInt(parts[k]).Ok?
    ensures r.Ok? ==>
      && |r.value| == |parts|
      && forall k :: 0 <= k < |parts| ==> ParseInt(parts[k]) == Ok(r.value[k])
    ensures r.Err? ==>
      exists k :: && 0 <= k < |parts| && ParseInt(parts[k]) == Err(r.message)
                  && forall j :: 0 <= j < k ==> ParseInt(parts[j]).Ok?
    decreases |parts|
  {
    if |parts| == 0 then Ok([])
    else
      match ParseInt(parts[0])
      case Err(m) => Err(m)
      case Ok(v) =>
        match ParseAll(parts[1..])
        case Err(m) =>
          assert forall k :: 1 <= k < |parts| ==> parts[k] == parts[1..][k - 1];
          Err(m)
        case Ok(vs) =>
          assert forall k :: 1 <= k < |parts| ==> parts[k] == parts[1..][k - 1];
          Ok([v] + vs)
  }

  /** The integer components of a dotted version string. */
  function Components(version: string): Result<seq<int>> {
    ParseAll(Split(version, '.'))
  }

  /** Kotlin `a.zip(b)`: the pairs in the places both lists have. */
  function Zip(a: seq<int>, b: seq<int>): (ps: seq<(int, int)>)
    ensures |ps| == if |a| < |b| then |a| else |b|
    decreases |a|
  {
    if |a| == 0 || |b| == 0 then [] else [(a[0], b[0])] + Zip(a[1..], b[1..])
  }

  /** `all { (current, target) -> current >= target }` */
  function AllAtLeast(ps: seq<(int, int)>): bool
    decreases |ps|
  {
    |ps| == 0 || (ps[0].0 >= ps[0].1 && AllAtLeast(ps[1..]))
  }

  /** The current components are not behind the target's in any shared place. */
  predicate NotBehind(current: seq<int>, target: seq<int>) {
    forall i :: 0 <= i < |current| && i < |target| ==> current[i] >= target[i]
  }

  /**
   * `versionIsSameOrOlderThanCurrentVersion(target, currentVersion)`: the
   * target is parsed first, then the current version; either may throw.
   */
  function IsSameOrOlder(target: string, current: string): (r: Result<bool>)
    ensures Components(target).Err? ==> r == Err(Components(target).message)
    ensures Components(target).Ok? && Components(current).Err? ==> r == Err(Components(current).message)
    ensures r.Ok? <==> Components(target).Ok? && Components(current).Ok?
    ensures r.Ok? ==> (r.value <==> NotBehind(Components(current).value, Components(target).value))
  {
    match Components(target)
    case Err(m) => Err(m)
    case Ok(t) =>
      match Components(current)
      case Err(m) => Err(m)
      case Ok(c) =>
        AtLeastIff(c, t);
        Ok(AllAtLeast(Zip(c, t)))
  }

  /** The zipped test holds exactly when no shared place is behind. */
  lemma {:induction false} AtLeastIff(current: seq<int>, target: seq<int>)
    ensures AllAtLeast(Zip(current, target)) <==> NotBehind(current, target)
    decreases |current|
  {
    if |current| > 0 && |target| > 0 {
      AtLeastIff(current[1..], target[1..]);
      var ps := Zip(current, target);
      assert ps[1..] == Zip(current[1..], target[1..]);
      if NotBehind(current[1..], target[1..]) && current[0] >= target[0] {
        forall i | 0 <= i < |current| && i < |target|
          ensures current[i] >= target[i]
        {
          if i > 0 {
            assert current[1..][i - 1] == current[i] && target[1..][i - 1] == target[i];
          }
        }
      }
      if NotBehind(current, target) {
        forall i | 0 <= i < |current[1..]| && i < |target[1..]|
          ensures current[1..][i] >= target[1..][i]
        {
          assert current[1..][i] == current[i + 1] && target[1..][i] == target[i + 1];
        }
      }
    }
  }

  /** Places beyond the shorter version play no part, on either side. */
  lemma ExtraComponentsIgnored(current: seq<int>, target: seq<int>, extra: seq<int>)
    ensures |current| <= |target| ==> (NotBehind(current, target + extra) <==> NotBehind(current, target))
    ensures |target| <= |current| ==> (NotBehind(current + extra, target) <==> NotBehind(current, target))
  {
    if |current| <= |target| {
      assert forall i :: 0 <= i < |current| ==> (target + extra)[i] == target[i];
    }
    if |target| <= |current| {
      assert forall i :: 0 <= i < |target| ==> (current + extra)[i] == current[i];
    }
  }

  /** Any well-formed version is the same as or older than itself. */
  lemma Reflexive(version: string)
    requires Components(version).Ok?
    ensures IsSameOrOlder(version, version) == Ok(true)
  {
  }

  /**
   * For versions of one length the relation chains; with different lengths
   * it does not (see `UnequalLengthsDoNotChain`).
   */
  lemma {:induction false} Transitive(a: seq<int>, b: seq<int>, c: seq<int>)
    requires |a| == |b| == |c|
    requires NotBehind(b, a) && NotBehind(c, b)
    ensures NotBehind(c, a)
  {
    forall i | 0 <= i < |c| && i < |a|
      ensures c[i] >= a[i]
    {
      assert b[i] >= a[i] && c[i] >= b[i];
    }
  }

  /** [1, 5] is not ahead of [1], [1] not ahead of [1, 0], yet [1, 0] is behind [1, 5]. */
  lemma UnequalLengthsDoNotChain()
    ensures NotBehind([1], [1, 5]) && NotBehind([1, 0], [1])
    ensures !NotBehind([1, 0], [1, 5])
  {
    assert [1, 0][1] < [1, 5][1];
  }

  /** Digits of a natural number read back as that number. */
  lemma {:induction false} DigitsOfNat(n: nat)
    ensures AllDigits(NatToString(n)) && DigitsValue(NatToString(n)) == n
    decreases n
  {
    var s := NatToString(n);
    if n >= 10 {
      DigitsOfNat(n / 10);
      assert s[..|s| - 1] == NatToString(n / 10);
    }
  }

  /** `toInt()` reads back what Kotlin renders, for every `Int`. */
  lemma ParseRendered(i: int)
    requires IntMin <= i <= IntMax
    ensures ParseInt(IntToString(i)) == Ok(i)
  {
    var s := IntToString(i);
    if i >= 0 {
      DigitsOfNat(i);
      assert s == NatToString(i) && IsDigit(s[0]);
      assert DigitsValue(s) == i;
    } else {
      DigitsOfNat(-i);
      assert s[0] == '-' && s[1..] == NatToString(-i);
      assert -(DigitsValue(s[1..]) as int) == i;
    }
  }

  /** The components rendered in decimal and joined with dots. */
  function Render(cs: seq<int>): (v: string)
    ensures |cs| == 1 ==> v == IntToString(cs[0])
  {
    Join(RenderAll(cs), ".")
  }

  function RenderAll(cs: seq<int>): (parts: seq<string>)
    ensures |parts| == |cs|
    ensures forall k :: 0 <= k < |cs| ==> parts[k] == IntToString(cs[k])
  {
    seq(|cs|, k requires 0 <= k < |cs| => IntToString(cs[k]))
  }

  /** A version built from `Int` components parses back to those components. */
  lemma RenderParses(cs: seq<int>)
    requires |cs| >= 1
    requires forall k :: 0 <= k < |cs| ==> IntMin <= cs[k] <= IntMax
    ensures Components(Render(cs)) == Ok(cs)
  {
    var parts := RenderAll(cs);
    forall k | 0 <= k < |parts|
      ensures '.' !in parts[k]
    {
      NoDotInRendered(cs[k]);
    }
    SplitJoin(parts, '.');
    AllParse(cs);
  }

  lemma AllParse(cs: seq<int>)
    requires forall k :: 0 <= k < |cs| ==> IntMin <= cs[k] <= IntMax
    ensures ParseAll(RenderAll(cs)) == Ok(cs)
  {
    var parts := RenderAll(cs);
    forall k | 0 <= k < |parts|
      ensures ParseInt(parts[k]) == Ok(cs[k])
    {
      ParseRendered(cs[k]);
    }
    var r := ParseAll(parts);
    assert r.Ok?;
    assert |r.value| == |cs|;
    assert forall k :: 0 <= k < |cs| ==> r.value[k] == cs[k];
    assert r.value == cs;
  }

  lemma NoDotInRendered(i: int)
    ensures '.' !in IntToString(i)
  {
    var s := IntToString(i);
    if i < 0 {
      assert s == "-" + NatToString(-i);
      assert forall k :: 1 <= k < |s| ==> s[k] == NatToString(-i)[k - 1];
    }
  }

  /** A version with an empty component ("1..2", "1.", "") is a parse error. */
  lemma EmptyComponentFails(target: string, current: string)
    requires "" in Split(target, '.') || (Components(target).Ok? && "" in Split(current, '.'))
    ensures IsSameOrOlder(target, current).Err?
  {
    if "" in Split(target, '.') {
      var k :| 0 <= k < |Split(target, '.')| && Split(target, '.')[k] == "";
      assert ParseInt(Split(target, '.')[k]).Err?;
    } else {
      var k :| 0 <= k < |Split(current, '.')| && Split(current, '.')[k] == "";
      assert ParseInt(Split(current, '.')[k]).Err?;
    }
  }

  /** "1.2" against "1.2.9": the third place is ignored in both directions. */
  lemma ShorterVersionDecides()
    ensures IsSameOrOlder("1.2", "1.2.9") == Ok(true)
    ensures IsSameOrOlder("1.2.9", "1.2") == Ok(true)
  {
    DigitVersion(1, 2);
    DottedVersion(1, 2, 9);
    assert NotBehind([1, 2, 9], [1, 2]);
    assert NotBehind([1, 2], [1, 2, 9]);
  }

  /** A higher major version with a lower minor one is not accepted. */
  lemma ComponentwiseNotLexicographic()
    ensures IsSameOrOlder("1.5", "2.0") == Ok(false)
  {
    DigitVersion(1, 5);
    DigitVersion(2, 0);
    assert [2, 0][1] < [1, 5][1];
  }

  /** A two-component version of single digits parses to those digits. */
  lemma DigitVersion(a: int, b: int)
    requires 0 <= a < 10 && 0 <= b < 10
    ensures Components([Digit(a), '.', Digit(b)]) == Ok([a, b])
  {
    RenderParses([a, b]);
    RenderDigits([a, b]);
  }

  /** A three-component version of single digits parses to those digits. */
  lemma DottedVersion(a: int, b: int, c: int)
    requires 0 <= a < 10 && 0 <= b < 10 && 0 <= c < 10
    ensures Components([Digit(a), '.', Digit(b), '.', Digit(c)]) == Ok([a, b, c])
  {
    RenderParses([a, b, c]);
    RenderDigits([a, b, c]);
  }

  /** Rendering one-digit components spells them out between dots. */
  lemma RenderDigits(cs: seq<int>)
    requires 2 <= |cs| <= 3 && forall k :: 0 <= k < |cs| ==> 0 <= cs[k] < 10
    ensures Render(cs) == if |cs| == 2 then [Digit(cs[0]), '.', Digit(cs[1])]
                          else [Digit(cs[0]), '.', Digit(cs[1]), '.', Digit(cs[2])]
  {
    var parts := RenderAll(cs);
    forall k | 0 <= k < |cs|
      ensures parts[k] == [Digit(cs[k])]
    {
      assert parts[k] == NatToString(cs[k]);
    }
    assert parts[1..][1..] == parts[2..];
    if |cs| == 2 {
      assert Join(parts[1..], ".") == parts[1];
    } else {
      assert Join(parts[2..], ".") == parts[2];
      assert Join(parts[1..], ".") == parts[1] + "." + parts[2];
    }
  }
}
