/**
 * Shared vocabulary: failure-carrying results, optional values, and the
 * handful of Kotlin standard-library string operations the core relies on
 * (`split` on one character, `lines()`, `joinToString`, integer rendering).
 */
module Common {

  datatype Option<+T> = None | Some(value: T)

  /** A value, or the message of the exception the Kotlin code would throw. */
  datatype Result<+T> = Ok(value: T) | Err(message: string)

  /** `joinToString(sep)`: the parts with `sep` between consecutive ones. */
  function Join(parts: seq<string>, sep: string): (r: string)
    ensures |parts| == 1 ==> r == parts[0]
  {
    if |parts| == 0 then ""
    else if |parts| == 1 then parts[0]
    else parts[0] + sep + Join(parts[1..], sep)
  }

  /**
   * Kotlin `s.split(sep)` with a one-character delimiter and no limit: every
   * occurrence of `sep` cuts, empty pieces (leading, inner and trailing) are
   * kept, and the empty string splits into one empty piece.
   */
  function Split(s: string, sep: char): (parts: seq<string>)
    ensures |parts| >= 1
    ensures forall k :: 0 <= k < |parts| ==> sep !in parts[k]
    decreases |s|
  {
    if |s| == 0 then [""]
    else
      var rest := Split(s[1..], sep);
      if s[0] == sep then [""] + rest
      else [[s[0]] + rest[0]] + rest[1..]
  }

  /** Splitting on `sep` and joining with `sep` gives back the original text. */
  lemma {:induction false} JoinSplit(s: string, sep: char)
    ensures Join(Split(s, sep), [sep]) == s
    decreases |s|
  {
    if |s| > 0 {
      var rest := Split(s[1..], sep);
      JoinSplit(s[1..], sep);
      if s[0] == sep {
        assert Split(s, sep) == [""] + rest;
        assert s == [sep] + s[1..];
      } else {
        var parts := Split(s, sep);
        assert parts == [[s[0]] + rest[0]] + rest[1..];
        if |rest| == 1 {
          assert Join(parts, [sep]) == [s[0]] + rest[0];
        } else {
          assert Join(rest, [sep]) == rest[0] + [sep] + Join(rest[1..], [sep]);
          assert parts[1..] == rest[1..];
          assert Join(parts, [sep]) == [s[0]] + rest[0] + [sep] + Join(rest[1..], [sep]);
        }
      }
    }
  }

  /** Joining pieces free of `sep` and splitting again gives back the pieces. */
  lemma {:induction false} SplitJoin(parts: seq<string>, sep: char)
    requires |parts| >= 1
    requires forall k :: 0 <= k < |parts| ==> sep !in parts[k]
    ensures Split(Join(parts, [sep]), sep) == parts
    decreases parts
  {
    if |parts| == 1 {
      SplitNoSep(parts[0], sep);
    } else {
      SplitJoin(parts[1..], sep);
      SplitAppend(parts[0], Join(parts[1..], [sep]), sep);
    }
  }

  /** A text without the separator is one piece. */
  lemma {:induction false} SplitNoSep(s: string, sep: char)
    requires sep !in s
    ensures Split(s, sep) == [s]
    decreases |s|
  {
    if |s| > 0 {
      assert s[0] in s;
      assert forall c :: c in s[1..] ==> c in s;
      SplitNoSep(s[1..], sep);
      assert [s[0]] + s[1..] == s;
    }
  }

  /** Splitting `a + sep + b`, where `a` has no separator, puts `a` in front. */
  lemma {:induction false} SplitAppend(a: string, b: string, sep: char)
    requires sep !in a
    ensures Split(a + [sep] + b, sep) == [a] + Split(b, sep)
    decreases |a|
  {
    if |a| == 0 {
      assert a + [sep] + b == [sep] + b;
      assert ([sep] + b)[1..] == b;
    } else {
      assert (a + [sep] + b)[1..] == a[1..] + [sep] + b;
      SplitAppend(a[1..], b, sep);
      assert [a[0]] + a[1..] == a;
    }
  }

  predicate IsLineBreak(c: char) {
    c == '\n' || c == '\r'
  }

  /** A text with no line-break character in it. */
  predicate NoBreaks(l: string) {
    forall k :: 0 <= k < |l| ==> !IsLineBreak(l[k])
  }

  /**
   * Kotlin `s.lines()`: the text cut at every "\r\n", "\n" or "\r" (a "\r\n"
   * pair counts once); a trailing break leaves a final empty line.
   */
  function Lines(s: string): (ls: seq<string>)
    ensures |ls| >= 1
    ensures forall k :: 0 <= k < |ls| ==> NoBreaks(ls[k])
    decreases |s|
  {
    if |s| == 0 then [""]
    else if s[0] == '\r' && |s| >= 2 && s[1] == '\n' then [""] + Lines(s[2..])
    else if IsLineBreak(s[0]) then [""] + Lines(s[1..])
    else
      var rest := Lines(s[1..]);
      [[s[0]] + rest[0]] + rest[1..]
  }

  /** Joining break-free lines with "\n" and cutting again gives back the lines. */
  lemma {:induction false} LinesJoin(ls: seq<string>)
    requires |ls| >= 1
    requires forall k :: 0 <= k < |ls| ==> NoBreaks(ls[k])
    ensures Lines(Join(ls, "\n")) == ls
    decreases ls
  {
    if |ls| == 1 {
      LinesNoBreak(ls[0]);
    } else {
      LinesJoin(ls[1..]);
      LinesAppend(ls[0], Join(ls[1..], "\n"));
    }
  }

  lemma {:induction false} LinesNoBreak(s: string)
    requires NoBreaks(s)
    ensures Lines(s) == [s]
    decreases |s|
  {
    if |s| > 0 {
      assert s[0] in s;
      assert forall c :: c in s[1..] ==> c in s;
      LinesNoBreak(s[1..]);
      assert [s[0]] + s[1..] == s;
    }
  }

  lemma {:induction false} LinesAppend(a: string, b: string)
    requires NoBreaks(a)
    ensures Lines(a + "\n" + b) == [a] + Lines(b)
    decreases |a|
  {
    if |a| == 0 {
      assert a + "\n" + b == "\n" + b;
      assert ("\n" + b)[1..] == b;
    } else {
      assert a[0] in a;
      assert (a + "\n" + b)[1..] == a[1..] + "\n" + b;
      LinesAppend(a[1..], b);
      assert [a[0]] + a[1..] == a;
    }
  }

  /**
   * Cutting a text that ends in "\n" in front of another: the final empty
   * line of the first is where the lines of the second begin.
   */
  lemma {:induction false} LinesConcat(p: string, s: string)
    requires |p| > 0 && p[|p| - 1] == '\n'
    ensures |Lines(p)| >= 2 && Lines(p)[|Lines(p)| - 1] == ""
    ensures Lines(p + s) == Lines(p)[..|Lines(p)| - 1] + Lines(s)
    decreases |p|, 1
  {
    if IsLineBreak(p[0]) {
      LinesConcatBreak(p, s);
    } else {
      LinesConcatChar(p, s);
    }
  }

  lemma {:induction false} LinesConcatBreak(p: string, s: string)
    requires |p| > 0 && p[|p| - 1] == '\n' && IsLineBreak(p[0])
    ensures |Lines(p)| >= 2 && Lines(p)[|Lines(p)| - 1] == ""
    ensures Lines(p + s) == Lines(p)[..|Lines(p)| - 1] + Lines(s)
    decreases |p|, 0
  {
    var skip := BreakWidth(p);
    var rest := p[skip..];
    BreakThenText(p, s);
    if skip == |p| {
      assert rest + s == s;
      assert Lines(rest) == [""];
      FrontLine(Lines(p), Lines(p + s), [""], Lines(s), Lines(s));
    } else {
      LinesConcat(rest, s);
      FrontLine(Lines(p), Lines(p + s), Lines(rest), Lines(rest + s), Lines(s));
    }
  }

  /** The break in front of a text ending in "\n" stays one break when more text follows. */
  lemma BreakThenText(p: string, s: string)
    requires |p| > 0 && p[|p| - 1] == '\n' && IsLineBreak(p[0])
    ensures Lines(p) == [""] + Lines(p[BreakWidth(p)..])
    ensures Lines(p + s) == [""] + Lines(p[BreakWidth(p)..] + s)
  {
    var ps := p + s;
    var skip := BreakWidth(p);
    assert BreakWidth(ps) == skip by {
      assert ps[0] == p[0];
      assert |p| >= 2 ==> ps[1] == p[1];
    }
    LinesAtBreak(p);
    LinesAtBreak(ps);
    assert ps[skip..] == p[skip..] + s;
  }

  /**
   * The list algebra behind a leading empty line: if the rest's lines run
   * into the next text's lines, so do the lines with the empty one in front.
   */
  lemma FrontLine(whole: seq<string>, joined: seq<string>, rest: seq<string>, restJoined: seq<string>, next: seq<string>)
    requires whole == [""] + rest && joined == [""] + restJoined
    requires |rest| >= 1 && rest[|rest| - 1] == ""
    requires restJoined == rest[..|rest| - 1] + next
    ensures |whole| >= 2 && whole[|whole| - 1] == ""
    ensures joined == whole[..|whole| - 1] + next
  {
    assert whole[..|whole| - 1] == [""] + rest[..|rest| - 1];
  }

  /** How many characters the break at the front of a text takes: 2 for "\r\n", else 1. */
  function BreakWidth(t: string): (w: nat)
    requires |t| > 0
    ensures 1 <= w <= |t|
  {
    if t[0] == '\r' && |t| >= 2 && t[1] == '\n' then 2 else 1
  }

  lemma LinesAtBreak(t: string)
    requires |t| > 0 && IsLineBreak(t[0])
    ensures Lines(t) == [""] + Lines(t[BreakWidth(t)..])
  {
  }

  lemma {:induction false} LinesConcatChar(p: string, s: string)
    requires |p| > 0 && p[|p| - 1] == '\n' && !IsLineBreak(p[0])
    ensures |Lines(p)| >= 2 && Lines(p)[|Lines(p)| - 1] == ""
    ensures Lines(p + s) == Lines(p)[..|Lines(p)| - 1] + Lines(s)
    decreases |p|, 0
  {
    var ps := p + s;
    assert ps[0] == p[0];
    assert ps[1..] == p[1..] + s;
    LinesConcat(p[1..], s);
    LinesAtChar(p);
    LinesAtChar(ps);
    FrontChar(p[0], Lines(p), Lines(ps), Lines(p[1..]), Lines(p[1..] + s), Lines(s));
  }

  /** A text starting with an ordinary character: it joins the first line of the rest. */
  lemma LinesAtChar(t: string)
    requires |t| > 0 && !IsLineBreak(t[0])
    ensures Lines(t) == [[t[0]] + Lines(t[1..])[0]] + Lines(t[1..])[1..]
  {
  }

  /** The list algebra behind a leading character joining the first line. */
  lemma FrontChar(c: char, whole: seq<string>, joined: seq<string>, rest: seq<string>, restJoined: seq<string>, next: seq<string>)
    requires |rest| >= 2 && rest[|rest| - 1] == ""
    requires restJoined == rest[..|rest| - 1] + next
    requires whole == [[c] + rest[0]] + rest[1..]
    requires joined == [[c] + restJoined[0]] + restJoined[1..]
    ensures |whole| >= 2 && whole[|whole| - 1] == ""
    ensures joined == whole[..|whole| - 1] + next
  {
    assert restJoined[0] == rest[0];
    assert restJoined[1..] == rest[1..|rest| - 1] + next;
    assert whole[..|whole| - 1] == [[c] + rest[0]] + rest[1..|rest| - 1];
  }

  /** The decimal digits of a natural number, most significant first. */
  function NatToString(n: nat): (r: string)
    ensures |r| >= 1
    ensures forall k :: 0 <= k < |r| ==> '0' <= r[k] <= '9'
    decreases n
  {
    if n < 10 then [Digit(n)] else NatToString(n / 10) + [Digit(n % 10)]
  }

  function Digit(d: nat): (c: char)
    requires d < 10
    ensures '0' <= c <= '9' && c as int - '0' as int == d
  {
    (d + '0' as int) as char
  }

  /** Kotlin string templates render an `Int` in decimal with a leading '-'. */
  function IntToString(i: int): (r: string)
    ensures i >= 0 ==> r == NatToString(i)
    ensures i < 0 ==> r == "-" + NatToString(-i)
  {
    if i >= 0 then NatToString(i) else "-" + NatToString(-i)
  }
}
