/**
 The parts of Go's `strings` package the gateway relies on, on strings as
 sequences of characters: `Split` and `Join` on a one-character separator,
 `ReplaceAll` of one character, ASCII `ToUpper` and `TrimSpace`.
 */
module Text {

  /** Number of occurrences of `c` in `s`. */
  function Count(s: string, c: char): (n: nat)
    ensures n <= |s|
    ensures n == 0 <==> c !in s
  {
    if |s| == 0 then 0 else (if s[0] == c then 1 else 0) + Count(s[1..], c)
  }

  lemma {:induction false} CountConcat(a: string, b: string, c: char)
    ensures Count(a + b, c) == Count(a, c) + Count(b, c)
  {
    if |a| == 0 {
      assert a + b == b;
    } else {
      assert (a + b)[1..] == a[1..] + b;
      CountConcat(a[1..], b, c);
    }
  }

  /** Index of the first `c` in `s`. */
  function IndexOf(s: string, c: char): (i: nat)
    requires c in s
    ensures i < |s| && s[i] == c
    ensures c !in s[..i]
  {
    if s[0] == c then 0 else 1 + IndexOf(s[1..], c)
  }

  /** `strings.Join`: the parts with `sep` between consecutive ones. */
  function Join(parts: seq<string>, sep: string): (r: string)
    ensures |parts| == 0 ==> r == ""
    ensures |parts| >= 1 ==> parts[0] <= r
  {
    if |parts| == 0 then ""
    else if |parts| == 1 then parts[0]
    else parts[0] + sep + Join(parts[1..], sep)
  }

  /** `c` occurs in no part. */
  predicate Free(parts: seq<string>, c: char)
  {
    forall i :: 0 <= i < |parts| ==> c !in parts[i]
  }

  /**
   `strings.Split` on the one-character separator `sep`: always at least one
   part, one more than there are separators, and joining the parts back with
   the separator gives the input.
   */
  function Split(s: string, sep: char): (r: seq<string>)
    ensures |r| == Count(s, sep) + 1
    ensures Free(r, sep)
    ensures Join(r, [sep]) == s
    decreases |s|
  {
    if sep !in s then [s]
    else
      var i := IndexOf(s, sep);
      var rest := Split(s[i + 1..], sep);
      SplitStep(s, sep, i, rest);
      [s[..i]] + rest
  }

  /** One step of `Split`: the first piece, the separator, the rest. */
  lemma SplitStep(s: string, sep: char, i: nat, rest: seq<string>)
    requires i < |s| && s[i] == sep && sep !in s[..i]
    requires |rest| == Count(s[i + 1..], sep) + 1 && Free(rest, sep)
    requires Join(rest, [sep]) == s[i + 1..]
    ensures |[s[..i]] + rest| == Count(s, sep) + 1
    ensures Free([s[..i]] + rest, sep)
    ensures Join([s[..i]] + rest, [sep]) == s
  {
    var r := [s[..i]] + rest;
    assert s == s[..i] + ([sep] + s[i + 1..]);
    CountConcat(s[..i], [sep] + s[i + 1..], sep);
    CountConcat([sep], s[i + 1..], sep);
    assert Count([sep], sep) == 1;
    assert r[1..] == rest;
    assert Join(r, [sep]) == s[..i] + [sep] + Join(rest, [sep]);
  }

  /** Splitting a join of separator-free parts gives the parts back. */
  lemma {:induction false} SplitJoin(parts: seq<string>, sep: char)
    requires |parts| >= 1 && Free(parts, sep)
    ensures Split(Join(parts, [sep]), sep) == parts
    decreases |parts|
  {
    if |parts| == 1 {
      assert Join(parts, [sep]) == parts[0];
    } else {
      var s := Join(parts, [sep]);
      JoinFirstSeparator(parts, sep);
      assert Free(parts[1..], sep) by {
        assert forall i :: 0 <= i < |parts[1..]| ==> parts[1..][i] == parts[i + 1];
      }
      SplitJoin(parts[1..], sep);
      assert Split(s, sep) == [parts[0]] + Split(Join(parts[1..], [sep]), sep);
      assert parts == [parts[0]] + parts[1..];
    }
  }

  /** In a join of separator-free parts, the first separator ends the first part. */
  lemma JoinFirstSeparator(parts: seq<string>, sep: char)
    requires |parts| >= 2 && Free(parts, sep)
    ensures var s := Join(parts, [sep]);
            && sep in s && IndexOf(s, sep) == |parts[0]|
            && s[..|parts[0]|] == parts[0] && s[|parts[0]| + 1..] == Join(parts[1..], [sep])
  {
    var s := Join(parts, [sep]);
    var n := |parts[0]|;
    assert s == parts[0] + ([sep] + Join(parts[1..], [sep]));
    assert s[n] == sep;
    assert s[..n] == parts[0];
    assert sep !in parts[0];
    IndexOfFirst(s, sep, n);
    assert s[n + 1..] == Join(parts[1..], [sep]);
  }

  /** A position holding `c` with no `c` before it is the index of `c`. */
  lemma {:induction false} IndexOfFirst(s: string, c: char, n: nat)
    requires n < |s| && s[n] == c && c !in s[..n]
    ensures c in s && IndexOf(s, c) == n
    decreases n
  {
    if n > 0 {
      assert s[0] == s[..n][0];
      assert s[1..][..n - 1] == s[..n][1..];
      IndexOfFirst(s[1..], c, n - 1);
    }
  }

  /** A character in neither the parts nor the separator is not in their join. */
  lemma {:induction false} JoinFree(parts: seq<string>, sep: string, c: char)
    requires Free(parts, c) && c !in sep
    ensures c !in Join(parts, sep)
    decreases |parts|
  {
    if |parts| >= 2 {
      assert Free(parts[1..], c) by {
        forall i | 0 <= i < |parts[1..]|
          ensures c !in parts[1..][i]
        {
          assert parts[1..][i] == parts[i + 1];
        }
      }
      JoinFree(parts[1..], sep, c);
      assert c !in parts[0];
    } else if |parts| == 1 {
      assert c !in parts[0];
    }
  }

  /** Two separator-free part lists with the same join are equal. */
  lemma JoinInjective(a: seq<string>, b: seq<string>, sep: char)
    requires |a| >= 1 && |b| >= 1 && Free(a, sep) && Free(b, sep)
    requires Join(a, [sep]) == Join(b, [sep])
    ensures a == b
  {
    SplitJoin(a, sep);
    SplitJoin(b, sep);
  }

  /** `strings.ReplaceAll(s, string(c), t)`. */
  function ReplaceAll(s: string, c: char, t: string): (r: string)
    ensures c !in t ==> c !in r
  {
    if |s| == 0 then ""
    else
      var rest := ReplaceAll(s[1..], c, t);
      if s[0] == c then t + rest else [s[0]] + rest
  }

  /** A text without the character is left as it is. */
  lemma {:induction false} ReplaceAllUnchanged(s: string, c: char, t: string)
    ensures c !in s ==> ReplaceAll(s, c, t) == s
    decreases |s|
  {
    if |s| > 0 && c !in s {
      assert c !in s[1..] by { assert forall j :: 0 <= j < |s| - 1 ==> s[1..][j] == s[j + 1]; }
      ReplaceAllUnchanged(s[1..], c, t);
      assert [s[0]] + s[1..] == s;
    }
  }

  /** The text grows by the replacement's extra length once per occurrence. */
  lemma {:induction false} ReplaceAllLength(s: string, c: char, t: string)
    ensures |ReplaceAll(s, c, t)| == |s| + Count(s, c) * (|t| - 1)
    decreases |s|
  {
    if |s| > 0 {
      ReplaceAllLength(s[1..], c, t);
      var n := Count(s[1..], c);
      var k := |t| - 1;
      if s[0] == c {
        assert Count(s, c) == n + 1;
        assert ReplaceAll(s, c, t) == t + ReplaceAll(s[1..], c, t);
        MulSucc(n, k);
      } else {
        assert Count(s, c) == n;
        assert ReplaceAll(s, c, t) == [s[0]] + ReplaceAll(s[1..], c, t);
      }
    }
  }

  lemma MulSucc(n: int, k: int)
    ensures (n + 1) * k == n * k + k
  {
  }

  lemma {:induction false} ReplaceAllConcat(a: string, b: string, c: char, t: string)
    ensures ReplaceAll(a + b, c, t) == ReplaceAll(a, c, t) + ReplaceAll(b, c, t)
  {
    if |a| == 0 {
      assert a + b == b;
    } else {
      assert (a + b)[1..] == a[1..] + b;
      ReplaceAllConcat(a[1..], b, c, t);
    }
  }

  /**
   Replacing every `c` by `t` is the same as splitting at `c` and joining
   with `t`: the replacement is an independent definition of the same text.
   */
  lemma {:induction false} ReplaceAllIsSplitJoin(s: string, c: char, t: string)
    ensures ReplaceAll(s, c, t) == Join(Split(s, c), t)
    decreases |s|
  {
    ReplaceAllUnchanged(s, c, t);
    if c in s {
      var i := IndexOf(s, c);
      var tail := s[i + 1..];
      ReplaceAllAtFirst(s, c, t);
      ReplaceAllIsSplitJoin(tail, c, t);
      assert Split(s, c) == [s[..i]] + Split(tail, c);
      JoinCons(s[..i], Split(tail, c), t);
    }
  }

  /** Around the first `c`, the replacement keeps the text before it and replaces the rest. */
  lemma {:induction false} ReplaceAllAtFirst(s: string, c: char, t: string)
    requires c in s
    ensures var i := IndexOf(s, c);
            ReplaceAll(s, c, t) == s[..i] + t + ReplaceAll(s[i + 1..], c, t)
    decreases |s|
  {
    if s[0] != c {
      var i := IndexOf(s, c);
      assert c in s[1..] by { assert s[i] == s[1..][i - 1]; }
      ReplaceAllAtFirst(s[1..], c, t);
      assert s[1..][..i - 1] == s[1..i];
      assert s[1..][i..] == s[i + 1..];
      assert [s[0]] + s[1..i] == s[..i];
    }
  }

  /** Joining a part in front of a non-empty list puts the separator between them. */
  lemma JoinCons(a: string, rest: seq<string>, sep: string)
    requires |rest| >= 1
    ensures Join([a] + rest, sep) == a + sep + Join(rest, sep)
  {
    assert ([a] + rest)[1..] == rest;
  }

  /** Joining a list of two or more parts is joining all but the last, the separator, and the last. */
  lemma {:induction false} JoinSnoc(l: seq<string>, sep: string)
    requires |l| >= 2
    ensures Join(l, sep) == Join(l[..|l| - 1], sep) + sep + l[|l| - 1]
    decreases |l|
  {
    var init := l[..|l| - 1];
    if |l| == 2 {
      assert init == [l[0]];
    } else {
      JoinSnoc(l[1..], sep);
      assert l[1..][..|l| - 2] == init[1..];
      assert init[0] == l[0];
    }
  }

  predicate IsLowerAscii(ch: char)
  {
    'a' <= ch <= 'z'
  }

  function UpperChar(ch: char): (u: char)
    ensures !IsLowerAscii(u)
    ensures IsLowerAscii(ch) ==> u as int == ch as int - 32
    ensures !IsLowerAscii(ch) ==> u == ch
  {
    if IsLowerAscii(ch) then (ch as int - 32) as char else ch
  }

  /** `strings.ToUpper`, with case mapping for ASCII letters only. */
  function ToUpper(s: string): (r: string)
    ensures |r| == |s|
    ensures forall i :: 0 <= i < |s| ==> !IsLowerAscii(r[i])
    ensures forall i :: 0 <= i < |s| && !IsLowerAscii(s[i]) ==> r[i] == s[i]
  {
    seq(|s|, i requires 0 <= i < |s| => UpperChar(s[i]))
  }

  /** Upper-casing is idempotent. */
  lemma ToUpperIdempotent(s: string)
    ensures ToUpper(ToUpper(s)) == ToUpper(s)
  {
  }

  /** Go's `unicode.IsSpace`. */
  predicate IsSpace(ch: char)
  {
    var c := ch as int;
    (9 <= c <= 13) || c == 32 || c == 0x85 || c == 0xA0 || c == 0x1680
    || (0x2000 <= c <= 0x200A) || c == 0x2028 || c == 0x2029 || c == 0x202F
    || c == 0x205F || c == 0x3000
  }

  predicate AllSpace(s: string)
  {
    forall i :: 0 <= i < |s| ==> IsSpace(s[i])
  }

  function TrimLeft(s: string): (r: string)
    ensures |r| <= |s| && s[|s| - |r|..] == r
    ensures AllSpace(s[..|s| - |r|])
    ensures |r| > 0 ==> !IsSpace(r[0])
  {
    if |s| == 0 || !IsSpace(s[0]) then s
    else
      var r := TrimLeft(s[1..]);
      assert s[1..][..|s| - 1 - |r|] == s[1..|s| - |r|];
      r
  }

  function TrimRight(s: string): (r: string)
    ensures |r| <= |s| && r == s[..|r|]
    ensures AllSpace(s[|r|..])
    ensures |r| > 0 ==> !IsSpace(r[|r| - 1])
  {
    if |s| == 0 || !IsSpace(s[|s| - 1]) then s
    else TrimRight(s[..|s| - 1])
  }

  /**
   `strings.TrimSpace`: the result is a contiguous piece of the input, only
   white space is cut on either side, and it neither starts nor ends with
   white space.
   */
  function TrimSpace(s: string): (r: string)
    ensures exists i :: (0 <= i <= |s| - |r| && r == s[i..i + |r|]
                         && AllSpace(s[..i]) && AllSpace(s[i + |r|..]))
    ensures |r| > 0 ==> !IsSpace(r[0]) && !IsSpace(r[|r| - 1])
  {
    var l := TrimLeft(s);
    var r := TrimRight(l);
    TrimPieces(s, l, r);
    r
  }

  /** Cutting white space off the front and then the back leaves a piece of the input with white space either side. */
  lemma TrimPieces(s: string, l: string, r: string)
    requires |l| <= |s| && s[|s| - |l|..] == l && AllSpace(s[..|s| - |l|])
    requires |r| <= |l| && r == l[..|r|] && AllSpace(l[|r|..])
    ensures var i := |s| - |l|;
            0 <= i <= |s| - |r| && r == s[i..i + |r|] && AllSpace(s[..i]) && AllSpace(s[i + |r|..])
  {
    var i := |s| - |l|;
    assert s[i..i + |r|] == l[..|r|];
    assert s[i + |r|..] == l[|r|..];
  }

  /** A text with no white space at either end is left as it is. */
  lemma TrimSpaceUnpadded(s: string)
    requires |s| > 0 ==> !IsSpace(s[0]) && !IsSpace(s[|s| - 1])
    ensures TrimSpace(s) == s
  {
    assert TrimLeft(s) == s;
    assert TrimRight(s) == s;
  }
}
