/** String helpers the editor script takes from JavaScript's String API:
    `trim`, `split("\n")`, `join("\n")`, `" ".repeat(n)` and number-to-text conversion. */
module Text {

  /** The whitespace that `String.prototype.trim` removes, restricted to a fixed set:
      the ASCII blanks, the line terminators, NO-BREAK SPACE and the byte order mark. */
  predicate IsWhitespace(c: char) {
    c == ' ' || c == '\t' || c == '\n' || c == '\r' || c == '\U{000B}' || c == '\U{000C}'
    || c == '\U{00A0}' || c == '\U{FEFF}' || c == '\U{2028}' || c == '\U{2029}'
  }

  predicate AllWhitespace(s: string) {
    forall i :: 0 <= i < |s| ==> IsWhitespace(s[i])
  }

  /** `s` without its leading whitespace. */
  function TrimStart(s: string): string {
    if |s| > 0 && IsWhitespace(s[0]) then TrimStart(s[1..]) else s
  }

  /** `s` without its trailing whitespace. */
  function TrimEnd(s: string): string {
    if |s| > 0 && IsWhitespace(s[|s| - 1]) then TrimEnd(s[..|s| - 1]) else s
  }

  /** `TrimStart` keeps the suffix left after the longest blank prefix. */
  lemma {:induction false} TrimStartSuffix(s: string)
    ensures var r := TrimStart(s);
      |r| <= |s| && r == s[|s| - |r|..] && AllWhitespace(s[..|s| - |r|]) &&
      (r == [] || !IsWhitespace(r[0]))
  {
    if |s| > 0 && IsWhitespace(s[0]) {
      TrimStartSuffix(s[1..]);
      var r := TrimStart(s);
      assert s[1..][..|s| - 1 - |r|] == s[1..|s| - |r|];
    }
  }

  /** `TrimEnd` keeps the prefix left before the longest blank suffix. */
  lemma {:induction false} TrimEndPrefix(s: string)
    ensures var r := TrimEnd(s);
      |r| <= |s| && r == s[..|r|] && AllWhitespace(s[|r|..]) &&
      (r == [] || !IsWhitespace(r[|r| - 1]))
  {
    if |s| > 0 && IsWhitespace(s[|s| - 1]) {
      var p := s[..|s| - 1];
      TrimEndPrefix(p);
      var r := TrimEnd(s);
      assert r == TrimEnd(p);
      assert p[..|r|] == s[..|r|];
      assert p[|r|..] == s[|r|..|s| - 1];
      forall k | |r| <= k < |s| ensures IsWhitespace(s[k]) {
        if k < |s| - 1 {
          assert s[k] == p[|r|..][k - |r|];
        }
      }
    }
  }

  lemma TrimSlice(s: string)
    ensures var i, j := |s| - |TrimStart(s)|, |s| - |TrimStart(s)| + |TrimEnd(TrimStart(s))|;
      0 <= i <= j <= |s| && TrimEnd(TrimStart(s)) == s[i..j] &&
      AllWhitespace(s[..i]) && AllWhitespace(s[j..])
  {
    var t := TrimStart(s);
    TrimStartSuffix(s);
    TrimEndPrefix(t);
    var i := |s| - |t|;
    var r := TrimEnd(t);
    assert t[|r|..] == s[i + |r|..];
  }

  /** JavaScript's `s.trim()`: the slice of `s` left after removing its leading and its
      trailing blanks; no blank at either end, empty exactly for a blank text. */
  function Trim(s: string): (r: string)
    ensures exists i, j :: 0 <= i <= j <= |s| && r == s[i..j] && AllWhitespace(s[..i]) && AllWhitespace(s[j..])
    ensures |r| <= |s|
    ensures r == [] || (!IsWhitespace(r[0]) && !IsWhitespace(r[|r| - 1]))
    ensures r == [] <==> AllWhitespace(s)
    ensures forall c :: c in r ==> c in s
  {
    var t := TrimStart(s);
    TrimStartSuffix(s);
    TrimEndPrefix(t);
    assert s == s[..|s| - |t|] + t;
    TrimSlice(s);
    TrimEnd(t)
  }

  /** Trimming twice is trimming once. */
  lemma TrimIdempotent(s: string)
    ensures Trim(Trim(s)) == Trim(s)
  {
  }

  /** Leading spaces never survive a trim. */
  lemma {:induction false} TrimAfterSpaces(n: nat, t: string)
    ensures Trim(Spaces(n) + t) == Trim(t)
  {
    if n > 0 {
      assert (Spaces(n) + t)[1..] == Spaces(n - 1) + t;
      assert TrimStart(Spaces(n) + t) == TrimStart(Spaces(n - 1) + t);
      TrimAfterSpaces(n - 1, t);
    } else {
      assert Spaces(n) + t == t;
    }
  }

  /** `" ".repeat(n)`. */
  function Spaces(n: nat): string {
    seq(n, _ => ' ')
  }

  /** `s.split("\n")`: the pieces between line feeds, at least one piece. */
  function Split(s: string): (r: seq<string>)
    ensures |r| >= 1
    ensures forall i :: 0 <= i < |r| ==> '\n' !in r[i]
  {
    if |s| == 0 then [""]
    else if s[0] == '\n' then [""] + Split(s[1..])
    else
      var rest := Split(s[1..]);
      [[s[0]] + rest[0]] + rest[1..]
  }

  /** `lines.join("\n")`. */
  function Join(lines: seq<string>): string {
    if |lines| == 0 then ""
    else if |lines| == 1 then lines[0]
    else lines[0] + "\n" + Join(lines[1..])
  }

  /** Joining the pieces of a split gives the text back. */
  lemma {:induction false} JoinSplit(s: string)
    ensures Join(Split(s)) == s
  {
    if |s| == 0 {
    } else if s[0] == '\n' {
      JoinSplit(s[1..]);
      var rest := Split(s[1..]);
      assert Split(s) == [""] + rest;
      assert ([""] + rest)[1..] == rest;
      assert s == "" + "\n" + s[1..];
    } else {
      JoinSplit(s[1..]);
      var rest := Split(s[1..]);
      var r := Split(s);
      assert r == [[s[0]] + rest[0]] + rest[1..];
      if |rest| == 1 {
        assert s == [s[0]] + s[1..];
      } else {
        assert r[1..] == rest[1..];
        assert Join(rest) == rest[0] + "\n" + Join(rest[1..]);
        assert s == [s[0]] + s[1..];
      }
    }
  }

  lemma {:induction false} SplitSingle(a: string)
    requires '\n' !in a
    ensures Split(a) == [a]
  {
    if |a| > 0 {
      SplitSingle(a[1..]);
      assert [a[0]] + a[1..] == a;
    }
  }

  lemma {:induction false} SplitLineFeed(a: string, b: string)
    requires '\n' !in a
    ensures Split(a + "\n" + b) == [a] + Split(b)
  {
    if |a| == 0 {
      assert a + "\n" + b == "\n" + b;
      assert ("\n" + b)[1..] == b;
    } else {
      assert '\n' !in a[1..];
      SplitLineFeed(a[1..], b);
      assert (a + "\n" + b)[1..] == a[1..] + "\n" + b;
      assert [a[0]] + a[1..] == a;
    }
  }

  /** Splitting joined lines that hold no line feed gives the lines back. */
  lemma {:induction false} SplitJoin(lines: seq<string>)
    requires |lines| >= 1
    requires forall i :: 0 <= i < |lines| ==> '\n' !in lines[i]
    ensures Split(Join(lines)) == lines
  {
    if |lines| == 1 {
      SplitSingle(lines[0]);
    } else {
      SplitJoin(lines[1..]);
      SplitLineFeed(lines[0], Join(lines[1..]));
      assert [lines[0]] + lines[1..] == lines;
    }
  }

  /** A joined text is blank exactly when every line is blank (the separator is blank). */
  lemma {:induction false} JoinAllWhitespace(lines: seq<string>)
    ensures AllWhitespace(Join(lines)) <==> forall i :: 0 <= i < |lines| ==> AllWhitespace(lines[i])
  {
    if |lines| > 1 {
      JoinAllWhitespace(lines[1..]);
      var j := Join(lines[1..]);
      var s := lines[0] + "\n" + j;
      if AllWhitespace(s) {
        assert forall k :: 0 <= k < |lines[0]| ==> s[k] == lines[0][k];
        assert forall k :: 0 <= k < |j| ==> s[|lines[0]| + 1 + k] == j[k];
      }
      if forall i :: 0 <= i < |lines| ==> AllWhitespace(lines[i]) {
        assert AllWhitespace(lines[0]);
        assert forall i :: 0 <= i < |lines[1..]| ==> AllWhitespace(lines[1..][i]);
      }
      if !(forall i :: 0 <= i < |lines| ==> AllWhitespace(lines[i])) {
        var i :| 0 <= i < |lines| && !AllWhitespace(lines[i]);
        if i > 0 {
          assert lines[1..][i - 1] == lines[i];
        }
      }
    }
  }

  function DigitChar(d: nat): (c: char)
    requires d < 10
  {
    "0123456789"[d]
  }

  /** The decimal text of a number, as a JavaScript template literal renders it: digits
      only, with no leading zero. */
  function DecimalString(n: nat): (r: string)
    ensures |r| >= 1
    ensures forall i :: 0 <= i < |r| ==> '0' <= r[i] <= '9'
    ensures r[0] == '0' ==> n == 0
  {
    if n < 10 then [DigitChar(n)] else DecimalString(n / 10) + [DigitChar(n % 10)]
  }

  /** The number a string of decimal digits denotes. */
  function DigitsValue(s: string): nat
    requires forall i :: 0 <= i < |s| ==> '0' <= s[i] <= '9'
  {
    if |s| == 0 then 0 else DigitsValue(s[..|s| - 1]) * 10 + (s[|s| - 1] as int - '0' as int)
  }

  /** The decimal text denotes the number it was made from. */
  lemma {:induction false} DecimalStringValue(n: nat)
    ensures DigitsValue(DecimalString(n)) == n
  {
    var r := DecimalString(n);
    if n < 10 {
      assert DigitChar(n) as int - '0' as int == n;
    } else {
      DecimalStringValue(n / 10);
      assert r[..|r| - 1] == DecimalString(n / 10);
      assert DigitChar(n % 10) as int - '0' as int == n % 10;
    }
  }
}
