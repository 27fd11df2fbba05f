/**
 * Text helpers shared by the extractor and the simulator: Python's
 * `str.split()` on whitespace, `" ".join`, code-point string ordering and
 * `str(n)` for naturals.
 */
module Text {
  import opened Sorting

  /** The ASCII characters Python's `str.split()` treats as whitespace. */
  predicate IsSpace(c: char)
  {
    c == ' ' || (9 <= c as int <= 13) || (28 <= c as int <= 31)
  }

  predicate AllSpace(s: string)
  {
    forall i :: 0 <= i < |s| ==> IsSpace(s[i])
  }

  /** A token: a non-empty string without whitespace. */
  predicate IsToken(w: string)
  {
    |w| > 0 && forall i :: 0 <= i < |w| ==> !IsSpace(w[i])
  }

  predicate AllTokens(ws: seq<string>)
  {
    forall k :: 0 <= k < |ws| ==> IsToken(ws[k])
  }

  /** `s` without its leading whitespace. */
  function DropSpace(s: string): (r: string)
    ensures |r| <= |s| && r == s[|s| - |r|..]
    ensures r == [] || !IsSpace(r[0])
    ensures AllSpace(s[..|s| - |r|])
  {
    if s != [] && IsSpace(s[0]) then DropSpace(s[1..]) else s
  }

  /** Length of the leading run of non-whitespace characters. */
  function WordLength(s: string): (n: nat)
    ensures n <= |s|
    ensures forall i :: 0 <= i < n ==> !IsSpace(s[i])
    ensures n == |s| || IsSpace(s[n])
  {
    if s == [] || IsSpace(s[0]) then 0 else 1 + WordLength(s[1..])
  }

  /** Python's `s.split()`: the maximal runs of non-whitespace characters. */
  function Tokenize(s: string): (toks: seq<string>)
    ensures AllTokens(toks)
    decreases |s|
  {
    var t := DropSpace(s);
    if t == [] then []
    else
      var n := WordLength(t);
      var w := t[..n];
      assert IsToken(w) by { assert t[0] == w[0]; }
      var rest := Tokenize(t[n..]);
      ConsTokens(w, rest);
      [w] + rest
  }

  lemma ConsTokens(w: string, ws: seq<string>)
    requires IsToken(w) && AllTokens(ws)
    ensures AllTokens([w] + ws)
  {
    assert forall k :: 1 <= k < |ws| + 1 ==> ([w] + ws)[k] == ws[k - 1];
  }

  /** `sep.join(ws)`. */
  function Join(ws: seq<string>, sep: string): string
  {
    if ws == [] then ""
    else if |ws| == 1 then ws[0]
    else ws[0] + sep + Join(ws[1..], sep)
  }

  /** The characters of `s` that are not whitespace, in order. */
  function NonSpace(s: string): string
  {
    if s == [] then "" else (if IsSpace(s[0]) then "" else [s[0]]) + NonSpace(s[1..])
  }

  function Concat(ws: seq<string>): string
  {
    if ws == [] then "" else ws[0] + Concat(ws[1..])
  }

  /** A line is dropped by the reader exactly when it is all whitespace. */
  lemma {:induction false} TokenizeEmptyIffBlank(s: string)
    ensures Tokenize(s) == [] <==> AllSpace(s)
  {
    var t := DropSpace(s);
    if t != [] {
      assert s[|s| - |t|] == t[0];
    }
  }

  lemma {:induction false} NonSpaceAppend(a: string, b: string)
    ensures NonSpace(a + b) == NonSpace(a) + NonSpace(b)
  {
    if a != [] {
      var x := if IsSpace(a[0]) then "" else [a[0]];
      assert (a + b)[0] == a[0];
      assert (a + b)[1..] == a[1..] + b;
      NonSpaceAppend(a[1..], b);
      calc {
        NonSpace(a + b);
        x + NonSpace(a[1..] + b);
        x + (NonSpace(a[1..]) + NonSpace(b));
        (x + NonSpace(a[1..])) + NonSpace(b);
      }
    } else {
      assert a + b == b;
    }
  }

  lemma {:induction false} NonSpaceOfSpaces(s: string)
    requires AllSpace(s)
    ensures NonSpace(s) == ""
  {
    if s != [] {
      NonSpaceOfSpaces(s[1..]);
    }
  }

  lemma {:induction false} NonSpaceOfToken(s: string)
    requires forall i :: 0 <= i < |s| ==> !IsSpace(s[i])
    ensures NonSpace(s) == s
  {
    if s != [] {
      NonSpaceOfToken(s[1..]);
    }
  }

  /** Tokenising loses only whitespace: the tokens spell out the non-space characters. */
  lemma {:induction false} TokenizeKeepsText(s: string)
    ensures Concat(Tokenize(s)) == NonSpace(s)
    decreases |s|
  {
    var t := DropSpace(s);
    NonSpaceDropSpace(s);
    if t != [] {
      var n := WordLength(t);
      NonSpaceWord(t);
      TokenizeStep(s);
      TokenizeKeepsText(t[n..]);
      ConcatCons(t[..n], Tokenize(t[n..]));
    }
  }

  lemma NonSpaceDropSpace(s: string)
    ensures NonSpace(s) == NonSpace(DropSpace(s))
  {
    var t := DropSpace(s);
    var k := |s| - |t|;
    assert s == s[..k] + t;
    NonSpaceAppend(s[..k], t);
    NonSpaceOfSpaces(s[..k]);
  }

  lemma NonSpaceWord(t: string)
    requires t != [] && !IsSpace(t[0])
    ensures 0 < WordLength(t)
    ensures NonSpace(t) == t[..WordLength(t)] + NonSpace(t[WordLength(t)..])
  {
    var n := WordLength(t);
    assert t == t[..n] + t[n..];
    NonSpaceAppend(t[..n], t[n..]);
    NonSpaceOfToken(t[..n]);
  }

  /** One step of `split()`: skip whitespace, then take a word. */
  lemma TokenizeStep(s: string)
    requires DropSpace(s) != []
    ensures Tokenize(s) == [DropSpace(s)[..WordLength(DropSpace(s))]] + Tokenize(DropSpace(s)[WordLength(DropSpace(s))..])
  {
  }

  lemma ConcatCons(w: string, ws: seq<string>)
    ensures Concat([w] + ws) == w + Concat(ws)
  {
    assert ([w] + ws)[1..] == ws;
  }

  /** Round trip: joining tokens with single spaces and splitting again gives the tokens back. */
  lemma {:induction false} TokenizeJoin(ws: seq<string>)
    requires AllTokens(ws)
    ensures Tokenize(Join(ws, " ")) == ws
  {
    if |ws| == 1 {
      TokenizeSingle(ws[0]);
    } else if |ws| > 1 {
      TokenizeJoinStep(ws);
      TokenizeJoin(ws[1..]);
      HeadTail(ws);
    }
  }

  lemma HeadTail<T>(s: seq<T>)
    requires s != []
    ensures [s[0]] + s[1..] == s
  {
  }

  /** Splitting a joined line takes off its first word. */
  lemma TokenizeJoinStep(ws: seq<string>)
    requires |ws| > 1 && AllTokens(ws)
    ensures AllTokens(ws[1..])
    ensures Tokenize(Join(ws, " ")) == [ws[0]] + Tokenize(Join(ws[1..], " "))
  {
    var tail := ws[1..];
    var rest := Join(tail, " ");
    assert AllTokens(tail) by {
      assert forall k :: 0 <= k < |tail| ==> tail[k] == ws[k + 1];
    }
    assert rest != [] && !IsSpace(rest[0]) by {
      JoinStartsWithToken(tail);
      assert IsToken(tail[0]);
    }
    assert Join(ws, " ") == ws[0] + " " + rest;
    TokenizeCons(ws[0], rest);
  }

  lemma TokenizeSingle(w: string)
    requires IsToken(w)
    ensures Tokenize(w) == [w]
  {
    assert DropSpace(w) == w;
    assert WordLength(w) == |w|;
    assert w[..|w|] == w && w[|w|..] == [];
  }

  lemma TokenizeCons(w: string, rest: string)
    requires IsToken(w)
    requires rest != [] && !IsSpace(rest[0])
    ensures Tokenize(w + " " + rest) == [w] + Tokenize(rest)
  {
    var tail := " " + rest;
    var s := w + tail;
    assert w + " " + rest == s;
    assert s[0] == w[0];
    assert DropSpace(s) == s;
    assert WordLength(s) == |w| by {
      assert s[|w|] == ' ';
      assert forall i :: 0 <= i < |w| ==> s[i] == w[i];
      WordLengthOfPrefix(s, |w|);
    }
    assert Tokenize(s) == [s[..|w|]] + Tokenize(s[|w|..]);
    assert s[..|w|] == w;
    assert s[|w|..] == tail;
    TokenizeSpaceCons(rest);
  }

  lemma TokenizeSpaceCons(rest: string)
    requires rest != [] && !IsSpace(rest[0])
    ensures Tokenize(" " + rest) == Tokenize(rest)
  {
    assert (" " + rest)[1..] == rest;
    assert DropSpace(" " + rest) == rest;
  }

  lemma {:induction false} WordLengthOfPrefix(s: string, n: nat)
    requires n < |s| && IsSpace(s[n])
    requires forall i :: 0 <= i < n ==> !IsSpace(s[i])
    ensures WordLength(s) == n
  {
    if n > 0 {
      WordLengthOfPrefix(s[1..], n - 1);
    }
  }

  lemma JoinStartsWithToken(ws: seq<string>)
    requires ws != [] && AllTokens(ws)
    ensures Join(ws, " ") != [] && Join(ws, " ")[0] == ws[0][0]
  {
    assert IsToken(ws[0]);
  }

  // ---------------------------------------------------------------------
  // Python's string ordering: lexicographic by code point.

  /** `!(b < a)` for Python strings. */
  predicate StrLe(a: string, b: string)
  {
    if a == [] then true
    else if b == [] then false
    else if a[0] != b[0] then a[0] < b[0]
    else StrLe(a[1..], b[1..])
  }

  lemma {:induction false} StrLeRefl(a: string)
    ensures StrLe(a, a)
  {
    if a != [] {
      StrLeRefl(a[1..]);
    }
  }

  lemma {:induction false} StrLeTotal(a: string, b: string)
    ensures StrLe(a, b) || StrLe(b, a)
  {
    if a != [] && b != [] && a[0] == b[0] {
      StrLeTotal(a[1..], b[1..]);
    }
  }

  lemma {:induction false} StrLeTrans(a: string, b: string, c: string)
    requires StrLe(a, b) && StrLe(b, c)
    ensures StrLe(a, c)
  {
    if a != [] && b != [] && c != [] && a[0] == b[0] && b[0] == c[0] {
      StrLeTrans(a[1..], b[1..], c[1..]);
    }
  }

  /** Code-point string order is a total preorder on any list of strings, as `sorted` needs. */
  lemma StrLePreorder(s: seq<string>)
    ensures TotalPreorderOn(StrLe, s)
  {
    forall a, b | a in s && b in s ensures StrLe(a, b) || StrLe(b, a) {
      StrLeTotal(a, b);
    }
    forall a, b, c | a in s && b in s && c in s && StrLe(a, b) && StrLe(b, c) ensures StrLe(a, c) {
      StrLeTrans(a, b, c);
    }
  }

  lemma {:induction false} StrLeAntisym(a: string, b: string)
    requires StrLe(a, b) && StrLe(b, a)
    ensures a == b
  {
    if a != [] && b != [] {
      StrLeAntisym(a[1..], b[1..]);
      assert a == [a[0]] + a[1..];
      assert b == [b[0]] + b[1..];
    }
  }

  // ---------------------------------------------------------------------
  // Python's `str(n)` for natural numbers.

  function DigitChar(d: nat): (c: char)
    requires d < 10
    ensures '0' <= c <= '9'
  {
    ('0' as int + d) as char
  }

  /** Decimal numeral of `n`, without leading zeros. */
  function Dec(n: nat): (s: string)
    ensures |s| >= 1
    ensures forall i :: 0 <= i < |s| ==> '0' <= s[i] <= '9'
    ensures n >= 10 <==> |s| >= 2
  {
    if n < 10 then [DigitChar(n)] else Dec(n / 10) + [DigitChar(n % 10)]
  }

  /** Distinct numbers have distinct numerals, so generated ids never collide. */
  lemma {:induction false} DecInjective(a: nat, b: nat)
    requires Dec(a) == Dec(b)
    ensures a == b
  {
    if a >= 10 && b >= 10 {
      var sa, sb := Dec(a), Dec(b);
      assert sa[|sa| - 1] == DigitChar(a % 10);
      assert sb[|sb| - 1] == DigitChar(b % 10);
      assert sa[..|sa| - 1] == Dec(a / 10);
      assert sb[..|sb| - 1] == Dec(b / 10);
      DecInjective(a / 10, b / 10);
    }
  }

  /** `f"{prefix}{n}"`, as used for `NMOS_3`, `NET2`, `PMOS_SERIES_PAIR_1`. */
  function Label(prefix: string, n: nat): string
  {
    prefix + Dec(n)
  }

  lemma LabelInjective(prefix: string, a: nat, b: nat)
    requires Label(prefix, a) == Label(prefix, b)
    ensures a == b
  {
    assert Label(prefix, a)[|prefix|..] == Dec(a);
    assert Label(prefix, b)[|prefix|..] == Dec(b);
    DecInjective(a, b);
  }

  lemma LabelIsToken(prefix: string, n: nat)
    requires IsToken(prefix)
    ensures IsToken(Label(prefix, n))
  {
    var s := Label(prefix, n);
    forall i | 0 <= i < |s| ensures !IsSpace(s[i]) {
      if i >= |prefix| {
        assert s[i] == Dec(n)[i - |prefix|];
      }
    }
  }
}
