/** String operations the TypeScript code takes from the JavaScript runtime
    (`split`, `join`, `trim`, `startsWith`, `includes`, `toLowerCase`,
    number-to-string), each stated on `seq<char>`. */
module Strings {

  /** Concatenation of a list of strings, in order (the `+=` of a loop). */
  function ConcatAll(parts: seq<string>): (r: string)
    ensures parts == [] ==> r == ""
  {
    if parts == [] then "" else ConcatAll(parts[..|parts| - 1]) + parts[|parts| - 1]
  }

  lemma {:induction false} ConcatAllAppend(a: seq<string>, b: seq<string>)
    ensures ConcatAll(a + b) == ConcatAll(a) + ConcatAll(b)
    decreases |b|
  {
    if b == [] {
      assert a + b == a;
    } else {
      var b' := b[..|b| - 1];
      assert (a + b)[..|a + b| - 1] == a + b';
      ConcatAllAppend(a, b');
    }
  }

  lemma ConcatAllPrefix(parts: seq<string>, i: nat)
    requires i < |parts|
    ensures ConcatAll(parts[..i + 1]) == ConcatAll(parts[..i]) + parts[i]
  {
    assert parts[..i + 1][..i] == parts[..i];
  }

  lemma ConcatAllSingle(s: string)
    ensures ConcatAll([s]) == s
  {
    assert [s][..0] == [];
  }

  // ----- split('\n') and join -----------------------------------------

  /** `s.split('\n')`: the pieces between newlines; never empty, and
      "" splits into [""]. Defined one character at a time from the end. */
  function Split(s: string): (r: seq<string>)
    ensures |r| >= 1
  {
    if s == [] then [""]
    else
      var p := Split(s[..|s| - 1]);
      var c := s[|s| - 1];
      if c == '\n' then p + [""] else p[..|p| - 1] + [p[|p| - 1] + [c]]
  }

  /** `parts.join(sep)`. */
  function Join(parts: seq<string>, sep: string): (r: string)
    ensures parts == [] ==> r == ""
  {
    if parts == [] then ""
    else if |parts| == 1 then parts[0]
    else Join(parts[..|parts| - 1], sep) + sep + parts[|parts| - 1]
  }

  /** One more character at the end of the text. */
  lemma SplitSnoc(s: string, c: char)
    ensures Split(s + [c]) == SnocPieces(Split(s), c)
  {
    assert (s + [c])[..|s|] == s;
  }

  lemma JoinSnoc(parts: seq<string>, x: string, sep: string)
    requires parts != []
    ensures Join(parts + [x], sep) == Join(parts, sep) + sep + x
  {
    assert (parts + [x])[..|parts|] == parts;
  }

  /** Joining two non-empty lists is joining their joins. */
  lemma {:induction false} JoinAppend(p: seq<string>, q: seq<string>, sep: string)
    requires p != [] && q != []
    ensures Join(p + q, sep) == Join(p, sep) + sep + Join(q, sep)
    decreases |q|
  {
    var q', x := q[..|q| - 1], q[|q| - 1];
    assert q == q' + [x];
    assert p + q == (p + q') + [x];
    JoinSnoc(p + q', x, sep);
    if q' == [] {
      assert p + q' == p;
      assert Join(q, sep) == x;
    } else {
      JoinAppend(p, q', sep);
      JoinSnoc(q', x, sep);
    }
  }

  /** Join undoes Split. */
  lemma {:induction false} JoinSplit(s: string)
    ensures Join(Split(s), "\n") == s
    decreases |s|
  {
    if s != [] {
      var s', c := s[..|s| - 1], s[|s| - 1];
      assert s == s' + [c];
      var p := Split(s');
      JoinSplit(s');
      SplitSnoc(s', c);
      if c == '\n' {
        JoinSnoc(p, "", "\n");
      } else {
        var q, last := p[..|p| - 1], p[|p| - 1];
        assert p == q + [last];
        if q == [] {
          assert Join(p, "\n") == last;
          assert Split(s) == [last + [c]];
        } else {
          JoinSnoc(q, last, "\n");
          JoinSnoc(q, last + [c], "\n");
        }
      }
    }
  }

  /** No piece of a Split contains the separator. */
  lemma {:induction false} SplitPiecesNewlineFree(s: string)
    ensures forall k :: 0 <= k < |Split(s)| ==> '\n' !in Split(s)[k]
    decreases |s|
  {
    if s != [] {
      var s', c := s[..|s| - 1], s[|s| - 1];
      assert s == s' + [c];
      SplitPiecesNewlineFree(s');
      SplitSnoc(s', c);
      var p := Split(s');
      if c != '\n' {
        var last := p[|p| - 1];
        assert '\n' !in last + [c];
        assert forall k :: 0 <= k < |p| - 1 ==> p[..|p| - 1][k] == p[k];
      }
    }
  }

  /** A string without a newline is a single piece. */
  lemma {:induction false} SplitNewlineFree(s: string)
    requires '\n' !in s
    ensures Split(s) == [s]
    decreases |s|
  {
    if s != [] {
      var s', c := s[..|s| - 1], s[|s| - 1];
      assert s == s' + [c];
      assert '\n' !in s';
      SplitNewlineFree(s');
      SplitSnoc(s', c);
    }
  }

  /** The piece-list update of SplitSnoc, applied after a fixed prefix. */
  function SnocPieces(p: seq<string>, c: char): seq<string>
    requires |p| >= 1
  {
    if c == '\n' then p + [""] else p[..|p| - 1] + [p[|p| - 1] + [c]]
  }

  lemma SnocPiecesAfter(a: seq<string>, q: seq<string>, c: char)
    requires |q| >= 1
    ensures SnocPieces(a + q, c) == a + SnocPieces(q, c)
  {
    if c != '\n' {
      assert (a + q)[..|a + q| - 1] == a + q[..|q| - 1];
    }
  }

  /** Splitting `s + t` splits `s`, then continues from its last piece: the
      text after the last newline of `s` is all that is carried over. */
  lemma {:induction false} SplitAppend(s: string, t: string)
    ensures var p := Split(s);
            Split(s + t) == p[..|p| - 1] + Split(p[|p| - 1] + t)
    decreases |t|
  {
    if t == [] {
      SplitAppendNil(s);
    } else {
      SplitAppend(s, t[..|t| - 1]);
      SplitAppendSnoc(s, t[..|t| - 1], t[|t| - 1]);
      assert t == t[..|t| - 1] + [t[|t| - 1]];
    }
  }

  lemma SplitAppendNil(s: string)
    ensures var p := Split(s);
            Split(s + []) == p[..|p| - 1] + Split(p[|p| - 1] + [])
  {
    var p := Split(s);
    var last := p[|p| - 1];
    assert s + [] == s;
    assert last + [] == last;
    SplitPiecesNewlineFree(s);
    SplitNewlineFree(last);
    assert p == p[..|p| - 1] + [last];
  }

  lemma SplitAppendSnoc(s: string, t: string, c: char)
    requires var p := Split(s);
             Split(s + t) == p[..|p| - 1] + Split(p[|p| - 1] + t)
    ensures var p := Split(s);
            Split(s + (t + [c])) == p[..|p| - 1] + Split(p[|p| - 1] + (t + [c]))
  {
    var p := Split(s);
    var init, last := p[..|p| - 1], p[|p| - 1];
    var q := Split(last + t);
    assert s + (t + [c]) == (s + t) + [c];
    assert last + (t + [c]) == (last + t) + [c];
    SplitSnoc(s + t, c);
    SplitSnoc(last + t, c);
    SnocPiecesAfter(init, q, c);
  }

  // ----- trim ------------------------------------------------------------

  /** The characters JavaScript's `trim` removes: WhiteSpace and
      LineTerminator of the ECMAScript grammar. */
  const Whitespace: set<char> := {
    '\t', '\n', '\U{000B}', '\U{000C}', '\r', ' ', '\U{00A0}', '\U{1680}',
    '\U{2000}', '\U{2001}', '\U{2002}', '\U{2003}', '\U{2004}', '\U{2005}',
    '\U{2006}', '\U{2007}', '\U{2008}', '\U{2009}', '\U{200A}',
    '\U{2028}', '\U{2029}', '\U{202F}', '\U{205F}', '\U{3000}', '\U{FEFF}'}

  predicate IsSpace(c: char) {
    c in Whitespace
  }

  predicate AllSpace(s: string) {
    forall k :: 0 <= k < |s| ==> IsSpace(s[k])
  }

  function TrimStart(s: string): string
  {
    if |s| > 0 && IsSpace(s[0]) then TrimStart(s[1..]) else s
  }

  function TrimEnd(s: string): string
  {
    if |s| > 0 && IsSpace(s[|s| - 1]) then TrimEnd(s[..|s| - 1]) else s
  }

  /** `s.trim()`. */
  function Trim(s: string): string
  {
    TrimEnd(TrimStart(s))
  }

  lemma AllSpaceConcat(x: string, y: string)
    requires AllSpace(x) && AllSpace(y)
    ensures AllSpace(x + y)
  {
    assert forall k :: 0 <= k < |x + y| ==> (x + y)[k] == if k < |x| then x[k] else y[k - |x|];
  }

  /** TrimStart drops a whitespace prefix and stops at the first other
      character. */
  lemma {:induction false} TrimStartSpec(s: string)
    ensures var r := TrimStart(s);
            |r| <= |s| && r == s[|s| - |r|..] && AllSpace(s[..|s| - |r|]) &&
            (r == [] || !IsSpace(r[0]))
    decreases |s|
  {
    if |s| > 0 && IsSpace(s[0]) {
      var s' := s[1..];
      TrimStartSpec(s');
      var r := TrimStart(s');
      assert s'[..|s'| - |r|] == s[1..|s| - |r|];
      assert s[..|s| - |r|] == [s[0]] + s'[..|s'| - |r|];
      AllSpaceConcat([s[0]], s'[..|s'| - |r|]);
    }
  }

  /** TrimEnd drops a whitespace suffix and stops at the last other
      character. */
  lemma {:induction false} TrimEndSpec(s: string)
    ensures var r := TrimEnd(s);
            |r| <= |s| && r == s[..|r|] && AllSpace(s[|r|..]) &&
            (r == [] || !IsSpace(r[|r| - 1]))
    decreases |s|
  {
    if |s| > 0 && IsSpace(s[|s| - 1]) {
      var s' := s[..|s| - 1];
      TrimEndSpec(s');
      var r := TrimEnd(s');
      assert s'[|r|..] == s[|r|..|s| - 1];
      assert s[|r|..] == s'[|r|..] + [s[|s| - 1]];
      AllSpaceConcat(s'[|r|..], [s[|s| - 1]]);
    }
  }

  /** What TrimStart followed by TrimEnd leaves: an infix with only
      whitespace around it. */
  lemma TrimInfix(s: string, a: string, r: string)
    requires |a| <= |s| && a == s[|s| - |a|..] && AllSpace(s[..|s| - |a|])
    requires a == [] || !IsSpace(a[0])
    requires |r| <= |a| && r == a[..|r|] && AllSpace(a[|r|..])
    requires r == [] || !IsSpace(r[|r| - 1])
    ensures OccursAt(s, r, |s| - |a|) && AllSpace(s[..|s| - |a|]) && AllSpace(s[|s| - |a| + |r|..])
    ensures r == [] || (!IsSpace(r[0]) && !IsSpace(r[|r| - 1]))
    ensures r == [] <==> AllSpace(s)
  {
    var i := |s| - |a|;
    assert a == s[i..];
    assert r == s[i..i + |r|];
    assert s[i + |r|..] == a[|r|..];
    if r == [] {
      assert s == s[..i] + a;
      assert a[|r|..] == a;
      AllSpaceConcat(s[..i], a);
    } else {
      assert r[0] == a[0] == s[i];
    }
  }

  /** Trim leaves the infix of `s` that has only whitespace around it and
      neither starts nor ends with whitespace; it is empty exactly when `s`
      is all whitespace. */
  lemma TrimSpec(s: string)
    ensures var r := Trim(s);
            (exists i :: OccursAt(s, r, i) && AllSpace(s[..i]) && AllSpace(s[i + |r|..])) &&
            (r == [] || (!IsSpace(r[0]) && !IsSpace(r[|r| - 1]))) &&
            (r == [] <==> AllSpace(s))
  {
    var a := TrimStart(s);
    TrimStartSpec(s);
    TrimEndSpec(a);
    TrimInfix(s, a, TrimEnd(a));
  }

  /** A string with no whitespace at either end is its own trim. */
  lemma TrimNoOp(s: string)
    requires s == [] || (!IsSpace(s[0]) && !IsSpace(s[|s| - 1]))
    ensures Trim(s) == s
  {
  }

  // ----- prefixes, substrings, case -------------------------------------

  /** `s.startsWith(p)`, compared one character at a time. */
  predicate StartsWith(s: string, p: string) {
    p == [] || (s != [] && s[0] == p[0] && StartsWith(s[1..], p[1..]))
  }

  /** StartsWith holds exactly when `p` is the first |p| characters of `s`. */
  lemma {:induction false} StartsWithSpec(s: string, p: string)
    ensures StartsWith(s, p) <==> |p| <= |s| && s[..|p|] == p
  {
    if p != [] && s != [] {
      StartsWithSpec(s[1..], p[1..]);
      if |p| <= |s| && s[..|p|] == p {
        assert s[1..][..|p| - 1] == s[..|p|][1..];
      }
      if s[0] == p[0] && |p| <= |s| && s[1..][..|p| - 1] == p[1..] {
        assert s[..|p|] == [s[0]] + s[1..][..|p| - 1];
        assert p == [p[0]] + p[1..];
      }
    }
  }

  predicate OccursAt(s: string, sub: string, i: int) {
    0 <= i && i + |sub| <= |s| && s[i..i + |sub|] == sub
  }

  /** `s.includes(sub)`. */
  function Contains(s: string, sub: string): (r: bool)
    ensures r <==> exists i :: OccursAt(s, sub, i)
  {
    StartsWithSpec(s, sub);
    if StartsWith(s, sub) then
      assert OccursAt(s, sub, 0);
      true
    else if |s| <= |sub| then
      assert forall i :: OccursAt(s, sub, i) ==> i == 0;
      false
    else
      var r := Contains(s[1..], sub);
      assert forall i :: OccursAt(s[1..], sub, i) <==> OccursAt(s, sub, i + 1);
      assert forall i :: OccursAt(s, sub, i) ==> i == 0 || OccursAt(s[1..], sub, i - 1);
      r
  }

  function LowerChar(c: char): char {
    if 'A' <= c <= 'Z' then (c as int + 32) as char else c
  }

  /** `s.toLowerCase()`, for the ASCII letters. */
  function ToLower(s: string): (r: string)
    ensures |r| == |s|
    ensures forall k :: 0 <= k < |s| ==> r[k] == LowerChar(s[k])
  {
    seq(|s|, k requires 0 <= k < |s| => LowerChar(s[k]))
  }

  // ----- numbers ----------------------------------------------------------

  function DigitChar(d: nat): (c: char)
    requires d < 10
    ensures '0' <= c <= '9'
    ensures c as int - '0' as int == d
  {
    (d + '0' as int) as char
  }

  /** The number a string of decimal digits denotes, most significant first. */
  function DecimalValue(s: string): int
  {
    if s == [] then 0 else 10 * DecimalValue(s[..|s| - 1]) + (s[|s| - 1] as int - '0' as int)
  }

  /** Decimal rendering of a non-negative number (template literal `${n}`):
      digits only, no leading zero, denoting `n`. */
  function NatToString(n: nat): (r: string)
    ensures |r| >= 1
    ensures forall k :: 0 <= k < |r| ==> '0' <= r[k] <= '9'
    ensures |r| > 1 ==> r[0] != '0'
    ensures DecimalValue(r) == n
  {
    if n < 10 then [DigitChar(n)]
    else
      var p := NatToString(n / 10);
      var r := p + [DigitChar(n % 10)];
      assert r[..|r| - 1] == p;
      r
  }
}
