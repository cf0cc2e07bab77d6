/** The string operations the pages and the store rely on: JavaScript's
    `trim`, `split` on one character, `join`, `toLowerCase`, `includes`, and
    the order `localeCompare` and date comparison impose on ISO strings. */
module Text {

  /** The characters `String.prototype.trim` strips: WhiteSpace and
      LineTerminator of ECMAScript (tab, LF, VT, FF, CR, space, NBSP, the
      Unicode space separators, LS, PS and the byte-order mark). */
  predicate IsSpace(c: char) {
    var n := c as int;
    n == 0x09 || n == 0x0A || n == 0x0B || n == 0x0C || n == 0x0D || n == 0x20
    || n == 0xA0 || n == 0x1680 || (0x2000 <= n <= 0x200A) || n == 0x2028
    || n == 0x2029 || n == 0x202F || n == 0x205F || n == 0x3000 || n == 0xFEFF
  }

  predicate AllSpace(s: string) {
    forall k :: 0 <= k < |s| ==> IsSpace(s[k])
  }

  /** `s` without its leading white space. */
  function TrimStart(s: string): string {
    if |s| > 0 && IsSpace(s[0]) then TrimStart(s[1..]) else s
  }

  /** `s` without its trailing white space. */
  function TrimEnd(s: string): string {
    if |s| > 0 && IsSpace(s[|s| - 1]) then TrimEnd(s[..|s| - 1]) else s
  }

  /** The result of `TrimStart` is a suffix of `s`, everything cut off is
      white space, and the result does not start with white space. */
  lemma {:induction false} TrimStartShape(s: string)
    ensures var r := TrimStart(s);
      && |r| <= |s| && r == s[|s| - |r|..]
      && AllSpace(s[..|s| - |r|])
      && (r == [] || !IsSpace(r[0]))
    decreases |s|
  {
    if |s| > 0 && IsSpace(s[0]) {
      TrimStartShape(s[1..]);
      var r := TrimStart(s);
      assert s[..|s| - |r|] == [s[0]] + s[1..][..|s| - 1 - |r|];
    }
  }

  /** The result of `TrimEnd` is a prefix of `s`, everything cut off is
      white space, and the result does not end with white space. */
  lemma {:induction false} TrimEndShape(s: string)
    ensures var r := TrimEnd(s);
      && |r| <= |s| && r == s[..|r|]
      && AllSpace(s[|r|..])
      && (r == [] || !IsSpace(r[|r| - 1]))
    decreases |s|
  {
    if |s| > 0 && IsSpace(s[|s| - 1]) {
      TrimEndShape(s[..|s| - 1]);
      var r := TrimEnd(s);
      assert s[|r|..] == s[..|s| - 1][|r|..] + [s[|s| - 1]];
    }
  }

  /** `s.trim()` */
  function Trim(s: string): string {
    TrimEnd(TrimStart(s))
  }

  /** Where the trimmed text starts inside `s`. */
  function TrimOffset(s: string): nat {
    TrimStartShape(s);
    |s| - |TrimStart(s)|
  }

  /** Trim keeps exactly the middle of `s` between two runs of white space,
      and its result neither starts nor ends with white space. */
  lemma TrimShape(s: string)
    ensures var r, i := Trim(s), TrimOffset(s);
      i + |r| <= |s| && r == s[i..i + |r|] && AllSpace(s[..i]) && AllSpace(s[i + |r|..])
    ensures Trim(s) == [] || (!IsSpace(Trim(s)[0]) && !IsSpace(Trim(s)[|Trim(s)| - 1]))
  {
    var a := TrimStart(s);
    var r := TrimEnd(a);
    TrimStartShape(s);
    TrimEndShape(a);
    var i := |s| - |a|;
    assert s[i..] == a;
    TrimEndInside(s, i, a, r);
    if r != [] {
      assert r[0] == a[0];
    }
  }

  lemma TrimEndInside(s: string, i: nat, a: string, r: string)
    requires i <= |s| && s[i..] == a && r == TrimEnd(a)
    requires |r| <= |a| && r == a[..|r|] && AllSpace(a[|r|..])
    ensures i + |r| <= |s| && r == s[i..i + |r|] && AllSpace(s[i + |r|..])
  {
    assert s[i + |r|..] == a[|r|..];
    assert s[i..i + |r|] == a[..|r|];
  }

  /** A string without surrounding white space is its own trim. */
  lemma TrimOfTrimmed(s: string)
    requires s == [] || (!IsSpace(s[0]) && !IsSpace(s[|s| - 1]))
    ensures Trim(s) == s
  {
  }

  lemma {:induction false} TrimIdempotent(s: string)
    ensures Trim(Trim(s)) == Trim(s)
  {
    TrimShape(s);
    TrimOfTrimmed(Trim(s));
  }

  /** A string trims to nothing exactly when it is all white space. */
  lemma {:induction false} TrimEmptyIffBlank(s: string)
    ensures Trim(s) == [] <==> AllSpace(s)
  {
    TrimShape(s);
    if Trim(s) == [] {
      var i := TrimOffset(s);
      forall k | 0 <= k < |s| ensures IsSpace(s[k]) {
        if k < i {
          assert s[k] == s[..i][k];
        } else {
          assert s[k] == s[i..][k - i];
        }
      }
    }
  }

  /** Leading white space never survives a trim. */
  lemma {:induction false} TrimSkipsLeadingSpace(w: string, s: string)
    requires AllSpace(w)
    ensures Trim(w + s) == Trim(s)
    decreases |w|
  {
    if w != [] {
      assert (w + s)[1..] == w[1..] + s;
      TrimSkipsLeadingSpace(w[1..], s);
    } else {
      assert w + s == s;
    }
  }

  /** `s.split(sep)` for a one-character separator: never empty, no part
      holds the separator, and joining the parts back gives `s`. */
  function Split(s: string, sep: char): (r: seq<string>)
    ensures |r| >= 1
    ensures forall k :: 0 <= k < |r| ==> sep !in r[k]
    ensures Join(r, [sep]) == s
    decreases |s|
  {
    if |s| == 0 then [""]
    else
      var rest := Split(s[1..], sep);
      if s[0] == sep then
        assert [""] + rest == [""] + [rest[0]] + rest[1..];
        JoinCons("", rest, [sep]);
        [""] + rest
      else
        var r := [[s[0]] + rest[0]] + rest[1..];
        JoinCons([s[0]] + rest[0], rest[1..], [sep]);
        JoinCons(rest[0], rest[1..], [sep]);
        assert rest == [rest[0]] + rest[1..];
        r
  }

  /** `xs.join(sep)` */
  function Join(xs: seq<string>, sep: string): string
    decreases |xs|
  {
    if |xs| == 0 then ""
    else if |xs| == 1 then xs[0]
    else xs[0] + sep + Join(xs[1..], sep)
  }

  lemma JoinCons(x: string, xs: seq<string>, sep: string)
    ensures Join([x] + xs, sep) == if xs == [] then x else x + sep + Join(xs, sep)
  {
    assert ([x] + xs)[1..] == xs;
  }

  /** Splitting at a separator-free prefix. */
  lemma {:induction false} SplitAfterPart(a: string, sep: char, b: string)
    requires sep !in a
    ensures Split(a + [sep] + b, sep) == [a] + Split(b, sep)
    decreases |a|
  {
    if a == [] {
      assert a + [sep] + b == [sep] + b;
      assert ([sep] + b)[1..] == b;
    } else {
      assert (a + [sep] + b)[1..] == a[1..] + [sep] + b;
      SplitAfterPart(a[1..], sep, b);
      assert [a[0]] + a[1..] == a;
    }
  }

  /** A separator-free string is one part. */
  lemma {:induction false} SplitNoSep(a: string, sep: char)
    requires sep !in a
    ensures Split(a, sep) == [a]
    decreases |a|
  {
    if a != [] {
      SplitNoSep(a[1..], sep);
      assert [a[0]] + a[1..] == a;
    }
  }

  /** Prefixing a string with separator-free text extends its first part. */
  lemma {:induction false} SplitPrefix(w: string, sep: char, b: string)
    requires sep !in w
    ensures var p := Split(b, sep);
      Split(w + b, sep) == [w + p[0]] + p[1..]
    decreases |w|
  {
    if w != [] {
      assert (w + b)[1..] == w[1..] + b;
      SplitPrefix(w[1..], sep, b);
      assert [w[0]] + (w[1..] + Split(b, sep)[0]) == w + Split(b, sep)[0];
    } else {
      var p := Split(b, sep);
      assert w + b == b;
      assert w + p[0] == p[0];
      assert [p[0]] + p[1..] == p;
    }
  }

  /** The other half of the round trip: splitting joined separator-free
      parts gives the parts back. */
  lemma {:induction false} SplitJoin(xs: seq<string>, sep: char)
    requires |xs| >= 1
    requires forall k :: 0 <= k < |xs| ==> sep !in xs[k]
    ensures Split(Join(xs, [sep]), sep) == xs
    decreases |xs|
  {
    if |xs| == 1 {
      SplitNoSep(xs[0], sep);
    } else {
      SplitJoin(xs[1..], sep);
      SplitAfterPart(xs[0], sep, Join(xs[1..], [sep]));
      assert [xs[0]] + xs[1..] == xs;
    }
  }

  /** `s.toLowerCase()` on the ASCII letters. */
  function ToLower(s: string): (r: string)
    ensures |r| == |s|
    ensures forall k :: 0 <= k < |s| ==>
      r[k] == if 'A' <= s[k] <= 'Z' then (s[k] as int + 32) as char else s[k]
  {
    if s == [] then [] else [LowerChar(s[0])] + ToLower(s[1..])
  }

  function LowerChar(c: char): char {
    if 'A' <= c <= 'Z' then (c as int + 32) as char else c
  }

  /** `s.includes(q)` */
  predicate Contains(s: string, q: string)
    decreases |s|
  {
    q <= s || (|s| > 0 && Contains(s[1..], q))
  }

  /** `q` occurs in `s` starting at index `i`. */
  predicate OccursAt(s: string, q: string, i: int) {
    0 <= i <= |s| - |q| && s[i..i + |q|] == q
  }

  /** `includes` finds `q` exactly when `q` occurs somewhere in `s`. */
  lemma {:induction false} ContainsIffOccurs(s: string, q: string)
    ensures Contains(s, q) <==> exists i :: OccursAt(s, q, i)
    decreases |s|
  {
    if q <= s {
      assert OccursAt(s, q, 0);
    } else if |s| > 0 {
      ContainsIffOccurs(s[1..], q);
      if Contains(s[1..], q) {
        var i :| OccursAt(s[1..], q, i);
        assert s[1..][i..i + |q|] == s[i + 1..i + 1 + |q|];
        assert OccursAt(s, q, i + 1);
      }
      if exists i :: OccursAt(s, q, i) {
        var i :| OccursAt(s, q, i);
        if i > 0 {
          assert s[1..][i - 1..i - 1 + |q|] == s[i..i + |q|];
          assert OccursAt(s[1..], q, i - 1);
        }
      }
    }
  }

  /** Code-point lexicographic order: the order `localeCompare` gives on the
      strings this model compares, and the chronological order of ISO 8601
      dates and `HH:mm` times written with the same number of digits. */
  predicate StrLe(a: string, b: string)
    decreases |a|
  {
    a == [] || (b != [] && (a[0] < b[0] || (a[0] == b[0] && StrLe(a[1..], b[1..]))))
  }

  lemma {:induction false} StrLeTotal(a: string, b: string)
    ensures StrLe(a, b) || StrLe(b, a)
    decreases |a|
  {
    if a != [] && b != [] && a[0] == b[0] {
      StrLeTotal(a[1..], b[1..]);
    }
  }

  lemma {:induction false} StrLeTransitive(a: string, b: string, c: string)
    requires StrLe(a, b) && StrLe(b, c)
    ensures StrLe(a, c)
    decreases |a|
  {
    if a != [] && b != [] && c != [] && a[0] == b[0] && b[0] == c[0] {
      StrLeTransitive(a[1..], b[1..], c[1..]);
    }
  }

  lemma {:induction false} StrLeAntisymmetric(a: string, b: string)
    requires StrLe(a, b) && StrLe(b, a)
    ensures a == b
    decreases |a|
  {
    if a != [] && b != [] {
      StrLeAntisymmetric(a[1..], b[1..]);
      assert a == [a[0]] + a[1..] && b == [b[0]] + b[1..];
    }
  }

  /** Trimming only removes characters. */
  lemma TrimKeepsOut(s: string, c: char)
    requires c !in s
    ensures c !in Trim(s)
  {
    TrimShape(s);
    var r, i := Trim(s), TrimOffset(s);
    forall k | 0 <= k < |r| ensures r[k] != c {
      assert r[k] == s[i + k];
    }
  }

  /** `parts.map((p) => p.trim()).filter(Boolean)`: the trimmed parts that
      are not empty, in order. */
  function NonBlankTrimmed(parts: seq<string>): (r: seq<string>)
    ensures |r| <= |parts|
    ensures forall k :: 0 <= k < |r| ==> r[k] != ""
  {
    if parts == [] then []
    else
      var n := |parts| - 1;
      NonBlankTrimmed(parts[..n]) + (if Trim(parts[n]) == "" then [] else [Trim(parts[n])])
  }

  /** Every token is its own trim. */
  lemma {:induction false} NonBlankTrimmedAreTrimmed(parts: seq<string>)
    ensures forall k :: 0 <= k < |NonBlankTrimmed(parts)| ==> Trim(NonBlankTrimmed(parts)[k]) == NonBlankTrimmed(parts)[k]
    decreases |parts|
  {
    if parts != [] {
      var n := |parts| - 1;
      NonBlankTrimmedAreTrimmed(parts[..n]);
      TrimIdempotent(parts[n]);
    }
  }

  lemma {:induction false} NonBlankTrimmedConcat(a: seq<string>, b: seq<string>)
    ensures NonBlankTrimmed(a + b) == NonBlankTrimmed(a) + NonBlankTrimmed(b)
    decreases |b|
  {
    if b == [] {
      assert a + b == a;
    } else {
      var n := |b| - 1;
      assert (a + b)[..|a + b| - 1] == a + b[..n];
      NonBlankTrimmedConcat(a, b[..n]);
    }
  }

  /** A character no part holds is in no token. */
  lemma {:induction false} NonBlankTrimmedAvoids(parts: seq<string>, c: char)
    requires forall k :: 0 <= k < |parts| ==> c !in parts[k]
    ensures forall k :: 0 <= k < |NonBlankTrimmed(parts)| ==> c !in NonBlankTrimmed(parts)[k]
    decreases |parts|
  {
    if parts != [] {
      var n := |parts| - 1;
      NonBlankTrimmedAvoids(parts[..n], c);
      TrimKeepsOut(parts[n], c);
    }
  }

  /** Parts that already trim to the given non-empty tokens yield exactly
      those tokens. */
  lemma {:induction false} NonBlankTrimmedExact(parts: seq<string>, tokens: seq<string>)
    requires |parts| == |tokens|
    requires forall k :: 0 <= k < |parts| ==> Trim(parts[k]) == tokens[k] && tokens[k] != ""
    ensures NonBlankTrimmed(parts) == tokens
    decreases |parts|
  {
    if parts != [] {
      var n := |parts| - 1;
      NonBlankTrimmedExact(parts[..n], tokens[..n]);
      assert tokens == tokens[..n] + [tokens[n]];
    }
  }

  /** One part more: the result grows by its trim unless that is blank. */
  lemma NonBlankTrimmedSnoc(tags: seq<string>, j: nat, x: string)
    requires j < |tags| && x == Trim(tags[j])
    ensures x == "" ==> NonBlankTrimmed(tags[..j + 1]) == NonBlankTrimmed(tags[..j])
    ensures x != "" ==> NonBlankTrimmed(tags[..j + 1]) == NonBlankTrimmed(tags[..j]) + [x]
  {
    assert tags[..j + 1][..j] == tags[..j];
  }

  /** `s.split(",").map((t) => t.trim()).filter(Boolean)` */
  function CommaTokens(s: string): (r: seq<string>)
    ensures forall k :: 0 <= k < |r| ==> r[k] != "" && Trim(r[k]) == r[k] && ',' !in r[k]
  {
    NonBlankTrimmedAvoids(Split(s, ','), ',');
    NonBlankTrimmedAreTrimmed(Split(s, ','));
    NonBlankTrimmed(Split(s, ','))
  }

  /** A token as `CommaTokens` produces it. */
  predicate IsToken(x: string) {
    x != "" && Trim(x) == x && ',' !in x
  }

  function Spaced(xs: seq<string>): (r: seq<string>)
    ensures |r| == |xs| && forall k :: 0 <= k < |r| ==> r[k] == " " + xs[k]
  {
    seq(|xs|, k requires 0 <= k < |xs| => " " + xs[k])
  }

  lemma JoinPrefixFirst(w: string, y: string, ys: seq<string>, sep: string)
    ensures w + Join([y] + ys, sep) == Join([w + y] + ys, sep)
  {
    JoinCons(y, ys, sep);
    JoinCons(w + y, ys, sep);
  }

  /** Joining with `", "` is joining with `","` parts that start with a
      space. */
  lemma {:induction false} JoinSpaced(x: string, xs: seq<string>)
    ensures Join([x] + xs, ", ") == Join([x] + Spaced(xs), ",")
    decreases |xs|
  {
    JoinCons(x, xs, ", ");
    JoinCons(x, Spaced(xs), ",");
    if xs != [] {
      var y, ys := xs[0], xs[1..];
      assert xs == [y] + ys;
      JoinSpaced(" " + y, ys);
      JoinPrefixFirst(" ", y, ys, ", ");
      assert Spaced(xs) == [" " + y] + Spaced(ys);
      calc {
        Join([x] + xs, ", ");
        x + ", " + Join([y] + ys, ", ");
        x + "," + (" " + Join([y] + ys, ", "));
        x + "," + Join([" " + y] + ys, ", ");
        x + "," + Join([" " + y] + Spaced(ys), ",");
      }
    }
  }

  lemma SpacedTokenTrims(x: string)
    requires Trim(x) == x
    ensures Trim(" " + x) == x
  {
    TrimSkipsLeadingSpace(" ", x);
  }

  /** Round trip of the tag field: tokens joined with `", "` split back
      into the same tokens; no tokens join to the empty field, which has
      none. */
  lemma {:induction false} CommaTokensOfJoined(xs: seq<string>)
    requires forall k :: 0 <= k < |xs| ==> IsToken(xs[k])
    ensures CommaTokens(Join(xs, ", ")) == xs
  {
    if xs == [] {
      assert Split("", ',') == [""];
      assert Trim("") == "";
      return;
    }
    var ys := [xs[0]] + Spaced(xs[1..]);
    assert xs == [xs[0]] + xs[1..];
    JoinSpaced(xs[0], xs[1..]);
    assert forall k :: 0 <= k < |ys| ==> ',' !in ys[k] by {
      forall k | 0 <= k < |ys| ensures ',' !in ys[k] {
        if k > 0 {
          assert ys[k] == " " + xs[k];
        }
      }
    }
    SplitJoin(ys, ',');
    forall k | 0 <= k < |ys| ensures Trim(ys[k]) == xs[k] && xs[k] != "" {
      if k > 0 {
        SpacedTokenTrims(xs[k]);
      }
    }
    NonBlankTrimmedExact(ys, xs);
  }

  /** The last part of a split is what follows the last separator. */
  lemma {:induction false} SplitLastPart(a: string, sep: char, b: string)
    requires sep !in b
    ensures var p := Split(a + [sep] + b, sep);
      |p| >= 2 && p[|p| - 1] == b
    decreases |a|
  {
    var s := a + [sep] + b;
    if a == [] {
      assert s[1..] == b;
      SplitNoSep(b, sep);
    } else {
      assert s[1..] == a[1..] + [sep] + b;
      SplitLastPart(a[1..], sep, b);
    }
  }
}
