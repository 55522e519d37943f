/** The backend's comic reader: the natural sort key, the file type from the
    extension, the ordered list of image members of an archive, and the
    page-index bounds of page count and page data. Opening and decoding the
    files are the environment's; their outcomes are parameters. */
module ArchiveReader {
  import opened JsValues
  import opened Ascii

  // ----- Splitting on digit runs -----

  predicate NoDigits(s: string) {
    forall i :: 0 <= i < |s| ==> !IsDigit(s[i])
  }

  predicate AllDigits(s: string) {
    forall i :: 0 <= i < |s| ==> IsDigit(s[i])
  }

  /** The length of the longest prefix without a digit. */
  function NonDigitPrefix(s: string): (n: nat)
    ensures n <= |s|
    ensures n < |s| ==> IsDigit(s[n])
  {
    if s == [] || IsDigit(s[0]) then 0 else 1 + NonDigitPrefix(s[1..])
  }

  lemma {:induction false} NonDigitPrefixHasNone(s: string)
    ensures NoDigits(s[..NonDigitPrefix(s)])
    decreases |s|
  {
    if s != [] && !IsDigit(s[0]) {
      NonDigitPrefixHasNone(s[1..]);
      assert s[..NonDigitPrefix(s)] == [s[0]] + s[1..][..NonDigitPrefix(s[1..])];
    }
  }

  /** The length of the longest prefix of digits. */
  function DigitPrefix(s: string): (n: nat)
    ensures n <= |s|
    ensures n < |s| ==> !IsDigit(s[n])
    ensures s != [] && IsDigit(s[0]) ==> n > 0
  {
    if s == [] || !IsDigit(s[0]) then 0 else 1 + DigitPrefix(s[1..])
  }

  lemma {:induction false} DigitPrefixAllDigits(s: string)
    ensures AllDigits(s[..DigitPrefix(s)])
    decreases |s|
  {
    if s != [] && IsDigit(s[0]) {
      DigitPrefixAllDigits(s[1..]);
      assert s[..DigitPrefix(s)] == [s[0]] + s[1..][..DigitPrefix(s[1..])];
    }
  }

  function Concat(ps: seq<string>): string {
    if ps == [] then "" else ps[0] + Concat(ps[1..])
  }

  /** `re.split(r'(\d+)', s)`: a text piece, then a maximal digit run and
      the split of what follows it, if any digit is left. */
  function Split(s: string): seq<string>
    decreases |s|
  {
    var n := NonDigitPrefix(s);
    if n == |s| then [s]
    else
      assert s[n..][0] == s[n];
      var m := n + DigitPrefix(s[n..]);
      [s[..n], s[n..m]] + Split(s[m..])
  }

  /** The pieces of the split: odd in number, text pieces without digits at
      the even positions, non-empty digit runs at the odd ones. */
  predicate Alternates(r: seq<string>) {
    |r| % 2 == 1 &&
    (forall i :: 0 <= i < |r| && i % 2 == 0 ==> NoDigits(r[i])) &&
    (forall i :: 0 <= i < |r| && i % 2 == 1 ==> AllDigits(r[i]) && r[i] != "")
  }

  /** The runs are maximal: no empty text piece between two digit runs, and
      a first piece that is empty only where `s` starts with a digit. */
  predicate Maximal(s: string, r: seq<string>) {
    r != [] &&
    (forall i :: 0 < i < |r| - 1 && i % 2 == 0 ==> r[i] != "") &&
    (s != [] && !IsDigit(s[0]) ==> r[0] != "")
  }

  lemma ConcatCons(p: string, ps: seq<string>)
    ensures Concat([p] + ps) == p + Concat(ps)
  {
    assert ([p] + ps)[1..] == ps;
  }

  lemma SplitUnfold(s: string, n: nat, m: nat)
    requires n == NonDigitPrefix(s) < |s|
    requires m == n + DigitPrefix(s[n..])
    ensures Split(s) == [s[..n], s[n..m]] + Split(s[m..])
  {
  }

  /** The two pieces split off the front, and the rest. */
  lemma SplitStep(s: string) returns (n: nat, m: nat)
    requires NonDigitPrefix(s) < |s|
    ensures n == NonDigitPrefix(s) && n < m <= |s|
    ensures Split(s) == [s[..n], s[n..m]] + Split(s[m..])
    ensures NoDigits(s[..n]) && AllDigits(s[n..m])
    ensures m < |s| ==> !IsDigit(s[m])
  {
    n := NonDigitPrefix(s);
    assert s[n..][0] == s[n];
    m := n + DigitPrefix(s[n..]);
    NonDigitPrefixHasNone(s);
    DigitPrefixAllDigits(s[n..]);
    assert s[n..][..m - n] == s[n..m];
    if m < |s| {
      assert s[n..][m - n] == s[m];
    }
    SplitUnfold(s, n, m);
  }

  lemma AlternatesCons(a: string, b: string, rest: seq<string>)
    requires NoDigits(a) && AllDigits(b) && b != "" && Alternates(rest)
    ensures Alternates([a, b] + rest)
  {
    var r := [a, b] + rest;
    forall i | 0 <= i < |r| && i % 2 == 0 ensures NoDigits(r[i]) {
      if i >= 2 {
        assert r[i] == rest[i - 2];
      }
    }
    forall i | 0 <= i < |r| && i % 2 == 1 ensures AllDigits(r[i]) && r[i] != "" {
      if i >= 2 {
        assert r[i] == rest[i - 2];
      }
    }
  }

  lemma {:induction false} SplitAlternates(s: string)
    ensures Alternates(Split(s))
    decreases |s|
  {
    if NonDigitPrefix(s) == |s| {
      NonDigitPrefixHasNone(s);
      assert s[..|s|] == s;
    } else {
      var n, m := SplitStep(s);
      SplitAlternates(s[m..]);
      AlternatesCons(s[..n], s[n..m], Split(s[m..]));
    }
  }

  lemma MaximalCons(t: string, a: string, b: string, rest: seq<string>)
    requires Maximal(t, rest) && (|rest| > 1 ==> rest[0] != "")
    ensures forall i :: 0 < i < |[a, b] + rest| - 1 && i % 2 == 0 ==> ([a, b] + rest)[i] != ""
  {
    var r := [a, b] + rest;
    forall i | 0 < i < |r| - 1 && i % 2 == 0 ensures r[i] != "" {
      assert r[i] == rest[i - 2];
    }
  }

  lemma {:induction false} SplitMaximal(s: string)
    ensures Maximal(s, Split(s))
    decreases |s|
  {
    if NonDigitPrefix(s) < |s| {
      var n, m := SplitStep(s);
      var rest := Split(s[m..]);
      SplitMaximal(s[m..]);
      if |rest| > 1 {
        assert s[m..] != [];
        assert s[m..][0] == s[m];
      }
      MaximalCons(s[m..], s[..n], s[n..m], rest);
      assert s != [] && !IsDigit(s[0]) ==> n > 0;
    }
  }

  lemma ConcatTwo(a: string, b: string, rest: seq<string>)
    ensures Concat([a, b] + rest) == a + b + Concat(rest)
  {
    ConcatCons(b, rest);
    ConcatCons(a, [b] + rest);
    assert [a, b] + rest == [a] + ([b] + rest);
  }

  lemma SliceThree(s: string, n: nat, m: nat)
    requires n <= m <= |s|
    ensures s == s[..n] + s[n..m] + s[m..]
  {
  }

  lemma {:induction false} SplitConcat(s: string)
    ensures Concat(Split(s)) == s
    decreases |s|
  {
    if NonDigitPrefix(s) < |s| {
      var n, m := SplitStep(s);
      SplitConcat(s[m..]);
      ConcatTwo(s[..n], s[n..m], Split(s[m..]));
      SliceThree(s, n, m);
    } else {
      assert Split(s) == [s];
      ConcatCons(s, []);
    }
  }

  /** The value of a decimal digit string. */
  function Val(d: string): nat
    requires AllDigits(d)
  {
    if d == [] then 0 else Val(d[..|d| - 1]) * 10 + (d[|d| - 1] as int - '0' as int)
  }

  datatype Token = Text(s: string) | Number(n: nat)

  /** `natural_keys`: digit runs become numbers, the rest is lowercased. */
  function NaturalKeys(s: string): seq<Token> {
    var p := Split(s);
    SplitAlternates(s);
    seq(|p|, i requires 0 <= i < |p| =>
      if i % 2 == 0 then Text(Lower(p[i])) else Number(Val(p[i])))
  }

  /** The key has one token per piece of the split: the lowercased text
      pieces at the even positions and the values of the digit runs at the
      odd ones, so texts are only ever compared with texts. */
  lemma NaturalKeysShape(s: string)
    ensures var r := NaturalKeys(s);
      |r| == |Split(s)| && |r| % 2 == 1 &&
      (forall i :: 0 <= i < |r| && i % 2 == 0 ==>
         r[i].Text? && r[i].s == Lower(Split(s)[i]) && NoDigits(r[i].s)) &&
      (forall i :: 0 <= i < |r| && i % 2 == 1 ==>
         r[i].Number? && AllDigits(Split(s)[i]) && r[i].n == Val(Split(s)[i]))
  {
    SplitAlternates(s);
  }

  // ----- Case-insensitivity -----

  lemma {:induction false} NonDigitPrefixLower(s: string)
    ensures NonDigitPrefix(Lower(s)) == NonDigitPrefix(s)
    decreases |s|
  {
    if s != [] {
      assert Lower(s)[1..] == Lower(s[1..]);
      NonDigitPrefixLower(s[1..]);
    }
  }

  lemma {:induction false} DigitPrefixLower(s: string)
    ensures DigitPrefix(Lower(s)) == DigitPrefix(s)
    decreases |s|
  {
    if s != [] {
      assert Lower(s)[1..] == Lower(s[1..]);
      DigitPrefixLower(s[1..]);
    }
  }

  /** `q` is `p` with every piece lowercased. */
  predicate LowerPieces(p: seq<string>, q: seq<string>) {
    |q| == |p| && forall i :: 0 <= i < |p| ==> q[i] == Lower(p[i])
  }

  lemma LowerPiecesCons(a: string, b: string, p: seq<string>, q: seq<string>)
    requires LowerPieces(p, q)
    ensures LowerPieces([a, b] + p, [Lower(a), Lower(b)] + q)
  {
    var x, y := [a, b] + p, [Lower(a), Lower(b)] + q;
    forall i | 0 <= i < |x| ensures y[i] == Lower(x[i]) {
      if i >= 2 {
        assert x[i] == p[i - 2] && y[i] == q[i - 2];
      }
    }
  }

  lemma SplitBase(s: string)
    requires NonDigitPrefix(s) == |s|
    ensures Split(s) == [s]
  {
  }

  /** Lowercasing a string lowercases each piece of its split. */
  lemma {:induction false} SplitLower(s: string)
    ensures LowerPieces(Split(s), Split(Lower(s)))
    decreases |s|
  {
    NonDigitPrefixLower(s);
    if NonDigitPrefix(s) == |s| {
      SplitBase(s);
      SplitBase(Lower(s));
    } else {
      var n := NonDigitPrefix(s);
      assert s[n..][0] == s[n];
      var m := n + DigitPrefix(s[n..]);
      SplitUnfold(s, n, m);
      LowerSlice(s, n, |s|);
      assert Lower(s)[n..] == Lower(s[n..]);
      DigitPrefixLower(s[n..]);
      SplitUnfold(Lower(s), n, m);
      LowerSlice(s, 0, n);
      LowerSlice(s, n, m);
      LowerSlice(s, m, |s|);
      assert Lower(s)[m..] == Lower(s[m..]);
      SplitLower(s[m..]);
      LowerPiecesCons(s[..n], s[n..m], Split(s[m..]), Split(Lower(s[m..])));
    }
  }

  lemma LowerOfDigits(d: string)
    requires AllDigits(d)
    ensures Lower(d) == d
  {
  }

  /** On ASCII input the key ignores case. */
  lemma NaturalKeysIgnoreCase(s: string)
    ensures NaturalKeys(Lower(s)) == NaturalKeys(s)
  {
    SplitLower(s);
    NaturalKeysShape(s);
    NaturalKeysShape(Lower(s));
    var p, q := Split(s), Split(Lower(s));
    var a, b := NaturalKeys(Lower(s)), NaturalKeys(s);
    forall i | 0 <= i < |b| ensures a[i] == b[i] {
      if i % 2 == 0 {
        assert q[i] == Lower(p[i]);
        LowerIdempotent(p[i]);
      } else {
        LowerOfDigits(p[i]);
      }
    }
  }

  // ----- Ordering -----

  /** Python's string order: by code point, a proper prefix first. */
  predicate StrLt(a: string, b: string)
    decreases |a|
  {
    if a == [] then b != []
    else if b == [] then false
    else if a[0] != b[0] then a[0] < b[0]
    else StrLt(a[1..], b[1..])
  }

  /** The order of two tokens of the same kind. Tokens of different kinds
      never meet at the same position of two keys. */
  predicate TokenLt(a: Token, b: Token) {
    if a.Text? && b.Text? then StrLt(a.s, b.s)
    else if a.Number? && b.Number? then a.n < b.n
    else false
  }

  /** Python's list order `a <= b` on keys. */
  predicate KeyLe(a: seq<Token>, b: seq<Token>)
    decreases |a|
  {
    if a == [] then true
    else if b == [] then false
    else if a[0] != b[0] then TokenLt(a[0], b[0])
    else KeyLe(a[1..], b[1..])
  }

  lemma {:induction false} StrTotal(a: string, b: string)
    ensures a == b || StrLt(a, b) || StrLt(b, a)
    decreases |a|
  {
    if a != [] && b != [] && a[0] == b[0] {
      StrTotal(a[1..], b[1..]);
      if a[1..] == b[1..] {
        assert a == [a[0]] + a[1..] && b == [b[0]] + b[1..];
      }
    }
  }

  predicate Alternating(k: seq<Token>, parity: int) {
    forall i :: 0 <= i < |k| ==> (k[i].Text? <==> i % 2 == parity)
  }

  /** Any two keys are ordered one way or the other. */
  lemma {:induction false} KeyTotalFrom(a: seq<Token>, b: seq<Token>, parity: int)
    requires parity == 0 || parity == 1
    requires Alternating(a, parity) && Alternating(b, parity)
    ensures KeyLe(a, b) || KeyLe(b, a)
    decreases |a|
  {
    if a != [] && b != [] {
      if a[0] == b[0] {
        assert Alternating(a[1..], 1 - parity) by {
          forall i | 0 <= i < |a[1..]| ensures (a[1..][i].Text? <==> i % 2 == 1 - parity) {
            assert a[1..][i] == a[i + 1];
          }
        }
        assert Alternating(b[1..], 1 - parity) by {
          forall i | 0 <= i < |b[1..]| ensures (b[1..][i].Text? <==> i % 2 == 1 - parity) {
            assert b[1..][i] == b[i + 1];
          }
        }
        KeyTotalFrom(a[1..], b[1..], 1 - parity);
      } else if a[0].Text? {
        assert b[0].Text?;
        StrTotal(a[0].s, b[0].s);
      } else {
        assert b[0].Number?;
      }
    }
  }

  lemma KeyTotal(x: string, y: string)
    ensures KeyLe(NaturalKeys(x), NaturalKeys(y)) || KeyLe(NaturalKeys(y), NaturalKeys(x))
  {
    NaturalKeysShape(x);
    NaturalKeysShape(y);
    KeyTotalFrom(NaturalKeys(x), NaturalKeys(y), 0);
  }

  lemma {:induction false} StrLtTrans(a: string, b: string, c: string)
    requires StrLt(a, b) && StrLt(b, c)
    ensures StrLt(a, c)
    decreases |a|
  {
    if a != [] && a[0] == b[0] && b[0] == c[0] {
      StrLtTrans(a[1..], b[1..], c[1..]);
    }
  }

  lemma {:induction false} StrLtAsym(a: string, b: string)
    requires StrLt(a, b)
    ensures !StrLt(b, a)
    decreases |a|
  {
    if a != [] && a[0] == b[0] {
      StrLtAsym(a[1..], b[1..]);
    }
  }

  /** Key order is transitive, so a list sorted between neighbours is
      sorted throughout. */
  lemma {:induction false} KeyLeTrans(a: seq<Token>, b: seq<Token>, c: seq<Token>)
    requires KeyLe(a, b) && KeyLe(b, c)
    ensures KeyLe(a, c)
    decreases |a|
  {
    if a != [] && b != [] && c != [] {
      if a[0] == b[0] && b[0] == c[0] {
        KeyLeTrans(a[1..], b[1..], c[1..]);
      } else if a[0] != b[0] && b[0] != c[0] {
        if a[0].Text? {
          StrLtTrans(a[0].s, b[0].s, c[0].s);
          if a[0] == c[0] {
            StrLtAsym(a[0].s, b[0].s);
          }
        }
      }
    }
  }

  lemma KeysOfP2()
    ensures NaturalKeys("p2") == [Text("p"), Number(2), Text("")]
  {
    assert "p2"[1..] == "2" && "2"[1..] == "";
    assert NonDigitPrefix("2") == 0;
    assert NonDigitPrefix("p2") == 1;
    assert DigitPrefix("2") == 1;
    SplitUnfold("p2", 1, 2);
    assert "p2"[..1] == "p" && "p2"[1..2] == "2" && "p2"[2..] == "";
    SplitBase("");
    assert Split("p2") == ["p", "2", ""];
    assert Val("2") == 2 by {
      assert "2"[..0] == "";
    }
    assert Lower("p") == "p";
  }

  lemma KeysOfP10()
    ensures NaturalKeys("p10") == [Text("p"), Number(10), Text("")]
  {
    assert "p10"[1..] == "10" && "10"[1..] == "0" && "0"[1..] == "";
    assert NonDigitPrefix("10") == 0;
    assert NonDigitPrefix("p10") == 1;
    assert DigitPrefix("0") == 1;
    assert DigitPrefix("10") == 2;
    SplitUnfold("p10", 1, 3);
    assert "p10"[..1] == "p" && "p10"[1..3] == "10" && "p10"[3..] == "";
    SplitBase("");
    assert Split("p10") == ["p", "10", ""];
    assert Val("10") == 10 by {
      assert "10"[..1] == "1" && "1"[..0] == "";
    }
    assert Lower("p") == "p";
  }

  /** Numbers compare by value: "p2" comes before "p10", although plain
      string order puts "p10" first. */
  lemma NumericRunsOrder()
    ensures KeyLe(NaturalKeys("p2"), NaturalKeys("p10"))
    ensures !KeyLe(NaturalKeys("p10"), NaturalKeys("p2"))
    ensures StrLt("p10", "p2")
  {
    KeysOfP2();
    KeysOfP10();
    var a: seq<Token> := [Text("p"), Number(2), Text("")];
    var b: seq<Token> := [Text("p"), Number(10), Text("")];
    assert a[1..] == [Number(2), Text("")] && b[1..] == [Number(10), Text("")];
    assert KeyLe(a[1..], b[1..]);
    assert !KeyLe(b[1..], a[1..]);
    assert "p10"[1..] == "10" && "p2"[1..] == "2";
  }

  // ----- Page names -----

  predicate IsImageName(name: string) {
    var l := Lower(name);
    EndsWith(l, ".jpg") || EndsWith(l, ".jpeg") || EndsWith(l, ".png") || EndsWith(l, ".webp")
  }

  function ImageNames(names: seq<string>): (r: seq<string>)
    ensures forall x :: x in r <==> x in names && IsImageName(x)
    ensures multiset(r) <= multiset(names)
    ensures forall x :: x in multiset(r) ==> multiset(r)[x] == multiset(names)[x]
  {
    if names == [] then []
    else
      assert names == [names[0]] + names[1..];
      var rest := ImageNames(names[1..]);
      if IsImageName(names[0]) then [names[0]] + rest else rest
  }

  predicate Sorted(s: seq<string>) {
    forall i, j :: 0 <= i < j < |s| ==> KeyLe(NaturalKeys(s[i]), NaturalKeys(s[j]))
  }

  /** Appending a name whose key is not below any key keeps a list sorted. */
  lemma SortedAppend(s: seq<string>, x: string)
    requires Sorted(s)
    requires forall i :: 0 <= i < |s| ==> KeyLe(NaturalKeys(s[i]), NaturalKeys(x))
    ensures Sorted(s + [x])
  {
    forall i, j | 0 <= i < j < |s + [x]|
      ensures KeyLe(NaturalKeys((s + [x])[i]), NaturalKeys((s + [x])[j]))
    {
      if j < |s| {
        assert (s + [x])[i] == s[i] && (s + [x])[j] == s[j];
      } else {
        assert (s + [x])[i] == s[i] && (s + [x])[j] == x;
      }
    }
  }

  /** Every key of a sorted list is below a key at least its last one's. */
  lemma BelowLast(s: seq<string>, x: string)
    requires s != [] && Sorted(s)
    requires KeyLe(NaturalKeys(s[|s| - 1]), NaturalKeys(x))
    ensures forall i :: 0 <= i < |s| ==> KeyLe(NaturalKeys(s[i]), NaturalKeys(x))
  {
    forall i | 0 <= i < |s|
      ensures KeyLe(NaturalKeys(s[i]), NaturalKeys(x))
    {
      if i < |s| - 1 {
        KeyLeTrans(NaturalKeys(s[i]), NaturalKeys(s[|s| - 1]), NaturalKeys(x));
      }
    }
  }

  /** The names of a permutation of `init + [x]` all have keys not above
      `last`, when `init`'s keys and `x`'s are not. */
  lemma PermutedBelow(r: seq<string>, init: seq<string>, x: string, last: string)
    requires multiset(r) == multiset(init) + multiset{x}
    requires forall i :: 0 <= i < |init| ==> KeyLe(NaturalKeys(init[i]), NaturalKeys(last))
    requires KeyLe(NaturalKeys(x), NaturalKeys(last))
    ensures forall i :: 0 <= i < |r| ==> KeyLe(NaturalKeys(r[i]), NaturalKeys(last))
  {
    forall i | 0 <= i < |r|
      ensures KeyLe(NaturalKeys(r[i]), NaturalKeys(last))
    {
      assert r[i] in multiset(r);
      if r[i] != x {
        assert r[i] in multiset(init);
        var k :| 0 <= k < |init| && init[k] == r[i];
      }
    }
  }

  /** Insert `x` after every name whose key is not above its own. */
  function Insert(s: seq<string>, x: string): (r: seq<string>)
    requires Sorted(s)
    ensures Sorted(r)
    ensures multiset(r) == multiset(s) + multiset{x}
    decreases |s|
  {
    if s == [] then [x]
    else if KeyLe(NaturalKeys(s[|s| - 1]), NaturalKeys(x)) then
      BelowLast(s, x);
      SortedAppend(s, x);
      s + [x]
    else
      var last := s[|s| - 1];
      var init := s[..|s| - 1];
      KeyTotal(last, x);
      assert s == init + [last];
      assert forall i :: 0 <= i < |init| ==> KeyLe(NaturalKeys(init[i]), NaturalKeys(last)) by {
        forall i | 0 <= i < |init| ensures KeyLe(NaturalKeys(init[i]), NaturalKeys(last)) {
          assert init[i] == s[i];
        }
      }
      var r' := Insert(init, x);
      PermutedBelow(r', init, x, last);
      SortedAppend(r', last);
      r' + [last]
  }

  /** `sorted(names, key=natural_keys)`. */
  function SortByKeys(s: seq<string>): (r: seq<string>)
    ensures Sorted(r)
    ensures multiset(r) == multiset(s)
    decreases |s|
  {
    if s == [] then []
    else
      assert s == s[..|s| - 1] + [s[|s| - 1]];
      Insert(SortByKeys(s[..|s| - 1]), s[|s| - 1])
  }

  // ----- Type and extension -----

  datatype Kind = Pdf | Cbz | Cbr | Unknown

  /** `_determine_type` on the lowercased extension. */
  function DetermineType(ext: string): (k: Kind)
    ensures k == Pdf <==> ext == ".pdf"
    ensures k == Cbz <==> ext == ".cbz" || ext == ".zip"
    ensures k == Cbr <==> ext == ".cbr" || ext == ".rar"
  {
    if ext == ".pdf" then Pdf
    else if ext == ".cbz" || ext == ".zip" then Cbz
    else if ext == ".cbr" || ext == ".rar" then Cbr
    else Unknown
  }

  /** The index of the last `c` in `s`, or -1. */
  function RFind(s: string, c: char): (r: int)
    ensures -1 <= r < |s|
    ensures r >= 0 ==> s[r] == c
    ensures forall i :: r < i < |s| ==> s[i] != c
  {
    if s == [] then -1
    else if s[|s| - 1] == c then |s| - 1
    else RFind(s[..|s| - 1], c)
  }

  /** The extension `os.path.splitext` gives on a POSIX path: from the last
      dot of the last component, provided that the component has some
      other character before it. */
  function SplitExt(path: string): (ext: string)
    ensures ext != "" ==> ext[0] == '.' && EndsWith(path, ext)
    ensures forall i :: 0 < i < |ext| ==> ext[i] != '.' && ext[i] != '/'
    ensures ext == "" <==>
      (forall i :: RFind(path, '/') < i < |path| ==> path[i] != '.') ||
      (forall i :: RFind(path, '/') < i < RFind(path, '.') ==> path[i] == '.')
  {
    var sep := RFind(path, '/');
    var dot := RFind(path, '.');
    if dot > sep && exists i :: sep + 1 <= i < dot && path[i] != '.' then
      assert path[dot] == '.';
      path[dot..]
    else
      ""
  }

  /** A position holding `c` with no `c` after it is what `RFind` finds. */
  lemma RFindAt(s: string, c: char, k: int)
    requires 0 <= k < |s| && s[k] == c
    requires forall i :: k < i < |s| ==> s[i] != c
    ensures RFind(s, c) == k
  {
  }

  /** The last dot gives the extension, in any case. */
  lemma ExtensionOfArchive()
    ensures DetermineType(Lower(SplitExt("a/v.1.CBZ"))) == Cbz
  {
    var p := "a/v.1.CBZ";
    RFindAt(p, '/', 1);
    RFindAt(p, '.', 5);
    assert p[2] != '.';
    assert p[5..] == ".CBZ";
    assert Lower(".CBZ") == ".cbz";
  }

  /** `splitext`'s leading-dots rule for any path: a last component made of
      dots followed by a name without dots has no extension. */
  lemma LeadingDotsNoExtension(dir: string, dots: string, name: string)
    requires dots != [] && forall i :: 0 <= i < |dots| ==> dots[i] == '.'
    requires forall i :: 0 <= i < |name| ==> name[i] != '.' && name[i] != '/'
    ensures SplitExt(dir + "/" + dots + name) == ""
  {
    var p := dir + "/" + dots + name;
    var k := |dir| + |dots|;
    assert p[|dir|] == '/';
    forall i | |dir| < i < |p| ensures p[i] != '/' {
      if i <= k { assert p[i] == dots[i - |dir| - 1]; } else { assert p[i] == name[i - k - 1]; }
    }
    RFindAt(p, '/', |dir|);
    assert p[k] == dots[|dots| - 1];
    forall i | k < i < |p| ensures p[i] != '.' {
      assert p[i] == name[i - k - 1];
    }
    RFindAt(p, '.', k);
    forall i | |dir| < i < k ensures p[i] == '.' {
      assert p[i] == dots[i - |dir| - 1];
    }
  }

  /** A name that is only a leading dot and letters has no extension. */
  lemma ExtensionOfDotFile()
    ensures DetermineType(Lower(SplitExt("a/.cbz"))) == Unknown
  {
    var q := "a/.cbz";
    RFindAt(q, '/', 1);
    RFindAt(q, '.', 2);
    assert SplitExt(q) == "";
  }

  // ----- The reader object -----

  /** Where a page's bytes come from. */
  datatype PageSource = PdfPage(index: nat) | ArchiveMember(name: string)

  class ComicReader {
    var filePath: string
    var ext: string
    var kind: Kind
    var pageNames: seq<string>
    var docPages: Option<nat>    // the page count of an opened PDF document

    /** What `__init__` establishes: the type follows the extension, only a
        PDF holds a document and only an archive holds page names. */
    ghost predicate Valid()
      reads this
    {
      && kind == DetermineType(ext)
      && (kind != Pdf ==> docPages.None?)
      && (kind != Cbz && kind != Cbr ==> pageNames == [])
    }

    /** `__init__`. `listing` is the archive's member list, `None` when
        opening it raises; `pdf` is the opened document's page count,
        `None` when opening raises. */
    constructor (path: string, listing: Option<seq<string>>, pdf: Option<nat>)
      ensures Valid()
      ensures filePath == path && ext == Lower(SplitExt(path)) && kind == DetermineType(ext)
      ensures kind == Pdf ==> docPages == pdf
      ensures kind != Pdf ==> docPages.None?
      ensures (kind == Cbz || kind == Cbr) && listing.Some? ==>
        pageNames == SortByKeys(ImageNames(listing.value))
      ensures !((kind == Cbz || kind == Cbr) && listing.Some?) ==> pageNames == []
    {
      filePath := path;
      ext := Lower(SplitExt(path));
      var k := DetermineType(Lower(SplitExt(path)));
      kind := k;
      pageNames := [];
      docPages := None;
      if k == Pdf {
        docPages := pdf;
      } else if k == Cbz || k == Cbr {
        if listing.Some? {
          pageNames := SortByKeys(ImageNames(listing.value));
        }
      }
    }

    /** `get_page_count`: the document's pages for an opened PDF, else the
        number of image members. A document with no pages is falsy in the
        source and falls through to the name list. */
    function PageCount(): (n: nat)
      reads this
      requires Valid()
      ensures kind == Unknown ==> n == 0
      ensures kind == Pdf && (docPages.None? || docPages.value == 0) ==> n == 0
      ensures kind == Pdf && docPages.Some? && docPages.value > 0 ==> n == docPages.value
      ensures !(kind == Pdf && docPages.Some? && docPages.value > 0) ==> n == |pageNames|
    {
      if kind == Pdf && docPages.Some? && docPages.value > 0 then docPages.value else |pageNames|
    }

    /** `get_page_data`: which page is read, or `None` outside `[0, count)`,
        for an unknown type, or when the read raises (`readOk` false). */
    function PageData(index: int, readOk: bool): (r: Option<PageSource>)
      reads this
      requires Valid()
      ensures kind == Unknown ==> r.None?
      ensures r.Some? ==> 0 <= index < PageCount() && readOk
      ensures r.Some? && r.value.ArchiveMember? ==>
        (kind == Cbz || kind == Cbr) && 0 <= index < |pageNames| && r.value.name == pageNames[index]
      ensures r.Some? && r.value.PdfPage? ==> kind == Pdf && r.value.index == index
      ensures readOk && 0 <= index < PageCount() && (kind == Cbz || kind == Cbr) ==> r.Some?
      ensures readOk && 0 <= index < PageCount() && kind == Pdf && docPages.Some? && docPages.value > 0 ==> r.Some?
    {
      if !readOk then None
      else if kind == Pdf && docPages.Some? && docPages.value > 0 then
        if 0 <= index < docPages.value then Some(PdfPage(index)) else None
      else if kind == Cbz || kind == Cbr then
        if 0 <= index < |pageNames| then Some(ArchiveMember(pageNames[index])) else None
      else None
    }
  }

  /** The page list is exactly the image members, in key order. */
  lemma PageNamesAreImages(listing: seq<string>, x: string)
    ensures x in SortByKeys(ImageNames(listing)) <==> x in listing && IsImageName(x)
    ensures multiset(SortByKeys(ImageNames(listing))) == multiset(ImageNames(listing))
  {
    var r := SortByKeys(ImageNames(listing));
    assert x in r <==> x in multiset(r);
    assert x in ImageNames(listing) <==> x in multiset(ImageNames(listing));
  }
}
