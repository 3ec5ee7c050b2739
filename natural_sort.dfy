/** The order in which the neighbour lookup sorts file names: case-insensitive
    and numeric-aware, so "2.mp4" comes before "10.mp4" and "a.MP4" ties with
    "A.mp4". It is a simplified natural order, not ICU collation: a name is
    cut into tokens (a run of decimal digits is one number, every other
    character is one token), punctuation sorts before numbers and numbers
    before letters, and keys compare lexicographically. Ties keep their
    input order, as the stable `Array.prototype.sort` does. */
module NaturalSort {
  import opened Js

  datatype Token = Number(value: nat) | Letter(c: char)

  predicate IsDigit(c: char)
  {
    '0' <= c <= '9'
  }

  /** The length of the run of digits that starts `s`. */
  function DigitRun(s: string): (k: nat)
    ensures k <= |s|
    ensures forall i :: 0 <= i < k ==> IsDigit(s[i])
    ensures k < |s| ==> !IsDigit(s[k])
  {
    if s == [] || !IsDigit(s[0]) then 0 else 1 + DigitRun(s[1..])
  }

  /** The decimal value of a string of digits. */
  function DigitsValue(s: string): nat
  {
    if s == [] then 0
    else
      var d := s[|s| - 1];
      DigitsValue(s[..|s| - 1]) * 10 + (if IsDigit(d) then d as int - '0' as int else 0)
  }

  function Tokens(s: string): seq<Token>
    decreases |s|
  {
    if s == [] then []
    else if IsDigit(s[0]) then
      var k := DigitRun(s);
      [Number(DigitsValue(s[..k]))] + Tokens(s[k..])
    else [Letter(s[0])] + Tokens(s[1..])
  }

  /** The comparison key of a name: the tokens of its lower-cased form. */
  function Key(name: string): seq<Token>
  {
    Tokens(LowerCase(name))
  }

  /** Punctuation and symbols (0) before numbers (1) before letters (2). */
  function Rank(t: Token): nat
  {
    match t
    case Number(_) => 1
    case Letter(c) =>
      if c < 128 as char && !('a' <= c <= 'z') && !('A' <= c <= 'Z') then 0 else 2
  }

  predicate TokenLess(a: Token, b: Token)
  {
    Rank(a) < Rank(b)
    || (Rank(a) == Rank(b)
        && match (a, b)
           case (Number(x), Number(y)) => x < y
           case (Letter(x), Letter(y)) => x < y
           case _ => false)
  }

  /** Tokens are totally ordered: exactly one of a < b, a == b, b < a. */
  lemma TokenTrichotomy(a: Token, b: Token)
    ensures TokenLess(a, b) || a == b || TokenLess(b, a)
    ensures !(TokenLess(a, b) && TokenLess(b, a))
    ensures !TokenLess(a, a)
  {
  }

  lemma TokenLessTransitive(a: Token, b: Token, c: Token)
    requires TokenLess(a, b) && TokenLess(b, c)
    ensures TokenLess(a, c)
  {
  }

  /** Lexicographic order on keys. */
  predicate KeyLeq(a: seq<Token>, b: seq<Token>)
    decreases |a|
  {
    a == [] || (b != [] && (TokenLess(a[0], b[0]) || (a[0] == b[0] && KeyLeq(a[1..], b[1..]))))
  }

  lemma {:induction false} KeyLeqReflexive(a: seq<Token>)
    ensures KeyLeq(a, a)
    decreases |a|
  {
    if a != [] {
      KeyLeqReflexive(a[1..]);
    }
  }

  lemma {:induction false} KeyLeqTotal(a: seq<Token>, b: seq<Token>)
    ensures KeyLeq(a, b) || KeyLeq(b, a)
    decreases |a|
  {
    if a != [] && b != [] {
      TokenTrichotomy(a[0], b[0]);
      if a[0] == b[0] {
        KeyLeqTotal(a[1..], b[1..]);
      }
    }
  }

  lemma {:induction false} KeyLeqTransitive(a: seq<Token>, b: seq<Token>, c: seq<Token>)
    requires KeyLeq(a, b) && KeyLeq(b, c)
    ensures KeyLeq(a, c)
    decreases |a|
  {
    if a != [] {
      assert b != [] && c != [];
      if TokenLess(a[0], b[0]) {
        if TokenLess(b[0], c[0]) {
          TokenLessTransitive(a[0], b[0], c[0]);
        }
      } else if TokenLess(b[0], c[0]) {
      } else {
        KeyLeqTransitive(a[1..], b[1..], c[1..]);
      }
    }
  }

  /** The comparator of the sort: `a` may come before `b`. */
  predicate NameLeq(a: string, b: string)
  {
    KeyLeq(Key(a), Key(b))
  }

  /** `leq` orders every pair of names and is transitive. */
  ghost predicate TotalPreorder(leq: (string, string) -> bool)
  {
    && (forall a, b :: leq(a, b) || leq(b, a))
    && (forall a, b, c :: leq(a, b) && leq(b, c) ==> leq(a, c))
  }

  /** The natural-order comparator is a total preorder on names. */
  lemma NameLeqIsTotalPreorder()
    ensures TotalPreorder(NameLeq)
  {
    forall a, b ensures NameLeq(a, b) || NameLeq(b, a) {
      KeyLeqTotal(Key(a), Key(b));
    }
    forall a, b, c | NameLeq(a, b) && NameLeq(b, c) ensures NameLeq(a, c) {
      KeyLeqTransitive(Key(a), Key(b), Key(c));
    }
  }

  /** The comparator ignores case: a name and its lower-cased form tie. */
  lemma NameLeqIgnoresCase(a: string, b: string)
    ensures NameLeq(a, b) == NameLeq(LowerCase(a), b)
    ensures NameLeq(a, LowerCase(a)) && NameLeq(LowerCase(a), a)
  {
    LowerCaseIdempotent(a);
    KeyLeqReflexive(Key(a));
  }

  predicate Sorted(s: seq<string>, leq: (string, string) -> bool)
  {
    forall i, j :: 0 <= i < j < |s| ==> leq(s[i], s[j])
  }

  /** Inserts `x` after every element that may come before it. */
  function Insert(s: seq<string>, x: string, leq: (string, string) -> bool): (r: seq<string>)
    ensures multiset(r) == multiset(s) + multiset{x}
  {
    if s == [] then [x]
    else if leq(s[0], x) then
      assert s == [s[0]] + s[1..];
      [s[0]] + Insert(s[1..], x, leq)
    else [x] + s
  }

  lemma {:induction false} InsertSorted(s: seq<string>, x: string, leq: (string, string) -> bool)
    requires TotalPreorder(leq) && Sorted(s, leq)
    ensures Sorted(Insert(s, x, leq), leq)
  {
    if s != [] && leq(s[0], x) {
      InsertSorted(s[1..], x, leq);
      var t := Insert(s[1..], x, leq);
      HeadBeforeInserted(s, x, leq, t);
      SortedCons(s[0], t, leq);
    } else if s != [] {
      assert leq(x, s[0]);
      SortedCons(x, s, leq);
    }
  }

  /** The head of a sorted sequence comes before everything in the rest with
      `x` inserted, when it comes before `x`. */
  lemma HeadBeforeInserted(s: seq<string>, x: string, leq: (string, string) -> bool, t: seq<string>)
    requires TotalPreorder(leq) && Sorted(s, leq) && s != [] && leq(s[0], x)
    requires t == Insert(s[1..], x, leq)
    ensures forall j :: 0 <= j < |t| ==> leq(s[0], t[j])
  {
    forall j | 0 <= j < |t| ensures leq(s[0], t[j]) {
      assert t[j] in multiset(t);
      if t[j] != x {
        assert t[j] in multiset(s[1..]);
        var k :| 0 <= k < |s[1..]| && s[1..][k] == t[j];
        assert s[k + 1] == t[j];
      }
    }
  }

  /** An element before everything of a sorted sequence can lead it. */
  lemma SortedCons(h: string, t: seq<string>, leq: (string, string) -> bool)
    requires Sorted(t, leq)
    requires forall j :: 0 <= j < |t| ==> leq(h, t[j])
    ensures Sorted([h] + t, leq)
  {
    var r := [h] + t;
    forall i, j | 0 <= i < j < |r| ensures leq(r[i], r[j]) {
      if i > 0 {
        assert r[i] == t[i - 1] && r[j] == t[j - 1];
      } else {
        assert r[j] == t[j - 1];
      }
    }
  }

  /** Stable insertion sort by `leq`: a permutation of its input, sorted
      whenever `leq` is a total preorder. */
  function Sort(s: seq<string>, leq: (string, string) -> bool): (r: seq<string>)
    ensures multiset(r) == multiset(s)
    ensures TotalPreorder(leq) ==> Sorted(r, leq)
  {
    if s == [] then []
    else
      var prefix := s[..|s| - 1];
      var sorted := Sort(prefix, leq);
      assert s == prefix + [s[|s| - 1]];
      assert TotalPreorder(leq) ==> Sorted(Insert(sorted, s[|s| - 1], leq), leq) by {
        if TotalPreorder(leq) {
          InsertSorted(sorted, s[|s| - 1], leq);
        }
      }
      Insert(sorted, s[|s| - 1], leq)
  }

  lemma SuffixTokens(s: string)
    requires s == ".mp4"
    ensures Tokens(s) == [Letter('.'), Letter('m'), Letter('p'), Number(4)]
  {
    assert s[1..] == "mp4";
    assert "mp4"[1..] == "p4";
    assert "p4"[1..] == "4";
    assert DigitRun("4") == 1;
    assert DigitsValue("4") == 4;
  }

  /** A run of digits followed by a non-digit is exactly that long. */
  lemma {:induction false} DigitRunOfDigits(d: string, rest: string)
    requires forall i :: 0 <= i < |d| ==> IsDigit(d[i])
    requires rest == [] || !IsDigit(rest[0])
    ensures DigitRun(d + rest) == |d|
  {
    if d != [] {
      assert (d + rest)[1..] == d[1..] + rest;
      DigitRunOfDigits(d[1..], rest);
    } else {
      assert d + rest == rest;
    }
  }

  /** A leading run of digits is one number token. */
  lemma TokensOfNumber(d: string, rest: string)
    requires d != [] && forall i :: 0 <= i < |d| ==> IsDigit(d[i])
    requires rest == [] || !IsDigit(rest[0])
    ensures Tokens(d + rest) == [Number(DigitsValue(d))] + Tokens(rest)
  {
    var s := d + rest;
    DigitRunOfDigits(d, rest);
    assert s[0] == d[0];
    assert s[..|d|] == d && s[|d|..] == rest;
  }

  lemma DigitsThenLower(n: string, d: string, rest: string)
    requires n == d + rest
    requires forall i :: 0 <= i < |d| ==> IsDigit(d[i])
    requires forall i :: 0 <= i < |rest| ==> !('A' <= rest[i] <= 'Z')
    ensures LowerCase(n) == n
  {
    forall i | 0 <= i < |n| ensures !('A' <= n[i] <= 'Z') {
      if i < |d| {
        assert n[i] == d[i];
      } else {
        assert n[i] == rest[i - |d|];
      }
    }
    LowerCaseWithoutUpper(n);
  }

  /** A name made of digits and then ".mp4" has the key of that number
      followed by the tokens of ".mp4". */
  lemma KeyOfNumbered(n: string, d: string)
    requires n == d + ".mp4" && d != []
    requires forall i :: 0 <= i < |d| ==> IsDigit(d[i])
    ensures Key(n) == [Number(DigitsValue(d)), Letter('.'), Letter('m'), Letter('p'), Number(4)]
  {
    var rest := ".mp4";
    SuffixIsLowerPunctuation(rest);
    KeyOfDigitsThen(n, d, rest);
    SuffixTokens(rest);
    ConsToken(Number(DigitsValue(d)), Tokens(rest));
  }

  lemma ConsToken(t: Token, ts: seq<Token>)
    requires ts == [Letter('.'), Letter('m'), Letter('p'), Number(4)]
    ensures [t] + ts == [t, Letter('.'), Letter('m'), Letter('p'), Number(4)]
  {
  }

  lemma SuffixIsLowerPunctuation(rest: string)
    requires rest == ".mp4"
    ensures !IsDigit(rest[0])
    ensures forall i :: 0 <= i < |rest| ==> !('A' <= rest[i] <= 'Z')
  {
  }

  /** Digits followed by a lower-case part that does not start with a digit:
      one number token, then the tokens of the rest. */
  lemma KeyOfDigitsThen(n: string, d: string, rest: string)
    requires n == d + rest && d != [] && rest != []
    requires forall i :: 0 <= i < |d| ==> IsDigit(d[i])
    requires !IsDigit(rest[0])
    requires forall i :: 0 <= i < |rest| ==> !('A' <= rest[i] <= 'Z')
    ensures Key(n) == [Number(DigitsValue(d))] + Tokens(rest)
  {
    DigitsThenLower(n, d, rest);
    TokensOfNumber(d, rest);
  }

  lemma KeyOfTwo(n: string)
    requires n == "2.mp4"
    ensures Key(n) == [Number(2), Letter('.'), Letter('m'), Letter('p'), Number(4)]
  {
    assert n == "2" + ".mp4";
    assert DigitsValue("2") == 2;
    KeyOfNumbered(n, "2");
  }

  lemma KeyOfTen(n: string)
    requires n == "10.mp4"
    ensures Key(n) == [Number(10), Letter('.'), Letter('m'), Letter('p'), Number(4)]
  {
    assert n == "10" + ".mp4";
    assert DigitsValue("10") == 10 by {
      assert "10"[..1] == "1";
    }
    KeyOfNumbered(n, "10");
  }

  /** "2.mp4" sorts strictly before "10.mp4": numbers compare by value. */
  lemma NumericOrderExample(a: string, b: string)
    requires a == "10.mp4" && b == "2.mp4"
    ensures NameLeq(b, a) && !NameLeq(a, b)
    ensures Sort([a, b], NameLeq) == [b, a]
  {
    KeyOfTen(a);
    KeyOfTwo(b);
    assert [a, b][..1] == [a];
    assert [a][..0] == [];
  }

  lemma KeyOfOne(n: string)
    requires n == "1.mp4"
    ensures Key(n) == [Number(1), Letter('.'), Letter('m'), Letter('p'), Number(4)]
  {
    assert n == "1" + ".mp4";
    assert DigitsValue("1") == 1;
    KeyOfNumbered(n, "1");
  }

  lemma KeyOfLetter(n: string)
    requires n == "a.MP4"
    ensures Key(n) == [Letter('a'), Letter('.'), Letter('m'), Letter('p'), Number(4)]
  {
    LowerOfLetterName(n);
    TokensOfLetterName("a.mp4");
  }

  lemma LowerOfLetterName(n: string)
    requires n == "a.MP4"
    ensures LowerCase(n) == "a.mp4"
  {
    assert n[1..] == ".MP4";
    assert LowerCase(".MP4") == ".mp4";
    assert LowerCase(n) == [LowerChar(n[0])] + LowerCase(n[1..]);
  }

  lemma TokensOfLetterName(s: string)
    requires s == "a.mp4"
    ensures Tokens(s) == [Letter('a'), Letter('.'), Letter('m'), Letter('p'), Number(4)]
  {
    assert s[1..] == ".mp4";
    SuffixTokens(".mp4");
  }

  /** "1.mp4", "2.mp4", "10.mp4", "a.MP4" are in natural order. */
  lemma NaturalOrderExample(files: seq<string>)
    requires files == ["1.mp4", "2.mp4", "10.mp4", "a.MP4"]
    ensures Sorted(files, NameLeq)
  {
    var k0, k1, k2, k3 := Key(files[0]), Key(files[1]), Key(files[2]), Key(files[3]);
    KeyOfOne(files[0]);
    KeyOfTwo(files[1]);
    KeyOfTen(files[2]);
    KeyOfLetter(files[3]);
    ConsecutiveKeysInOrder(k0, k1, k2, k3);
    KeyLeqTransitive(k0, k1, k2);
    KeyLeqTransitive(k0, k2, k3);
    KeyLeqTransitive(k1, k2, k3);
    SortedFour(files, NameLeq);
  }

  lemma SortedFour(s: seq<string>, leq: (string, string) -> bool)
    requires |s| == 4
    requires leq(s[0], s[1]) && leq(s[1], s[2]) && leq(s[2], s[3])
    requires leq(s[0], s[2]) && leq(s[0], s[3]) && leq(s[1], s[3])
    ensures Sorted(s, leq)
  {
  }

  lemma ConsecutiveKeysInOrder(k0: seq<Token>, k1: seq<Token>, k2: seq<Token>, k3: seq<Token>)
    requires k0 == [Number(1), Letter('.'), Letter('m'), Letter('p'), Number(4)]
    requires k1 == [Number(2), Letter('.'), Letter('m'), Letter('p'), Number(4)]
    requires k2 == [Number(10), Letter('.'), Letter('m'), Letter('p'), Number(4)]
    requires k3 == [Letter('a'), Letter('.'), Letter('m'), Letter('p'), Number(4)]
    ensures KeyLeq(k0, k1) && KeyLeq(k1, k2) && KeyLeq(k2, k3)
  {
  }
}
