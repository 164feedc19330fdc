/** What is used here of Go's strconv and strings packages. */
module Strings {
  // ---- decimal numbers (strconv.Itoa, strconv.Atoi) ----

  function Digit(d: nat): char
    requires d < 10
  {
    '0' + d as char
  }

  function Digits(n: nat): string {
    if n < 10 then [Digit(n)] else Digits(n / 10) + [Digit(n % 10)]
  }

  function Itoa(n: int): string {
    if n < 0 then "-" + Digits(-n) else Digits(n)
  }

  predicate AllDigits(s: string) {
    forall k :: 0 <= k < |s| ==> '0' <= s[k] <= '9'
  }

  function DigitsValue(s: string): nat
    requires AllDigits(s)
  {
    if s == "" then 0 else 10 * DigitsValue(s[..|s| - 1]) + (s[|s| - 1] - '0') as nat
  }

  /** Atoi with its error ignored: 0 for anything that is not a number. */
  function Atoi(s: string): int {
    if s != "" && AllDigits(s) then DigitsValue(s)
    else if s != "" && s[0] == '-' && s != "-" && AllDigits(s[1..]) then -(DigitsValue(s[1..]) as int)
    else 0
  }

  lemma {:induction false} DigitsRoundTrip(n: nat)
    ensures Digits(n) != "" && AllDigits(Digits(n)) && DigitsValue(Digits(n)) == n
  {
    if n < 10 {
      assert Digits(n)[..0] == "";
    } else {
      DigitsRoundTrip(n / 10);
      assert Digits(n)[..|Digits(n)| - 1] == Digits(n / 10);
    }
  }

  lemma ItoaRoundTrip(n: int)
    ensures Atoi(Itoa(n)) == n
    ensures forall c :: c in Itoa(n) ==> c == '-' || '0' <= c <= '9'
  {
    if n < 0 {
      DigitsRoundTrip(-n);
      assert Itoa(n)[1..] == Digits(-n);
    } else {
      DigitsRoundTrip(n);
    }
  }

  // ---- strings.Split ----

  predicate At(s: string, sep: string, k: nat) {
    k + |sep| <= |s| && s[k..k + |sep|] == sep
  }

  predicate Contains(s: string, sep: string) {
    exists k: nat | k <= |s| :: At(s, sep, k)
  }

  /** Position of the first separator at or after k, or |s| when there is none. */
  function Find(s: string, sep: string, k: nat): (r: nat)
    requires k <= |s|
    ensures k <= r <= |s|
    ensures forall j: nat | k <= j < r :: !At(s, sep, j)
    ensures r < |s| ==> At(s, sep, r)
    decreases |s| - k
  {
    if k == |s| || At(s, sep, k) then k else Find(s, sep, k + 1)
  }

  function Split(s: string, sep: string): (pieces: seq<string>)
    requires sep != ""
    ensures pieces != []
    ensures pieces[0] == s[..Find(s, sep, 0)]
    decreases |s|
  {
    var k := Find(s, sep, 0);
    if k == |s| then [s] else [s[..k]] + Split(s[k + |sep|..], sep)
  }

  /** A separator that starts with a character foreign to `a` starts right after `a`. */
  lemma FirstAt(s: string, a: string, sep: string, rest: string)
    requires sep != "" && sep[0] !in a && s == a + sep + rest
    ensures forall j: nat :: j < |a| ==> s[j] != sep[0]
    ensures s[|a|] == sep[0] && s[..|a|] == a && s[|a| + |sep|..] == rest
    ensures Find(s, sep, 0) == |a|
  {
    assert forall j: nat :: j < |a| ==> s[j] == a[j];
    assert At(s, sep, |a|);
    var k := Find(s, sep, 0);
    assert s[k..k + |sep|][0] == s[k];
  }

  /** The first piece ends at the first separator. */
  lemma SplitFirst(a: string, sep: string, rest: string)
    requires sep != "" && sep[0] !in a
    ensures Split(a + sep + rest, sep) == [a] + Split(rest, sep)
  {
    FirstAt(a + sep + rest, a, sep, rest);
  }

  /** Splitting at a character goes through a separator in the middle. */
  lemma {:induction false} SplitConcat(x: string, c: char, y: string)
    ensures Split(x + [c] + y, [c]) == Split(x, [c]) + Split(y, [c])
    decreases |x|
  {
    var k := Find(x, [c], 0);
    if k == |x| {
      SplitSingle(x, c);
      SplitFirst(x, [c], y);
    } else {
      var a, x' := x[..k], x[k + 1..];
      BeforeFind(x, c);
      assert x == a + [c] + x';
      assert x + [c] + y == a + [c] + (x' + [c] + y);
      SplitConcat(x', c, y);
      SplitLonger(a, c, x', x' + [c] + y, Split(y, [c]));
    }
  }

  lemma SplitField(field: string, c: char, rest: string, pieces: seq<string>)
    requires c !in field && Split(rest, [c]) == pieces
    ensures Split(field + [c] + rest, [c]) == [field] + pieces
  {
    SplitFirst(field, [c], rest);
  }

  lemma Associative(a: seq<string>, b: seq<string>, c: seq<string>)
    ensures a + (b + c) == (a + b) + c
  {
  }

  lemma SplitLonger(a: string, c: char, x: string, z: string, pieces: seq<string>)
    requires c !in a && Split(z, [c]) == Split(x, [c]) + pieces
    ensures Split(a + [c] + z, [c]) == Split(a + [c] + x, [c]) + pieces
  {
    SplitField(a, c, z, Split(x, [c]) + pieces);
    SplitField(a, c, x, Split(x, [c]));
    Associative([a], Split(x, [c]), pieces);
  }

  /** The character does not occur before the first place where it is found. */
  lemma BeforeFind(x: string, c: char)
    ensures c !in x[..Find(x, [c], 0)]
    ensures Find(x, [c], 0) < |x| ==> x[Find(x, [c], 0)] == c
  {
    var k := Find(x, [c], 0);
    forall j | 0 <= j < k
      ensures x[j] != c
    {
      assert !At(x, [c], j);
      assert x[j..j + 1] == [x[j]];
    }
    if k < |x| {
      assert x[k..k + 1] == [x[k]];
    }
  }

  lemma SplitSingle(x: string, c: char)
    ensures c !in x <==> Find(x, [c], 0) == |x|
    ensures c !in x ==> Split(x, [c]) == [x]
  {
    BeforeFind(x, c);
    var k := Find(x, [c], 0);
    if k == |x| {
      assert x[..k] == x;
    }
  }

  /** No piece contains a one-character separator. */
  lemma {:induction false} PiecesAvoidSeparator(s: string, c: char)
    ensures forall i :: 0 <= i < |Split(s, [c])| ==> c !in Split(s, [c])[i]
    decreases |s|
  {
    var k := Find(s, [c], 0);
    forall j | 0 <= j < k
      ensures s[j] != c
    {
      assert s[j..j + 1] == [s[j]];
      assert !At(s, [c], j);
    }
    if k < |s| {
      PiecesAvoidSeparator(s[k + 1..], c);
    }
  }

  lemma AtDollars(s: string, k: nat)
    ensures At(s, "$$", k) <==> k + 2 <= |s| && s[k] == '$' && s[k + 1] == '$'
  {
    if k + 2 <= |s| {
      var two := s[k..k + 2];
      assert two == [s[k], s[k + 1]];
    }
  }

  lemma ContainsRight(a: string, b: string)
    requires Contains(b, "$$")
    ensures Contains(a + b, "$$")
  {
    var k: nat :| k <= |b| && At(b, "$$", k);
    AtDollars(b, k);
    AtDollars(a + b, |a| + k);
    assert At(a + b, "$$", |a| + k);
  }

  lemma ContainsLeft(a: string, b: string)
    requires Contains(a, "$$")
    ensures Contains(a + b, "$$")
  {
    var k: nat :| k <= |a| && At(a, "$$", k);
    AtDollars(a, k);
    AtDollars(a + b, k);
    assert At(a + b, "$$", k);
  }

  lemma ContainsSplit(a: string, b: string)
    requires Contains(a + "@" + b, "$$")
    ensures Contains(a, "$$") || Contains(b, "$$")
  {
    var s := a + "@" + b;
    var k: nat :| k <= |s| && At(s, "$$", k);
    AtDollars(s, k);
    assert s[|a|] == '@';
    if k < |a| {
      AtDollars(a, k);
      assert At(a, "$$", k);
    } else {
      AtDollars(b, k - |a| - 1);
      assert At(b, "$$", k - |a| - 1);
    }
  }

  /** A "$$" cannot straddle an '@'. */
  lemma ContainsAcross(a: string, b: string)
    ensures Contains(a + "@" + b, "$$") <==> Contains(a, "$$") || Contains(b, "$$")
  {
    if Contains(a + "@" + b, "$$") {
      ContainsSplit(a, b);
    }
    if Contains(a, "$$") {
      ContainsLeft(a, "@");
      ContainsLeft(a + "@", b);
    }
    if Contains(b, "$$") {
      ContainsRight(a + "@", b);
    }
  }

  lemma AtChar(s: string, sep: string, k: nat)
    requires sep != "" && At(s, sep, k)
    ensures s[k] == sep[0]
  {
    assert s[k..k + |sep|][0] == s[k];
  }

  lemma NoDollarNoSeparator(s: string)
    requires '$' !in s
    ensures !Contains(s, "$$")
  {
    if Contains(s, "$$") {
      var k: nat :| k <= |s| && At(s, "$$", k);
      AtChar(s, "$$", k);
    }
  }

  /** The string behind the first separator. */
  lemma Peel(s: string, sep: string) returns (rest: string)
    requires sep != "" && |Split(s, sep)| > 1
    ensures |s| == |Split(s, sep)[0]| + |sep| + |rest|
    ensures Split(s, sep) == [Split(s, sep)[0]] + Split(rest, sep)
  {
    var k := Find(s, sep, 0);
    rest := s[k + |sep|..];
  }
}
