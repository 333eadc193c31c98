/** The random string generator of the client (client/src/utils/string-generator.ts):
    an alphabet, and strings of a given length whose every character is drawn from it.
    Each `Math.random()` call is given as a `Draw`, one per generated character. */
module StringGen {
  import opened Random

  /** The 26 upper-case letters, the 26 lower-case letters and the 10 digits. */
  const Alphanumeric: string := "ABCDEFGHIJKLMNOPQRSTUVWXYZabcdefghijklmnopqrstuvwxyz0123456789"

  datatype Generator = Generator(characters: string)

  /** The shared instance the module exports, built with the alphanumeric alphabet. */
  function New(): (g: Generator)
    ensures |g.characters| == 62
  {
    Generator(Alphanumeric)
  }

  /** `setCharacters(characters)`. */
  function SetCharacters(g: Generator, characters: string): (r: Generator)
    ensures r.characters == characters
  {
    Generator(characters)
  }

  /** `s.charAt(i)`: the one-character string at `i`, or the empty string outside `s`. */
  function CharAt(s: string, i: int): (r: string)
    ensures 0 <= i < |s| ==> r == [s[i]]
    ensures !(0 <= i < |s|) ==> r == ""
  {
    if 0 <= i < |s| then [s[i]] else ""
  }

  /** What one `generate(length)` call returns for the draws it makes: over a non-empty
      alphabet, `length` characters (none for a negative length), the i-th picked by the
      i-th draw; over the empty alphabet `charAt` gives the empty string every time, so
      the result is empty. */
  ghost predicate Generated(characters: string, length: int, draws: seq<Draw>, s: string) {
    if |characters| == 0 then s == ""
    else
      && |s| == (if length < 0 then 0 else length)
      && |s| <= |draws|
      && forall i :: 0 <= i < |s| ==> s[i] == characters[ScaledIndex(draws[i], |characters|)]
  }

  /** `generate(length)`. */
  method Generate(g: Generator, length: int, draws: seq<Draw>) returns (s: string)
    requires length <= |draws|
    ensures Generated(g.characters, length, draws, s)
    ensures forall i :: 0 <= i < |s| ==> s[i] in g.characters
  {
    s := "";
    var n := |g.characters|;
    var i := 0;
    while i < length
      invariant 0 <= i <= (if length < 0 then 0 else length)
      invariant n == 0 ==> s == ""
      invariant n > 0 ==> |s| == i && forall j :: 0 <= j < i ==> s[j] == g.characters[ScaledIndex(draws[j], n)]
    {
      var k := ScaledIndex(draws[i], n);
      s := s + CharAt(g.characters, k);
      i := i + 1;
    }
  }

  /** `generateMultiple(length, count)`: `count` strings (none for a negative count), the
      i-th generated from the i-th run of draws. */
  method GenerateMultiple(g: Generator, length: int, count: int, draws: seq<seq<Draw>>) returns (r: seq<string>)
    requires count <= |draws|
    requires forall i :: 0 <= i < |draws| ==> length <= |draws[i]|
    ensures |r| == (if count < 0 then 0 else count)
    ensures forall i :: 0 <= i < |r| ==> Generated(g.characters, length, draws[i], r[i])
  {
    r := [];
    var i := 0;
    while i < count
      invariant 0 <= i <= (if count < 0 then 0 else count)
      invariant |r| == i
      invariant forall j :: 0 <= j < i ==> Generated(g.characters, length, draws[j], r[j])
    {
      var s := Generate(g, length, draws[i]);
      r := r + [s];
      i := i + 1;
    }
  }

  /** The first position of `c` in `s`. */
  function IndexOf(s: string, c: char): (k: nat)
    requires c in s
    ensures k < |s| && s[k] == c
  {
    if s[0] == c then 0 else 1 + IndexOf(s[1..], c)
  }

  /** `k / n` as a draw, for an index `k` below `n`. */
  function Fraction(k: nat, n: nat): (q: Draw)
    requires k < n
  {
    FractionBounds(k, n);
    k as real / n as real
  }

  lemma FractionBounds(k: nat, n: nat)
    requires k < n
    ensures 0.0 <= k as real / n as real < 1.0
    ensures k as real / n as real * n as real == k as real
  {
    var q := k as real / n as real;
    assert q * n as real == k as real;
  }

  /** Scaling the draw `k / n` back by `n` picks index `k`. */
  lemma FractionPicks(k: nat, n: nat)
    requires k < n
    ensures ScaledIndex(Fraction(k, n), n) == k
  {
    FractionBounds(k, n);
  }

  /** A draw that picks `c` from the alphabet. */
  function DrawFor(characters: string, c: char): (r: Draw)
    requires c in characters
    ensures characters[ScaledIndex(r, |characters|)] == c
  {
    var k := IndexOf(characters, c);
    FractionPicks(k, |characters|);
    Fraction(k, |characters|)
  }

  /** No string over the alphabet is out of reach: for every such string there are
      draws that generate exactly it. */
  lemma EveryStringReachable(characters: string, t: string)
    requires |characters| > 0
    requires forall i :: 0 <= i < |t| ==> t[i] in characters
    ensures exists draws: seq<Draw> :: Generated(characters, |t|, draws, t)
  {
    var draws := seq(|t|, i requires 0 <= i < |t| => DrawFor(characters, t[i]));
    assert Generated(characters, |t|, draws, t);
  }
}
