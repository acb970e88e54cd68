/** Small helpers shared by the models of the individual source files:
    an Option type, the JavaScript string primitives the scanners use
    (`charAt`, `substring`) and maximal runs of characters. */
module Common {

  datatype Option<+T> = None | Some(value: T)

  /** JavaScript `s.charAt(i)`: the one-character string at `i`, or ""
      when `i` is outside the string. */
  function CharAt(s: string, i: int): (c: string)
    ensures |c| <= 1
    ensures c == "" <==> !(0 <= i < |s|)
    ensures c != "" ==> c[0] == s[i]
  {
    if 0 <= i < |s| then [s[i]] else ""
  }

  function Clamp(i: int, n: nat): (r: nat)
    ensures r <= n
  {
    if i < 0 then 0 else if i > n then n else i
  }

  /** JavaScript `s.substring(a, b)`: both ends are clamped to the string
      and swapped when the first is the larger. */
  function Substring(s: string, a: int, b: int): (r: string)
    ensures 0 <= a <= b <= |s| ==> r == s[a..b]
    ensures |r| <= |s|
  {
    var x, y := Clamp(a, |s|), Clamp(b, |s|);
    if x <= y then s[x..y] else s[y..x]
  }

  /** The character classes the lexers test by character code. */
  const Digits: set<char> := set c: char | '0' <= c <= '9'
  const Letters: set<char> := set c: char | 'A' <= c <= 'Z' || 'a' <= c <= 'z'
  const Spaces: set<char> := {' ', '\t', '\r'}

  /** The characters the regular expression `\s` matches in JavaScript. */
  const Whitespace: set<char> := {
    '\t', '\n', '\U{000B}', '\U{000C}', '\r', ' ', '\U{00A0}', '\U{1680}',
    '\U{2000}', '\U{2001}', '\U{2002}', '\U{2003}', '\U{2004}', '\U{2005}',
    '\U{2006}', '\U{2007}', '\U{2008}', '\U{2009}', '\U{200A}',
    '\U{2028}', '\U{2029}', '\U{202F}', '\U{205F}', '\U{3000}', '\U{FEFF}'
  }

  /** The end of the maximal run of characters in `run` that
      starts at `p`. */
  function RunEnd(s: string, p: nat, run: set<char>): (e: nat)
    requires p <= |s|
    ensures p <= e <= |s|
    ensures forall i | p <= i < e :: s[i] in run
    ensures e == |s| || s[e] !in run
    decreases |s| - p
  {
    if p < |s| && s[p] in run then RunEnd(s, p + 1, run) else p
  }

  /** A run that ends at `e` and contains `q` ends at the same place when
      it is started at `q`. */
  lemma {:induction false} RunEndFrom(s: string, p: nat, q: nat, run: set<char>)
    requires p <= |s| && p <= q <= RunEnd(s, p, run)
    ensures RunEnd(s, q, run) == RunEnd(s, p, run)
    decreases q - p
  {
    if p < q {
      RunEndFrom(s, p + 1, q, run);
    }
  }

  /** Stated once so that long proofs need not rediscover it. */
  lemma AppendAssociative<T>(a: seq<T>, b: seq<T>, c: seq<T>)
    ensures (a + b) + c == a + (b + c)
  {
  }

  /** Sequences used as JavaScript `Set`s and `Map` key lists: insertion
      ordered and free of duplicates. */
  predicate NoDuplicates<T(==)>(s: seq<T>)
  {
    forall i, j | 0 <= i < j < |s| :: s[i] != s[j]
  }

  /** `Set.prototype.add`: appends `x` unless it is already present. */
  function SetAdd<T(==,!new)>(s: seq<T>, x: T): (r: seq<T>)
    ensures NoDuplicates(s) ==> NoDuplicates(r)
    ensures forall y :: y in r <==> y in s || y == x
    ensures x in s ==> r == s
    ensures x !in s ==> r == s + [x]
  {
    if x in s then s else s + [x]
  }

  /** `Set.prototype.delete`: removes `x` and keeps the order of the rest. */
  function SetDelete<T(==,!new)>(s: seq<T>, x: T): (r: seq<T>)
    ensures NoDuplicates(s) ==> NoDuplicates(r)
    ensures forall y :: y in r <==> y in s && y != x
    ensures |r| <= |s|
  {
    if s == [] then []
    else if s[0] == x then SetDelete(s[1..], x)
    else
      var rest := SetDelete(s[1..], x);
      assert NoDuplicates(s) ==> s[0] !in rest by {
        if NoDuplicates(s) {
          assert s[0] !in s[1..];
        }
      }
      [s[0]] + rest
  }
}
