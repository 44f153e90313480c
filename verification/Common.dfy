/** Small shared vocabulary: optional values and facts about sequences and finite sets. */
module Common {

  datatype Option<+T> = None | Some(value: T)

  datatype Result<+T, +E> = Ok(value: T) | Err(error: E)

  function Min(a: nat, b: nat): nat {
    if a <= b then a else b
  }

  function Max(a: int, b: int): int {
    if a >= b then a else b
  }

  lemma Associative<T>(a: seq<T>, b: seq<T>, c: seq<T>)
    ensures a + (b + c) == a + b + c
  {
  }

  lemma DropDrop<T>(s: seq<T>, a: nat, b: nat)
    requires a + b <= |s|
    ensures s[a..][b..] == s[a + b..]
  {
  }

  /** A set has a subset of every smaller size: what a `LIMIT n` without an `ORDER BY` may pick. */
  lemma {:induction false} SubsetOfSize<T>(s: set<T>, n: nat)
    requires n <= |s|
    ensures exists chunk: set<T> :: chunk <= s && |chunk| == n
  {
    if n == |s| {
      assert s <= s;
    } else {
      var x :| x in s;
      SubsetOfSize(s - {x}, n);
      var chunk: set<T> :| chunk <= s - {x} && |chunk| == n;
      assert chunk <= s;
    }
  }

  lemma {:induction false} SubsetSize<T>(a: set<T>, b: set<T>)
    requires a <= b
    ensures |a| <= |b|
    ensures |a| == |b| ==> a == b
  {
    assert b == a + (b - a);
    assert |b| == |a| + |b - a|;
  }

  // ----- Text ---------------------------------------------------------------

  /** Unicode White_Space. */
  predicate IsWhite(c: char) {
    var n := c as int;
    || 9 <= n <= 13 || n == 32 || n == 0x85 || n == 0xA0 || n == 0x1680
    || 0x2000 <= n <= 0x200A || n == 0x2028 || n == 0x2029 || n == 0x202F || n == 0x205F || n == 0x3000
  }

  /** ASCII letters only. */
  function LowerChar(c: char): char {
    if 'A' <= c <= 'Z' then (c as int + 32) as char else c
  }

  function Lower(s: string): (t: string)
    ensures |t| == |s|
  {
    if s == "" then "" else Lower(s[..|s| - 1]) + [LowerChar(s[|s| - 1])]
  }

  lemma Capitals(c: char)
    ensures 'A' <= c <= 'Z' <==> c in "ABCDEFGHIJKLMNOPQRSTUVWXYZ"
  {
    var letters := "ABCDEFGHIJKLMNOPQRSTUVWXYZ";
    if 'A' <= c <= 'Z' { assert letters[c as int - 65] == c; }
  }

  lemma Smalls(c: char)
    ensures 'a' <= c <= 'z' <==> c in "abcdefghijklmnopqrstuvwxyz"
  {
    var letters := "abcdefghijklmnopqrstuvwxyz";
    if 'a' <= c <= 'z' { assert letters[c as int - 97] == c; }
  }

  lemma Numerals(c: char)
    ensures '0' <= c <= '9' <==> c in "0123456789"
  {
    var digits := "0123456789";
    if '0' <= c <= '9' { assert digits[c as int - 48] == c; }
  }

  function Digits(n: nat): string {
    if n < 10 then [(n + 48) as char] else Digits(n / 10) + [(n % 10 + 48) as char]
  }

  function Joined(parts: seq<string>, sep: string): string {
    if parts == [] then "" else if |parts| == 1 then parts[0] else parts[0] + (sep + Joined(parts[1..], sep))
  }

  lemma {:induction false} JoinedSnoc(parts: seq<string>, sep: string, part: string)
    requires parts != []
    ensures Joined(parts + [part], sep) == Joined(parts, sep) + (sep + part)
  {
    assert (parts + [part])[1..] == parts[1..] + [part];
    if |parts| > 1 {
      JoinedSnoc(parts[1..], sep, part);
      Associative(parts[0], sep + Joined(parts[1..], sep), sep + part);
      Associative(sep, Joined(parts[1..], sep), sep + part);
    }
  }

  method Join(parts: seq<string>, sep: string) returns (out: string)
    ensures out == Joined(parts, sep)
  {
    if parts == [] {
      return "";
    }
    out := parts[0];
    var i := 1;
    assert parts[..1] == [parts[0]];
    while i < |parts|
      invariant 1 <= i <= |parts| && out == Joined(parts[..i], sep)
    {
      JoinedSnoc(parts[..i], sep, parts[i]);
      assert parts[..i + 1] == parts[..i] + [parts[i]];
      out := out + (sep + parts[i]);
      i := i + 1;
    }
    assert parts[..i] == parts;
  }

  /** Left-aligned in `width` characters. */
  function Padded(s: string, width: nat): string {
    if |s| < width then s + Blanks(width - |s|) else s
  }

  function Blanks(n: nat): string { seq(n, _ => ' ') }

  /** Padding adds blanks behind, up to the width, and cuts nothing. */
  lemma PaddedIs(s: string, width: nat)
    ensures |Padded(s, width)| == (if |s| < width then width else |s|) && s <= Padded(s, width)
    ensures forall i | |s| <= i < |Padded(s, width)| :: Padded(s, width)[i] == ' '
  {
  }

  /** A line with its line feed. */
  function Ended(line: string): string { line + "\n" }

  /** How many characters come before the first line feed. */
  function LineLength(text: string): (n: nat)
    ensures n <= |text| && (n < |text| ==> text[n] == '\n') && '\n' !in text[..n]
  {
    if text == "" || text[0] == '\n' then 0 else 1 + LineLength(text[1..])
  }

  lemma {:induction false} LineLengthOf(line: string, rest: string)
    requires '\n' !in line
    ensures LineLength(line + ("\n" + rest)) == |line|
  {
    if line == "" {
      assert line + ("\n" + rest) == "\n" + rest;
    } else {
      assert (line + ("\n" + rest))[1..] == line[1..] + ("\n" + rest);
      LineLengthOf(line[1..], rest);
    }
  }

  // ----- Mapping to sequences --------------------------------------------------

  function FlatMap<A, B>(f: A -> seq<B>, s: seq<A>): seq<B> {
    if s == [] then [] else f(s[0]) + FlatMap(f, s[1..])
  }

  lemma {:induction false} FlatMapSnoc<A, B>(f: A -> seq<B>, s: seq<A>, x: A)
    ensures FlatMap(f, s + [x]) == FlatMap(f, s) + f(x)
  {
    if s == [] {
      assert (s + [x])[1..] == [];
    } else {
      assert (s + [x])[1..] == s[1..] + [x];
      FlatMapSnoc(f, s[1..], x);
    }
  }

  lemma {:induction false} FlatMapAppend<A, B>(f: A -> seq<B>, a: seq<A>, b: seq<A>)
    ensures FlatMap(f, a + b) == FlatMap(f, a) + FlatMap(f, b)
  {
    if a == [] {
      assert a + b == b;
    } else {
      assert (a + b)[1..] == a[1..] + b;
      FlatMapAppend(f, a[1..], b);
    }
  }

  lemma FlatMapOne<A, B>(f: A -> seq<B>, a: A)
    ensures FlatMap(f, [a]) == f(a)
  {
    assert FlatMap(f, [a][1..]) == [];
  }
}
