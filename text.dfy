/**
 * String operations of JavaScript that the backend and the client rely on:
 * whitespace as `\s` and `trim` see it, `substring(0, n)`, `split`, `join`,
 * `startsWith` and ASCII lower-casing.
 */
module Text {
  import opened Wrappers

  /**
   * A character of JavaScript's `\s` class, which is also the set `trim`
   * removes: tab to carriage return, space, no-break space, the Ogham space
   * mark, the en quad to hair space block, the line and paragraph
   * separators, the narrow no-break and medium mathematical spaces, the
   * ideographic space and the byte order mark.
   */
  predicate IsSpace(c: char)
  {
    '\t' <= c <= '\r' || c == ' ' || c == '\U{A0}' || c == '\U{1680}'
    || '\U{2000}' <= c <= '\U{200A}' || c == '\U{2028}' || c == '\U{2029}'
    || c == '\U{202F}' || c == '\U{205F}' || c == '\U{3000}' || c == '\U{FEFF}'
  }

  /** `s.substring(0, n)` or `s.slice(0, n)`: the first `n` elements of `s`, or all of `s` when it is shorter. */
  function Take<T>(s: seq<T>, n: nat): (r: seq<T>)
    ensures r <= s
    ensures |r| <= n
    ensures |s| <= n ==> r == s
    ensures |s| > n ==> |r| == n
  {
    if |s| <= n then s else s[..n]
  }

  /** `t` occurs in `s` as a contiguous block. */
  ghost predicate IsInfix(t: string, s: string)
  {
    exists k :: 0 <= k <= |s| && t <= s[k..]
  }

  /** How many whitespace characters `s` starts with. */
  function LeadingSpaces(s: string): (n: nat)
    ensures n <= |s|
    ensures forall i :: 0 <= i < n ==> IsSpace(s[i])
    ensures n == |s| || !IsSpace(s[n])
  {
    if s != [] && IsSpace(s[0]) then
      var k := LeadingSpaces(s[1..]);
      assert forall i :: 0 < i <= k ==> s[i] == s[1..][i - 1];
      k + 1
    else 0
  }

  /** Where the trailing whitespace of `s` begins: its length without that whitespace. */
  function TrailingStart(s: string): (n: nat)
    ensures n <= |s|
    ensures forall i :: n <= i < |s| ==> IsSpace(s[i])
    ensures n == 0 || !IsSpace(s[n - 1])
  {
    if s != [] && IsSpace(s[|s| - 1]) then TrailingStart(s[..|s| - 1]) else |s|
  }

  /** `s.trimStart()`: `s` with its leading whitespace removed. */
  function TrimStart(s: string): (r: string)
    ensures |r| <= |s| && r == s[|s| - |r|..]
    ensures r == [] || !IsSpace(r[0])
    ensures forall i :: 0 <= i < |s| - |r| ==> IsSpace(s[i])
  {
    s[LeadingSpaces(s)..]
  }

  /** How many leading whitespace characters `Trim` removes. */
  function TrimOffset(s: string): nat
  {
    LeadingSpaces(s)
  }

  /**
   * `s.trim()`: the block of `s` left between its leading and its trailing
   * whitespace; it neither starts nor ends with whitespace.
   */
  function Trim(s: string): (r: string)
    ensures TrimOffset(s) + |r| <= |s| && r == s[TrimOffset(s)..TrimOffset(s) + |r|]
    ensures r == [] || (!IsSpace(r[0]) && !IsSpace(r[|r| - 1]))
    ensures forall i :: 0 <= i < TrimOffset(s) ==> IsSpace(s[i])
    ensures forall i :: TrimOffset(s) + |r| <= i < |s| ==> IsSpace(s[i])
  {
    var k := LeadingSpaces(s);
    var t := s[k..];
    var n := TrailingStart(t);
    assert forall i :: k + n <= i < |s| ==> s[i] == t[i - k];
    s[k..k + n]
  }

  /** JavaScript truthiness of an optional string: present and not empty. */
  predicate Present(s: Option<string>)
  {
    s.Some? && s.value != ""
  }

  /** `parts.join(sep)`. */
  function Join(parts: seq<string>, sep: string): string
  {
    if |parts| == 0 then ""
    else if |parts| == 1 then parts[0]
    else parts[0] + sep + Join(parts[1..], sep)
  }

  /** Joining one more part appends the separator and that part. */
  lemma {:induction false} JoinSnoc(parts: seq<string>, last: string, sep: string)
    requires |parts| >= 1
    ensures Join(parts + [last], sep) == Join(parts, sep) + sep + last
  {
    if |parts| > 1 {
      JoinSnoc(parts[1..], last, sep);
      assert (parts + [last])[1..] == parts[1..] + [last];
    }
  }

  /** `s.split(sep)` for a one-character separator: the fields between the separators, joined back by `Join`. */
  function Split(s: string, sep: char): (r: seq<string>)
    ensures |r| >= 1
    ensures forall i :: 0 <= i < |r| ==> sep !in r[i]
    ensures Join(r, [sep]) == s
    ensures sep in s <==> |r| >= 2
  {
    if s == [] then [""]
    else
      var rest := Split(s[1..], sep);
      if s[0] == sep then
        assert s == [sep] + s[1..];
        [""] + rest
      else
        SplitCons(s, sep, rest);
        [[s[0]] + rest[0]] + rest[1..]
  }

  /** The step of `Split` for a first character that is not the separator. */
  lemma SplitCons(s: string, sep: char, rest: seq<string>)
    requires s != [] && s[0] != sep
    requires |rest| >= 1 && forall i :: 0 <= i < |rest| ==> sep !in rest[i]
    requires Join(rest, [sep]) == s[1..] && (sep in s[1..] <==> |rest| >= 2)
    ensures var r := [[s[0]] + rest[0]] + rest[1..];
      (forall i :: 0 <= i < |r| ==> sep !in r[i]) && Join(r, [sep]) == s && (sep in s <==> |r| >= 2)
  {
    var r := [[s[0]] + rest[0]] + rest[1..];
    assert s == [s[0]] + s[1..];
    assert r[1..] == rest[1..];
    forall i | 0 <= i < |r|
      ensures sep !in r[i]
    {
      if i > 0 { assert r[i] == rest[i]; }
    }
    if |rest| >= 2 {
      assert Join(rest, [sep]) == rest[0] + [sep] + Join(rest[1..], [sep]);
      assert Join(r, [sep]) == r[0] + [sep] + Join(r[1..], [sep]);
    }
    assert sep in s <==> sep in s[1..];
  }

  /** A field free of the separator, then the separator: splitting peels that field off first. */
  lemma {:induction false} SplitPrefix(p: string, q: string, sep: char)
    requires sep !in p
    ensures Split(p + [sep] + q, sep) == [p] + Split(q, sep)
  {
    var s := p + [sep] + q;
    if p == [] {
      assert s[1..] == q;
    } else {
      assert s[1..] == p[1..] + [sep] + q;
      SplitPrefix(p[1..], q, sep);
      assert [p[0]] + p[1..] == p;
    }
  }

  /** The first field of a split is the longest separator-free prefix. */
  lemma SplitHead(s: string, sep: char)
    ensures Split(s, sep)[0] <= s && sep !in Split(s, sep)[0]
    ensures |Split(s, sep)[0]| == |s| || s[|Split(s, sep)[0]|] == sep
  {
    var r := Split(s, sep);
    if |r| >= 2 {
      assert Join(r, [sep]) == r[0] + [sep] + Join(r[1..], [sep]);
    }
  }

  /** The position of the first `c` in `s`, if there is one. */
  function IndexOf(s: string, c: char): (r: Option<nat>)
    ensures r.Some? ==> r.value < |s| && s[r.value] == c && c !in s[..r.value]
    ensures r.None? <==> c !in s
  {
    if s == [] then None
    else if s[0] == c then Some(0)
    else
      match IndexOf(s[1..], c)
      case None => None
      case Some(k) =>
        assert s[..k + 1] == [s[0]] + s[1..][..k];
        Some(k + 1)
  }

  /** The position of the last `c` in `s`, if there is one. */
  function LastIndexOf(s: string, c: char): (r: Option<nat>)
    ensures r.Some? ==> r.value < |s| && s[r.value] == c && c !in s[r.value + 1..]
    ensures r.None? <==> c !in s
  {
    if s == [] then None
    else if s[|s| - 1] == c then Some(|s| - 1)
    else
      var front := s[..|s| - 1];
      assert s == front + [s[|s| - 1]];
      match LastIndexOf(front, c)
      case None => None
      case Some(k) =>
        assert s[k + 1..] == front[k + 1..] + [s[|s| - 1]];
        Some(k)
  }

  /** `c.toLowerCase()` for the ASCII letters; every other character is unchanged. */
  function LowerChar(c: char): char
  {
    if 'A' <= c <= 'Z' then (c as int + 32) as char else c
  }

  function Lower(s: string): string
  {
    seq(|s|, i requires 0 <= i < |s| => LowerChar(s[i]))
  }

  /** Decimal digits of a natural number, as `String(n)` prints it. */
  function NatToString(n: nat): string
  {
    if n < 10 then ["0123456789"[n]] else NatToString(n / 10) + ["0123456789"[n % 10]]
  }

  /** `String(n)` for an integer. */
  function IntToString(n: int): string
  {
    if n < 0 then "-" + NatToString(-n) else NatToString(n)
  }
}
