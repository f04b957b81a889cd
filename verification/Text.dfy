/** The string operations the parsers are written with. */
module Text {
  import opened JsonValue

  /** Unicode's White_Space, which `trim` and `split_whitespace` go by. */
  predicate IsSpace(c: char) {
    || '\U{9}' <= c <= '\U{d}' || c in {' ', '\U{85}', '\U{a0}', '\U{1680}'}
    || '\U{2000}' <= c <= '\U{200a}' || c in {'\U{2028}', '\U{2029}', '\U{202f}', '\U{205f}', '\U{3000}'}
  }

  function TrimStart(s: string): string {
    if s != [] && IsSpace(s[0]) then TrimStart(s[1..]) else s
  }

  function TrimEnd(s: string): string {
    if s != [] && IsSpace(s[|s| - 1]) then TrimEnd(s[..|s| - 1]) else s
  }

  function Trim(s: string): string {
    TrimEnd(TrimStart(s))
  }

  /** The first place of `c`, the length when there is none. */
  function Find(s: string, c: char): (at: nat)
    ensures at <= |s| && (at < |s| ==> s[at] == c) && c !in s[..at]
  {
    if s == [] || s[0] == c then 0
    else
      var at := Find(s[1..], c) + 1;
      assert s[..at] == [s[0]] + s[1..][..at - 1];
      at
  }

  /** The last place of `c`, none when there is none. */
  function FindLast(s: string, c: char): (at: Option<nat>)
    ensures at.Some? ==> at.value < |s| && s[at.value] == c && c !in s[at.value + 1..]
    ensures at.None? ==> c !in s
  {
    if s == [] then None
    else if s[|s| - 1] == c then Some(|s| - 1)
    else
      var at := FindLast(s[..|s| - 1], c);
      assert s == s[..|s| - 1] + [s[|s| - 1]];
      assert at.Some? ==> s[at.value + 1..] == s[..|s| - 1][at.value + 1..] + [s[|s| - 1]];
      at
  }

  /** The first place where `a` is followed by `b`, the length when there is none. */
  function FindPair(s: string, a: char, b: char): (at: nat)
    ensures at <= |s| && (at < |s| ==> at + 1 < |s| && s[at] == a && s[at + 1] == b)
  {
    if |s| < 2 then |s|
    else if s[0] == a && s[1] == b then 0
    else FindPair(s[1..], a, b) + 1
  }

  function Split(s: string, c: char): (parts: seq<string>)
    ensures parts != []
    decreases |s|
  {
    var at := Find(s, c);
    if at == |s| then [s] else [s[..at]] + Split(s[at + 1..], c)
  }

  function Join(parts: seq<string>, sep: string): string {
    if parts == [] then ""
    else if |parts| == 1 then parts[0]
    else parts[0] + sep + Join(parts[1..], sep)
  }

  function Words(s: string): seq<string>
    decreases |s|
  {
    var t := TrimStart(s);
    if t == [] then []
    else
      var n := WordEnd(t);
      TrimShorter(s);
      [t[..n]] + Words(t[n..])
  }

  function WordEnd(s: string): (n: nat)
    ensures n <= |s| && (s != [] && !IsSpace(s[0]) ==> 0 < n)
  {
    if s == [] || IsSpace(s[0]) then 0 else 1 + WordEnd(s[1..])
  }

  lemma {:induction false} TrimShorter(s: string)
    ensures |TrimStart(s)| <= |s|
    ensures TrimStart(s) == [] || !IsSpace(TrimStart(s)[0])
  {
    if s != [] && IsSpace(s[0]) {
      TrimShorter(s[1..]);
    }
  }

  lemma {:induction false} FindSkips(a: string, b: string, c: char)
    requires c !in a
    ensures Find(a + b, c) == |a| + Find(b, c)
  {
    if a == [] {
      assert a + b == b;
    } else {
      assert (a + b)[0] == a[0] && (a + b)[1..] == a[1..] + b;
      FindSkips(a[1..], b, c);
    }
  }

  lemma SplitWhole(first: string, c: char)
    requires c !in first
    ensures Split(first, c) == [first]
  {
    FindSkips(first, "", c);
    assert first + "" == first;
  }

  lemma CutAfter(first: string, c: char, rest: string)
    ensures var text := first + ([c] + rest);
            |first| < |text| && text[..|first|] == first && text[|first| + 1..] == rest
  {
  }

  lemma SplitAt(first: string, c: char, rest: string)
    requires c !in first
    ensures Split(first + ([c] + rest), c) == [first] + Split(rest, c)
  {
    FindSkips(first, [c] + rest, c);
    CutAfter(first, c, rest);
  }

  lemma JoinFirst(parts: seq<string>, sep: string)
    requires |parts| > 1
    ensures Join(parts, sep) == parts[0] + (sep + Join(parts[1..], sep))
  {
  }

  predicate Without(parts: seq<string>, c: char) {
    forall i | 0 <= i < |parts| :: c !in parts[i]
  }

  lemma WithoutRest(parts: seq<string>, c: char)
    requires parts != [] && Without(parts, c)
    ensures c !in parts[0] && Without(parts[1..], c)
  {
  }

  /** Splitting undoes joining when no part holds the separator. */
  lemma {:induction false} SplitJoin(parts: seq<string>, c: char)
    requires parts != [] && Without(parts, c)
    ensures Split(Join(parts, [c]), c) == parts
  {
    var first, tail := parts[0], parts[1..];
    WithoutRest(parts, c);
    if tail == [] {
      SplitWhole(first, c);
      assert parts == [first];
    } else {
      JoinFirst(parts, [c]);
      SplitAt(first, c, Join(tail, [c]));
      SplitJoin(tail, c);
      assert parts == [first] + tail;
    }
  }
}
