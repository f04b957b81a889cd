/** What a request path names (`coords.rs`). */
module Coords {
  import opened JsonValue
  import Text

  datatype Coords = Coords(group: Option<string>, version: string, namespace: Option<string>,
                           plural: string, name: Option<string>, subresource: Option<string>)

  datatype Target = ToResource(coords: Coords) | NonResource(path: string)

  function NonEmpty(parts: seq<string>): (kept: seq<string>)
    ensures forall i | 0 <= i < |kept| :: kept[i] != "" && kept[i] in parts
  {
    if parts == [] then [] else (if parts[0] == "" then [] else [parts[0]]) + NonEmpty(parts[1..])
  }

  function Segments(path: string): seq<string> {
    NonEmpty(Text.Split(path, '/'))
  }

  function FromSegments(group: Option<string>, version: string, segs: seq<string>): Option<Coords> {
    var namespaced := |segs| >= 3 && segs[0] == "namespaces";
    var namespace := if namespaced then Some(segs[1]) else None;
    var tail := if namespaced then segs[2..] else segs;
    if |tail| == 1 then Some(Coords(group, version, namespace, tail[0], None, None))
    else if |tail| == 2 then Some(Coords(group, version, namespace, tail[0], Some(tail[1]), None))
    else if |tail| == 3 then Some(Coords(group, version, namespace, tail[0], Some(tail[1]), Some(tail[2])))
    else None
  }

  /** `parse`: the tail after the group and version. */
  function Parse(group: Option<string>, version: string, rest: string): Option<Coords> {
    FromSegments(group, version, Segments(rest))
  }

  /** `parse_resource_path`. */
  function ParsePath(path: string): Option<Coords> {
    var segs := Segments(path);
    if segs == [] then None
    else if segs[0] == "api" then
      if |segs| <= 2 then None else Parse(None, segs[1], Text.Join(segs[2..], "/"))
    else if segs[0] == "apis" then
      if |segs| <= 3 then None else Parse(Some(segs[1]), segs[2], Text.Join(segs[3..], "/"))
    else None
  }

  function OfPath(path: string): Target {
    var coords := ParsePath(path);
    if coords.Some? then ToResource(coords.value) else NonResource(path)
  }

  // ---- the path of a resource ------------------------------------------------------------

  function Opt(s: Option<string>): seq<string> {
    if s.Some? then [s.value] else []
  }

  function Tail(c: Coords): seq<string> {
    (if c.namespace.Some? then ["namespaces", c.namespace.value] else []) + [c.plural] + Opt(c.name) +
        Opt(c.subresource)
  }

  function Prefix(c: Coords): seq<string> {
    if c.group.Some? then ["apis", c.group.value, c.version] else ["api", c.version]
  }

  function PathOf(c: Coords): string {
    "/" + Text.Join(Prefix(c) + Tail(c), "/")
  }

  predicate Plain(s: string) {
    s != "" && '/' !in s
  }

  predicate AllPlain(parts: seq<string>) {
    forall i | 0 <= i < |parts| :: Plain(parts[i])
  }

  /** Coordinates a URL can carry: non-empty names without a slash, no subresource of a collection. */
  predicate WellFormed(c: Coords) {
    AllPlain(Prefix(c) + Tail(c)) && (c.subresource.Some? ==> c.name.Some?)
  }

  /** A subresource of a namespace: its URL is also that of a collection in the namespace. */
  predicate Ambiguous(c: Coords) {
    c.namespace.None? && c.plural == "namespaces" && c.subresource.Some?
  }

  // ---- segments ----------------------------------------------------------------------------

  lemma {:induction false} SplitIsPlain(s: string, c: char)
    ensures forall part | part in Text.Split(s, c) :: c !in part
    decreases |s|
  {
    var at := Text.Find(s, c);
    if at == |s| {
      assert s[..at] == s;
    } else {
      SplitIsPlain(s[at + 1..], c);
    }
  }

  lemma SegmentsArePlain(path: string)
    ensures AllPlain(Segments(path))
  {
    SplitIsPlain(path, '/');
  }

  lemma {:induction false} NonEmptyKeeps(parts: seq<string>)
    requires forall i | 0 <= i < |parts| :: parts[i] != ""
    ensures NonEmpty(parts) == parts
  {
    if parts != [] {
      NonEmptyKeeps(parts[1..]);
    }
  }

  lemma JoinedSegments(parts: seq<string>)
    requires parts != [] && AllPlain(parts)
    ensures Segments(Text.Join(parts, "/")) == parts
    ensures Segments("/" + Text.Join(parts, "/")) == parts
  {
    Text.SplitJoin(parts, '/');
    NonEmptyKeeps(parts);
    var text := Text.Join(parts, "/");
    assert ("/" + text)[..0] == "" && ("/" + text)[1..] == text;
    assert Text.Split("/" + text, '/') == [""] + Text.Split(text, '/');
  }

  // ---- the two directions ------------------------------------------------------------------

  /** Coordinates whose tail a path can spell. */
  predicate Spellable(c: Coords) {
    (c.subresource.Some? ==> c.name.Some?) && !Ambiguous(c)
  }

  lemma ParsedTail(group: Option<string>, version: string, segs: seq<string>)
    ensures var c := FromSegments(group, version, segs);
            c.Some? ==>
              && c.value.group == group && c.value.version == version
              && Tail(c.value) == segs && Spellable(c.value)
  {
    var c := FromSegments(group, version, segs);
    if c.Some? {
      if |segs| >= 3 && segs[0] == "namespaces" {
        assert segs == ["namespaces", segs[1]] + segs[2..];
        PlainTail(c.value, segs[2..]);
      } else {
        PlainTail(c.value, segs);
      }
    }
  }

  lemma PlainTail(c: Coords, tail: seq<string>)
    requires 1 <= |tail| <= 3 && c.plural == tail[0]
    requires c.name == (if |tail| > 1 then Some(tail[1]) else None)
             && c.subresource == (if |tail| > 2 then Some(tail[2]) else None)
    ensures [c.plural] + Opt(c.name) + Opt(c.subresource) == tail
  {
  }

  lemma TailParses(c: Coords)
    requires Spellable(c)
    ensures FromSegments(c.group, c.version, Tail(c)) == Some(c)
  {
    var tail := [c.plural] + Opt(c.name) + Opt(c.subresource);
    if c.namespace.Some? {
      assert Tail(c) == ["namespaces", c.namespace.value] + tail;
      assert Tail(c)[2..] == tail;
    } else {
      assert Tail(c) == tail;
    }
  }

  lemma PlainParts(a: seq<string>, b: seq<string>)
    ensures AllPlain(a + b) <==> AllPlain(a) && AllPlain(b)
  {
    if AllPlain(a + b) {
      forall i | 0 <= i < |a| ensures Plain(a[i]) {
        assert a[i] == (a + b)[i];
      }
      forall i | 0 <= i < |b| ensures Plain(b[i]) {
        assert b[i] == (a + b)[|a| + i];
      }
    }
  }

  lemma RestParses(segs: seq<string>, n: nat, group: Option<string>)
    requires AllPlain(segs) && 0 < n < |segs|
    ensures Parse(group, segs[n - 1], Text.Join(segs[n..], "/")) == FromSegments(group, segs[n - 1], segs[n..])
  {
    assert segs == segs[..n] + segs[n..];
    PlainParts(segs[..n], segs[n..]);
    JoinedSegments(segs[n..]);
  }

  /** The whole classification, over the path's segments alone. */
  function FromPath(segs: seq<string>): Option<Coords> {
    if |segs| > 2 && segs[0] == "api" then FromSegments(None, segs[1], segs[2..])
    else if |segs| > 3 && segs[0] == "apis" then FromSegments(Some(segs[1]), segs[2], segs[3..])
    else None
  }

  lemma ParsePathBySegments(path: string)
    ensures ParsePath(path) == FromPath(Segments(path)) && AllPlain(Segments(path))
  {
    var segs := Segments(path);
    SegmentsArePlain(path);
    if |segs| > 2 && segs[0] == "api" {
      RestParses(segs, 2, None);
    } else if |segs| > 3 && segs[0] == "apis" {
      RestParses(segs, 3, Some(segs[1]));
    }
  }

  lemma FromPathSpells(segs: seq<string>)
    requires FromPath(segs).Some?
    ensures var c := FromPath(segs).value; segs == Prefix(c) + Tail(c) && Spellable(c)
  {
    var n := if segs[0] == "api" then 2 else 3;
    var group := if n == 2 then None else Some(segs[1]);
    ParsedTail(group, segs[n - 1], segs[n..]);
    assert Prefix(FromPath(segs).value) == segs[..n];
  }

  lemma AcceptedIsPrinted(path: string)
    requires ParsePath(path).Some?
    ensures var c := ParsePath(path).value;
            Segments(path) == Prefix(c) + Tail(c) && WellFormed(c) && !Ambiguous(c)
  {
    ParsePathBySegments(path);
    FromPathSpells(Segments(path));
  }

  lemma PrintedIsAccepted(path: string, c: Coords)
    requires WellFormed(c) && !Ambiguous(c) && Segments(path) == Prefix(c) + Tail(c)
    ensures ParsePath(path) == Some(c)
  {
    var n, segs := |Prefix(c)|, Segments(path);
    ParsePathBySegments(path);
    assert segs[n..] == Tail(c) && |Tail(c)| >= 1;
    assert segs[0] == Prefix(c)[0] && segs[n - 1] == Prefix(c)[n - 1] && segs[1] == Prefix(c)[1];
    TailParses(c);
  }

  /** A path names coordinates exactly when its non-empty segments are those of their URL and
      they are not a subresource of a namespace. */
  lemma ParsesIff(path: string, c: Coords)
    ensures ParsePath(path) == Some(c) <==> WellFormed(c) && !Ambiguous(c) && Segments(path) == Prefix(c) + Tail(c)
  {
    if ParsePath(path) == Some(c) {
      AcceptedIsPrinted(path);
    } else if WellFormed(c) && !Ambiguous(c) && Segments(path) == Prefix(c) + Tail(c) {
      PrintedIsAccepted(path, c);
      assert false;
    }
  }

  /** The other reading of a namespace's subresource. */
  function AsCollection(c: Coords): Coords
    requires c.subresource.Some?
  {
    Coords(c.group, c.version, c.name, c.subresource.value, None, None)
  }

  lemma AmbiguousReads(c: Coords)
    requires WellFormed(c) && Ambiguous(c)
    ensures WellFormed(AsCollection(c)) && !Ambiguous(AsCollection(c))
    ensures Prefix(AsCollection(c)) == Prefix(c) && Tail(AsCollection(c)) == Tail(c)
  {
    assert Tail(c) == ["namespaces", c.name.value, c.subresource.value];
    assert Tail(AsCollection(c)) == ["namespaces", c.name.value, c.subresource.value];
  }

  /** Printing coordinates and parsing the path gives them back, but for a subresource of a
      namespace, which reads as the collection of that name in the namespace. */
  lemma PrintedReadsBack(c: Coords)
    requires WellFormed(c)
    ensures ParsePath(PathOf(c)) == Some(c) <==> !Ambiguous(c)
    ensures Ambiguous(c) ==> ParsePath(PathOf(c)) == Some(AsCollection(c))
  {
    JoinedSegments(Prefix(c) + Tail(c));
    ParsesIff(PathOf(c), c);
    if Ambiguous(c) {
      AmbiguousReads(c);
      ParsesIff(PathOf(c), AsCollection(c));
    }
  }

  /** A path with a leading, trailing or doubled slash names what the tidy path names; any
      other path is carried unread. */
  lemma OfPathIsCanonical(path: string)
    ensures match OfPath(path)
            case ToResource(c) => OfPath(PathOf(c)) == ToResource(c)
            case NonResource(p) => p == path && forall c | WellFormed(c) && !Ambiguous(c) ::
                Segments(path) != Prefix(c) + Tail(c)
  {
    match OfPath(path)
    case ToResource(c) =>
      AcceptedIsPrinted(path);
      PrintedReadsBack(c);
    case NonResource(p) =>
      forall c | WellFormed(c) && !Ambiguous(c) ensures Segments(path) != Prefix(c) + Tail(c) {
        ParsesIff(path, c);
      }
  }
}
