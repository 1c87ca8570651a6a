/** Which installed Catalogue version judges a collector
    (internal/activation/resolve.go). */
module Resolution {
  import opened Base
  import opened Numbers

  /** A release tag's three numbers. */
  datatype Version = Version(major: int, minor: int, patch: int)

  predicate Older(a: Version, b: Version) {
    if a.major != b.major then a.major < b.major
    else if a.minor != b.minor then a.minor < b.minor
    else a.patch < b.patch
  }

  function Split(s: string, c: char): (parts: seq<string>)
    ensures parts != []
    ensures forall p :: p in parts ==> c !in p
  {
    if s == "" then [""]
    else
      var rest := Split(s[1..], c);
      if s[0] == c then [""] + rest else [[s[0]] + rest[0]] + rest[1..]
  }

  function JoinWith(parts: seq<string>, c: char): string
    requires parts != []
  {
    if |parts| == 1 then parts[0] else parts[0] + [c] + JoinWith(parts[1..], c)
  }

  /** Splitting loses nothing. */
  lemma {:induction false} SplitJoins(s: string, c: char)
    ensures JoinWith(Split(s, c), c) == s
  {
    if s != "" {
      SplitJoins(s[1..], c);
      var rest := Split(s[1..], c);
      assert s == [s[0]] + s[1..];
      if s[0] == c {
        assert ([""] + rest)[1..] == rest;
      } else if |rest| > 1 {
        var parts := [[s[0]] + rest[0]] + rest[1..];
        assert parts[1..] == rest[1..];
        assert JoinWith(parts, c) == [s[0]] + (rest[0] + [c] + JoinWith(rest[1..], c));
      }
    }
  }

  function Number(s: string): Option<int> {
    var n := Atoi(s);
    if n.Some? && n.value >= 0 then n else None
  }

  function TrimV(s: string): string {
    if s != "" && s[0] == 'v' then s[1..] else s
  }

  function ParseVersion(s: string): Option<Version> {
    var parts := Split(TrimV(s), '.');
    if |parts| != 3 then None
    else
      var major, minor, patch := Number(parts[0]), Number(parts[1]), Number(parts[2]);
      if major.Some? && minor.Some? && patch.Some? then Some(Version(major.value, minor.value, patch.value)) else None
  }

  method ParseVersionLoop(s: string) returns (v: Option<Version>)
    ensures v == ParseVersion(s)
  {
    hide Number, Split, TrimV;
    var parts := Split(TrimV(s), '.');
    if |parts| != 3 { return None; }
    var out: seq<int> := [];
    for i := 0 to 3
      invariant |out| == i
      invariant forall k :: 0 <= k < i ==> Number(parts[k]) == Some(out[k])
    {
      var n := Number(parts[i]);
      if n.None? { return None; }
      out := out + [n.value];
    }
    v := Some(Version(out[0], out[1], out[2]));
  }

  /** The parsed tag, or the zero version where it does not parse. */
  function VersionOf(tag: string): Version {
    if ParseVersion(tag).Some? then ParseVersion(tag).value else Version(0, 0, 0)
  }

  predicate TagOlder(a: string, b: string) {
    Older(VersionOf(a), VersionOf(b))
  }

  /** An installed version below the one asked for; a tag that does not parse
      is neither above nor below. */
  predicate Candidate(tag: string, want: Version) {
    ParseVersion(tag).Some? && Older(ParseVersion(tag).value, want)
  }

  lemma VersionOrder()
    ensures WeakOrder(Older)
    ensures forall a, b :: !Older(a, b) && !Older(b, a) ==> a == b
  {
  }

  lemma TagOrder()
    ensures WeakOrder(TagOlder)
  {
  }

  // ---- tags, as they are written ------------------------------------------

  lemma {:induction false} SplitAtFirst(p: string, rest: string, c: char)
    requires c !in p
    ensures Split(p + [c] + rest, c) == [p] + Split(rest, c)
  {
    var s := p + [c] + rest;
    if p == "" {
      assert s[0] == c && s[1..] == rest;
    } else {
      assert s[0] == p[0] && s[1..] == p[1..] + [c] + rest;
      SplitAtFirst(p[1..], rest, c);
      assert [p[0]] + p[1..] == p;
      assert ([p[1..]] + Split(rest, c))[0] == p[1..] && ([p[1..]] + Split(rest, c))[1..] == Split(rest, c);
    }
  }

  lemma {:induction false} SplitWhole(p: string, c: char)
    requires c !in p
    ensures Split(p, c) == [p]
  {
    if p != "" {
      SplitWhole(p[1..], c);
      assert [p[0]] + p[1..] == p;
    }
  }

  ghost predicate ReadsAs(s: string, n: int) { Atoi(s) == Some(n) && n >= 0 }

  /** The tag without one leading `v` is three numbers with dots between. */
  ghost predicate Tagged(tag: string, v: Version) {
    exists p, q, r ::
      && (if tag != "" && tag[0] == 'v' then tag[1..] else tag) == p + "." + (q + "." + r)
      && '.' !in p && '.' !in q && '.' !in r
      && ReadsAs(p, v.major) && ReadsAs(q, v.minor) && ReadsAs(r, v.patch)
  }

  lemma ParsedIsTagged(tag: string, v: Version)
    requires ParseVersion(tag) == Some(v)
    ensures Tagged(tag, v)
  {
    hide Atoi, Split;
    var s := if tag != "" && tag[0] == 'v' then tag[1..] else tag;
    var parts := Split(s, '.');
    SplitJoins(s, '.');
    ThreeJoined(parts, '.');
    assert parts[0] in parts && parts[1] in parts && parts[2] in parts;
    hide JoinWith;
    assert ReadsAs(parts[0], v.major) && ReadsAs(parts[1], v.minor) && ReadsAs(parts[2], v.patch);
  }

  lemma SplitThree(p: string, q: string, r: string, c: char)
    requires c !in p && c !in q && c !in r
    ensures Split(p + [c] + (q + [c] + r), c) == [p, q, r]
  {
    hide Split;
    SplitAtFirst(p, q + [c] + r, c);
    SplitAtFirst(q, r, c);
    SplitWhole(r, c);
  }

  lemma TaggedIsParsed(tag: string, v: Version)
    requires Tagged(tag, v)
    ensures ParseVersion(tag) == Some(v)
  {
    hide Atoi, Split;
    var s := if tag != "" && tag[0] == 'v' then tag[1..] else tag;
    var p, q, r :| s == p + "." + (q + "." + r) && '.' !in p && '.' !in q && '.' !in r
      && ReadsAs(p, v.major) && ReadsAs(q, v.minor) && ReadsAs(r, v.patch);
    SplitThree(p, q, r, '.');
  }

  lemma TaggedIs(tag: string, v: Version)
    ensures ParseVersion(tag) == Some(v) <==> Tagged(tag, v)
  {
    hide ParseVersion, Tagged;
    if ParseVersion(tag) == Some(v) { ParsedIsTagged(tag, v); }
    if Tagged(tag, v) { TaggedIsParsed(tag, v); }
  }

  lemma ThreeJoined(parts: seq<string>, c: char)
    requires |parts| == 3
    ensures JoinWith(parts, c) == parts[0] + [c] + (parts[1] + [c] + parts[2])
  {
    assert parts[1..][1..] == [parts[2]];
    assert JoinWith(parts[1..], c) == parts[1] + [c] + JoinWith([parts[2]], c);
  }

  /** Major first, then minor, then patch. */
  ghost predicate Precedes(a: Version, b: Version) {
    a.major < b.major || (a.major == b.major && (a.minor < b.minor || (a.minor == b.minor && a.patch < b.patch)))
  }

  /** Both tags are versions and the first precedes the second. */
  ghost predicate Below(tag: string, other: string) {
    exists a, b :: Tagged(tag, a) && Tagged(other, b) && Precedes(a, b)
  }

  lemma BelowIs(tag: string, other: string)
    ensures Below(tag, other) <==> ParseVersion(other).Some? && Candidate(tag, ParseVersion(other).value)
    ensures ParseVersion(tag).Some? && ParseVersion(other).Some? ==> (Below(tag, other) <==> TagOlder(tag, other))
  {
    hide Tagged, ParseVersion;
    forall v ensures Tagged(tag, v) <==> ParseVersion(tag) == Some(v) { TaggedIs(tag, v); }
    forall v ensures Tagged(other, v) <==> ParseVersion(other) == Some(v) { TaggedIs(other, v); }
    if ParseVersion(tag).Some? && ParseVersion(other).Some? {
      assert Tagged(tag, ParseVersion(tag).value) && Tagged(other, ParseVersion(other).value);
    }
  }

  method NearestOlder(version: string, installed: seq<string>) returns (nearest: Option<string>)
    ensures nearest.Some? <==> ParseVersion(version).Some? && exists v :: v in installed && Candidate(v, ParseVersion(version).value)
    ensures nearest.Some? ==>
      && nearest.value in installed
      && Candidate(nearest.value, ParseVersion(version).value)
      && forall v :: v in installed && Candidate(v, ParseVersion(version).value) ==> !TagOlder(nearest.value, v)
  {
    hide ParseVersion;
    var want := ParseVersionLoop(version);
    if want.None? { return None; }
    var candidates: seq<string> := [];
    for i := 0 to |installed|
      invariant forall v :: v in candidates <==> v in installed[..i] && Candidate(v, want.value)
    {
      assert installed[..i + 1] == installed[..i] + [installed[i]];
      var got := ParseVersionLoop(installed[i]);
      if got.None? || !Older(got.value, want.value) { continue; }
      candidates := candidates + [installed[i]];
    }
    assert installed[..|installed|] == installed;
    if |candidates| == 0 { return None; }
    assert candidates[0] in candidates;
    TagOrder();
    SortSorts(TagOlder, candidates);
    SortMembers(TagOlder, candidates);
    var sorted := Sort(TagOlder, candidates);
    var last := sorted[|sorted| - 1];
    assert last in sorted;
    forall v | v in candidates ensures !TagOlder(last, v) {
      var k :| 0 <= k < |sorted| && sorted[k] == v;
    }
    nearest := Some(last);
  }

  datatype Judgement = Judgement(version: string, known: bool, degraded: bool)

  /** Exact where the version is installed; otherwise degraded to an installed
      one it is above, with none strictly between; otherwise nothing is known,
      and that only when no installed version is below it. */
  method Judge(version: string, installed: seq<string>) returns (j: Judgement)
    ensures j.known && !j.degraded <==> version != "" && version in installed
    ensures j.known && !j.degraded ==> j.version == version
    ensures j.known && j.degraded <==> version != "" && version !in installed && exists v :: v in installed && Below(v, version)
    ensures j.known && j.degraded ==>
      && j.version in installed && Below(j.version, version)
      && forall v :: v in installed && Below(v, version) ==> !Below(j.version, v)
    ensures !j.known ==> j.version == "" && !j.degraded
  {
    hide ParseVersion, Tagged;
    if version == "" { return Judgement("", false, false); }
    for i := 0 to |installed|
      invariant version !in installed[..i]
    {
      assert installed[..i + 1] == installed[..i] + [installed[i]];
      if installed[i] == version { return Judgement(version, true, false); }
    }
    assert installed[..|installed|] == installed;
    var nearest := NearestOlder(version, installed);
    forall v ensures Below(v, version) <==> ParseVersion(version).Some? && Candidate(v, ParseVersion(version).value) { BelowIs(v, version); }
    if nearest.None? { return Judgement("", false, false); }
    forall v | v in installed && Below(v, version) ensures !Below(nearest.value, v) { BelowIs(nearest.value, v); }
    return Judgement(nearest.value, true, true);
  }
}
