/** The type-pattern vocabulary of an allow-list entry, said once as a relation
    on bytes, and the two matchers: the console's, which decides it, and Go's
    path.Match, which does on names of one-byte characters without a slash. */
module Globs {
  import opened Base
  import opened TextBytes

  const STAR: byte := 0x2A
  const QUERY: byte := 0x3F
  const SLASH: byte := 0x2F

  // ------------------------------------------------------------- the relation

  /** What one byte of a pattern stands for. */
  predicate Fits(b: byte, run: Bytes) {
    if b == STAR then true
    else if b == QUERY then |run| == 1
    else run == [b]
  }

  function Concat(runs: seq<Bytes>): Bytes {
    if runs == [] then [] else runs[0] + Concat(runs[1..])
  }

  ghost predicate Splits(pattern: Bytes, s: Bytes, runs: seq<Bytes>) {
    |runs| == |pattern| && Concat(runs) == s && forall i :: 0 <= i < |pattern| ==> Fits(pattern[i], runs[i])
  }

  /** The subject falls into one run per byte of the pattern, each fitting. */
  ghost predicate Matches(pattern: Bytes, s: Bytes) {
    exists runs :: Splits(pattern, s, runs)
  }

  lemma EmptyPattern(s: Bytes)
    ensures Matches([], s) <==> s == []
  {
    if s == [] { assert Splits([], s, []); }
  }

  /** A pattern matches by matching its first byte to a prefix and the rest of
      it to the rest. */
  lemma FirstRun(pattern: Bytes, s: Bytes)
    requires pattern != []
    ensures Matches(pattern, s)
       <==> exists k :: 0 <= k <= |s| && Fits(pattern[0], s[..k]) && Matches(pattern[1..], s[k..])
  {
    if Matches(pattern, s) {
      var runs :| Splits(pattern, s, runs);
      var k := |runs[0]|;
      assert s[..k] == runs[0] && s[k..] == Concat(runs[1..]);
      assert Splits(pattern[1..], s[k..], runs[1..]);
      assert Fits(pattern[0], s[..k]) && Matches(pattern[1..], s[k..]);
    }
    if k :| 0 <= k <= |s| && Fits(pattern[0], s[..k]) && Matches(pattern[1..], s[k..]) {
      var rest :| Splits(pattern[1..], s[k..], rest);
      var runs := [s[..k]] + rest;
      assert runs[1..] == rest;
      assert s[..k] + s[k..] == s;
      assert Splits(pattern, s, runs);
    }
  }

  predicate FitsFront(b: byte, s: Bytes) { s != [] && (b == QUERY || b == s[0]) }

  lemma FirstLiteral(pattern: Bytes, s: Bytes)
    requires pattern != [] && pattern[0] != STAR
    ensures Matches(pattern, s) <==> FitsFront(pattern[0], s) && Matches(pattern[1..], s[1..])
  {
    FirstRun(pattern, s);
    hide Matches;
    if k :| 0 <= k <= |s| && Fits(pattern[0], s[..k]) && Matches(pattern[1..], s[k..]) {
      assert k == |s[..k]| == 1 && s[..1] == [s[0]];
    }
    if FitsFront(pattern[0], s) && Matches(pattern[1..], s[1..]) {
      assert s[..1] == [s[0]];
      assert Fits(pattern[0], s[..1]);
    }
  }

  lemma FirstStar(pattern: Bytes, s: Bytes)
    requires pattern != [] && pattern[0] == STAR
    ensures Matches(pattern, s) <==> exists k :: 0 <= k <= |s| && Matches(pattern[1..], s[k..])
  {
    FirstRun(pattern, s);
    hide Matches;
    forall k | 0 <= k <= |s| ensures Fits(pattern[0], s[..k]) { }
  }

  /** A star absorbs whatever stands before what it already takes. */
  lemma StarAbsorbs(pattern: Bytes, s: Bytes, j: nat)
    requires pattern != [] && pattern[0] == STAR && j <= |s| && Matches(pattern, s[j..])
    ensures Matches(pattern, s)
  {
    FirstStar(pattern, s[j..]);
    FirstStar(pattern, s);
    hide Matches;
    var k :| 0 <= k <= |s[j..]| && Matches(pattern[1..], s[j..][k..]);
    assert s[j..][k..] == s[j + k..];
  }

  // -------------------------------------------------------------- star-free

  predicate StarFree(pattern: Bytes) { STAR !in pattern }

  /** A star-free chunk stands at the front of the subject. */
  predicate ChunkFits(chunk: Bytes, s: Bytes) {
    |chunk| <= |s| && forall i :: 0 <= i < |chunk| ==> chunk[i] == QUERY || chunk[i] == s[i]
  }

  lemma {:induction false} ChunkMatches(chunk: Bytes, rest: Bytes, s: Bytes)
    requires StarFree(chunk)
    ensures Matches(chunk + rest, s) <==> ChunkFits(chunk, s) && Matches(rest, s[|chunk|..])
  {
    hide Matches;
    if chunk == [] {
      assert chunk + rest == rest && s[0..] == s;
    } else {
      var pattern := chunk + rest;
      assert pattern[0] == chunk[0] && pattern[0] in chunk && pattern[1..] == chunk[1..] + rest;
      FirstLiteral(pattern, s);
      if s != [] {
        ChunkMatches(chunk[1..], rest, s[1..]);
        assert |chunk| <= |s| ==> s[1..][|chunk[1..]|..] == s[|chunk|..];
        ChunkFront(chunk, s);
      }
    }
  }

  lemma ChunkFront(chunk: Bytes, s: Bytes)
    requires chunk != [] && s != []
    ensures ChunkFits(chunk, s) <==> FitsFront(chunk[0], s) && ChunkFits(chunk[1..], s[1..])
  {
    if FitsFront(chunk[0], s) && ChunkFits(chunk[1..], s[1..]) {
      forall i | 0 <= i < |chunk| ensures chunk[i] == QUERY || chunk[i] == s[i] {
        if i > 0 { assert chunk[1..][i - 1] == chunk[i] && s[1..][i - 1] == s[i]; }
      }
    }
    if ChunkFits(chunk, s) {
      forall i | 0 <= i < |chunk[1..]| ensures chunk[1..][i] == QUERY || chunk[1..][i] == s[1..][i] {
        assert chunk[1..][i] == chunk[i + 1] && s[1..][i] == s[i + 1];
      }
    }
  }

  /** Without a star, pattern and subject are compared byte by byte. */
  lemma StarFreeMatches(pattern: Bytes, s: Bytes)
    requires StarFree(pattern)
    ensures Matches(pattern, s) <==> |s| == |pattern| && ChunkFits(pattern, s)
  {
    ChunkMatches(pattern, [], s);
    assert pattern + [] == pattern;
    if |pattern| <= |s| { EmptyPattern(s[|pattern|..]); }
    hide Matches;
  }

  // ------------------------------------------------------ the console's matcher

  /** Two cursors in a loop, recursion at each star. */
  method GlobMatch(pattern: Bytes, s: Bytes) returns (ok: bool)
    ensures ok <==> Matches(pattern, s)
    decreases |pattern|
  {
    hide Matches;
    var p, rest := pattern, s;
    while p != []
      invariant |p| <= |pattern|
      invariant Matches(p, rest) <==> Matches(pattern, s)
      decreases |p|
    {
      if p[0] == STAR {
        FirstStar(p, rest);
        p := p[1..];
        if p == [] {
          EmptyPattern(rest[|rest|..]);
          return true;
        }
        for i := 0 to |rest| + 1
          invariant forall k :: 0 <= k < i ==> !Matches(p, rest[k..])
        {
          var found := GlobMatch(p, rest[i..]);
          if found { return true; }
        }
        return false;
      }
      FirstLiteral(p, rest);
      if rest == [] || (p[0] != QUERY && rest[0] != p[0]) { return false; }
      p, rest := p[1..], rest[1..];
    }
    EmptyPattern(rest);
    return rest == [];
  }

  // ------------------------------------------------------------- path.Match

  /** A run of stars, then everything up to the next one. */
  function AfterStars(pattern: Bytes): (p: Bytes)
    ensures |p| <= |pattern|
    ensures p != [] ==> p[0] != STAR
    ensures pattern == [] || pattern[0] != STAR ==> p == pattern
    ensures SLASH !in pattern ==> SLASH !in p
  {
    if pattern == [] || pattern[0] != STAR then pattern else AfterStars(pattern[1..])
  }

  function ChunkOf(pattern: Bytes): (chunk: Bytes)
    ensures |chunk| <= |pattern| && chunk == pattern[..|chunk|] && StarFree(chunk)
    ensures |chunk| < |pattern| ==> pattern[|chunk|] == STAR
    ensures SLASH !in pattern ==> SLASH !in chunk
  {
    if pattern == [] || pattern[0] == STAR then []
    else
      var rest := ChunkOf(pattern[1..]);
      assert pattern[..|rest| + 1] == [pattern[0]] + pattern[1..][..|rest|];
      [pattern[0]] + rest
  }

  /** What is left of the subject once the chunk has taken its front, `?` taking
      one whole character. */
  function MatchChunk(chunk: Bytes, s: Bytes): (t: Option<Bytes>)
    ensures t.Some? ==> |t.value| <= |s| && t.value == s[|s| - |t.value|..]
  {
    if chunk == [] then Some(s)
    else if s == [] then None
    else if chunk[0] == QUERY then
      if s[0] == SLASH then None else MatchChunk(chunk[1..], s[Width(s)..])
    else if chunk[0] != s[0] then None
    else MatchChunk(chunk[1..], s[1..])
  }

  /** Go's path.Match over the loaded vocabulary. It tries each chunk where it
      stands, then a byte further on while its star may skip one, and never
      goes back on a chunk it has placed. */
  function PathMatch(pattern: Bytes, name: Bytes): bool
    decreases |pattern|, 0
  {
    if pattern == [] then name == []
    else
      var p := AfterStars(pattern);
      var chunk := ChunkOf(p);
      var rest := p[|chunk|..];
      if pattern[0] == STAR && chunk == [] then SLASH !in name
      else
        assert |rest| < |pattern|;
        var t := MatchChunk(chunk, name);
        if t.Some? && (t.value == [] || rest != []) then PathMatch(rest, t.value)
        else pattern[0] == STAR && SkipAndMatch(chunk, rest, name)
  }

  function SkipAndMatch(chunk: Bytes, rest: Bytes, name: Bytes): bool
    decreases |rest|, |name| + 1
  {
    if name == [] || name[0] == SLASH then false
    else
      var t := MatchChunk(chunk, name[1..]);
      if t.Some? && (t.value == [] || rest != []) then PathMatch(rest, t.value)
      else SkipAndMatch(chunk, rest, name[1..])
  }

  // ---- no slash is ever crossed ------------------------------------------

  lemma {:induction false} ChunkTakesNoSlash(chunk: Bytes, s: Bytes)
    requires SLASH !in chunk && MatchChunk(chunk, s).Some?
    ensures SLASH in s ==> SLASH in MatchChunk(chunk, s).value
  {
    if chunk != [] {
      assert chunk[0] in chunk;
      var n := if chunk[0] == QUERY then Width(s) else 1;
      FrontHoldsNoSlash(s, n);
      hide Width;
      ChunkTakesNoSlash(chunk[1..], s[n..]);
    }
  }

  lemma FrontHoldsNoSlash(s: Bytes, n: nat)
    requires n <= |s| && forall i :: 0 <= i < n ==> s[i] != SLASH
    ensures SLASH in s ==> SLASH in s[n..]
  {
    if i :| 0 <= i < |s| && s[i] == SLASH { assert s[n..][i - n] == SLASH; }
  }

  lemma {:induction false} PathMatchTakesNoSlash(pattern: Bytes, name: Bytes)
    requires SLASH !in pattern && PathMatch(pattern, name)
    ensures SLASH !in name
    decreases |pattern|, 0
  {
    if pattern != [] {
      var p := AfterStars(pattern);
      var chunk := ChunkOf(p);
      var rest := p[|chunk|..];
      if !(pattern[0] == STAR && chunk == []) {
        var t := MatchChunk(chunk, name);
        if t.Some? && (t.value == [] || rest != []) {
          ChunkTakesNoSlash(chunk, name);
          PathMatchTakesNoSlash(rest, t.value);
        } else {
          SkipTakesNoSlash(chunk, rest, name);
        }
      }
    }
  }

  lemma {:induction false} SkipTakesNoSlash(chunk: Bytes, rest: Bytes, name: Bytes)
    requires SLASH !in chunk && SLASH !in rest && SkipAndMatch(chunk, rest, name)
    ensures SLASH !in name
    decreases |rest|, |name| + 1
  {
    assert name == [name[0]] + name[1..];
    var t := MatchChunk(chunk, name[1..]);
    if t.Some? && (t.value == [] || rest != []) {
      ChunkTakesNoSlash(chunk, name[1..]);
      PathMatchTakesNoSlash(rest, t.value);
    } else {
      SkipTakesNoSlash(chunk, rest, name[1..]);
    }
  }

  // ---- on one-byte characters it decides the relation --------------------

  predicate SingleBytes(s: Bytes) { forall b :: b in s ==> b < 0x80 && b != SLASH }

  lemma {:induction false} SingleBytesChunk(chunk: Bytes, s: Bytes)
    requires SingleBytes(s)
    ensures MatchChunk(chunk, s) == if ChunkFits(chunk, s) then Some(s[|chunk|..]) else None
  {
    if chunk != [] && s != [] {
      assert s[0] in s && forall b :: b in s[1..] ==> b in s;
      ChunkFront(chunk, s);
      SingleBytesChunk(chunk[1..], s[1..]);
      assert |chunk| <= |s| ==> s[1..][|chunk[1..]|..] == s[|chunk|..];
    }
  }

  /** The chunk and then the rest, from the `k`th byte on. */
  ghost predicate StandsAt(chunk: Bytes, rest: Bytes, s: Bytes, k: nat)
    requires k <= |s|
  {
    ChunkFits(chunk, s[k..]) && Matches(rest, s[k..][|chunk|..])
  }

  /** path.Match settles for the chunk here: something comes after it, or
      nothing is left of the subject. */
  predicate Placed(chunk: Bytes, rest: Bytes, s: Bytes) {
    ChunkFits(chunk, s) && (rest != [] || |chunk| == |s|)
  }

  /** Placing the chunk as early as it fits loses nothing: what comes after it
      is the end of the pattern or a star. */
  lemma EarliestIsEnough(chunk: Bytes, rest: Bytes, s: Bytes, k: nat)
    requires rest == [] || rest[0] == STAR
    requires k <= |s| && StandsAt(chunk, rest, s, k)
    ensures Placed(chunk, rest, s) ==> StandsAt(chunk, rest, s, 0)
  {
    assert s[0..] == s;
    if rest == [] {
      EmptyPattern(s[|s|..]);
    } else if ChunkFits(chunk, s) {
      assert s[k..][|chunk|..] == s[|chunk|..][k..];
      StarAbsorbs(rest, s[|chunk|..], k);
    }
  }

  ghost predicate StandsFrom(chunk: Bytes, rest: Bytes, s: Bytes, from: nat) {
    exists k :: from <= k <= |s| && StandsAt(chunk, rest, s, k)
  }

  lemma StandsFromTheStart(chunk: Bytes, rest: Bytes, s: Bytes)
    requires rest == [] || rest[0] == STAR
    ensures StandsFrom(chunk, rest, s, 0)
       <==> if Placed(chunk, rest, s) then Matches(rest, s[|chunk|..]) else StandsFrom(chunk, rest, s, 1)
  {
    assert s[0..] == s;
    if rest == [] && |chunk| <= |s| { EmptyPattern(s[|chunk|..]); }
    hide Matches;
    if Placed(chunk, rest, s) {
      if k :| 0 <= k <= |s| && StandsAt(chunk, rest, s, k) { EarliestIsEnough(chunk, rest, s, k); }
      if Matches(rest, s[|chunk|..]) { assert StandsAt(chunk, rest, s, 0); }
    }
  }

  lemma StandsFurtherOn(chunk: Bytes, rest: Bytes, s: Bytes)
    requires s != []
    ensures StandsFrom(chunk, rest, s, 1) <==> StandsFrom(chunk, rest, s[1..], 0)
  {
    hide Matches, ChunkFits;
    var tail := s[1..];
    forall k | 0 <= k <= |tail| ensures StandsAt(chunk, rest, tail, k) <==> StandsAt(chunk, rest, s, k + 1) {
      assert tail[k..] == s[k + 1..];
    }
    if k :| 1 <= k <= |s| && StandsAt(chunk, rest, s, k) { assert StandsAt(chunk, rest, tail, k - 1); }
  }

  /** On such subjects that is where path.Match places it. */
  lemma PlacesChunk(chunk: Bytes, rest: Bytes, s: Bytes)
    requires SingleBytes(s)
    ensures var t := MatchChunk(chunk, s);
      && (t.Some? && (t.value == [] || rest != []) <==> Placed(chunk, rest, s))
      && (Placed(chunk, rest, s) ==> t.value == s[|chunk|..] && SingleBytes(t.value))
  {
    SingleBytesChunk(chunk, s);
    hide MatchChunk;
    if ChunkFits(chunk, s) { RestIsSingle(s, |chunk|); }
    hide SingleBytes, ChunkFits;
  }

  lemma RestIsSingle(s: Bytes, k: nat)
    requires SingleBytes(s) && k <= |s|
    ensures SingleBytes(s[k..])
  {
    assert forall i :: 0 <= i < |s[k..]| ==> s[k..][i] == s[k + i] && s[k + i] in s;
  }

  lemma StarsAndChunk(pattern: Bytes, s: Bytes)
    requires pattern != [] && pattern[0] == STAR
    ensures var p := AfterStars(pattern); var chunk := ChunkOf(p);
      Matches(pattern, s) <==> StandsFrom(chunk, p[|chunk|..], s, 0)
  {
    var p := AfterStars(pattern);
    var chunk := ChunkOf(p);
    var rest := p[|chunk|..];
    assert p == chunk + rest;
    ManyStars(pattern, s);
    hide AfterStars, ChunkOf;
    StarThenChunk(chunk, rest, s);
  }

  lemma StarThenChunk(chunk: Bytes, rest: Bytes, s: Bytes)
    requires StarFree(chunk)
    ensures Matches([STAR] + (chunk + rest), s) <==> StandsFrom(chunk, rest, s, 0)
  {
    var p := chunk + rest;
    FirstStar([STAR] + p, s);
    assert ([STAR] + p)[1..] == p;
    hide Matches, ChunkFits;
    forall k | 0 <= k <= |s| ensures Matches(p, s[k..]) <==> StandsAt(chunk, rest, s, k) {
      ChunkMatches(chunk, rest, s[k..]);
    }
    hide StandsAt;
    if k :| 0 <= k <= |s| && Matches(p, s[k..]) { assert StandsAt(chunk, rest, s, k); }
    if k :| 0 <= k <= |s| && StandsAt(chunk, rest, s, k) { assert Matches(p, s[k..]); }
  }

  lemma {:induction false} ManyStars(pattern: Bytes, s: Bytes)
    requires pattern != [] && pattern[0] == STAR
    ensures Matches(pattern, s) <==> Matches([STAR] + AfterStars(pattern), s)
  {
    hide Matches;
    if pattern[1..] != [] && pattern[1] == STAR {
      FirstStar(pattern, s);
      if Matches(pattern, s) {
        var k :| 0 <= k <= |s| && Matches(pattern[1..], s[k..]);
        StarAbsorbs(pattern[1..], s, k);
      }
      assert s[0..] == s;
      ManyStars(pattern[1..], s);
    } else {
      assert pattern == [STAR] + pattern[1..];
    }
  }

  /** On a subject of one-byte characters without a slash, path.Match decides
      the relation. */
  lemma {:induction false} PathMatchIs(pattern: Bytes, name: Bytes)
    requires SingleBytes(name)
    ensures PathMatch(pattern, name) <==> Matches(pattern, name)
    decreases |pattern|, 0
  {
    if pattern == [] {
      EmptyPattern(name);
    } else {
      var p := AfterStars(pattern);
      var chunk := ChunkOf(p);
      var rest := p[|chunk|..];
      assert p == chunk + rest;
      if pattern[0] == STAR && chunk == [] {
        NothingButStars(pattern, name);
      } else {
        WhereItStands(pattern, name);
        PlacesChunk(chunk, rest, name);
        hide Matches, StandsFrom, MatchChunk, AfterStars, ChunkOf, Placed;
        if Placed(chunk, rest, name) {
          PathMatchIs(rest, name[|chunk|..]);
        } else if pattern[0] == STAR {
          SkipIs(chunk, rest, name);
        }
      }
    }
  }

  lemma NothingButStars(pattern: Bytes, name: Bytes)
    requires pattern != [] && pattern[0] == STAR && AfterStars(pattern) == []
    ensures Matches(pattern, name)
  {
    ManyStars(pattern, name);
    FirstStar([STAR], name);
    EmptyPattern(name[|name|..]);
    assert [STAR][1..] == [] && [STAR] + AfterStars(pattern) == [STAR];
    hide Matches;
  }

  /** The relation, at the chunk a pattern opens with. */
  lemma WhereItStands(pattern: Bytes, name: Bytes)
    requires pattern != []
    ensures var p := AfterStars(pattern); var chunk := ChunkOf(p); var rest := p[|chunk|..];
      Matches(pattern, name) <==>
        if Placed(chunk, rest, name) then Matches(rest, name[|chunk|..])
        else pattern[0] == STAR && StandsFrom(chunk, rest, name, 1)
  {
    var p := AfterStars(pattern);
    var chunk := ChunkOf(p);
    var rest := p[|chunk|..];
    assert p == chunk + rest;
    if pattern[0] == STAR {
      StarsAndChunk(pattern, name);
      hide Matches, StandsFrom, Placed, ChunkOf, AfterStars;
      StandsFromTheStart(chunk, rest, name);
    } else {
      ChunkMatches(chunk, rest, name);
      if rest == [] && |chunk| <= |name| { EmptyPattern(name[|chunk|..]); }
      hide Matches, ChunkFits, ChunkOf, AfterStars;
    }
  }

  lemma {:induction false} SkipIs(chunk: Bytes, rest: Bytes, name: Bytes)
    requires SingleBytes(name) && (rest == [] || rest[0] == STAR)
    ensures SkipAndMatch(chunk, rest, name) <==> StandsFrom(chunk, rest, name, 1)
    decreases |rest|, |name| + 1
  {
    if name != [] {
      var tail := name[1..];
      assert name[0] in name && forall b :: b in tail ==> b in name;
      StandsFurtherOn(chunk, rest, name);
      StandsFromTheStart(chunk, rest, tail);
      PlacesChunk(chunk, rest, tail);
      hide Matches, StandsFrom, MatchChunk, Placed;
      if Placed(chunk, rest, tail) {
        PathMatchIs(rest, tail[|chunk|..]);
      } else {
        SkipIs(chunk, rest, tail);
      }
    }
  }

  // ------------------------------------------------------------------ on text

  /** Characters no type pattern may hold. */
  predicate Refused(c: char) { c == '[' || c == ']' || c == '\\' || c == '/' }

  predicate PatternOk(pattern: string) {
    pattern != "" && forall c :: c in pattern ==> !Refused(c)
  }

  predicate Bare(name: string) { '/' !in name }

  lemma SlashInBytes(s: string)
    ensures SLASH in Utf8(s) <==> !Bare(s)
  {
    AsciiByteIn(s, '/');
    assert '/' as int as byte == SLASH;
  }

  lemma PatternHoldsNoSlash(pattern: string)
    requires PatternOk(pattern)
    ensures SLASH !in Utf8(pattern)
  {
    SlashInBytes(pattern);
  }

  /** On such names the two matchers are one. */
  lemma MatchersAgree(pattern: string, name: string)
    requires Bare(name) && Ascii(name)
    ensures PathMatch(Utf8(pattern), Utf8(name)) <==> Matches(Utf8(pattern), Utf8(name))
  {
    SlashInBytes(name);
    AsciiIsItsBytes(name);
    PathMatchIs(Utf8(pattern), Utf8(name));
  }

  function Queries(k: nat): (pattern: string)
    ensures |pattern| == k
  {
    seq(k, _ => '?')
  }

  lemma {:induction false} BytesOfQueries(k: nat)
    ensures |Utf8(Queries(k))| == k && forall b :: b in Utf8(Queries(k)) ==> b == QUERY
  {
    if k > 0 {
      assert Queries(k)[1..] == Queries(k - 1);
      BytesOfQueries(k - 1);
    }
  }

  /** To the console a run of `?` says how many bytes the name has. */
  lemma QueriesCountBytes(k: nat, s: Bytes)
    ensures Matches(Utf8(Queries(k)), s) <==> |s| == k
  {
    var pattern := Utf8(Queries(k));
    BytesOfQueries(k);
    StarFreeMatches(pattern, s);
    hide Matches, Utf8;
    assert forall i :: 0 <= i < |pattern| ==> pattern[i] in pattern;
  }

  lemma {:induction false} ChunkOfQueries(chunk: Bytes, name: string)
    requires forall b :: b in chunk ==> b == QUERY
    requires Bare(name)
    ensures MatchChunk(chunk, Utf8(name)) == if |chunk| <= |name| then Some(Utf8(name[|chunk|..])) else None
  {
    if chunk != [] && name != "" {
      assert chunk[0] in chunk && forall b :: b in chunk[1..] ==> b in chunk;
      assert name == [name[0]] + name[1..] && name[0] in name;
      var tail := Utf8(name[1..]);
      WidthOfEncoding(name[0], tail);
      assert (Encode(name[0]) + tail)[|Encode(name[0])|..] == tail;
      assert Encode(name[0])[0] != SLASH;
      hide Width, Encode;
      ChunkOfQueries(chunk[1..], name[1..]);
      assert |chunk| <= |name| ==> name[1..][|chunk[1..]|..] == name[|chunk|..];
    }
  }

  /** To path.Match it says how many characters. */
  lemma QueriesCountCharacters(k: nat, name: string)
    requires k > 0
    ensures PathMatch(Utf8(Queries(k)), Utf8(name)) <==> Bare(name) && |name| == k
  {
    var pattern := Utf8(Queries(k));
    BytesOfQueries(k);
    assert pattern[0] in pattern;
    SlashInBytes(name);
    if Bare(name) {
      OneChunk(pattern, Utf8(name));
      ChunkOfQueries(pattern, name);
      if k <= |name| { BytesAndCharacters(name[k..]); }
      hide PathMatch;
    } else if PathMatch(pattern, Utf8(name)) {
      PathMatchTakesNoSlash(pattern, Utf8(name));
    }
  }

  lemma OneChunk(pattern: Bytes, name: Bytes)
    requires pattern != [] && StarFree(pattern)
    ensures PathMatch(pattern, name) <==> MatchChunk(pattern, name) == Some([])
  {
    assert pattern[0] in pattern;
    var chunk := ChunkOf(pattern);
    assert forall i :: 0 <= i < |pattern| ==> pattern[i] in pattern;
    assert |chunk| == |pattern|;
    assert chunk == pattern && pattern[|chunk|..] == [];
    hide MatchChunk, ChunkOf;
    assert PathMatch([], []);
  }

  /** The matchers agree on a name, for every pattern that loads, exactly when
      it is of one-byte characters and without a slash. */
  lemma MatchersAgreeExactly(name: string)
    ensures (forall pattern :: PatternOk(pattern) ==> (PathMatch(Utf8(pattern), Utf8(name)) <==> Matches(Utf8(pattern), Utf8(name))))
       <==> Bare(name) && Ascii(name)
  {
    hide Matches, PathMatch, Utf8, Ascii, Bare;
    if Bare(name) && Ascii(name) {
      forall pattern ensures PathMatch(Utf8(pattern), Utf8(name)) <==> Matches(Utf8(pattern), Utf8(name)) {
        MatchersAgree(pattern, name);
      }
    } else if Bare(name) {
      TooManyBytes(name);
    } else {
      AcrossTheSlash(name);
    }
  }

  lemma TooManyBytes(name: string)
    requires Bare(name) && !Ascii(name)
    ensures var pattern := Queries(|Utf8(name)|);
      PatternOk(pattern) && Matches(Utf8(pattern), Utf8(name)) && !PathMatch(Utf8(pattern), Utf8(name))
  {
    BytesAndCharacters(name);
    QueriesCountBytes(|Utf8(name)|, Utf8(name));
    QueriesCountCharacters(|Utf8(name)|, name);
    hide Matches, PathMatch;
  }

  lemma AcrossTheSlash(name: string)
    requires !Bare(name)
    ensures PatternOk("*") && Matches(Utf8("*"), Utf8(name)) && !PathMatch(Utf8("*"), Utf8(name))
  {
    var pattern := Utf8("*");
    assert pattern == [STAR];
    NothingButStars(pattern, Utf8(name));
    SlashInBytes(name);
    hide Matches;
    if PathMatch(pattern, Utf8(name)) { PathMatchTakesNoSlash(pattern, Utf8(name)); }
  }

  /** path.Match's star skips bytes, so that it may take the front of a
      character and leave `?` the rest of it. */
  lemma AStarMayStartInsideACharacter()
    ensures PathMatch(Utf8("*??"), Utf8("\U{20AC}")) && !PathMatch(Utf8("??"), Utf8("\U{20AC}"))
  {
    var euro := "\U{20AC}";
    assert euro[1..] == "" && Encode(euro[0]) == [0xE2, 0x82, 0xAC];
    assert Utf8(euro) == [0xE2, 0x82, 0xAC];
    BytesOfQueries(2);
    assert Queries(2) == "??" && "*??"[1..] == "??";
    assert Utf8("*??") == [STAR] + Utf8("??");
    QueriesCountCharacters(2, euro);
    hide Utf8, PathMatch, Encode;
    SkipsIntoIt(Utf8("??"), Utf8(euro));
  }

  lemma SkipsIntoIt(chunk: Bytes, s: Bytes)
    requires |chunk| == 2 && chunk[0] == QUERY && chunk[1] == QUERY
    requires s == [0xE2, 0x82, 0xAC]
    ensures PathMatch([STAR] + chunk, s)
  {
    var p := [STAR] + chunk;
    assert p[1..] == chunk && AfterStars(p) == AfterStars(p[1..]) == chunk;
    assert chunk[1..][1..] == [];
    assert ChunkOf(chunk[1..]) == [QUERY] && ChunkOf(chunk) == chunk && chunk[2..] == [];
    assert Width(s) == 3 && s[3..] == [];
    assert MatchChunk(chunk, s) == MatchChunk(chunk[1..], s[3..]) == None;
    assert s[1..] == [0x82, 0xAC] && s[1..][1..] == [0xAC] && s[1..][1..][1..] == [];
    assert MatchChunk(chunk[1..], [0xAC]) == MatchChunk([], []) == Some([]);
    assert MatchChunk(chunk, s[1..]) == MatchChunk(chunk[1..], [0xAC]);
    assert SkipAndMatch(chunk, [], s) by { assert PathMatch([], []); }
  }
}
