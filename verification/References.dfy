/** Component references and requirement claims: how they are read and how
    they are printed (internal/blueprint/blueprint.go). */
module References {
  import opened Base
  import opened Numbers

  datatype Reference = Reference(team: string, name: string, pin: int, track: bool) {
    predicate Local() { team == "" }

    function ID(): string { if team == "" then name else team + "/" + name }

    function String(): string { if pin > 0 then ID() + "@" + Itoa(pin) else ID() }
  }

  datatype Malformed = EmptyReference | BadPin | NotTeamName | NoName | NotStamped | BadVersion

  function IndexOf(s: string, c: char): (i: int)
    ensures -1 <= i < |s|
    ensures i == -1 <==> c !in s
  {
    if s == "" then -1
    else if s[0] == c then 0
    else
      assert s == [s[0]] + s[1..];
      var i := IndexOf(s[1..], c);
      if i < 0 then -1 else i + 1
  }

  function LastIndexOf(s: string, c: char): (i: int)
    ensures -1 <= i < |s|
    ensures i == -1 <==> c !in s
  {
    if s == "" then -1
    else
      var n := |s| - 1;
      assert s == s[..n] + [s[n]];
      if s[n] == c then n else LastIndexOf(s[..n], c)
  }

  lemma {:induction false} IndexOfSplits(s: string, c: char)
    requires c in s
    ensures var i := IndexOf(s, c); s[i] == c && c !in s[..i] && s == s[..i] + [c] + s[i + 1..]
  {
    if s[0] != c {
      assert s == [s[0]] + s[1..];
      IndexOfSplits(s[1..], c);
      var i := IndexOf(s, c);
      assert s[..i] == [s[0]] + s[1..][..i - 1];
    }
  }

  /** The part of a reference before its pin. */
  function ParseName(rest: string, pin: int): Result<Reference, Malformed> {
    var slash := IndexOf(rest, '/');
    if slash >= 0 then
      var team, name := rest[..slash], rest[slash + 1..];
      if team == "" || name == "" || '/' in name then Err(NotTeamName)
      else Ok(Reference(team, name, pin, false))
    else if rest == "" then Err(NoName)
    else Ok(Reference("", rest, pin, false))
  }

  function ParseReference(s: string): Result<Reference, Malformed> {
    if s == "" then Err(EmptyReference)
    else
      var at := LastIndexOf(s, '@');
      if at < 0 then ParseName(s, 0)
      else
        var v := Atoi(s[at + 1..]);
        if v.None? || v.value < 1 then Err(BadPin) else ParseName(s[..at], v.value)
  }

  /** The team and name fields filled in from the part before the pin. */
  method ParseNameSteps(start: Reference, rest: string) returns (r: Result<Reference, Malformed>)
    requires start.team == "" && !start.track
    ensures r == ParseName(rest, start.pin)
  {
    hide IndexOf;
    var ref := start;
    var slash := IndexOf(rest, '/');
    if slash >= 0 {
      ref := ref.(team := rest[..slash], name := rest[slash + 1..]);
      if ref.team == "" || ref.name == "" || '/' in ref.name { return Err(NotTeamName); }
    } else {
      ref := ref.(name := rest);
    }
    if ref.name == "" { return Err(NoName); }
    return Ok(ref);
  }

  /** The reference built up field by field while the rest is consumed. */
  method ParseReferenceSteps(s: string) returns (r: Result<Reference, Malformed>)
    ensures r == ParseReference(s)
  {
    hide LastIndexOf, Atoi, ParseName, IndexOf;
    if s == "" { return Err(EmptyReference); }
    var at := LastIndexOf(s, '@');
    var ref := Reference("", "", 0, false);
    if at < 0 {
      r := ParseNameSteps(ref, s);
      return;
    }
    var v := Atoi(s[at + 1..]);
    if v.None? || v.value < 1 { return Err(BadPin); }
    ref := ref.(pin := v.value);
    r := ParseNameSteps(ref, s[..at]);
  }

  /** A reference that can be told apart from its printed form: a real name,
      no separator where it would be read as one, and a pin in range. */
  predicate WellFormed(r: Reference) {
    && r.name != "" && '/' !in r.name && '/' !in r.team
    && !r.track
    && 0 <= r.pin <= MAX_INT
    && (r.pin == 0 ==> '@' !in r.name && '@' !in r.team)
  }

  lemma {:induction false} LastAt(a: string, b: string)
    requires '@' !in b
    ensures LastIndexOf(a + "@" + b, '@') == |a|
  {
    var s := a + "@" + b;
    var n := |s| - 1;
    if b == "" {
      assert s[n] == '@';
    } else {
      assert s[n] == b[|b| - 1];
      assert s[..n] == a + "@" + b[..|b| - 1];
      LastAt(a, b[..|b| - 1]);
    }
  }

  lemma {:induction false} FirstSlash(a: string, b: string)
    requires '/' !in a
    ensures IndexOf(a + "/" + b, '/') == |a|
  {
    var s := a + "/" + b;
    if a == "" {
      assert s[0] == '/';
    } else {
      assert s[0] == a[0];
      assert s[1..] == a[1..] + "/" + b;
      FirstSlash(a[1..], b);
    }
  }

  /** Reading back the name part undoes printing it, exactly when the name
      part is well formed. */
  lemma NameRoundTrip(r: Reference)
    ensures ParseName(r.ID(), r.pin) == Ok(r) <==> r.name != "" && '/' !in r.name && '/' !in r.team && !r.track
  {
    var rest := r.ID();
    if r.team == "" {
    } else if '/' !in r.team {
      FirstSlash(r.team, r.name);
      assert rest[..|r.team|] == r.team;
      assert rest[|r.team| + 1..] == r.name;
    } else {
      assert rest == r.team + "/" + r.name;
      IndexOfSplits(rest, '/');
    }
  }

  lemma IDHasNoAt(r: Reference)
    ensures '@' !in r.ID() <==> '@' !in r.name && '@' !in r.team
  {
  }

  lemma PinnedRoundTrip(r: Reference)
    requires r.pin > 0
    ensures ParseReference(r.String()) == if r.pin <= MAX_INT then ParseName(r.ID(), r.pin) else Err(BadPin)
  {
    hide IndexOf, LastIndexOf, ParseName, Itoa, Atoi;
    AtoiReadsBack(r.pin);
    LastAt(r.ID(), Itoa(r.pin));
    var s := r.String();
    assert s == r.ID() + "@" + Itoa(r.pin);
    assert s[|r.ID()| + 1..] == Itoa(r.pin);
    assert s[..|r.ID()|] == r.ID();
  }

  lemma UnpinnedRoundTrip(r: Reference)
    requires r.pin <= 0
    ensures ParseReference(r.String()) == Ok(r) ==> r.pin == 0 && '@' !in r.ID()
    ensures '@' !in r.ID() && r.ID() != "" ==> ParseReference(r.String()) == ParseName(r.ID(), 0)
    ensures r.ID() == "" ==> ParseReference(r.String()).Err?
  {
  }

  /** Parsing undoes printing for exactly the well-formed references. */
  lemma ReferenceRoundTrip(r: Reference)
    ensures ParseReference(r.String()) == Ok(r) <==> WellFormed(r)
  {
    hide IndexOf, LastIndexOf, ParseName, ParseReference, Reference.ID, Reference.String;
    NameRoundTrip(r);
    IDHasNoAt(r);
    EmptyIDFails(r);
    if r.pin > 0 { PinnedRoundTrip(r); } else { UnpinnedRoundTrip(r); }
  }

  lemma EmptyIDFails(r: Reference)
    ensures r.ID() == "" ==> r.name == ""
  {
  }

  /** Whatever the parser accepts is well formed, so printing and parsing an
      accepted reference gives it back. */
  lemma ParsedIsWellFormed(s: string)
    requires ParseReference(s).Ok?
    ensures WellFormed(ParseReference(s).value)
    ensures ParseReference(ParseReference(s).value.String()) == ParseReference(s)
  {
    hide IndexOf, LastIndexOf, Reference.String, Reference.ID;
    var r := ParseReference(s).value;
    var at := LastIndexOf(s, '@');
    if at < 0 {
      ParsedNameIsWellFormed(s, 0);
    } else {
      ParsedNameIsWellFormed(s[..at], Atoi(s[at + 1..]).value);
    }
    ReferenceRoundTrip(r);
  }

  lemma ParsedNameIsWellFormed(rest: string, pin: int)
    requires ParseName(rest, pin).Ok?
    ensures var r := ParseName(rest, pin).value;
            && r.name != "" && '/' !in r.name && '/' !in r.team && !r.track && r.pin == pin
            && ('@' !in rest ==> '@' !in r.name && '@' !in r.team)
  {
    hide IndexOf;
    if '/' in rest { IndexOfSplits(rest, '/'); }
  }

  /** Printing an accepted string need not give the string back: a padded or
      signed pin is read as the number it means. */
  lemma PinsAreNormalised()
    ensures ParseReference("a/b@+07") == ParseReference("a/b@7") == Ok(Reference("a", "b", 7, false))
    ensures "a/b@+07" != "a/b@7"
  {
    hide IndexOf, LastIndexOf, Atoi;
    FirstSlash("a", "b");
    assert "a/b" == "a" + "/" + "b" && "a/b"[..1] == "a" && "a/b"[2..] == "b";
    LastAt("a/b", "+07");
    LastAt("a/b", "7");
    var s, t := "a/b@+07", "a/b@7";
    assert s == "a/b" + "@" + "+07" && t == "a/b" + "@" + "7";
    assert s[4..] == "+07" && s[..3] == "a/b";
    assert t[4..] == "7" && t[..3] == "a/b";
    PaddedSeven();
  }

  lemma PaddedSeven()
    ensures Atoi("+07") == Atoi("7") == Some(7)
  {
    assert "+07"[1..] == "07";
    assert "07"[..1] == "0" && "0"[..0] == "" && "7"[..0] == "";
    assert Value("0") == 0;
    assert Value("07") == 7 && Value("7") == 7;
  }

  /** A name part: nothing is no name, a bare name is local, and a qualified one
      is a team and a name with one slash between. */
  lemma NameReads(rest: string, pin: int, team: string, name: string)
    ensures rest == "" ==> ParseName(rest, pin) == Err(NoName)
    ensures rest != "" && '/' !in rest ==> ParseName(rest, pin) == Ok(Reference("", rest, pin, false))
    ensures rest == team + "/" + name && '/' !in team ==>
      ParseName(rest, pin) == if team == "" || name == "" || '/' in name then Err(NotTeamName) else Ok(Reference(team, name, pin, false))
  {
    if rest == team + "/" + name && '/' !in team {
      FirstSlash(team, name);
      assert rest[..|team|] == team && rest[|team| + 1..] == name;
    }
  }

  /** A reference is a name part and, behind the last `@`, a positive pin. */
  lemma ReferenceReads(s: string, rest: string, digits: string)
    ensures s == "" ==> ParseReference(s) == Err(EmptyReference)
    ensures s != "" && '@' !in s ==> ParseReference(s) == ParseName(s, 0)
    ensures s == rest + "@" + digits && '@' !in digits ==>
      if Atoi(digits).Some? && Atoi(digits).value >= 1 then ParseReference(s) == ParseName(rest, Atoi(digits).value)
      else ParseReference(s) == Err(BadPin)
  {
    hide Atoi, ParseName;
    if s == rest + "@" + digits && '@' !in digits {
      LastAt(rest, digits);
      assert s[..|rest|] == rest && s[|rest| + 1..] == digits;
    }
  }

  /** A claim is a requirement and, behind the last `@`, a positive version. */
  lemma StampReads(s: string, requirement: string, digits: string)
    ensures '@' !in s ==> ParseStamp(s) == Err(NotStamped)
    ensures s == requirement + "@" + digits && '@' !in digits ==>
      if requirement == "" || digits == "" then ParseStamp(s) == Err(NotStamped)
      else if Atoi(digits).Some? && Atoi(digits).value >= 1 then ParseStamp(s) == Ok(Stamp(requirement, Atoi(digits).value))
      else ParseStamp(s) == Err(BadVersion)
  {
    hide Atoi;
    if s == requirement + "@" + digits && '@' !in digits {
      LastAt(requirement, digits);
      assert s[..|requirement|] == requirement && s[|requirement| + 1..] == digits;
    }
  }

  // ---- claims ------------------------------------------------------------

  datatype Stamp = Stamp(requirement: string, version: int) {
    function String(): string { requirement + "@" + Itoa(version) }
  }

  function ParseStamp(s: string): Result<Stamp, Malformed> {
    var at := LastIndexOf(s, '@');
    if at <= 0 || at == |s| - 1 then Err(NotStamped)
    else
      var v := Atoi(s[at + 1..]);
      if v.None? || v.value < 1 then Err(BadVersion) else Ok(Stamp(s[..at], v.value))
  }

  /** Reading undoes printing for exactly the stamped claims; a requirement
      id may itself contain the separator. */
  lemma StampRoundTrip(c: Stamp)
    ensures ParseStamp(c.String()) == Ok(c) <==> c.requirement != "" && 1 <= c.version <= MAX_INT
  {
    AtoiReadsBack(c.version);
    LastAt(c.requirement, Itoa(c.version));
    var s := c.String();
    assert s[|c.requirement| + 1..] == Itoa(c.version);
    assert s[..|c.requirement|] == c.requirement;
  }

  lemma ParsedStampsRoundTrip(s: string)
    requires ParseStamp(s).Ok?
    ensures ParseStamp(ParseStamp(s).value.String()) == ParseStamp(s)
  {
    StampRoundTrip(ParseStamp(s).value);
  }
}
