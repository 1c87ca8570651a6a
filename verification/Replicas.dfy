/** The string key under which two replicas' reported pipelines are compared
    (internal/conformance/derive.go): each pipeline is rendered with quoted
    names, the renderings are sorted, and joined one to a line. */
module Replicas {
  import opened Base

  datatype Pipeline = Pipeline(name: string, receivers: seq<string>, processors: seq<string>, exporters: seq<string>)

  /** A lower-case hexadecimal digit. */
  function HexDigit(n: nat): char
    requires n < 16
  {
    "0123456789abcdef"[n]
  }

  /** One character inside a `%q` string. */
  function Escape(c: char): string {
    if c == '"' then "\\\""
    else if c == '\\' then "\\\\"
    else if c as int == 7 then "\\a"
    else if c as int == 8 then "\\b"
    else if c as int == 12 then "\\f"
    else if c == '\n' then "\\n"
    else if c == '\r' then "\\r"
    else if c == '\t' then "\\t"
    else if c as int == 11 then "\\v"
    else if c < ' ' || c as int == 127 then "\\x" + [HexDigit(c as int / 16), HexDigit(c as int % 16)]
    else [c]
  }

  function EscapeAll(s: string): string {
    if s == "" then "" else Escape(s[0]) + EscapeAll(s[1..])
  }

  /** `%q` of a string. */
  function Quote(s: string): string {
    "\"" + EscapeAll(s) + "\""
  }

  /** The rest of a `%q` list after its first item. */
  function QuoteRest(items: seq<string>): string {
    if items == [] then "]" else " " + Quote(items[0]) + QuoteRest(items[1..])
  }

  /** `%q` of a slice of strings. */
  function QuoteList(items: seq<string>): string {
    "[" + if items == [] then "]" else Quote(items[0]) + QuoteRest(items[1..])
  }

  function Line(p: Pipeline): string {
    Quote(p.name) + ":r=" + QuoteList(p.receivers) + " p=" + QuoteList(p.processors) + " e=" + QuoteList(p.exporters)
  }

  function Lines(pipelines: seq<Pipeline>): seq<string> {
    if pipelines == [] then [] else Lines(pipelines[..|pipelines| - 1]) + [Line(pipelines[|pipelines| - 1])]
  }

  function ConfigKey(pipelines: seq<Pipeline>): string {
    Join("\n", Sort(Less, Lines(pipelines)))
  }

  /** The loop that collects the renderings before they are sorted. */
  method ConfigKeyLoop(pipelines: seq<Pipeline>) returns (key: string)
    ensures key == ConfigKey(pipelines)
  {
    hide Line;
    var parts: seq<string> := [];
    for i := 0 to |pipelines|
      invariant parts == Lines(pipelines[..i])
    {
      assert pipelines[..i + 1][..i] == pipelines[..i];
      parts := parts + [Line(pipelines[i])];
    }
    assert pipelines[..|pipelines|] == pipelines;
    key := Join("\n", Sort(Less, parts));
  }

  // ---- every rendering tells where it ends -------------------------------

  lemma HexDigitInjective(m: nat, n: nat)
    requires m < 16 && n < 16
    ensures HexDigit(m) == HexDigit(n) ==> m == n
  {
  }

  /** No character's rendering starts another's, and none starts with the
      closing quote. */
  lemma EscapeIsPrefixFree(c: char, d: char, x: string, y: string)
    requires Escape(c) + x == Escape(d) + y
    ensures c == d && x == y
  {
    var s, e, f := Escape(c) + x, Escape(c), Escape(d);
    assert forall i :: 0 <= i < |e| ==> s[i] == e[i];
    assert forall i :: 0 <= i < |f| ==> s[i] == f[i];
    assert x == s[|e|..] && y == s[|f|..];
    EscapeTells(c, d);
  }

  /** Two renderings that agree as far as the shorter goes are of one
      character. */
  lemma EscapeTells(c: char, d: char)
    requires forall i :: 0 <= i < |Escape(c)| && i < |Escape(d)| ==> Escape(c)[i] == Escape(d)[i]
    ensures c == d
  {
    assert Escape(c)[0] == Escape(d)[0];
    if |Escape(c)| >= 2 {
      assert |Escape(d)| >= 2;
      assert Escape(c)[1] == Escape(d)[1];
      if |Escape(c)| == 4 && |Escape(d)| == 4 {
        assert Escape(c)[2] == Escape(d)[2] && Escape(c)[3] == Escape(d)[3];
        HexDigitInjective(c as int / 16, d as int / 16);
        HexDigitInjective(c as int % 16, d as int % 16);
      }
    }
  }

  lemma AfterTag(tag: string, x: string, y: string)
    requires tag + x == tag + y
    ensures x == y
  {
    assert x == (tag + x)[|tag|..];
    assert y == (tag + y)[|tag|..];
  }

  lemma EscapeStarts(c: char)
    ensures |Escape(c)| > 0 && Escape(c)[0] != '"'
  {
  }

  lemma {:induction false} EscapeAllEnds(a: string, b: string, x: string, y: string)
    requires EscapeAll(a) + "\"" + x == EscapeAll(b) + "\"" + y
    ensures a == b && x == y
  {
    hide Escape;
    var s := EscapeAll(a) + "\"" + x;
    var t := EscapeAll(b) + "\"" + y;
    if a != "" { EscapeStarts(a[0]); }
    if b != "" { EscapeStarts(b[0]); }
    assert s[0] == if a == "" then '"' else Escape(a[0])[0];
    assert t[0] == if b == "" then '"' else Escape(b[0])[0];
    if a != "" && b != "" {
      assert s == Escape(a[0]) + (EscapeAll(a[1..]) + "\"" + x);
      assert t == Escape(b[0]) + (EscapeAll(b[1..]) + "\"" + y);
      EscapeIsPrefixFree(a[0], b[0], EscapeAll(a[1..]) + "\"" + x, EscapeAll(b[1..]) + "\"" + y);
      EscapeAllEnds(a[1..], b[1..], x, y);
      assert a == [a[0]] + a[1..] && b == [b[0]] + b[1..];
    } else {
      assert s == "\"" + x && t == "\"" + y;
      AfterTag("\"", x, y);
    }
  }

  lemma QuoteEnds(a: string, b: string, x: string, y: string)
    requires Quote(a) + x == Quote(b) + y
    ensures a == b && x == y
  {
    QuoteOpens(a, x);
    QuoteOpens(b, y);
    hide Quote, EscapeAll;
    EscapeAllEnds(a, b, x, y);
  }

  lemma QuoteOpens(a: string, x: string)
    ensures (Quote(a) + x)[1..] == EscapeAll(a) + "\"" + x
  {
    hide EscapeAll;
  }

  lemma {:induction false} QuoteRestEnds(a: seq<string>, b: seq<string>, x: string, y: string)
    requires QuoteRest(a) + x == QuoteRest(b) + y
    ensures a == b && x == y
  {
    hide Quote;
    var s, t := QuoteRest(a) + x, QuoteRest(b) + y;
    assert s[0] == QuoteRest(a)[0] && t[0] == QuoteRest(b)[0];
    if a != [] && b != [] {
      assert s[1..] == Quote(a[0]) + (QuoteRest(a[1..]) + x);
      assert t[1..] == Quote(b[0]) + (QuoteRest(b[1..]) + y);
      QuoteEnds(a[0], b[0], QuoteRest(a[1..]) + x, QuoteRest(b[1..]) + y);
      QuoteRestEnds(a[1..], b[1..], x, y);
      assert a == [a[0]] + a[1..] && b == [b[0]] + b[1..];
    } else if a == [] && b == [] {
      assert x == s[1..] && y == t[1..];
    }
  }

  lemma QuoteListEnds(a: seq<string>, b: seq<string>, x: string, y: string)
    requires QuoteList(a) + x == QuoteList(b) + y
    ensures a == b && x == y
  {
    hide QuoteRest;
    var s, t := QuoteList(a) + x, QuoteList(b) + y;
    assert s[1] == if a == [] then ']' else '"';
    assert t[1] == if b == [] then ']' else '"';
    if a != [] && b != [] {
      assert s[1..] == Quote(a[0]) + (QuoteRest(a[1..]) + x);
      assert t[1..] == Quote(b[0]) + (QuoteRest(b[1..]) + y);
      QuoteEnds(a[0], b[0], QuoteRest(a[1..]) + x, QuoteRest(b[1..]) + y);
      QuoteRestEnds(a[1..], b[1..], x, y);
      assert a == [a[0]] + a[1..] && b == [b[0]] + b[1..];
    } else {
      assert QuoteList(a) == "[]" && QuoteList(b) == "[]";
      AfterTag("[]", x, y);
    }
  }

  lemma LineEnds(p: Pipeline, q: Pipeline, x: string, y: string)
    requires Line(p) + x == Line(q) + y
    ensures p == q && x == y
  {
    hide Quote, QuoteList;
    var p3, q3 := QuoteList(p.exporters) + x, QuoteList(q.exporters) + y;
    var p2, q2 := QuoteList(p.processors) + (" e=" + p3), QuoteList(q.processors) + (" e=" + q3);
    var p1, q1 := QuoteList(p.receivers) + (" p=" + p2), QuoteList(q.receivers) + (" p=" + q2);
    assert Line(p) + x == Quote(p.name) + (":r=" + p1);
    assert Line(q) + y == Quote(q.name) + (":r=" + q1);
    QuoteEnds(p.name, q.name, ":r=" + p1, ":r=" + q1);
    AfterTag(":r=", p1, q1);
    QuoteListEnds(p.receivers, q.receivers, " p=" + p2, " p=" + q2);
    AfterTag(" p=", p2, q2);
    QuoteListEnds(p.processors, q.processors, " e=" + p3, " e=" + q3);
    AfterTag(" e=", p3, q3);
    QuoteListEnds(p.exporters, q.exporters, x, y);
  }

  lemma LineInjective(p: Pipeline, q: Pipeline)
    requires Line(p) == Line(q)
    ensures p == q
  {
    hide Line;
    assert Line(p) + "" == Line(q) + "";
    LineEnds(p, q, "", "");
  }

  lemma {:induction false} LinesCons(p: Pipeline, s: seq<Pipeline>)
    ensures Lines([p] + s) == [Line(p)] + Lines(s)
  {
    hide Line;
    if s == [] {
      assert [p] + s == [p];
      assert [p][..0] == [];
    } else {
      var n := |s| - 1;
      LinesCons(p, s[..n]);
      assert ([p] + s)[..n + 1] == [p] + s[..n];
    }
  }

  lemma JoinedLines(a: seq<Pipeline>)
    requires a != []
    ensures Join("\n", Lines(a)) == Line(a[0]) + if |a| == 1 then "" else "\n" + Join("\n", Lines(a[1..]))
  {
    hide Line, Lines, Join;
    assert a == [a[0]] + a[1..];
    LinesCons(a[0], a[1..]);
    LinesLength(a[1..]);
    JoinCons("\n", Line(a[0]), Lines(a[1..]));
  }

  lemma JoinCons(sep: string, x: string, rest: seq<string>)
    ensures Join(sep, [x] + rest) == x + if |rest| == 0 then "" else sep + Join(sep, rest)
  {
    var all := [x] + rest;
    assert all[1..] == rest;
    if |rest| == 0 {
      assert x + "" == x;
    } else {
      assert x + sep + Join(sep, rest) == x + (sep + Join(sep, rest));
    }
  }

  lemma {:induction false} LinesLength(s: seq<Pipeline>)
    ensures |Lines(s)| == |s|
  {
    if s != [] { LinesLength(s[..|s| - 1]); }
  }

  lemma {:induction false} JoinedLinesInjective(a: seq<Pipeline>, b: seq<Pipeline>)
    requires Join("\n", Lines(a)) == Join("\n", Lines(b))
    ensures a == b
  {
    hide Line, Lines, Join;
    if a != [] { JoinedLines(a); LineIsNotEmpty(a[0]); } else { NothingJoined(); }
    if b != [] { JoinedLines(b); LineIsNotEmpty(b[0]); } else { NothingJoined(); }
    if a != [] && b != [] {
      var x := if |a| == 1 then "" else "\n" + Join("\n", Lines(a[1..]));
      var y := if |b| == 1 then "" else "\n" + Join("\n", Lines(b[1..]));
      LineEnds(a[0], b[0], x, y);
      if |a| > 1 && |b| > 1 {
        AfterTag("\n", Join("\n", Lines(a[1..])), Join("\n", Lines(b[1..])));
        JoinedLinesInjective(a[1..], b[1..]);
      }
      assert a == [a[0]] + a[1..] && b == [b[0]] + b[1..];
    }
  }

  lemma NothingJoined()
    ensures Join("\n", Lines([])) == ""
  {
  }

  lemma LineIsNotEmpty(p: Pipeline)
    ensures Line(p) != ""
  {
  }

  // ---- sorting commutes with rendering -----------------------------------

  predicate LineLess(p: Pipeline, q: Pipeline) {
    Less(Line(p), Line(q))
  }

  lemma {:induction false} LinesOfInsert(p: Pipeline, s: seq<Pipeline>)
    ensures Lines(Insert(LineLess, p, s)) == Insert(Less, Line(p), Lines(s))
  {
    hide Line, Less;
    if s == [] {
      LinesCons(p, s);
    } else {
      assert s == [s[0]] + s[1..];
      LinesCons(s[0], s[1..]);
      var rest := Lines(s[1..]);
      assert Lines(s)[0] == Line(s[0]) && Lines(s)[1..] == rest;
      if LineLess(p, s[0]) {
        LinesCons(p, s);
      } else {
        LinesOfInsert(p, s[1..]);
        LinesCons(s[0], Insert(LineLess, p, s[1..]));
      }
    }
  }

  lemma {:induction false} LinesOfSort(s: seq<Pipeline>)
    ensures Lines(Sort(LineLess, s)) == Sort(Less, Lines(s))
  {
    hide Line, Insert, Less;
    if s != [] {
      var n := |s| - 1;
      LinesOfSort(s[..n]);
      assert Lines(s)[..|Lines(s)| - 1] == Lines(s[..n]);
      LinesOfInsert(s[n], Sort(LineLess, s[..n]));
    }
  }

  lemma LineOrder()
    ensures WeakOrder(LineLess)
    ensures forall p, q :: !LineLess(p, q) && !LineLess(q, p) ==> p == q
  {
    hide Line;
    StringOrder();
    forall p, q | !LineLess(p, q) && !LineLess(q, p) ensures p == q {
      LineInjective(p, q);
    }
  }

  /** Two replicas share a key exactly when their pipeline lists are
      permutations of one another, component order inside a pipeline kept. */
  lemma KeysAgreeExactly(a: seq<Pipeline>, b: seq<Pipeline>)
    ensures ConfigKey(a) == ConfigKey(b) <==> multiset(a) == multiset(b)
  {
    hide Line;
    LinesOfSort(a);
    LinesOfSort(b);
    if ConfigKey(a) == ConfigKey(b) {
      JoinedLinesInjective(Sort(LineLess, a), Sort(LineLess, b));
    }
    if multiset(a) == multiset(b) {
      LineOrder();
      SortSorts(LineLess, a);
      SortSorts(LineLess, b);
      SortedUnique(LineLess, Sort(LineLess, a), Sort(LineLess, b));
    }
  }
}
