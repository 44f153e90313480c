/**
 The rewritten statement is text again, and PostgreSQL has to find the parameters
 in it. Does it read exactly those that stand for the holes, where they stand?
 Not for every template; this module says for which.
 */
module TemplateReadback {
  import opened Common
  import opened SqlReader
  import opened ParamReader
  import opened SqlParams
  import opened TemplatePlan
  import opened TemplateMeaning

  // ----- The rewritten statement as texts and parameters -----------------------------

  /** What a cast puts before the parameter and after it. */
  function Before(g: Segment): string { if g.Param? && g.cast then "(" else "" }

  function Behind(g: Segment): string { if g.Param? && g.cast then "::jsonb)" else "" }

  /** A text, then parameters, each followed by a text. */
  predicate Alternates(gs: seq<Segment>) {
    && gs != [] && gs[0].SqlText?
    && (|gs| > 1 ==> |gs| > 2 && gs[1].Param? && gs[1].n >= 1 && gs[2].SqlText? && Alternates(gs[2..]))
  }

  /** The parameters that stand for the holes, where they stand in the statement. */
  function Stands(gs: seq<Segment>, at: nat): seq<Reading>
    requires Alternates(gs)
  {
    if |gs| == 1 then []
    else
      var dollar := at + |gs[0].text| + |Before(gs[1])|;
      [Reading(dollar, gs[1].n)] + Stands(gs[2..], dollar + 1 + |Digits(gs[1].n)| + |Behind(gs[1])|)
  }

  /** The statement without its parameters; `prefix` belongs to the first text. */
  function Texts(gs: seq<Segment>, prefix: string): (us: seq<string>)
    requires Alternates(gs)
    ensures us != []
  {
    if |gs| == 1 then [prefix + gs[0].text]
    else [prefix + gs[0].text + Before(gs[1])] + Texts(gs[2..], Behind(gs[1]))
  }

  function Numbers(gs: seq<Segment>): (ns: seq<nat>)
    requires Alternates(gs)
    ensures forall i | 0 <= i < |ns| :: ns[i] >= 1
  {
    if |gs| == 1 then [] else [gs[1].n] + Numbers(gs[2..])
  }

  lemma {:induction false} TextsAndNumbers(gs: seq<Segment>, prefix: string)
    requires Alternates(gs)
    ensures |Texts(gs, prefix)| == |Numbers(gs)| + 1
    decreases |gs|
  {
    if |gs| > 1 { TextsAndNumbers(gs[2..], Behind(gs[1])); }
  }

  lemma RenderedParts(g: Segment)
    requires g.Param?
    ensures Rendered(g) == Before(g) + ("$" + (Digits(g.n) + Behind(g)))
  {
  }

  lemma Spread(prefix: string, t: string, before: string, d: string, behind: string, rest: string)
    ensures prefix + (t + ((before + ("$" + (d + behind))) + rest)) == prefix + t + before + "$" + (d + (behind + rest))
  {
  }

  lemma FlattenTwo(gs: seq<Segment>)
    requires |gs| >= 2 && gs[0].SqlText?
    ensures Flatten(gs) == gs[0].text + (Rendered(gs[1]) + Flatten(gs[2..]))
  {
    assert gs[1..][1..] == gs[2..];
  }

  lemma TextOfMore(u: string, us: seq<string>, n: nat, ns: seq<nat>)
    requires |us| == |ns| + 1
    ensures ParamReader.Text([u] + us, [n] + ns) == u + "$" + (Digits(n) + ParamReader.Text(us, ns))
  {
    assert ([u] + us)[1..] == us && ([n] + ns)[1..] == ns;
  }

  lemma {:induction false} FlattenIsText(gs: seq<Segment>, prefix: string, us: seq<string>, ns: seq<nat>)
    requires Alternates(gs) && us == Texts(gs, prefix) && ns == Numbers(gs)
    ensures |us| == |ns| + 1 && ParamReader.Text(us, ns) == prefix + Flatten(gs)
    decreases |gs|
  {
    TextsAndNumbers(gs, prefix);
    if |gs| == 1 {
      assert gs[1..] == [] && gs[0].text + "" == gs[0].text;
    } else {
      var rest := gs[2..];
      FlattenIsText(rest, Behind(gs[1]), us[1..], ns[1..]);
      FlattenTwo(gs);
      RenderedParts(gs[1]);
      Spread(prefix, gs[0].text, Before(gs[1]), Digits(gs[1].n), Behind(gs[1]), Flatten(rest));
      TextOfMore(us[0], us[1..], ns[0], ns[1..]);
    }
  }

  lemma TextsUnfold(gs: seq<Segment>, prefix: string, us: seq<string>, ns: seq<nat>)
    requires Alternates(gs) && |gs| > 1 && us == Texts(gs, prefix) && ns == Numbers(gs)
    ensures ns != [] && us[0] == prefix + gs[0].text + Before(gs[1]) && ns[0] == gs[1].n
    ensures us[1..] == Texts(gs[2..], Behind(gs[1])) && ns[1..] == Numbers(gs[2..])
  {
  }

  lemma StandsUnfold(gs: seq<Segment>, at: nat, next: nat)
    requires Alternates(gs) && |gs| > 1
    requires next == at + |gs[0].text| + |Before(gs[1])| + 1 + |Digits(gs[1].n)| + |Behind(gs[1])|
    ensures Stands(gs, at) == [Reading(at + |gs[0].text| + |Before(gs[1])|, gs[1].n)] + Stands(gs[2..], next)
  {
  }

  lemma {:induction false} StandsAreMeant(gs: seq<Segment>, prefix: string, us: seq<string>, ns: seq<nat>, at: nat)
    requires Alternates(gs) && us == Texts(gs, prefix) && ns == Numbers(gs) && |us| == |ns| + 1
    ensures Meant(us, ns, at) == Stands(gs, at + |prefix|)
    decreases |gs|
  {
    if |gs| > 1 {
      var behind := Behind(gs[1]);
      TextsUnfold(gs, prefix, us, ns);
      var next := at + |us[0]| + 1 + |Digits(ns[0])|;
      StandsAreMeant(gs[2..], behind, us[1..], ns[1..], next);
      StandsUnfold(gs, at + |prefix|, next + |behind|);
    }
  }

  // ----- What a cast leaves behind does not matter -----------------------------------------

  lemma LengthOfOne(c: char, u: string)
    requires c == ':' || c == ')'
    ensures Step(SQL, [c] + u) == 1 && SqlParam([c] + u) == None && ([c] + u)[1..] == u
  {
  }

  lemma OneCharacter(c: char, u: string)
    requires c == ':' || c == ')'
    ensures Silent(SQL, [c] + u) <==> Silent(SQL, u)
    ensures Clean(SQL, [c] + u) <==> Clean(SQL, u)
  {
    LengthOfOne(c, u);
    LengthOfOne(c, u + "$");
    assert [c] + u + "$" == [c] + (u + "$");
  }

  lemma WordJsonb(u: string)
    ensures Length("jsonb)" + u) == 5 && ("jsonb)" + u)[5..] == ")" + u
  {
    var s := "jsonb)" + u;
    assert s[1..] == "sonb" + (")" + u);
    RunOfWord("sonb", ")" + u);
  }

  lemma {:induction false} RunOfWord(w: string, r: string)
    requires (forall i | 0 <= i < |w| :: SqlReader.IsIdentCont(w[i])) && r != "" && !SqlReader.IsIdentCont(r[0])
    ensures SqlLexer.Run(w + r, SqlReader.IsIdentCont) == |w|
  {
    if w == "" {
      assert w + r == r;
    } else {
      assert (w + r)[1..] == w[1..] + r;
      RunOfWord(w[1..], r);
    }
  }

  lemma AfterJsonb(u: string)
    ensures Silent(SQL, "jsonb)" + u) <==> Silent(SQL, ")" + u)
    ensures Clean(SQL, "jsonb)" + u) <==> Clean(SQL, ")" + u)
  {
    WordJsonb(u);
    WordJsonb(u + "$");
    assert "jsonb)" + u + "$" == "jsonb)" + (u + "$");
  }

  lemma CastIsClosed(u: string)
    ensures Silent(SQL, "::jsonb)" + u) <==> Silent(SQL, u)
    ensures Clean(SQL, "::jsonb)" + u) <==> Clean(SQL, u)
  {
    assert "::jsonb)" + u == [':'] + ([':'] + ("jsonb)" + u)) && ")" + u == [')'] + u;
    OneCharacter(':', [':'] + ("jsonb)" + u));
    OneCharacter(':', "jsonb)" + u);
    AfterJsonb(u);
    OneCharacter(')', u);
  }

  lemma AfterPrefix(prefix: string, u: string)
    requires prefix == "" || prefix == "::jsonb)"
    ensures Silent(SQL, prefix + u) <==> Silent(SQL, u)
    ensures Clean(SQL, prefix + u) <==> Clean(SQL, u)
    ensures StartsWithDigit(prefix + u) <==> prefix == "" && StartsWithDigit(u)
  {
    if prefix == "" {
      assert prefix + u == u;
    } else {
      CastIsClosed(u);
    }
  }

  /** A text of the statement with the parenthesis a cast puts after it. */
  function Seen(gs: seq<Segment>): string
    requires Alternates(gs)
  {
    gs[0].text + (if |gs| > 1 then Before(gs[1]) else "")
  }

  /** In no text a parameter is read, each but the last ends cleanly, none after an uncast parameter starts with a digit. */
  predicate Readable(gs: seq<Segment>)
    requires Alternates(gs)
  {
    && Silent(SQL, Seen(gs))
    && (|gs| > 1 ==> Clean(SQL, Seen(gs)) && (gs[1].cast || !StartsWithDigit(gs[2].text)) && Readable(gs[2..]))
  }

  lemma SeenStarts(gs: seq<Segment>)
    requires Alternates(gs)
    ensures StartsWithDigit(Seen(gs)) <==> StartsWithDigit(gs[0].text)
  {
  }

  lemma FirstText(gs: seq<Segment>, prefix: string)
    requires Alternates(gs)
    ensures Texts(gs, prefix)[0] == prefix + Seen(gs)
  {
  }

  lemma {:induction false} LegibleIffReadable(gs: seq<Segment>, prefix: string, us: seq<string>)
    requires Alternates(gs) && (prefix == "" || prefix == "::jsonb)") && us == Texts(gs, prefix)
    ensures Legible(SQL, us) <==> Readable(gs)
    decreases |gs|
  {
    FirstText(gs, prefix);
    AfterPrefix(prefix, Seen(gs));
    if |gs| > 1 {
      var rest, behind := gs[2..], Behind(gs[1]);
      LegibleIffReadable(rest, behind, us[1..]);
      FirstText(rest, behind);
      AfterPrefix(behind, Seen(rest));
      SeenStarts(rest);
    }
  }

  lemma SegmentsAreTexts(gs: seq<Segment>, us: seq<string>, ns: seq<nat>)
    requires Alternates(gs) && us == Texts(gs, "") && ns == Numbers(gs)
    ensures |us| == |ns| + 1 && ParamReader.Text(us, ns) == Flatten(gs) && Meant(us, ns, 0) == Stands(gs, 0)
  {
    FlattenIsText(gs, "", us, ns);
    assert "" + Flatten(gs) == Flatten(gs);
    StandsAreMeant(gs, "", us, ns, 0);
  }

  /** Of an alternating statement exactly the parameters are read, each where it stands, iff its texts are readable. */
  lemma SegmentsReadBackIff(gs: seq<Segment>)
    requires Alternates(gs)
    ensures Read(SQL, Flatten(gs), 0) == Stands(gs, 0) <==> Readable(gs)
  {
    var us, ns, text := Texts(gs, ""), Numbers(gs), Flatten(gs);
    SegmentsAreTexts(gs, us, ns);
    SqlIsLawful();
    ReadBackIff(SQL, us, ns, 0, text);
    LegibleIffReadable(gs, "", us);
  }

  // ----- Templates ---------------------------------------------------------------------------

  /** A literal, then holes, each followed by a literal. */
  predicate PiecesAlternate(ps: seq<Piece>) {
    && ps != [] && ps[0].Lit?
    && (|ps| > 1 ==> |ps| > 2 && ps[1].Hole? && ps[2].Lit? && PiecesAlternate(ps[2..]))
  }

  /** A hole whose argument is an array or an object. */
  predicate CastHole(p: Piece, fields: map<string, Json>) {
    p.Hole? && Key(p.raw) in fields && Composite(fields[Key(p.raw)])
  }

  /** A literal of the template with the parenthesis a cast puts after it. */
  function Literal(ps: seq<Piece>, fields: map<string, Json>): string
    requires PiecesAlternate(ps)
  {
    ps[0].text + (if |ps| > 1 && CastHole(ps[1], fields) then "(" else "")
  }

  /**
   In no literal a parameter is read, each that a hole follows ends cleanly before a
   `$`, that is outside of constants, comments, words and dollar tags, and none right
   after a hole that is not cast starts with a digit.
   */
  predicate Harmless(ps: seq<Piece>, fields: map<string, Json>)
    requires PiecesAlternate(ps)
  {
    && Silent(SQL, Literal(ps, fields))
    && (|ps| > 1 ==>
          && Clean(SQL, Literal(ps, fields))
          && (CastHole(ps[1], fields) || !StartsWithDigit(ps[2].text))
          && Harmless(ps[2..], fields))
  }

  lemma {:induction false} ParseAlternates(template: string, ps: seq<Piece>)
    requires Parse(template) == Ok(ps)
    ensures PiecesAlternate(ps)
    decreases |template|
  {
    match NextHole(template)
    case NoHole =>
    case Found(lit, raw, rest) =>
      ParseAlternates(rest, Parse(rest).value);
      assert ps[2..] == Parse(rest).value;
  }

  predicate Matches(p: Piece, g: Segment, fields: map<string, Json>) {
    match p
    case Lit(t) => g == SqlText(t)
    case Hole(raw) => g.Param? && g.n >= 2 && Key(raw) in fields && (g.cast <==> Composite(fields[Key(raw)]))
  }

  lemma FaithfulMatches(p: Piece, g: Segment, fields: map<string, Json>, bindings: seq<Bound>)
    requires Faithful(p, g, fields, bindings)
    ensures Matches(p, g, fields)
  {
  }

  predicate AllMatch(ps: seq<Piece>, gs: seq<Segment>, fields: map<string, Json>) {
    |gs| == |ps| && forall i | 0 <= i < |ps| :: Matches(ps[i], gs[i], fields)
  }

  lemma TailMatches(ps: seq<Piece>, gs: seq<Segment>, fields: map<string, Json>)
    requires AllMatch(ps, gs, fields) && |ps| > 2
    ensures AllMatch(ps[2..], gs[2..], fields)
    ensures Matches(ps[0], gs[0], fields) && Matches(ps[1], gs[1], fields) && Matches(ps[2], gs[2], fields)
  {
  }

  lemma {:induction false} MatchingAlternates(ps: seq<Piece>, gs: seq<Segment>, fields: map<string, Json>)
    requires PiecesAlternate(ps) && AllMatch(ps, gs, fields)
    ensures Alternates(gs)
    decreases |ps|
  {
    assert Matches(ps[0], gs[0], fields);
    if |ps| > 1 {
      TailMatches(ps, gs, fields);
      MatchingAlternates(ps[2..], gs[2..], fields);
    }
  }

  lemma {:induction false} HarmlessIffReadable(ps: seq<Piece>, gs: seq<Segment>, fields: map<string, Json>)
    requires PiecesAlternate(ps) && AllMatch(ps, gs, fields) && Alternates(gs)
    ensures Harmless(ps, fields) <==> Readable(gs)
    decreases |ps|
  {
    assert Matches(ps[0], gs[0], fields);
    if |ps| > 1 {
      TailMatches(ps, gs, fields);
      HarmlessIffReadable(ps[2..], gs[2..], fields);
    }
    assert Literal(ps, fields) == Seen(gs);
  }

  /**
   PostgreSQL reads exactly the parameters that stand for the holes, each where it
   stands, if and only if the template is harmless with these arguments.
   */
  lemma ParametersReadBackIff(template: string, fields: map<string, Json>, plan: Plan)
    returns (pieces: seq<Piece>, segments: seq<Segment>)
    requires PlanForObject(template, fields) == Ok(plan)
    ensures Parse(template) == Ok(pieces) && plan.rewritten == Flatten(segments) && |segments| == |pieces|
    ensures forall i | 0 <= i < |pieces| :: Faithful(pieces[i], segments[i], fields, plan.bindings)
    ensures PiecesAlternate(pieces) && Alternates(segments)
    ensures Read(SQL, plan.rewritten, 0) == Stands(segments, 0) <==> Harmless(pieces, fields)
  {
    pieces, segments := SegmentsAreFaithful(template, fields, plan);
    ParseAlternates(template, pieces);
    forall i | 0 <= i < |pieces| ensures Matches(pieces[i], segments[i], fields) {
      FaithfulMatches(pieces[i], segments[i], fields, plan.bindings);
    }
    MatchingAlternates(pieces, segments, fields);
    SegmentsReadBackIff(segments);
    HarmlessIffReadable(pieces, segments, fields);
  }

  // ----- Templates that are not harmless --------------------------------------------------------

  lemma OneSilentLexeme(s: string)
    requires s != "" && Length(s) == |s| && !IsParam(s)
    ensures Read(SQL, s, 0) == []
  {
    assert s[|s|..] == "";
  }

  lemma OpenBeforeDollar(p: string)
    requires p != "" && Length(p + "$") > |p|
    ensures !Clean(SQL, p)
  {
  }

  /** A hole in a string constant: `'{{a}}'` becomes `'$2'`, in which no parameter is read. */
  lemma HoleInConstant()
    ensures !Clean(SQL, "'") && Read(SQL, "'$2'", 0) == []
  {
    ConstantWithDollar("'", "'$2'");
    OpenBeforeDollar("'");
    OneSilentLexeme("'$2'");
  }

  lemma ConstantWithDollar(p: string, s: string)
    requires p == "'" && s == "'$2'"
    ensures Length(p + "$") == 2 && Length(s) == 4
  {
    var t := p + "$";
    assert t[1..][1..] == [];
    assert ConstantEnd(t[1..], '\'') == 1;
    assert s[1..][1..][1..][1..] == [];
    assert ConstantEnd(s[1..][1..][1..], '\'') == 1;
    assert ConstantEnd(s[1..][1..], '\'') == 2;
  }

  /** A hole right after a word: `x{{a}}` becomes the word `x$2`. */
  lemma HoleAfterWord()
    ensures !Clean(SQL, "x") && Read(SQL, "x$2", 0) == []
  {
    WordWithDollar("x", "x$2");
    OpenBeforeDollar("x");
    OneSilentLexeme("x$2");
  }

  lemma {:induction false} RunToEnd(w: string)
    requires forall i | 0 <= i < |w| :: SqlReader.IsIdentCont(w[i])
    ensures SqlLexer.Run(w, SqlReader.IsIdentCont) == |w|
  {
    if w != "" { RunToEnd(w[1..]); }
  }

  lemma WordWithDollar(p: string, s: string)
    requires p == "x" && s == "x$2"
    ensures Length(p + "$") == 2 && Length(s) == 3
  {
    RunToEnd((p + "$")[1..]);
    RunToEnd(s[1..]);
  }

  /** A digit after a hole: with a number for `a`, `{{a}}1` becomes `$21`, which is parameter 21. */
  lemma DigitAfterHole(n: int)
    ensures var fields := map["a" := JNumber("7", Some(n), None)];
            && PlanFor("{{a}}1", JObject("", fields)) == Ok(Plan("$21", [Int(n)]))
            && Read(SQL, "$21", 0) == [Reading(0, 21)]
  {
    var fields := map["a" := JNumber("7", Some(n), None)];
    var pieces := [Lit(""), Hole("a")] + [Lit("1")];
    ParseDigitAfterHole();
    KeyIsA();
    OneNumber(n, fields);
    TwentyOneWritten(Bindings(["a"], fields), n);
    PlanFromParts("{{a}}1", fields, pieces, ["a"]);
    ReadTwentyOne();
  }

  lemma PlanFromParts(template: string, fields: map<string, Json>, pieces: seq<Piece>, order: seq<string>)
    requires Parse(template) == Ok(pieces) && KeysFrom([], pieces) == order && FirstMissing(order, fields) == None
    requires KeysIn(pieces, order)
    ensures PlanForObject(template, fields)
         == Ok(Plan(Flatten(Segments(pieces, order, Bindings(order, fields))), Bindings(order, fields)))
  {
  }

  lemma KeyIsA()
    ensures Key("a") == "a"
    ensures KeysFrom([], [Lit(""), Hole("a")] + [Lit("1")]) == ["a"]
    ensures KeysIn([Lit(""), Hole("a")] + [Lit("1")], ["a"])
  {
    KeysOfTwo([], Lit(""), Hole("a"), [Lit("1")]);
    KeysOfOne(["a"], "1");
  }

  lemma OneNumber(n: int, fields: map<string, Json>)
    requires "a" in fields && fields["a"] == JNumber("7", Some(n), None)
    ensures FirstMissing(["a"], fields) == None && Bindings(["a"], fields) == [Int(n)]
  {
    assert ["a"][1..] == [];
  }

  lemma TwentyOneWritten(bindings: seq<Bound>, n: int)
    requires bindings == [Int(n)] && KeysIn([Lit(""), Hole("a")] + [Lit("1")], ["a"])
    ensures Flatten(Segments([Lit(""), Hole("a")] + [Lit("1")], ["a"], bindings)) == "$21"
  {
    SegmentsOfTwo("", "a", [Lit("1")], ["a"], bindings);
    SegmentsOfOne("1", ["a"], bindings);
    DollarTwo();
  }

  lemma DollarTwo()
    ensures Rendered(Param(2, false)) == "$2" && "" + ("$2" + "1") == "$21"
  {
  }

  lemma ParseDigitAfterHole()
    ensures Parse("{{a}}1") == Ok([Lit(""), Hole("a")] + [Lit("1")])
  {
    FirstHole();
    assert NextHole("1") == NoHole;
  }

  lemma FirstHole()
    ensures NextHole("{{a}}1") == Found("", "a", "1")
  {
    var t := "{{a}}1";
    assert t[2..] == "a}}1" && "a}}1"[..1] == "a" && "a}}1"[3..] == "1";
    ClosingBraces();
    KeyIsA();
  }

  lemma ClosingBraces()
    ensures FindPair("a}}1", '}') == Some(1)
  {
    assert "a}}1"[1..] == "}}1";
  }

  lemma ReadTwentyOne()
    ensures Read(SQL, "$21", 0) == [Reading(0, 21)]
  {
    SqlIsLawful();
    assert Digits(21) == "21" && "21" + "" == "21" && "$" + "21" == "$21";
    ReadOnlyParam(SQL, 21, "21");
  }

  lemma ReadOnlyParam(lexer: Lexer, n: nat, d: string)
    requires Lawful(lexer) && n >= 1 && d == Digits(n)
    ensures Read(lexer, "$" + (d + ""), 0) == [Reading(0, n)]
  {
    var read, more := ReadParam(lexer, n, d, "", 0);
  }
}
