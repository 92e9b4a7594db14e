/** The grammar of well-formed patterns, its printer and its lexer, and the
    round trips between patterns and parse tables. */
module PatternGrammar {
  import opened Pattern
  import opened Options

  /** What a user writes: a literal, a directive `%c`, or `%c{arg}`. */
  datatype Token = Lit(text: string) | Bare(code: char) | Braced(code: char, arg: string)

  function Spell(t: Token): string {
    match t
    case Lit(s) => s
    case Bare(c) => ['%', c]
    case Braced(c, a) => ['%', c, '{'] + a + ['}']
  }

  function Meaning(t: Token): Entry {
    match t
    case Lit(s) => Text(s)
    case Bare(c) => Directive(c, "")
    case Braced(c, a) => Directive(c, a)
  }

  function SpellAll(ts: seq<Token>): string {
    if ts == [] then "" else Spell(ts[0]) + SpellAll(ts[1..])
  }

  function Meanings(ts: seq<Token>): (es: seq<Entry>)
    ensures |es| == |ts| && forall i :: 0 <= i < |ts| ==> es[i] == Meaning(ts[i])
  {
    seq(|ts|, i requires 0 <= i < |ts| => Meaning(ts[i]))
  }

  predicate WfToken(t: Token) {
    match t
    case Lit(s) => s != "" && '%' !in s
    case Bare(c) => c != '%'
    case Braced(c, a) => c != '%' && '}' !in a
  }

  /** Two literals would run together, and a brace would be taken for the
      argument of the bare directive before it. */
  predicate Fits(t: Token, u: Token) {
    && !(t.Lit? && u.Lit?)
    && !(t.Bare? && u.Lit? && u.text != "" && u.text[0] == '{')
  }

  predicate WfTokens(ts: seq<Token>) {
    ts != [] ==> WfToken(ts[0]) && (|ts| > 1 ==> Fits(ts[0], ts[1])) && WfTokens(ts[1..])
  }

  // ---------- The lexer ----------

  /** The token a pattern starts with; none where the pattern is malformed: a
      lone final `%`, a doubled `%`, or a brace that is never closed. */
  function FirstToken(p: string): (t: Option<Token>)
    requires p != ""
    ensures t.Some? ==> WfToken(t.value) && Spell(t.value) != "" && Spell(t.value) <= p
  {
    if p[0] != '%' then
      var k := Find(p, '%', 0);
      assert p[0..k] == p[..k];
      Some(Lit(p[..k]))
    else if |p| == 1 || p[1] == '%' then None
    else if |p| == 2 || p[2] != '{' then Some(Bare(p[1]))
    else
      var k := Find(p, '}', 3);
      if k == |p| then None else Some(Braced(p[1], p[3..k]))
  }

  predicate WellFormed(p: string)
    decreases |p|
  {
    p == "" || match FirstToken(p) { case None => false case Some(t) => WellFormed(p[|Spell(t)|..]) }
  }

  /** The tokens of the longest well-formed beginning. */
  function Lex(p: string): seq<Token>
    decreases |p|
  {
    if p == "" then []
    else match FirstToken(p) {
      case None => []
      case Some(t) => [t] + Lex(p[|Spell(t)|..])
    }
  }

  /** The text after a token leaves the token as it is. */
  predicate Follows(t: Token, r: string) {
    r == "" || match t {
      case Lit(_) => |r| >= 2 && r[0] == '%'
      case Bare(_) => r[0] != '{'
      case Braced(_, _) => true
    }
  }

  lemma ChunkOfToken(t: Token, r: string)
    requires WfToken(t) && Follows(t, r)
    ensures FirstChunk(Spell(t) + r) == Chunk([Meaning(t)], r)
    ensures FirstToken(Spell(t) + r) == Some(t)
  {
    var p := Spell(t) + r;
    match t
    case Lit(s) =>
      assert p[0] == s[0] && p[0..|s|] == s == p[..|s|] && p[|s|..] == r;
      FindIs(p, '%', 0, |s|);
    case Bare(c) =>
      assert p[2..] == r;
    case Braced(c, a) =>
      var k := 3 + |a|;
      assert p[3..k] == a && p[k] == '}' && p[k + 1..] == r;
      FindIs(p, '}', 3, k);
  }

  /** What may come after a token list for its meaning to stay as it is. */
  predicate FollowsAll(ts: seq<Token>, b: string) {
    ts == [] || Follows(ts[|ts| - 1], b)
  }

  lemma {:induction false} SpellingStart(ts: seq<Token>, b: string)
    requires WfTokens(ts) && ts != []
    ensures var s := SpellAll(ts) + b;
            && s != ""
            && (if ts[0].Lit? then s[0] == ts[0].text[0] else |s| >= 2 && s[0] == '%')
  {
  }

  lemma {:induction false} NextFollows(ts: seq<Token>, b: string)
    requires WfTokens(ts) && ts != [] && FollowsAll(ts, b)
    ensures Follows(ts[0], SpellAll(ts[1..]) + b)
    ensures FollowsAll(ts[1..], b)
  {
    if |ts| == 1 {
      assert SpellAll(ts[1..]) + b == b;
    } else {
      assert ts[1..][0] == ts[1];
      SpellingStart(ts[1..], b);
    }
  }

  lemma Assoc<T>(a: seq<T>, b: seq<T>, c: seq<T>)
    ensures (a + b) + c == a + (b + c)
  {
  }

  lemma Unfold(ts: seq<Token>)
    requires ts != []
    ensures SpellAll(ts) == Spell(ts[0]) + SpellAll(ts[1..])
    ensures Meanings(ts) == [Meaning(ts[0])] + Meanings(ts[1..])
  {
    UnfoldMeanings(ts);
  }

  lemma UnfoldMeanings(ts: seq<Token>)
    requires ts != []
    ensures Meanings(ts) == [Meaning(ts[0])] + Meanings(ts[1..])
  {
    hide Meanings, Meaning;
  }

  /** A well-formed beginning means its tokens, whatever admissible text
      comes after it. */
  lemma {:induction false} DenoteSpelling(ts: seq<Token>, b: string)
    requires WfTokens(ts) && FollowsAll(ts, b)
    ensures Denote(SpellAll(ts) + b) == Meanings(ts) + Denote(b)
  {
    if ts == [] {
      assert SpellAll(ts) + b == b && Meanings(ts) + Denote(b) == Denote(b);
    } else {
      hide Denote, SpellAll, Spell, Meanings, FirstChunk, Follows, FollowsAll, WfToken, Fits;
      var r := SpellAll(ts[1..]) + b;
      NextFollows(ts, b);
      Unfold(ts);
      Assoc(Spell(ts[0]), SpellAll(ts[1..]), b);
      ChunkOfToken(ts[0], r);
      SpellingStart(ts, b);
      DenoteStep(SpellAll(ts) + b);
      DenoteSpelling(ts[1..], b);
      Assoc([Meaning(ts[0])], Meanings(ts[1..]), Denote(b));
    }
  }

  /** Every spelling is well-formed, and lexing gives back its tokens. */
  lemma {:induction false} SpellingLexes(ts: seq<Token>)
    requires WfTokens(ts)
    ensures WellFormed(SpellAll(ts)) && Lex(SpellAll(ts)) == ts
  {
    if ts == [] {
    } else {
      var r, p := SpellAll(ts[1..]), SpellAll(ts);
      assert r + "" == r && p + "" == p;
      NextFollows(ts, "");
      ChunkOfToken(ts[0], r);
      SpellingStart(ts, "");
      assert p[|Spell(ts[0])|..] == r;
      SpellingLexes(ts[1..]);
    }
  }

  lemma FirstTokenFits(p: string)
    requires p != "" && FirstToken(p).Some?
    requires var r := p[|Spell(FirstToken(p).value)|..]; r != "" && FirstToken(r).Some?
    ensures var t := FirstToken(p).value; Fits(t, FirstToken(p[|Spell(t)|..]).value)
  {
    var t := FirstToken(p).value;
    var u := FirstToken(p[|Spell(t)|..]).value;
    if u.Lit? {
      assert p[|Spell(t)|..][0] == u.text[0];
    }
  }

  lemma SpellAllNil()
    ensures SpellAll([]) == ""
  {
  }

  /** The longest well-formed beginning of any pattern: its tokens are
      well-formed and spell a prefix; what is left cannot start a token; and it
      is everything exactly when the pattern is well-formed. */
  lemma {:induction false} LexSpells(p: string)
    ensures WfTokens(Lex(p)) && SpellAll(Lex(p)) <= p
    ensures var r := p[|SpellAll(Lex(p))|..]; r == "" || FirstToken(r).None?
    ensures WellFormed(p) <==> SpellAll(Lex(p)) == p
    decreases |p|
  {
    hide FirstToken, Spell, SpellAll, Fits, WfToken;
    if p == "" || FirstToken(p).None? {
      SpellAllNil();
    } else {
      var t := FirstToken(p).value;
      var r := p[|Spell(t)|..];
      LexSpells(r);
      Unfold(Lex(p));
      assert Lex(p)[1..] == Lex(r);
      assert p == Spell(t) + r;
      assert p[|SpellAll(Lex(p))|..] == r[|SpellAll(Lex(r))|..];
      if Lex(r) != [] {
        FirstTokenFits(p);
      }
    }
  }

  /** A pattern is well-formed exactly when it spells some well-formed tokens. */
  lemma WellFormedIffSpelled(p: string)
    ensures WellFormed(p) <==> exists ts :: WfTokens(ts) && SpellAll(ts) == p
  {
    LexSpells(p);
    forall ts | WfTokens(ts) && SpellAll(ts) == p ensures WellFormed(p) {
      SpellingLexes(ts);
    }
  }

  /** A well-formed pattern compiles to the meanings of its tokens. */
  lemma DenoteWellFormed(p: string)
    requires WellFormed(p)
    ensures WfTokens(Lex(p)) && SpellAll(Lex(p)) == p
    ensures Denote(p) == Meanings(Lex(p))
  {
    LexSpells(p);
    DenoteSpelling(Lex(p), "");
    assert p + "" == p;
  }

  // ---------- Printing parse tables ----------

  predicate WfEntry(e: Entry) {
    match e
    case Text(s) => s != "" && '%' !in s
    case Directive(c, a) => c != '%' && '}' !in a
  }

  /** Tables a pattern can express: no two adjacent literals. */
  predicate WfEntries(es: seq<Entry>) {
    && (forall e :: e in es ==> WfEntry(e))
    && forall i :: 0 <= i < |es| - 1 ==> !(es[i].Text? && es[i + 1].Text?)
  }

  predicate StartsWithBrace(es: seq<Entry>) {
    es != [] && es[0].Text? && es[0].text != "" && es[0].text[0] == '{'
  }

  /** The token for an entry, with braces only where they are needed: around an
      argument, or to keep a literal `{` out of the directive before it. */
  function Printed(e: Entry, brace: bool): Token {
    match e
    case Text(s) => Lit(s)
    case Directive(c, a) => if a == "" && !brace then Bare(c) else Braced(c, a)
  }

  function Tokens(es: seq<Entry>): (ts: seq<Token>)
    ensures |ts| == |es|
  {
    if es == [] then [] else [Printed(es[0], StartsWithBrace(es[1..]))] + Tokens(es[1..])
  }

  function Print(es: seq<Entry>): string { SpellAll(Tokens(es)) }

  lemma {:induction false} TokensWf(es: seq<Entry>)
    requires WfEntries(es)
    ensures WfTokens(Tokens(es)) && Meanings(Tokens(es)) == es
  {
    if es == [] {
    } else {
      assert es[0] in es;
      TokensWf(es[1..]);
      assert Tokens(es)[1..] == Tokens(es[1..]);
    }
  }

  /** Parsing undoes printing. */
  lemma ParsePrint(es: seq<Entry>)
    requires WfEntries(es)
    ensures Scan(Print(es), 0, 0) == es
  {
    hide *;
    TokensWf(es);
    ScanIsDenote(Print(es));
    PrintIs(es);
    SpellingLexes(Tokens(es));
    DenoteWellFormed(Print(es));
  }

  lemma PrintIs(es: seq<Entry>)
    ensures Print(es) == SpellAll(Tokens(es))
  {
  }

  /** No braces but the needed ones. */
  predicate Canonical(ts: seq<Token>) {
    ts != [] ==>
      && (ts[0].Braced? && ts[0].arg == "" ==>
            |ts| > 1 && ts[1].Lit? && ts[1].text != "" && ts[1].text[0] == '{')
      && Canonical(ts[1..])
  }

  /** The first token printed for the meanings. */
  lemma FirstPrinted(ts: seq<Token>)
    requires WfTokens(ts) && ts != []
    ensures Tokens(Meanings(ts)) == [Tokens(Meanings(ts))[0]] + Tokens(Meanings(ts[1..]))
    ensures Tokens(Meanings(ts))[0] == ts[0] <==>
            (ts[0].Braced? && ts[0].arg == "" ==>
               |ts| > 1 && ts[1].Lit? && ts[1].text != "" && ts[1].text[0] == '{')
  {
    hide Printed, WfToken;
    var es := Meanings(ts);
    assert es[1..] == Meanings(ts[1..]);
    var brace := |ts| > 1 && ts[1].Lit? && ts[1].text != "" && ts[1].text[0] == '{';
    assert StartsWithBrace(es[1..]) == brace;
    PrintedBack(ts[0], brace);
  }

  lemma PrintedBack(t: Token, brace: bool)
    requires !(t.Bare? && brace)
    ensures Printed(Meaning(t), brace) == t <==> (t.Braced? && t.arg == "" ==> brace)
  {
  }

  lemma {:induction false} TokensOfMeanings(ts: seq<Token>)
    requires WfTokens(ts)
    ensures Tokens(Meanings(ts)) == ts <==> Canonical(ts)
  {
    hide Tokens, Meanings;
    if ts == [] {
      assert Tokens(Meanings([])) == [] by { NothingPrinted(); }
    } else {
      FirstPrinted(ts);
      TokensOfMeanings(ts[1..]);
      var us := Tokens(Meanings(ts));
      assert us[1..] == Tokens(Meanings(ts[1..]));
      assert ts == [ts[0]] + ts[1..];
    }
  }

  lemma NothingPrinted()
    ensures Tokens(Meanings([])) == []
  {
  }

  /** Printing undoes parsing, character for character, exactly for the
      well-formed patterns without redundant empty braces. */
  lemma PrintParse(p: string)
    requires WellFormed(p)
    ensures Print(Scan(p, 0, 0)) == p <==> Canonical(Lex(p))
  {
    hide WfTokens, Canonical, Lex, Meanings, Tokens, SpellAll, Denote, Scan, WellFormed, WfEntries;
    ScanIsDenote(p);
    DenoteWellFormed(p);
    var ts := Lex(p);
    var us := Tokens(Meanings(ts));
    TokensOfMeanings(ts);
    MeaningsWf(ts);
    TokensWf(Meanings(ts));
    SpellingLexes(us);
    SpellingLexes(ts);
  }

  lemma {:induction false} MeaningsWf(ts: seq<Token>)
    requires WfTokens(ts)
    ensures WfEntries(Meanings(ts))
  {
    if ts == [] {
    } else {
      MeaningsWf(ts[1..]);
      var es, fs := Meanings(ts), Meanings(ts[1..]);
      assert es == [es[0]] + fs;
      if |ts| > 1 {
        assert fs[0] == es[1];
      }
      forall i | 0 <= i < |es| - 1 ensures !(es[i].Text? && es[i + 1].Text?) {
        if i > 0 {
          assert es[i] == fs[i - 1] && es[i + 1] == fs[i];
        }
      }
    }
  }

  /** The source text of the entries, in order, is the pattern: nothing is
      dropped, doubled or moved. */
  lemma SpansCover(p: string)
    requires WellFormed(p)
    ensures SpellAll(Lex(p)) == p && Scan(p, 0, 0) == Meanings(Lex(p))
  {
    ScanIsDenote(p);
    DenoteWellFormed(p);
  }

  // ---------- Malformed patterns ----------

  /** What the scanner makes of the rest `r` of a pattern that cannot start a
      token, after the well-formed tokens `ts`. */
  function BrokenTail(ts: seq<Token>, r: string): seq<Entry>
    requires r != "" && FirstToken(r).None?
  {
    if r == "%" then
      [Text((if ts != [] && ts[|ts| - 1].Lit? then ts[|ts| - 1].text else "") + "%")]
    else if r[1] == '%' then
      [Text("%"), Text(r[2..])] + (if |r| == 2 then [] else Denote(r[1..]))
    else Denote(r[2..])
  }

  lemma BrokenChunk(r: string)
    requires r != "" && FirstToken(r).None?
    ensures Denote(r) == BrokenTail([], r)
    ensures r[0] == '%' && (|r| == 1 ==> r == "%")
  {
    DenoteStep(r);
    assert "" + "%" == "%";
    if |r| == 1 {
      assert r == "%";
    }
  }

  /** Every pattern whatsoever: the tokens of its longest well-formed beginning
      come out as they are, and what follows depends only on how the rest is
      broken. */
  lemma {:induction false} EveryPattern(p: string)
    ensures var ts := Lex(p);
            && WfTokens(ts) && SpellAll(ts) <= p
            && var r := p[|SpellAll(ts)|..];
            && (r == "" || FirstToken(r).None?)
            && Scan(p, 0, 0) == Meanings(ts) + if r == "" then [] else BrokenTail(ts, r)
  {
    hide Lex, SpellAll, Meanings, Denote, WfTokens, Scan, WellFormed;
    LexSpells(p);
    ScanIsDenote(p);
    var ts := Lex(p);
    var r := p[|SpellAll(ts)|..];
    assert p == SpellAll(ts) + r;
    if r == "" {
      assert p == SpellAll(ts);
      DenoteWellFormed(p);
      assert Meanings(ts) + [] == Meanings(ts);
    } else {
      BrokenChunk(r);
      if r == "%" && ts != [] && ts[|ts| - 1].Lit? {
        LonePercentAfterLiteral(ts);
      } else {
        DenoteSpelling(ts, r);
        BrokenTailWithoutLiteral(ts, r);
      }
    }
  }

  lemma BrokenTailWithoutLiteral(ts: seq<Token>, r: string)
    requires r != "" && FirstToken(r).None?
    requires r == "%" ==> ts == [] || !ts[|ts| - 1].Lit?
    ensures BrokenTail(ts, r) == BrokenTail([], r)
  {
  }

  lemma {:induction false} WfInit(ts: seq<Token>, u: Token)
    requires WfTokens(ts + [u])
    ensures WfTokens(ts) && WfToken(u)
    ensures ts != [] ==> Fits(ts[|ts| - 1], u)
  {
    if ts == [] {
    } else {
      assert (ts + [u])[1..] == ts[1..] + [u];
      WfInit(ts[1..], u);
      if |ts| > 1 {
        assert (ts + [u])[1] == ts[1];
      }
    }
  }

  lemma {:induction false} SpellAllAppend(ts: seq<Token>, us: seq<Token>)
    ensures SpellAll(ts + us) == SpellAll(ts) + SpellAll(us)
    ensures Meanings(ts + us) == Meanings(ts) + Meanings(us)
  {
    if ts == [] {
      assert ts + us == us;
    } else {
      hide SpellAll, Meanings;
      assert (ts + us)[1..] == ts[1..] + us;
      Unfold(ts + us);
      Unfold(ts);
      SpellAllAppend(ts[1..], us);
      Assoc(Spell(ts[0]), SpellAll(ts[1..]), SpellAll(us));
      Assoc([Meaning(ts[0])], Meanings(ts[1..]), Meanings(us));
    }
  }

  /** A literal that ends a token list can be split off. */
  lemma LastLiteral(ts: seq<Token>)
    returns (init: seq<Token>, s: string)
    requires WfTokens(ts) && ts != [] && ts[|ts| - 1].Lit?
    ensures ts == init + [Lit(s)] && WfTokens(init) && s != "" && '%' !in s
    ensures SpellAll(ts) == SpellAll(init) + s && Meanings(ts) == Meanings(init) + [Text(s)]
    ensures forall b :: FollowsAll(init, s + b)
  {
    init, s := ts[..|ts| - 1], ts[|ts| - 1].text;
    assert ts == init + [Lit(s)];
    WfInit(init, Lit(s));
    SpellAllAppend(init, [Lit(s)]);
    assert SpellAll([Lit(s)]) == s + "" == s;
    assert Meanings([Lit(s)]) == [Text(s)];
  }

  lemma LonePercentAfterLiteral(ts: seq<Token>)
    requires WfTokens(ts) && ts != [] && ts[|ts| - 1].Lit?
    ensures Denote(SpellAll(ts) + "%") == Meanings(ts) + [Text(ts[|ts| - 1].text + "%")]
  {
    hide SpellAll, Meanings, Denote, WfTokens;
    var init, s := LastLiteral(ts);
    var q := s + "%";
    assert SpellAll(ts) + "%" == SpellAll(init) + q;
    DenoteSpelling(init, q);
    LiteralThenLone(s);
    assert Meanings(init) + [Text(s), Text(q)] == (Meanings(init) + [Text(s)]) + [Text(q)];
  }

  lemma LiteralThenLone(s: string)
    requires s != "" && '%' !in s
    ensures Denote(s + "%") == [Text(s), Text(s + "%")]
  {
    var q := s + "%";
    assert q[0..|s|] == s == q[..|s|] && q[0] == s[0];
    FindIs(q, '%', 0, |s|);
    DenoteStep(q);
  }
}
