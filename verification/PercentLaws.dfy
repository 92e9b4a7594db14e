/** When a doubled percent sign stands for one percent sign. */
module PercentLaws {
  import opened Pattern
  import opened PatternGrammar
  import opened LogFormatting

  /** An event in which every field prints as an x. */
  const PLAIN: Event := Event("x", "x", "x", "x", "x", "x", "x", (fmt: string) => "x", "x", "x")

  function Plain(p: string): string { Formatted(p, PLAIN) }

  predicate AllPercent(s: string) {
    forall i :: 0 <= i < |s| ==> s[i] == '%'
  }

  /** Text that starts with something other than a percent sign. */
  predicate Solid(s: string) { s != "" && s[0] != '%' }

  lemma PlainNil()
    ensures Plain("") == ""
  {
  }

  lemma PlainFirst(p: string)
    requires p != ""
    ensures Plain(p) == Render(FirstChunk(p).rows, PLAIN) + Plain(FirstChunk(p).rest)
  {
    hide Render, FirstChunk;
    DenoteStep(p);
    RenderConcat(FirstChunk(p).rows, Denote(FirstChunk(p).rest), PLAIN);
  }

  lemma LiteralStart(p: string)
    requires Solid(p)
    ensures Solid(Plain(p))
  {
    PlainFirst(p);
    var s := p[..Find(p, '%', 0)];
    assert s != "" by { assert '%' !in p[0..Find(p, '%', 0)]; }
    var rows := FirstChunk(p).rows;
    assert rows == [Text(s)] + rows[1..];
    RenderText(s, rows[1..], PLAIN);
  }

  lemma ItemSolid(c: char, a: string)
    ensures Solid(ItemText(ItemFor(Directive(c, a)), PLAIN))
  {
  }

  /** A directive, or what an unclosed brace leaves of it. */
  lemma DirectiveStart(p: string)
    requires |p| >= 2 && p[0] == '%' && p[1] != '%'
    ensures Solid(Plain(p))
  {
    PlainFirst(p);
    var c := FirstChunk(p);
    if c.rows == [] {
      assert c.rest == p[2..] && Solid(c.rest);
      LiteralStart(c.rest);
    } else {
      ItemSolid(p[1], c.rows[0].arg);
      RenderStep(c.rows, PLAIN);
    }
  }

  lemma Doubled(z: string)
    ensures Plain("%%" + z) == "%" + z + if z == "" then "" else Plain("%" + z)
  {
    hide Formatted;
    assert WellFormed("") by { EmptyIsWellFormed(); }
    DoubledPercentRenders("", z, PLAIN);
    PlainNil();
    assert "" + "%%" + z == "%%" + z;
    assert "" + "%" + z + (if z == "" then "" else Plain("%" + z)) == "%" + z + if z == "" then "" else Plain("%" + z);
  }

  lemma EmptyIsWellFormed()
    ensures WellFormed("")
  {
  }

  lemma {:induction false} PercentsStay(p: string)
    requires AllPercent(p)
    ensures AllPercent(Plain(p))
    decreases |p|
  {
    hide Plain;
    if p == "" {
      PlainNil();
    } else if |p| == 1 {
      assert p == "%";
      LoneIs();
    } else {
      var z := p[2..];
      assert p == "%%" + z;
      Doubled(z);
      PercentsStay("%" + z);
    }
  }

  lemma LoneIs()
    ensures Plain("%") == "%" && Plain("%%") == "%"
  {
    PlainFirst("%");
    PlainNil();
    Doubled("");
    assert "%%" + "" == "%%";
    assert [Text("%")] == [Text("%")] + [];
    RenderText("%", [], PLAIN);
  }

  /** After a percent sign that goes with something else. */
  lemma AfterPercent(b: string)
    requires b != "" && b[0] == '%'
    ensures b + Plain("%" + b) != Plain(b)
  {
    hide Plain;
    LoneIs();
    if |b| == 1 {
      assert b == "%" && "%" + b == "%%";
    } else {
      var c := b[1..];
      assert "%" + b == "%%" + c && b == "%" + c;
      Doubled(c);
    }
  }

  /** After literal text up to a first percent sign with more behind it. */
  lemma AfterLiteral(b: string, k: nat)
    requires 0 < k && k + 1 < |b| && '%' !in b[..k] && b[k] == '%' && b[0] != '%'
    ensures b + Plain("%" + b) != Plain(b)
  {
    hide Plain, Formatted;
    var s, r, g := b[..k], b[k..], Plain("%" + b);
    assert b == s + r;
    DirectiveStart("%" + b);
    assert Plain(b) == s + Plain(r) by { JoinPlain(s, r); }
    assert (b + g)[k..] == r + g && (s + Plain(r))[k..] == Plain(r);
    if r[1] != '%' {
      DirectiveStart(r);
      assert (r + g)[0] == '%';
    } else {
      RawRest(r, g);
    }
  }

  lemma JoinPlain(s: string, r: string)
    requires s != "" && '%' !in s && |r| >= 2 && r[0] == '%'
    ensures Plain(s + r) == s + Plain(r)
  {
    LiteralThen(s, r, PLAIN);
  }

  /** A doubled percent sign is not put out twice. */
  lemma RawRest(r: string, g: string)
    requires |r| >= 2 && r[0] == '%' && r[1] == '%' && Solid(g)
    ensures r + g != Plain(r)
  {
    hide Plain;
    var y := r[2..];
    assert r == "%%" + y;
    Doubled(y);
    if AllPercent(r) {
      PercentsStay(r);
      assert (r + g)[|r|] == g[0];
    } else {
      var j := FirstOther(y);
      assert Plain(r)[1 + j] == y[j];
      assert (r + g)[1 + j] == r[1 + j] == '%';
    }
  }

  lemma FirstOther(y: string)
    returns (j: nat)
    requires !AllPercent("%%" + y)
    ensures j < |y| && y[j] != '%' && ("%%" + y)[1 + j] == '%'
  {
    j := 0;
    while j < |y| && y[j] == '%'
      invariant j <= |y| && AllPercent(y[..j])
    {
      assert y[..j + 1] == y[..j] + [y[j]];
      j := j + 1;
    }
    assert y[..j] + y[j..] == y;
    assert j > 0 ==> y[j - 1] == y[..j][j - 1];
  }

  /** Something after it: for the plain event, at least, it is not what it would be
      for one percent sign. */
  lemma RestMatters(b: string)
    requires b != ""
    ensures b + Plain("%" + b) != Plain(b)
  {
    hide Plain;
    var k := Find(b, '%', 0);
    assert b[0..k] == b[..k];
    if k == 0 {
      AfterPercent(b);
    } else if k == |b| {
      assert b[..k] == b;
      assert Plain(b) == b by { PlainText(b); }
      DirectiveStart("%" + b);
    } else if k + 1 == |b| {
      var s := b[..k];
      assert b == s + "%" && b[0] == s[0];
      assert Plain(b) == s + b by { PlainLone(s); }
      assert (b + Plain("%" + b))[k] == b[k] && (s + b)[k] == b[0];
    } else {
      AfterLiteral(b, k);
    }
  }

  lemma PlainText(s: string)
    requires s != "" && '%' !in s
    ensures Plain(s) == s
  {
    LiteralAlone(s);
    RenderLiteral(s, PLAIN);
  }

  lemma PlainLone(s: string)
    requires s != "" && '%' !in s
    ensures Plain(s + "%") == s + (s + "%")
  {
    LiteralThenLone(s);
    TwoTexts(s, s + "%", PLAIN);
  }

  /** After a well-formed pattern `%%` stands for one percent sign, for every event,
      if and only if the pattern ends with it. */
  lemma DoubledPercentIff(a: string, b: string)
    requires WellFormed(a)
    ensures (forall ev: Event :: Formatted(a + "%%" + b, ev) == Formatted(a, ev) + "%" + Formatted(b, ev)) <==> b == ""
  {
    hide Formatted, WellFormed, Plain;
    if b == "" {
      forall ev: Event ensures Formatted(a + "%%" + b, ev) == Formatted(a, ev) + "%" + Formatted(b, ev) {
        DoubledPercentRenders(a, b, ev);
        assert Formatted("", ev) == "" by { DenoteNil(ev); }
        assert Formatted(a, ev) + "%" + b + "" == Formatted(a, ev) + "%" + "";
      }
    } else {
      DoubledPercentRenders(a, b, PLAIN);
      RestMatters(b);
      assert Formatted("%" + b, PLAIN) == Plain("%" + b) && Formatted(b, PLAIN) == Plain(b) by { PlainIs(b); }
      SameFront(Formatted(a, PLAIN) + "%", b, Plain("%" + b), Plain(b));
    }
  }

  lemma PlainIs(b: string)
    ensures Formatted("%" + b, PLAIN) == Plain("%" + b) && Formatted(b, PLAIN) == Plain(b)
  {
  }

  lemma SameFront(x: string, b: string, y: string, z: string)
    requires b + y != z
    ensures x + b + y != x + z
  {
    assert (x + b + y)[|x|..] == b + y && (x + z)[|x|..] == z;
  }
}
