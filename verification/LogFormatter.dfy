/** LogFormatter: a pattern compiled once into format items, and what the items
    render. */
module LogFormatting {
  import opened Pattern
  import opened PatternGrammar

  /** A log event, each field as the stream operator prints it. `time` is the
      event's time under a strftime format. */
  datatype Event = Event(
    content: string, level: string, elapse: string, logger: string,
    threadId: string, threadName: string, fiberId: string,
    time: string -> string, file: string, line: string)

  datatype FormatItem = StringItem(text: string) | CodeItem(code: char, fmt: string)

  const CODES: set<char> := {'m', 'p', 'r', 'c', 't', 'N', 'n', 'd', 'f', 'l', 'T', 'F'}

  /** The item made from a row of the parse table. */
  function ItemFor(e: Entry): FormatItem {
    match e
    case Text(s) => StringItem(s)
    case Directive(c, a) => if c in CODES then CodeItem(c, a) else StringItem("<error type>")
  }

  predicate Unknown(e: Entry) { e.Directive? && e.code !in CODES }

  function Items(es: seq<Entry>): (r: seq<FormatItem>)
    ensures |r| == |es| && forall i :: 0 <= i < |es| ==> r[i] == ItemFor(es[i])
  {
    seq(|es|, i requires 0 <= i < |es| => ItemFor(es[i]))
  }

  function ItemText(item: FormatItem, ev: Event): string {
    match item
    case StringItem(s) => s
    case CodeItem(c, fmt) =>
      if c == 'm' then ev.content
      else if c == 'p' then ev.level
      else if c == 'r' then ev.elapse
      else if c == 'c' then ev.logger
      else if c == 't' then ev.threadId
      else if c == 'N' then ev.threadName
      else if c == 'n' then "\n"
      else if c == 'd' then ev.time(fmt)
      else if c == 'f' then ev.file
      else if c == 'l' then ev.line
      else if c == 'T' then "\t"
      else if c == 'F' then ev.fiberId
      else ""
  }

  /** The text a parse table renders for an event. */
  function Render(es: seq<Entry>, ev: Event): string {
    if es == [] then "" else ItemText(ItemFor(es[0]), ev) + Render(es[1..], ev)
  }

  class LogFormatter {
    const m_pattern: string
    var m_items: seq<FormatItem>
    var m_isError: bool

    /** The formatter is the pattern, compiled. */
    ghost predicate Valid() reads this {
      && m_items == Items(Denote(m_pattern))
      && m_isError == exists e :: e in Denote(m_pattern) && Unknown(e)
    }

    constructor (pattern: string)
      ensures Valid() && m_pattern == pattern
    {
      m_pattern := pattern;
      m_items := [];
      m_isError := false;
      new;
      Init();
    }

    /** The scanner: the first half of `init`, with its two indices and the
        jump over a closed argument. */
    method ParseTable() returns (parse_tab: seq<Entry>)
      ensures parse_tab == Denote(m_pattern)
    {
      hide Scan, Denote, Substr, Find;
      var p := m_pattern;
      parse_tab := [];
      var len, last_idx, i := |p|, 0, 0;
      ScanIsDenote(p);
      while i < len
        invariant AtLoopHead(p, i, last_idx)
        invariant parse_tab + Scan(p, i, last_idx) == Denote(p)
      {
        ghost var tab0, i0, last0 := parse_tab, i, last_idx;
        ghost var pass := OnePass(p, i, last_idx);
        ScanStep(p, i, last_idx);
        Assoc(tab0, pass.rows, Scan(p, pass.i, pass.last));
        if p[i] == '%' {
          if last_idx != i {
            parse_tab := parse_tab + [Text(Substr(p, last_idx, i - last_idx))];
          }
          if i + 1 >= len {
          } else {
            last_idx := i + 2;
            if p[i + 1] == '%' {
              parse_tab := parse_tab + [Text("%")];
            } else {
              var code := p[i + 1];
              if i + 2 >= len || p[i + 2] != '{' {
                parse_tab := parse_tab + [Directive(code, "")];
              } else {
                var idx := i + 3;
                while idx < len && p[idx] != '}'
                  invariant i + 3 <= idx <= len && '}' !in p[i + 3..idx]
                {
                  assert p[i + 3..idx + 1] == p[i + 3..idx] + [p[idx]];
                  idx := idx + 1;
                }
                FindIs(p, '}', i + 3, idx);
                if idx >= len {
                } else {
                  parse_tab := parse_tab + [Directive(code, Substr(p, last_idx + 1, idx - last_idx - 1))];
                  last_idx := idx + 1;
                  i := idx;
                }
              }
            }
          }
        }
        i := i + 1;
        assert parse_tab == tab0 + pass.rows && i == pass.i && last_idx == pass.last;
      }
      ScanAtEnd(p, last_idx);
      if last_idx != len {
        parse_tab := parse_tab + [Text(Substr(p, last_idx, len - last_idx))];
      }
    }

    /** The second half of `init`: one item per row of the parse table. */
    method Init()
      modifies this
      ensures m_items == old(m_items) + Items(Denote(m_pattern))
      ensures m_isError == (old(m_isError) || exists e :: e in Denote(m_pattern) && Unknown(e))
    {
      hide Denote, ItemFor, Unknown;
      var parse_tab := ParseTable();
      ghost var items := Items(parse_tab);
      for k := 0 to |parse_tab|
        invariant m_items == old(m_items) + items[..k]
        invariant m_isError == (old(m_isError) || exists e :: e in parse_tab[..k] && Unknown(e))
      {
        var tup := parse_tab[k];
        assert parse_tab[..k + 1] == parse_tab[..k] + [tup];
        assert items[..k + 1] == items[..k] + [ItemFor(tup)];
        ItemKinds(tup);
        if tup.Text? {
          m_items := m_items + [StringItem(tup.text)];
        } else if tup.code !in CODES {
          m_items := m_items + [StringItem("<error type>")];
          m_isError := true;
        } else {
          m_items := m_items + [CodeItem(tup.code, tup.arg)];
        }
      }
      assert parse_tab[..|parse_tab|] == parse_tab;
    }

    method Format(ev: Event) returns (text: string)
      requires Valid()
      ensures text == Render(Denote(m_pattern), ev)
    {
      ghost var es := Denote(m_pattern);
      text := "";
      assert es[0..] == es;
      for k := 0 to |m_items|
        invariant text + Render(es[k..], ev) == Render(es, ev)
      {
        RenderStep(es[k..], ev);
        assert es[k..][1..] == es[k + 1..];
        Assoc(text, ItemText(m_items[k], ev), Render(es[k + 1..], ev));
        text := text + ItemText(m_items[k], ev);
      }
    }
  }

  lemma ItemKinds(e: Entry)
    ensures e.Text? ==> ItemFor(e) == StringItem(e.text) && !Unknown(e)
    ensures e.Directive? ==> Unknown(e) == (e.code !in CODES)
    ensures e.Directive? ==>
              ItemFor(e) == if e.code in CODES then CodeItem(e.code, e.arg) else StringItem("<error type>")
  {
  }

  lemma RenderStep(es: seq<Entry>, ev: Event)
    requires es != []
    ensures Render(es, ev) == ItemText(ItemFor(es[0]), ev) + Render(es[1..], ev)
  {
  }

  lemma {:induction false} RenderConcat(es: seq<Entry>, fs: seq<Entry>, ev: Event)
    ensures Render(es + fs, ev) == Render(es, ev) + Render(fs, ev)
  {
    hide ItemText, ItemFor;
    if es == [] {
      assert es + fs == fs;
    } else {
      assert (es + fs)[1..] == es[1..] + fs;
      RenderConcat(es[1..], fs, ev);
    }
  }

  lemma RenderText(s: string, es: seq<Entry>, ev: Event)
    ensures Render([Text(s)] + es, ev) == s + Render(es, ev)
  {
    assert ([Text(s)] + es)[1..] == es;
  }

  // ---------- Rendering of concatenated patterns ----------

  /** Only literal text, then a lone final `%`. */
  predicate LoneTail(b: string) {
    b != "" && b[|b| - 1] == '%' && '%' !in b[..|b| - 1]
  }

  predicate EndsInLiteral(a: string) {
    var ts := Lex(a); ts != [] && ts[|ts| - 1].Lit?
  }

  predicate EndsInBare(a: string) {
    var ts := Lex(a); ts != [] && ts[|ts| - 1].Bare?
  }

  function Formatted(p: string, ev: Event): string { Render(Denote(p), ev) }

  /** Joining a literal to the text before it: the pieces render one after the
      other, unless a lone final `%` makes the scanner repeat the joined literal. */
  lemma LiteralJoins(s: string, b: string, ev: Event)
    requires s != "" && '%' !in s && (b != "" && b[0] == '%' ==> b == "%")
    ensures Formatted(s + b, ev) == s + Formatted(b, ev) <==> !LoneTail(b)
  {
    hide Denote, ItemText, ItemFor, Render;
    if b == "" {
      assert s + b == s && s[..|s|] == s;
      LiteralAlone(s);
      RenderText(s, [], ev);
      assert [Text(s)] + [] == [Text(s)];
      DenoteNil(ev);
    } else if b == "%" {
      assert "" + "%" == "%" && b[..0] == "";
      LonePercentRenders(s, "", ev);
    } else {
      var k := Find(b, '%', 0);
      var l, r := b[..k], b[k..];
      assert l == b[0..k] && b == l + r && b[0] != '%';
      if k + 1 == |b| {
        assert r == "%" && b[..|b| - 1] == l;
        LonePercentRenders(s, l, ev);
      } else {
        LiteralThen(l, r, ev);
        assert '%' !in s + l && s + b == (s + l) + r;
        LiteralThen(s + l, r, ev);
        Assoc(s, l, Formatted(r, ev));
        if k < |b| {
          assert b[..|b| - 1][k] == b[k];
        }
      }
    }
  }

  lemma DenoteNil(ev: Event)
    ensures Formatted("", ev) == "" && Render([], ev) == ""
  {
  }

  lemma LiteralAlone(s: string)
    requires s != "" && '%' !in s
    ensures Denote(s) == [Text(s)]
  {
    assert s[0..|s|] == s == s[..|s|];
    FindIs(s, '%', 0, |s|);
    DenoteStep(s);
  }

  lemma LiteralThen(s: string, r: string, ev: Event)
    requires s != "" && '%' !in s && r != "%" && (r != "" ==> r[0] == '%')
    ensures Formatted(s + r, ev) == s + Formatted(r, ev)
  {
    hide Denote, ItemText, ItemFor, Render;
    assert r != "" ==> |r| >= 2;
    ChunkOfToken(Lit(s), r);
    DenoteStep(s + r);
    RenderText(s, Denote(r), ev);
  }

  /** A literal `s + l` before a lone `%` is rendered twice, so as one literal it
      renders `s` twice, where the pieces would render it once. */
  lemma LonePercentRenders(s: string, l: string, ev: Event)
    requires s != "" && '%' !in s && '%' !in l
    ensures Formatted(s + (l + "%"), ev) != s + Formatted(l + "%", ev)
  {
    hide Denote, ItemText, ItemFor, Render;
    var m := s + l;
    assert s + (l + "%") == m + "%";
    LiteralThenLone(m);
    TwoTexts(m, m + "%", ev);
    if l == "" {
      assert l + "%" == "%";
      BrokenChunk("%");
      assert [Text("%")] + [] == [Text("%")];
      RenderText("%", [], ev);
      DenoteNil(ev);
    } else {
      LiteralThenLone(l);
      TwoTexts(l, l + "%", ev);
    }
  }

  lemma TwoTexts(s: string, t: string, ev: Event)
    ensures Render([Text(s), Text(t)], ev) == s + t
  {
    assert [Text(s), Text(t)] == [Text(s)] + ([Text(t)] + []);
    RenderText(s, [Text(t)] + [], ev);
    RenderText(t, [], ev);
  }

  /** Compilation is compositional. After a well-formed pattern `a`, any pattern
      `b` at all renders as it does alone, except exactly when a literal ending
      `a` runs into literal text and a lone final `%`. (A brace after a bare
      directive would become its argument.) */
  lemma RenderAppend(a: string, b: string, ev: Event)
    requires WellFormed(a) && !(EndsInBare(a) && b != "" && b[0] == '{')
    ensures Formatted(a + b, ev) == Formatted(a, ev) + Formatted(b, ev)
       <==> !(EndsInLiteral(a) && LoneTail(b))
  {
    hide Denote, ItemText, ItemFor, Render, Lex, SpellAll, Meanings, LoneTail, WellFormed, WfTokens;
    DenoteWellFormed(a);
    var ts := Lex(a);
    if EndsInLiteral(a) && !(b != "" && b[0] == '%' && |b| >= 2) {
      var init, s := LastLiteral(ts);
      assert a + b == SpellAll(init) + (s + b);
      DenoteSpelling(init, s + b);
      RenderConcat(Meanings(init), Denote(s + b), ev);
      RenderConcat(Meanings(init), [Text(s)], ev);
      RenderLiteral(s, ev);
      LiteralJoins(s, b, ev);
      CancelLeft(Render(Meanings(init), ev), s, Formatted(s + b, ev), Formatted(b, ev));
    } else {
      DenoteSpelling(ts, b);
      RenderConcat(Meanings(ts), Denote(b), ev);
      if b != "" && b[0] == '%' && |b| >= 2 {
        NotLoneTail(b);
      }
    }
  }

  lemma RenderLiteral(s: string, ev: Event)
    ensures Render([Text(s)], ev) == s
  {
    assert [Text(s)] == [Text(s)] + [];
    RenderText(s, [], ev);
  }

  lemma NotLoneTail(b: string)
    requires |b| >= 2 && b[0] == '%'
    ensures !LoneTail(b)
  {
    assert b[..|b| - 1][0] == '%';
  }

  lemma CancelLeft(x: string, s: string, y: string, z: string)
    ensures x + y == (x + s) + z <==> y == s + z
  {
    Assoc(x, s, z);
    assert (x + y)[|x|..] == y && (x + (s + z))[|x|..] == s + z;
  }

  /** At the end of a well-formed pattern `%%` is one percent sign. */
  lemma DoubledPercentAtEnd(a: string, ev: Event)
    requires WellFormed(a)
    ensures Formatted(a + "%%", ev) == Formatted(a, ev) + "%"
  {
    DoubledPercentRenders(a, "", ev);
    assert (a + "%%") + "" == a + "%%" && (Formatted(a, ev) + "%") + "" == Formatted(a, ev) + "%";
  }

  /** Anywhere else it also puts out the rest of the pattern raw, and reads its
      second percent sign once more as the start of a directive. */
  lemma DoubledPercentRenders(a: string, b: string, ev: Event)
    requires WellFormed(a)
    ensures Formatted(a + "%%" + b, ev)
         == Formatted(a, ev) + "%" + b + if b == "" then "" else Formatted("%" + b, ev)
  {
    hide Denote, ItemText, ItemFor, Render, WellFormed, EndsInBare, EndsInLiteral;
    var q := "%%" + b;
    assert a + "%%" + b == a + q;
    NotLoneTail(q);
    RenderAppend(a, q, ev);
    BrokenChunk(q);
    assert q[2..] == b && q[1..] == "%" + b;
    var more := if b == "" then [] else Denote("%" + b);
    RenderConcat([Text("%"), Text(b)], more, ev);
    TwoTexts("%", b, ev);
    DenoteNil(ev);
    Assoc(Formatted(a, ev), "%" + b, Render(more, ev));
    Assoc(Formatted(a, ev), "%", b);
  }

  /** A pattern is in error exactly when some directive of its table is unknown;
      for a well-formed pattern these are the directives written in it. */
  lemma ErrorIffUnknownToken(p: string)
    requires WellFormed(p)
    ensures (exists e :: e in Denote(p) && Unknown(e))
       <==> exists t :: t in Lex(p) && !t.Lit? && t.code !in CODES
  {
    hide WellFormed, Denote, Lex, WfTokens, SpellAll;
    DenoteWellFormed(p);
    var ts := Lex(p);
    var es := Meanings(ts);
    forall e | e in es && Unknown(e) ensures exists t :: t in ts && !t.Lit? && t.code !in CODES {
      var i :| 0 <= i < |es| && es[i] == e;
      assert ts[i] in ts;
    }
    forall t | t in ts && !t.Lit? && t.code !in CODES ensures exists e :: e in es && Unknown(e) {
      var i :| 0 <= i < |ts| && ts[i] == t;
      assert es[i] in es;
    }
  }
}
