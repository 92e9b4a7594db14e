/** What each format code prints, and with it the default pattern. */
module FormatCodes {
  import opened Pattern
  import opened PatternGrammar
  import opened LogFormatting
  import Loggers

  /** A pattern that starts with a directive: its text, and then the rest's. */
  lemma DirectiveThen(c: char, r: string, ev: Event)
    requires c != '%' && (r != "" ==> r[0] != '{')
    ensures Formatted(['%', c] + r, ev) == ItemText(ItemFor(Directive(c, "")), ev) + Formatted(r, ev)
  {
    hide ItemText, ItemFor;
    ChunkOfToken(Bare(c), r);
    DenoteStep(['%', c] + r);
    RenderFirst(Directive(c, ""), Denote(r), ev);
  }

  lemma BracedThen(c: char, a: string, r: string, ev: Event)
    requires c != '%' && '}' !in a
    ensures Formatted((['%', c, '{'] + a + ['}']) + r, ev) == ItemText(ItemFor(Directive(c, a)), ev) + Formatted(r, ev)
  {
    hide ItemText, ItemFor;
    ChunkOfToken(Braced(c, a), r);
    DenoteStep((['%', c, '{'] + a + ['}']) + r);
    RenderFirst(Directive(c, a), Denote(r), ev);
  }

  lemma RenderFirst(e: Entry, es: seq<Entry>, ev: Event)
    ensures Render([e] + es, ev) == ItemText(ItemFor(e), ev) + Render(es, ev)
  {
    assert ([e] + es)[1..] == es;
    RenderStep([e] + es, ev);
  }

  /** A directive by itself, with an argument or without. */
  lemma OneDirective(c: char, a: string, ev: Event)
    requires c != '%' && '}' !in a
    ensures Formatted(['%', c], ev) == ItemText(ItemFor(Directive(c, "")), ev)
    ensures Formatted(['%', c, '{'] + a + "}", ev) == ItemText(ItemFor(Directive(c, a)), ev)
  {
    hide ItemText, ItemFor, Formatted;
    DirectiveThen(c, "", ev);
    BracedThen(c, a, "", ev);
    assert Formatted("", ev) == "" by { DenoteNil(ev); }
    assert ['%', c] + "" == ['%', c];
    assert (['%', c, '{'] + a + ['}']) + "" == ['%', c, '{'] + a + "}";
  }

  /** The twelve codes. Only the time looks at its argument. */
  lemma EachCode(a: string, ev: Event)
    requires '}' !in a
    ensures Formatted("%m", ev) == ev.content && Formatted("%m{" + a + "}", ev) == ev.content
    ensures Formatted("%p", ev) == ev.level && Formatted("%p{" + a + "}", ev) == ev.level
    ensures Formatted("%r", ev) == ev.elapse && Formatted("%r{" + a + "}", ev) == ev.elapse
    ensures Formatted("%c", ev) == ev.logger && Formatted("%c{" + a + "}", ev) == ev.logger
    ensures Formatted("%t", ev) == ev.threadId && Formatted("%t{" + a + "}", ev) == ev.threadId
    ensures Formatted("%N", ev) == ev.threadName && Formatted("%N{" + a + "}", ev) == ev.threadName
    ensures Formatted("%n", ev) == "\n" && Formatted("%n{" + a + "}", ev) == "\n"
    ensures Formatted("%d", ev) == ev.time("") && Formatted("%d{" + a + "}", ev) == ev.time(a)
    ensures Formatted("%f", ev) == ev.file && Formatted("%f{" + a + "}", ev) == ev.file
    ensures Formatted("%l", ev) == ev.line && Formatted("%l{" + a + "}", ev) == ev.line
    ensures Formatted("%T", ev) == "\t" && Formatted("%T{" + a + "}", ev) == "\t"
    ensures Formatted("%F", ev) == ev.fiberId && Formatted("%F{" + a + "}", ev) == ev.fiberId
  {
    hide Formatted;
    OneDirective('m', a, ev);
    OneDirective('p', a, ev);
    OneDirective('r', a, ev);
    OneDirective('c', a, ev);
    OneDirective('t', a, ev);
    OneDirective('N', a, ev);
    OneDirective('n', a, ev);
    OneDirective('d', a, ev);
    OneDirective('f', a, ev);
    OneDirective('l', a, ev);
    OneDirective('T', a, ev);
    OneDirective('F', a, ev);
  }

  /** Any other character after a percent sign. */
  lemma OtherCode(c: char, a: string, ev: Event)
    requires c !in "%mprctNndflTF" && '}' !in a
    ensures Formatted(['%', c], ev) == "<error type>" && Formatted(['%', c, '{'] + a + "}", ev) == "<error type>"
  {
    hide Formatted;
    var others := "%mprctNndflTF";
    assert forall i :: 0 <= i < |others| ==> others[i] in others;
    OneDirective(c, a, ev);
  }

  /** One more code in front of a pattern. */
  lemma CodeThen(p: string, c: char, r: string, ev: Event)
    requires c != '%' && (r != "" ==> r[0] != '{') && p == ['%', c] + r
    ensures Formatted(p, ev) == Formatted(['%', c], ev) + Formatted(r, ev)
  {
    hide Formatted, ItemText, ItemFor;
    DirectiveThen(c, r, ev);
    OneDirective(c, "", ev);
  }

  lemma CharThen(p: string, c: char, r: string, ev: Event)
    requires c != '%' && |r| >= 2 && r[0] == '%' && p == [c] + r
    ensures Formatted(p, ev) == [c] + Formatted(r, ev)
  {
    hide Formatted;
    LiteralThen([c], r, ev);
  }

  /** "%f:%l%T%m%n" */
  lemma PlaceAndMessage(ev: Event)
    ensures Formatted("%f:%l%T%m%n", ev) == ev.file + (":" + (ev.line + ("\t" + (ev.content + "\n"))))
  {
    hide Formatted;
    EachCode("", ev);
    CodeThen("%m%n", 'm', "%n", ev);
    CodeThen("%T%m%n", 'T', "%m%n", ev);
    CodeThen("%l%T%m%n", 'l', "%T%m%n", ev);
    CharThen(":%l%T%m%n", ':', "%l%T%m%n", ev);
    CodeThen("%f:%l%T%m%n", 'f', ":%l%T%m%n", ev);
  }

  /** "[%c]%T" before the rest, for a code `c`. */
  lemma InBrackets(c: char, r: string, ev: Event)
    requires c != '%' && r != "" && r[0] != '{'
    ensures Formatted("[%" + ([c] + ("]%T" + r)), ev) ==
            "[" + (Formatted(['%', c], ev) + ("]" + ("\t" + Formatted(r, ev))))
  {
    hide Formatted;
    EachCode("", ev);
    CodeThen("%T" + r, 'T', r, ev);
    CharThen("]%T" + r, ']', "%T" + r, ev);
    CodeThen("%" + ([c] + ("]%T" + r)), c, "]%T" + r, ev);
    CharThen("[%" + ([c] + ("]%T" + r)), '[', "%" + ([c] + ("]%T" + r)), ev);
  }

  /** "%T%t%T%F%T" before the rest. */
  lemma Ids(r: string, ev: Event)
    requires r != "" && r[0] != '{'
    ensures Formatted("%T%t%T%F%T" + r, ev) ==
            "\t" + (ev.threadId + ("\t" + (ev.fiberId + ("\t" + Formatted(r, ev)))))
  {
    hide Formatted;
    EachCode("", ev);
    CodeThen("%T" + r, 'T', r, ev);
    CodeThen("%F%T" + r, 'F', "%T" + r, ev);
    CodeThen("%T%F%T" + r, 'T', "%F%T" + r, ev);
    CodeThen("%t%T%F%T" + r, 't', "%T%F%T" + r, ev);
    CodeThen("%T%t%T%F%T" + r, 'T', "%t%T%F%T" + r, ev);
  }

  lemma DefaultParts()
    ensures Loggers.DEFAULT_PATTERN ==
            (['%', 'd', '{'] + "%Y-%m-%d %H:%M:%S" + ['}'])
            + ("%T%t%T%F%T" + ("[%" + (['p'] + ("]%T" + ("[%" + (['c'] + ("]%T" + "%f:%l%T%m%n")))))))
  {
    var a, b, c, d, e := "%d{%Y-%m-%d %H:%M:%S}", "%T%t%T%F%T", "[%p]%T", "[%c]%T", "%f:%l%T%m%n";
    assert a == ['%', 'd', '{'] + "%Y-%m-%d %H:%M:%S" + ['}'];
    assert c + (d + e) == "[%" + (['p'] + ("]%T" + (d + e)));
    assert d + e == "[%" + (['c'] + ("]%T" + e));
    Assoc(a + b + c, d, e);
    Assoc(a + b, c, d + e);
    Assoc(a, b, c + (d + e));
  }

  /** The pattern a logger starts with. */
  lemma DefaultPattern(ev: Event)
    ensures var said := ev.file + (":" + (ev.line + ("\t" + (ev.content + "\n"))));
            var line := "[" + (ev.level + ("]" + ("\t" + ("[" + (ev.logger + ("]" + ("\t" + said)))))));
            Formatted(Loggers.DEFAULT_PATTERN, ev) ==
            ev.time("%Y-%m-%d %H:%M:%S") + ("\t" + (ev.threadId + ("\t" + (ev.fiberId + ("\t" + line)))))
  {
    hide Formatted, ItemText, ItemFor;
    var fmt, place := "%Y-%m-%d %H:%M:%S", "%f:%l%T%m%n";
    var logger := "[%" + (['c'] + ("]%T" + place));
    var level := "[%" + (['p'] + ("]%T" + logger));
    EachCode(fmt, ev);
    PlaceAndMessage(ev);
    InBrackets('c', place, ev);
    InBrackets('p', logger, ev);
    Ids(level, ev);
    OneDirective('d', fmt, ev);
    BracedThen('d', fmt, "%T%t%T%F%T" + level, ev);
    assert "%d{" + fmt + "}" == ['%', 'd', '{'] + fmt + "}";
    DefaultParts();
  }
}
