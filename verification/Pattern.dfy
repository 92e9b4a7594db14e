/** The pattern language of LogFormatter: the scanner of src/log.cpp as a
    function of its two indices, its meaning without indices, the grammar of
    well-formed patterns, and the laws that connect them. */
module Pattern {

  /** A row of the scanner's parse table: literal text (third column 0) or a
      directive with its optional argument (third column 1). */
  datatype Entry = Text(text: string) | Directive(code: char, arg: string)

  // ---------- The scanner, index by index ----------

  /** std::string::substr. The count is converted to size_t, so a negative
      count means "to the end"; a start past the end would throw. */
  function Substr(s: string, start: nat, count: int): string
    requires start <= |s|
  {
    if count < 0 || start + count > |s| then s[start..] else s[start..start + count]
  }

  /** The first position at or after `i` holding `c`, or the length. */
  function Find(p: string, c: char, i: nat): (k: nat)
    requires i <= |p|
    ensures i <= k <= |p| && c !in p[i..k]
    ensures k < |p| ==> p[k] == c
    decreases |p| - i
  {
    if i == |p| || p[i] == c then i else
      var k := Find(p, c, i + 1);
      assert p[i..k] == [p[i]] + p[i + 1..k];
      k
  }

  /** Where the scan of the pattern resumes, and from where pending literal
      text starts, whenever control is at the head of the outer loop. */
  predicate AtLoopHead(p: string, i: nat, last: nat) {
    i <= |p| && last <= |p| && last <= i + 1
  }

  /** What one pass of the outer loop appends, and the next loop head. */
  datatype Pass = Pass(rows: seq<Entry>, i: nat, last: nat)

  /** One pass of the outer loop from the head `(i, last)`. */
  function OnePass(p: string, i: nat, last: nat): (r: Pass)
    requires AtLoopHead(p, i, last) && i < |p|
    ensures AtLoopHead(p, r.i, r.last) && i < r.i
  {
    if p[i] != '%' then Pass([], i + 1, last)
    else
      var pending := if last != i then [Text(Substr(p, last, i - last))] else [];
      if i + 1 >= |p| then Pass(pending, i + 1, last)
      else if p[i + 1] == '%' then Pass(pending + [Text("%")], i + 1, i + 2)
      else if i + 2 >= |p| || p[i + 2] != '{' then Pass(pending + [Directive(p[i + 1], "")], i + 1, i + 2)
      else
        var idx := Find(p, '}', i + 3);
        if idx >= |p| then Pass(pending, i + 1, i + 2)
        else Pass(pending + [Directive(p[i + 1], Substr(p, i + 3, idx - i - 3))], idx + 1, idx + 1)
  }

  /** Everything the scanner still appends from the loop head `(i, last)`. */
  function Scan(p: string, i: nat, last: nat): seq<Entry>
    requires AtLoopHead(p, i, last)
    decreases |p| - i
  {
    if i == |p| then
      if last != |p| then [Text(Substr(p, last, |p| - last))] else []
    else
      var r := OnePass(p, i, last);
      r.rows + Scan(p, r.i, r.last)
  }

  // ---------- The meaning of a pattern, without indices ----------

  /** What a pattern stands for, by recursion on the text that is left.
      The last three cases before the closed brace are the scanner's quirks:
      a lone final `%` repeats the literal before it, `%%` emits the whole rest
      of the pattern and reads its second `%` again, and an unclosed `{` loses
      its directive. */
  function Denote(p: string): seq<Entry>
    decreases |p|
  {
    if p == "" then []
    else
      var c := FirstChunk(p);
      c.rows + Denote(c.rest)
  }

  datatype Chunk = Chunk(rows: seq<Entry>, rest: string)

  function FirstChunk(p: string): (c: Chunk)
    requires p != ""
    ensures |c.rest| < |p|
  {
    if p[0] != '%' then
      var k := Find(p, '%', 0);
      if k + 1 == |p| then Chunk([Text(p[..k]), Text(p)], "") else Chunk([Text(p[..k])], p[k..])
    else if |p| == 1 then Chunk([Text(p)], "")
    else if p[1] == '%' then Chunk([Text("%"), Text(p[2..])], if |p| == 2 then "" else p[1..])
    else if |p| == 2 || p[2] != '{' then Chunk([Directive(p[1], "")], p[2..])
    else
      var k := Find(p, '}', 3);
      if k == |p| then Chunk([], p[2..]) else Chunk([Directive(p[1], p[3..k])], p[k + 1..])
  }

  lemma FindIs(p: string, c: char, i: nat, k: nat)
    requires i <= k <= |p| && c !in p[i..k] && (k < |p| ==> p[k] == c)
    ensures Find(p, c, i) == k
  {
  }

  lemma FindShift(p: string, c: char, n: nat, i: nat)
    requires n <= i <= |p|
    ensures Find(p[n..], c, i - n) == Find(p, c, i) - n
  {
    var k := Find(p, c, i);
    assert p[n..][i - n..k - n] == p[i..k];
    FindIs(p[n..], c, i - n, k - n);
  }

  lemma ScanEnd(p: string, last: nat)
    requires last < |p|
    ensures Scan(p, |p|, last) == [Text(p[last..])]
  {
    assert p[last..|p|] == p[last..];
  }

  lemma ScanAtEnd(p: string, last: nat)
    requires last <= |p|
    ensures Scan(p, |p|, last) == if last != |p| then [Text(Substr(p, last, |p| - last))] else []
  {
  }

  lemma ScanStep(p: string, i: nat, last: nat)
    requires AtLoopHead(p, i, last) && i < |p|
    ensures var r := OnePass(p, i, last); Scan(p, i, last) == r.rows + Scan(p, r.i, r.last)
  {
  }

  lemma DenoteStep(p: string)
    requires p != ""
    ensures var c := FirstChunk(p); Denote(p) == c.rows + Denote(c.rest)
  {
  }

  lemma PassPending(p: string, i: nat, last: nat)
    requires i + 1 < |p| && p[i] == '%' && last != i && last <= i + 1
    ensures var r := OnePass(p, i, i);
            OnePass(p, i, last) == Pass([Text(Substr(p, last, i - last))] + r.rows, r.i, r.last)
  {
  }

  /** Pending text before a `%` is emitted first. It is the text since `last`
      below `i`, and the whole rest of the pattern after a doubled `%`. */
  lemma ScanPending(p: string, i: nat, last: nat)
    requires i + 1 < |p| && p[i] == '%' && last != i && last <= i + 1
    ensures Scan(p, i, last) == [Text(Substr(p, last, i - last))] + Scan(p, i, i)
  {
    hide Scan, OnePass, Substr;
    ScanStep(p, i, last);
    ScanStep(p, i, i);
    PassPending(p, i, last);
    var r := OnePass(p, i, i);
    var pending, rest := [Text(Substr(p, last, i - last))], Scan(p, r.i, r.last);
    assert (pending + r.rows) + rest == pending + (r.rows + rest);
  }

  /** At a loop head with no `%` in the pending text, what is still to come is
      the meaning of the text from `last` on. */
  lemma {:induction false} ScanMeans(p: string, i: nat, last: nat)
    requires last <= i <= |p| && '%' !in p[last..i]
    ensures Scan(p, i, last) == Denote(p[last..])
    decreases |p| - i, 1
  {
    hide Scan, Denote, OnePass, Substr, Find;
    var q := p[last..];
    if i < |p| {
      ScanStep(p, i, last);
    }
    if last < |p| {
      DenoteStep(q);
    }
    if i == |p| {
      NothingLeft(p, last);
    } else if p[i] != '%' {
      assert p[last..i + 1] == p[last..i] + [p[i]];
      PlainPass(p, i, last);
      ScanMeans(p, i + 1, last);
    } else {
      ScanDirective(p, i);
      if last < i {
        LiteralChunk(p, i, last);
        if i + 1 < |p| {
          ScanPending(p, i, last);
        }
      }
    }
  }

  lemma PlainPass(p: string, i: nat, last: nat)
    requires AtLoopHead(p, i, last) && i < |p| && p[i] != '%'
    ensures OnePass(p, i, last) == Pass([], i + 1, last)
  {
  }

  lemma NothingLeft(p: string, last: nat)
    requires last <= |p| && '%' !in p[last..|p|]
    ensures Scan(p, |p|, last) == Denote(p[last..])
  {
    if last < |p| {
      var q := p[last..];
      assert q == q[..|q|] == p[last..|p|];
      FindIs(q, '%', 0, |q|);
      ScanEnd(p, last);
    }
  }

  lemma LiteralFirst(q: string, k: nat)
    requires 0 < k < |q| && '%' !in q[..k] && q[k] == '%'
    ensures FirstChunk(q) == if k + 1 == |q| then Chunk([Text(q[..k]), Text(q)], "") else Chunk([Text(q[..k])], q[k..])
  {
    hide Find;
    assert q[0] == q[..k][0] && q[0..k] == q[..k];
    FindIs(q, '%', 0, k);
  }

  /** A literal up to the `%` at `i`: emitted alone, except that before a final
      lone `%` it is emitted twice, the second time with the `%`. */
  lemma LiteralChunk(p: string, i: nat, last: nat)
    requires last < i < |p| && '%' !in p[last..i] && p[i] == '%'
    ensures i + 1 < |p| ==>
              FirstChunk(p[last..]) == Chunk([Text(p[last..i])], p[i..]) && Substr(p, last, i - last) == p[last..i]
    ensures i + 1 == |p| ==> Scan(p, i, last) == Denote(p[last..])
  {
    hide Find, FirstChunk, Denote, Scan;
    var q := p[last..];
    assert q[..i - last] == p[last..i] && q[i - last..] == p[i..];
    LiteralFirst(q, i - last);
    if i + 1 == |p| {
      DenoteStep(q);
      assert Denote("") == [] by { DenoteNone(); }
      ScanEnd(p, last);
      ScanStep(p, i, last);
      assert OnePass(p, i, last).rows == [Text(p[last..i])];
    }
  }

  lemma DenoteNone()
    ensures Denote("") == []
  {
  }

  /** The same at a `%` with no pending text. */
  lemma {:induction false} ScanDirective(p: string, i: nat)
    requires i < |p| && p[i] == '%'
    ensures Scan(p, i, i) == Denote(p[i..])
    decreases |p| - i, 0
  {
    hide Scan, Denote, OnePass, FirstChunk, Substr, Find;
    var q := p[i..];
    ScanStep(p, i, i);
    DenoteStep(q);
    if i + 1 == |p| {
      LonePercent(p, i);
    } else if p[i + 1] == '%' {
      DoubledPercent(p, i);
      if i + 2 < |p| {
        ScanDirective(p, i + 1);
        ScanPending(p, i + 1, i + 2);
        var rest := Scan(p, i + 1, i + 1);
        assert [Text("%")] + ([Text(p[i + 2..])] + rest) == [Text("%"), Text(p[i + 2..])] + rest;
      }
    } else {
      var last := OnePass(p, i, i).last;
      SingleDirective(p, i);
      ScanMeans(p, last, last);
    }
  }

  lemma LonePercent(p: string, i: nat)
    requires i + 1 == |p| && p[i] == '%'
    ensures Scan(p, i, i) == Denote(p[i..])
  {
    ScanEnd(p, i);
    assert p[i..] == "%" && FirstChunk("%") == Chunk([Text("%")], "");
  }

  lemma DoubledPercent(p: string, i: nat)
    requires i + 1 < |p| && p[i] == p[i + 1] == '%'
    ensures OnePass(p, i, i) == Pass([Text("%")], i + 1, i + 2)
    ensures FirstChunk(p[i..]) == Chunk([Text("%"), Text(p[i + 2..])], if i + 2 == |p| then "" else p[i + 1..])
    ensures Substr(p, i + 2, -1) == p[i + 2..]
    ensures i + 2 == |p| ==> Scan(p, i + 1, i + 2) == [Text(p[i + 2..])] && Denote("") == []
  {
    var q := p[i..];
    assert q[1..] == p[i + 1..] && q[2..] == p[i + 2..];
  }

  lemma SingleDirective(p: string, i: nat)
    requires i + 1 < |p| && p[i] == '%' && p[i + 1] != '%'
    ensures var r, c := OnePass(p, i, i), FirstChunk(p[i..]);
            && i < r.last <= |p|
            && r.rows == c.rows && c.rest == p[r.last..]
            && Scan(p, r.i, r.last) == Scan(p, r.last, r.last)
  {
    hide Scan, FirstChunk, Substr, Find;
    ScanSkip(p, i + 1);
    if i + 2 < |p| && p[i + 2] == '{' && Find(p, '}', i + 3) < |p| {
      ClosedBrace(p, i);
    } else {
      BareOrUnclosed(p, i);
    }
  }

  lemma ClosedBrace(p: string, i: nat)
    requires i + 2 < |p| && p[i] == '%' && p[i + 1] != '%' && p[i + 2] == '{' && Find(p, '}', i + 3) < |p|
    ensures var idx := Find(p, '}', i + 3);
            && OnePass(p, i, i) == Pass([Directive(p[i + 1], p[i + 3..idx])], idx + 1, idx + 1)
            && FirstChunk(p[i..]) == Chunk([Directive(p[i + 1], p[i + 3..idx])], p[idx + 1..])
  {
    var q, idx := p[i..], Find(p, '}', i + 3);
    FindShift(p, '}', i, i + 3);
    assert q[3..idx - i] == p[i + 3..idx];
    assert q[idx - i + 1..] == p[idx + 1..];
  }

  lemma BareOrUnclosed(p: string, i: nat)
    requires i + 1 < |p| && p[i] == '%' && p[i + 1] != '%'
    requires i + 2 < |p| && p[i + 2] == '{' ==> Find(p, '}', i + 3) == |p|
    ensures var rows := if i + 2 < |p| && p[i + 2] == '{' then [] else [Directive(p[i + 1], "")];
            && OnePass(p, i, i) == Pass(rows, i + 1, i + 2)
            && FirstChunk(p[i..]) == Chunk(rows, p[i + 2..])
  {
    assert p[i..][2..] == p[i + 2..];
    if i + 2 < |p| {
      FindShift(p, '}', i, i + 3);
    }
  }

  lemma ScanSkip(p: string, i: nat)
    requires i < |p| && p[i] != '%'
    ensures Scan(p, i, i + 1) == Scan(p, i + 1, i + 1)
  {
  }

  /** For every pattern, malformed or not, the two-index scan computes the
      index-free meaning. */
  lemma ScanIsDenote(p: string)
    ensures Scan(p, 0, 0) == Denote(p)
  {
    assert p[0..] == p;
    ScanMeans(p, 0, 0);
  }

  // ---------- The indices ----------

  /** The loop head the scan reaches after `n` passes (it stays at the end). */
  function Head(p: string, n: nat): (h: Pass)
    ensures AtLoopHead(p, h.i, h.last)
  {
    if n == 0 then Pass([], 0, 0)
    else
      var h := Head(p, n - 1);
      if h.i == |p| then h else OnePass(p, h.i, h.last)
  }

  /** Every pass moves on, so the scan is over after at most |p| passes. */
  lemma {:induction false} HeadAdvances(p: string, n: nat)
    ensures Head(p, n).i >= if n <= |p| then n else |p|
  {
    hide OnePass;
    if n == 0 {
    } else {
      HeadAdvances(p, n - 1);
    }
  }

  /** At a `%`, the pending text has a negative length, so that `substr` runs to
      the end of the pattern, exactly when the pass before started at the `%`
      next to it, that is, on the second of two adjacent percent signs. */
  lemma NegativeCount(p: string, n: nat)
    requires Head(p, n).i < |p| && p[Head(p, n).i] == '%'
    ensures var h := Head(p, n);
            h.i - h.last < 0 <==> n > 0 && Head(p, n - 1).i == h.i - 1 && p[h.i - 1] == '%'
  {
    if n > 0 {
      var h := Head(p, n - 1);
      assert h.i < |p|;
    }
  }
}
