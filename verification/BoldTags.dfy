/**
 * Which bold tags of an alert are closed: Telegram refuses a message with an open one, and the
 * hard cap of _format_message can leave one.
 */
module BoldTags {
  import opened HtmlTruncation

  /** Opening minus closing bold tags, counted in the characters. */
  function Bolds(s: string): int {
    if s == "" then 0
    else (if "<b>" <= s then 1 else if "</b>" <= s then -1 else 0) + Bolds(s[1..])
  }

  lemma Skip(c: char, s: string)
    requires c != '<'
    ensures Bolds([c] + s) == Bolds(s)
  {
    var t := [c] + s;
    assert t[1..] == s && t[0] == c;
    StartsElse("<b>", t);
    StartsElse("</b>", t);
  }

  lemma StartsElse(tag: string, t: string)
    requires tag != "" && t != "" && t[0] != tag[0]
    ensures !(tag <= t)
  {
  }

  lemma {:induction false} NoTags(s: string)
    requires '<' !in s
    ensures Bolds(s) == 0
  {
    if s != "" {
      assert s[0] in s && forall c :: c in s[1..] ==> c in s;
      NoTags(s[1..]);
    }
  }

  /** No tag is left half-open at the end. */
  predicate Finished(s: string) {
    forall i :: 0 <= i < |s| && s[i] == '<' ==> '>' in s[i..]
  }

  lemma FinishedTail(s: string)
    requires s != "" && Finished(s)
    ensures Finished(s[1..])
  {
    forall i | 0 <= i < |s[1..]| && s[1..][i] == '<' ensures '>' in s[1..][i..] {
      assert s[1..][i..] == s[i + 1..];
    }
  }

  lemma TooShort(s: string, t: string, tag: string)
    requires |s| < |tag| && '>' in s && '>' !in tag[..|tag| - 1]
    ensures !(tag <= s + t) && !(tag <= s)
  {
    var j :| 0 <= j < |s| && s[j] == '>';
    assert (s + t)[j] == '>' && tag[j] == tag[..|tag| - 1][j];
  }

  lemma SameStart(s: string, t: string, tag: string)
    requires tag != "" && '>' !in tag[..|tag| - 1] && (|s| < |tag| ==> '>' in s)
    ensures tag <= s + t <==> tag <= s
  {
    if |s| < |tag| {
      TooShort(s, t, tag);
    } else {
      assert (s + t)[..|tag|] == s[..|tag|];
    }
  }

  lemma {:induction false} BoldsConcat(s: string, t: string)
    requires Finished(s)
    ensures Bolds(s + t) == Bolds(s) + Bolds(t)
  {
    if s == "" {
      assert s + t == t;
    } else {
      FinishedTail(s);
      BoldsConcat(s[1..], t);
      SameFirst(s, t);
    }
  }

  lemma SameFirst(s: string, t: string)
    requires s != "" && Finished(s)
    ensures (s + t)[1..] == s[1..] + t
    ensures "<b>" <= s + t <==> "<b>" <= s
    ensures "</b>" <= s + t <==> "</b>" <= s
  {
    if s[0] == '<' {
      assert s[0..] == s;
      SameStart(s, t, "<b>");
      SameStart(s, t, "</b>");
    } else {
      assert "<b>"[0] == "</b>"[0] == '<';
      StartsElse("<b>", s);
      StartsElse("</b>", s);
      StartsElse("<b>", s + t);
      StartsElse("</b>", s + t);
    }
  }

  lemma LastOf(s: string, c: char, i: nat)
    requires i < |s| && s[i] == c
    ensures RFind(s, c) >= i
  {
    var k := RFind(s, c);
    assert k < i ==> c in s[k + 1..] by {
      if k < i { assert s[k + 1..][i - k - 1] == c; }
    }
  }

  lemma WellFormedFinished(s: string)
    requires WellFormed(s)
    ensures Finished(s)
  {
    var ts :| Whole(ts) && Render(ts) == s;
    RenderIsClosed(ts);
    forall i | 0 <= i < |s| && s[i] == '<' ensures '>' in s[i..] {
      LastOf(s, '<', i);
      var gt := RFind(s, '>');
      assert s[i..][gt - i] == s[gt];
    }
  }

  // ----- one bold span -----------------------------------------------------------------

  lemma TailCounts(x: string)
    ensures Bolds("b>" + x) == Bolds(x)
  {
    Skip('>', x);
    Skip('b', ['>'] + x);
    assert "b>" + x == ['b'] + (['>'] + x);
  }

  lemma OpeningCounts(x: string)
    ensures Bolds("<b>" + x) == 1 + Bolds(x)
  {
    TailCounts(x);
    var s := "<b>" + x;
    assert s[1..] == "b>" + x && "<b>" <= s;
  }

  lemma ClosingCounts(y: string)
    ensures Bolds("</b>" + y) == -1 + Bolds(y)
  {
    TailCounts(y);
    Skip('/', "b>" + y);
    ClosingStarts(y);
  }

  lemma ClosingStarts(y: string)
    ensures var s := "</b>" + y; s[1..] == ['/'] + ("b>" + y) && "</b>" <= s && !("<b>" <= s)
  {
    var s := "</b>" + y;
    assert s[1] == '/' && "<b>"[1] == 'b';
  }

  lemma FinishedOpening(x: string)
    requires '<' !in x
    ensures Finished("<b>" + x)
  {
    var s := "<b>" + x;
    assert s[2] == '>' && forall j :: 3 <= j < |s| ==> s[j] == x[j - 3];
    assert forall j :: 3 <= j < |s| ==> s[j] != '<';
    forall i | 0 <= i < |s| && s[i] == '<' ensures '>' in s[i..] {
      assert s[i..][2 - i] == '>';
    }
  }

  lemma BoldIsClosed(x: string, y: string)
    requires '<' !in x && '<' !in y
    ensures Bolds("<b>" + x) == 1 && Bolds(Bold(x) + y) == 0
  {
    NoTags(x);
    NoTags(y);
    OpeningCounts(x);
    ClosingCounts(y);
    FinishedOpening(x);
    BoldsConcat("<b>" + x, "</b>" + y);
    assert Bold(x) + y == ("<b>" + x) + ("</b>" + y);
  }

  // ----- cutting spans -------------------------------------------------------------------

  /** Neither a tag nor an entity is open at the end. */
  predicate Closed(s: string) {
    RFind(s, '<') <= RFind(s, '>') && RFind(s, '&') <= RFind(s, ';')
  }

  lemma WellFormedClosed(s: string)
    requires WellFormed(s)
    ensures Closed(s)
  {
    var ts :| Whole(ts) && Render(ts) == s;
    RenderIsClosed(ts);
  }

  lemma DropFrom(head: string, part: string, i: int)
    requires i <= |part|
    ensures i >= 0 ==> (head + part)[..|head| + i] == head + part[..i]
  {
  }

  lemma DropTagAfter(head: string, part: string)
    requires Closed(head)
    ensures DropOpenTag(head + part) == head + DropOpenTag(part)
  {
    RFindConcat(head, part, '<');
    RFindConcat(head, part, '>');
    DropFrom(head, part, RFind(part, '<'));
  }

  lemma DropEntityAfter(head: string, part: string)
    requires Closed(head)
    ensures DropOpenEntity(head + part) == head + DropOpenEntity(part)
  {
    RFindConcat(head, part, '&');
    RFindConcat(head, part, ';');
    DropFrom(head, part, RFind(part, '&'));
  }

  /** A cut beyond a leading piece cuts the rest. */
  lemma CutAfter(head: string, rest: string, limit: nat)
    requires Closed(head) && |head| <= limit
    ensures Truncate(head + rest, limit) == head + Truncate(rest, limit - |head|)
  {
    if |head| + |rest| > limit > 0 {
      var part := rest[..limit - |head|];
      assert (head + rest)[..limit] == head + part;
      DropTagAfter(head, part);
      DropEntityAfter(head, DropOpenTag(part));
    }
  }

  predicate IsTag(tag: string) {
    && tag != "" && tag[0] == '<' && '<' !in tag[1..]
    && '>' !in Init(tag) && '&' !in Init(tag) && ';' !in Init(tag)
  }

  lemma PartOfTag(tag: string, n: nat)
    requires IsTag(tag) && 0 < n < |tag|
    ensures var part := tag[..n];
      part[0] == '<' && '<' !in part[1..] && '>' !in part && '&' !in part && ';' !in part
  {
    assert tag[..n] == Init(tag)[..n];
    assert tag[..n][1..] == tag[1..][..n - 1];
  }

  lemma PartTagAlone(part: string)
    requires part != "" && part[0] == '<' && '<' !in part[1..]
    requires '>' !in part && '&' !in part && ';' !in part
    ensures DropOpenEntity(DropOpenTag(part)) == ""
  {
    PartTagIsDropped("", part);
    assert "" + part == part;
  }

  /** A cut inside a tag drops it. */
  lemma CutOfTag(tag: string, rest: string, limit: nat)
    requires IsTag(tag) && limit < |tag|
    ensures Truncate(tag + rest, limit) == ""
  {
    if limit > 0 {
      assert (tag + rest)[..limit] == tag[..limit];
      PartOfTag(tag, limit);
      PartTagAlone(tag[..limit]);
    }
  }

  lemma CutHasNoTags(s: string, limit: int)
    requires '<' !in s
    ensures '<' !in Truncate(s, limit)
  {
    CutIsPrefix(s, limit);
    assert forall c :: c in Truncate(s, limit) ==> c in s;
  }

  lemma CutIsPrefix(s: string, limit: int)
    ensures Truncate(s, limit) <= s
  {
    if 0 < limit < |s| {
      var cut := DropOpenTag(s[..limit]);
      assert cut <= s && DropOpenEntity(cut) <= cut;
    }
  }

  /** A span of bold text and what follows it. */
  datatype Span = Span(bold: string, text: string)

  function Written(p: Span): string {
    Bold(p.bold) + p.text
  }

  ghost predicate Clean(p: Span) {
    '<' !in p.bold && '<' !in p.text && WellFormed(p.bold) && WellFormed(p.text)
  }

  /** With this much room for the span, its opening tag is kept and its closing tag is not. */
  predicate LeftOpen(p: Span, room: int) {
    |"<b>"| <= room < |Bold(p.bold)|
  }

  lemma WrittenParts(p: Span)
    ensures Written(p) == "<b>" + (p.bold + ("</b>" + p.text))
  {
    Associates("<b>", p.bold, "</b>");
    Associates("<b>", p.bold + "</b>", p.text);
    Associates(p.bold, "</b>", p.text);
  }

  lemma PartsWellFormed(p: Span)
    requires Clean(p)
    ensures WellFormed("</b>" + p.text) && WellFormed(p.bold + ("</b>" + p.text))
  {
    ClosingTag();
    WellFormedConcat("</b>", p.text);
    WellFormedConcat(p.bold, "</b>" + p.text);
  }

  lemma CutSpan(p: Span, limit: nat)
    requires Clean(p)
    ensures Bolds(Truncate(Written(p), limit)) == if LeftOpen(p, limit) then 1 else 0
  {
    if |Bold(p.bold)| <= limit {
      CutInText(p, limit);
    } else if |"<b>"| <= limit {
      CutInBold(p, limit);
    } else {
      CutInOpening(p, limit);
    }
  }

  lemma CutInText(p: Span, limit: nat)
    requires Clean(p) && |Bold(p.bold)| <= limit
    ensures Bolds(Truncate(Written(p), limit)) == 0
  {
    WellFormedBold(p.bold);
    WellFormedClosed(Bold(p.bold));
    CutAfter(Bold(p.bold), p.text, limit);
    CutHasNoTags(p.text, limit - |Bold(p.bold)|);
    BoldIsClosed(p.bold, Truncate(p.text, limit - |Bold(p.bold)|));
  }

  lemma CutInOpening(p: Span, limit: nat)
    requires Clean(p) && limit < |"<b>"|
    ensures Bolds(Truncate(Written(p), limit)) == 0
  {
    WrittenParts(p);
    PartsWellFormed(p);
    OpeningIsTag();
    CutOfTag("<b>", p.bold + ("</b>" + p.text), limit);
  }

  lemma OpeningIsTag()
    ensures IsTag("<b>") && IsTag("</b>")
  {
    assert "<b>"[1..] == "b>" && Init("<b>") == "<b" && "</b>"[1..] == "/b>" && Init("</b>") == "</b";
  }

  lemma CutInBold(p: Span, limit: nat)
    requires Clean(p) && |"<b>"| <= limit < |Bold(p.bold)|
    ensures Bolds(Truncate(Written(p), limit)) == 1
  {
    WrittenParts(p);
    PartsWellFormed(p);
    OpeningTag();
    WellFormedClosed("<b>");
    CutAfter("<b>", p.bold + ("</b>" + p.text), limit);
    CutBeforeClosing(p, limit - 3);
    NoTags(Truncate(p.bold + ("</b>" + p.text), limit - 3));
    OpeningCounts(Truncate(p.bold + ("</b>" + p.text), limit - 3));
  }

  lemma PrefixHasNoTags(s: string, t: string)
    requires s <= t && '<' !in t
    ensures '<' !in s
  {
    assert forall c :: c in s ==> c in t;
  }

  /** What is kept of the bold text when its closing tag is not. */
  lemma CutBeforeClosing(p: Span, limit: nat)
    requires Clean(p) && limit < |p.bold| + |"</b>"|
    ensures '<' !in Truncate(p.bold + ("</b>" + p.text), limit)
  {
    PartsWellFormed(p);
    if limit < |p.bold| {
      CutKeepsHead(p.bold, "</b>" + p.text, limit);
      PrefixHasNoTags(Truncate(p.bold + ("</b>" + p.text), limit), p.bold);
    } else {
      WellFormedClosed(p.bold);
      OpeningIsTag();
      CutAtTag(p.bold, "</b>", p.text, limit);
    }
  }

  lemma CutAtTag(s: string, tag: string, rest: string, limit: nat)
    requires Closed(s) && IsTag(tag) && |s| <= limit < |s| + |tag|
    ensures Truncate(s + (tag + rest), limit) == s
  {
    CutOfTag(tag, rest, limit - |s|);
    CutAfter(s, tag + rest, limit);
    assert s + "" == s;
  }

  function Flat(ps: seq<Span>): string {
    if ps == [] then "" else Written(ps[0]) + Flat(ps[1..])
  }

  /** One of the spans is left open by a cut to this limit. */
  predicate AnyOpen(ps: seq<Span>, limit: int) {
    ps != [] && (LeftOpen(ps[0], limit) || AnyOpen(ps[1..], limit - |Written(ps[0])|))
  }

  ghost predicate AllClean(ps: seq<Span>) {
    forall p :: p in ps ==> Clean(p)
  }

  lemma WellFormedWritten(p: Span)
    requires Clean(p)
    ensures WellFormed(Written(p)) && Bolds(Written(p)) == 0
  {
    WellFormedBold(p.bold);
    WellFormedConcat(Bold(p.bold), p.text);
    BoldIsClosed(p.bold, p.text);
  }

  lemma {:induction false} FlatIsClosed(ps: seq<Span>)
    requires AllClean(ps)
    ensures WellFormed(Flat(ps)) && Bolds(Flat(ps)) == 0
  {
    if ps == [] {
      WellFormedText("");
    } else {
      WellFormedWritten(ps[0]);
      FlatIsClosed(ps[1..]);
      WellFormedConcat(Written(ps[0]), Flat(ps[1..]));
      WellFormedFinished(Written(ps[0]));
      BoldsConcat(Written(ps[0]), Flat(ps[1..]));
    }
  }

  lemma {:induction false} NoRoom(ps: seq<Span>, limit: int)
    requires limit < 3
    ensures !AnyOpen(ps, limit)
  {
    if ps != [] {
      NoRoom(ps[1..], limit - |Written(ps[0])|);
    }
  }

  lemma CutEarlierOrAt(s: string, t: string, limit: int)
    requires |s| >= limit && Closed(s)
    ensures Truncate(s + t, limit) == Truncate(s, limit)
  {
    if |s| == limit {
      CutAfter(s, t, limit);
    } else {
      CutEarlier(s, t, limit);
    }
  }

  lemma CutPast(first: string, rest: string, limit: nat)
    requires WellFormed(first) && |first| <= limit
    ensures Bolds(Truncate(first + rest, limit)) == Bolds(first) + Bolds(Truncate(rest, limit - |first|))
  {
    WellFormedClosed(first);
    CutAfter(first, rest, limit);
    WellFormedFinished(first);
    BoldsConcat(first, Truncate(rest, limit - |first|));
  }

  lemma CutFirst(ps: seq<Span>, limit: nat)
    requires AllClean(ps) && ps != [] && limit <= |Written(ps[0])|
    ensures Bolds(Truncate(Flat(ps), limit)) == if AnyOpen(ps, limit) then 1 else 0
  {
    WellFormedWritten(ps[0]);
    WellFormedClosed(Written(ps[0]));
    CutEarlierOrAt(Written(ps[0]), Flat(ps[1..]), limit);
    NoRoom(ps[1..], limit - |Written(ps[0])|);
    CutSpan(ps[0], limit);
  }

  /** A cut leaves at most one tag open. */
  lemma {:induction false} CutFlat(ps: seq<Span>, limit: nat)
    requires AllClean(ps)
    ensures Bolds(Truncate(Flat(ps), limit)) == if AnyOpen(ps, limit) then 1 else 0
  {
    if ps != [] {
      if limit <= |Written(ps[0])| {
        CutFirst(ps, limit);
      } else {
        WellFormedWritten(ps[0]);
        CutPast(Written(ps[0]), Flat(ps[1..]), limit);
        CutFlat(ps[1..], limit - |Written(ps[0])|);
      }
    }
  }

  // ----- the alert -----------------------------------------------------------------------

  /** The bold labels of a message, each with what stands up to the next. */
  function Spans(a: Alert, time: string, body: string): seq<Span> {
    [Span(("[" + a.severity + "] ") + Escape(a.title), "\n"),
     Span("Module:", (" " + Escape(a.source)) + "\n"),
     Span("Time:", (" " + time) + "\n")]
    + BodySpans(body, Join(ContextLines(a.context)))
  }

  function BodySpans(body: string, context: string): seq<Span> {
    if context == "" then [Span("Body:", "\n" + body)]
    else [Span("Body:", "\n" + (body + "\n")), Span("Context:", "\n" + context)]
  }

  function BodyLines(body: string, context: string): seq<string> {
    [Bold("Body:"), body] + if context == "" then [] else [Bold("Context:"), context]
  }

  lemma JoinMore(line: string, lines: seq<string>)
    requires lines != []
    ensures Join([line] + lines) == line + ("\n" + Join(lines))
  {
    assert ([line] + lines)[1..] == lines;
    Associates(line, "\n", Join(lines));
  }

  lemma FlatMore(p: Span, ps: seq<Span>)
    ensures Flat([p] + ps) == Bold(p.bold) + (p.text + Flat(ps))
  {
    assert ([p] + ps)[1..] == ps;
    Associates(Bold(p.bold), p.text, Flat(ps));
  }

  /** One line of a label and its text is one span. */
  lemma LineIsSpan(name: string, text: string, lines: seq<string>, ps: seq<Span>)
    requires lines != [] && Join(lines) == Flat(ps)
    ensures Join([Bold(name) + text] + lines) == Flat([Span(name, text + "\n")] + ps)
  {
    JoinMore(Bold(name) + text, lines);
    FlatMore(Span(name, text + "\n"), ps);
    Associates(Bold(name), text, "\n" + Join(lines));
    Associates(text, "\n", Join(lines));
  }

  /** So are a label and the text on the line below it. */
  lemma TwoLinesAreSpan(name: string, text: string)
    ensures Join([Bold(name), text]) == Flat([Span(name, "\n" + text)])
  {
    JoinMore(Bold(name), [text]);
    FlatMore(Span(name, "\n" + text), []);
    assert [Bold(name)] + [text] == [Bold(name), text];
    assert [Span(name, "\n" + text)] + [] == [Span(name, "\n" + text)];
    assert ("\n" + text) + "" == "\n" + text;
  }

  lemma TwoLinesMore(name: string, text: string, lines: seq<string>, ps: seq<Span>)
    requires lines != [] && Join(lines) == Flat(ps)
    ensures Join([Bold(name), text] + lines) == Flat([Span(name, "\n" + (text + "\n"))] + ps)
  {
    JoinMore(text, lines);
    JoinMore(Bold(name), [text] + lines);
    assert [Bold(name)] + ([text] + lines) == [Bold(name), text] + lines;
    FlatMore(Span(name, "\n" + (text + "\n")), ps);
    Associates("\n", text + "\n", Flat(ps));
    Associates(text, "\n", Flat(ps));
  }

  lemma BodyIsFlat(body: string, context: string)
    ensures Join(BodyLines(body, context)) == Flat(BodySpans(body, context))
  {
    TwoLinesAreSpan("Body:", body);
    if context == "" {
      assert BodyLines(body, context) == [Bold("Body:"), body];
    } else {
      TwoLinesAreSpan("Context:", context);
      TwoLinesMore("Body:", body, [Bold("Context:"), context], [Span("Context:", "\n" + context)]);
      assert BodySpans(body, context)
          == [Span("Body:", "\n" + (body + "\n"))] + [Span("Context:", "\n" + context)];
    }
  }

  lemma TitleIsSpan(name: string, lines: seq<string>, ps: seq<Span>)
    requires lines != [] && Join(lines) == Flat(ps)
    ensures Join([Bold(name)] + lines) == Flat([Span(name, "\n")] + ps)
  {
    JoinMore(Bold(name), lines);
    FlatMore(Span(name, "\n"), ps);
  }

  lemma HeadIsFlat(title: string, source: string, time: string, lines: seq<string>, ps: seq<Span>)
    requires lines != [] && Join(lines) == Flat(ps)
    ensures Join([Bold(title), Bold("Module:") + (" " + source), Bold("Time:") + (" " + time)] + lines)
         == Flat([Span(title, "\n"), Span("Module:", (" " + source) + "\n"), Span("Time:", (" " + time) + "\n")] + ps)
  {
    var stamp, from := Bold("Time:") + (" " + time), Bold("Module:") + (" " + source);
    var Stamp, From := Span("Time:", (" " + time) + "\n"), Span("Module:", (" " + source) + "\n");
    LineIsSpan("Time:", " " + time, lines, ps);
    LineIsSpan("Module:", " " + source, [stamp] + lines, [Stamp] + ps);
    TitleIsSpan(title, [from] + ([stamp] + lines), [From] + ([Stamp] + ps));
    ThreeFirst(Bold(title), from, stamp, lines);
    ThreeFirst(Span(title, "\n"), From, Stamp, ps);
  }

  lemma ThreeFirst<T>(a: T, b: T, c: T, rest: seq<T>)
    ensures [a] + ([b] + ([c] + rest)) == [a, b, c] + rest
  {
  }

  /** A message is its spans one after the other. */
  lemma LayoutIsFlat(a: Alert, time: string, body: string)
    ensures Layout(a, time, body) == Flat(Spans(a, time, body))
  {
    var context := Join(ContextLines(a.context));
    BodyIsFlat(body, context);
    HeadIsFlat(("[" + a.severity + "] ") + Escape(a.title), Escape(a.source), time,
               BodyLines(body, context), BodySpans(body, context));
    LinesSplit(a, time, body, BodyLines(body, context));
  }

  lemma LinesSplit(a: Alert, time: string, body: string, below: seq<string>)
    requires below == BodyLines(body, Join(ContextLines(a.context)))
    ensures Lines(a, time, body)
         == [TitleLine(a), Bold("Module:") + (" " + Escape(a.source)), Bold("Time:") + (" " + time)] + below
  {
  }

  /** Whole escaped characters, and no tag. */
  ghost predicate Tagless(s: string) {
    '<' !in s && WellFormed(s)
  }

  lemma TaglessConcat(s: string, t: string)
    requires Tagless(s) && Tagless(t)
    ensures Tagless(s + t)
  {
    WellFormedConcat(s, t);
  }

  lemma TaglessPlain(s: string)
    requires HasNoMarkup(s)
    ensures Tagless(s)
  {
    NoMarkupIsPlain(s);
  }

  lemma {:induction false} EscapeHasNoTags(s: string)
    ensures '<' !in Escape(s)
  {
    if s != "" {
      EscapeHasNoTags(Init(s));
      EscapeSnoc(s);
      EntityShape(Last(s));
    }
  }

  lemma TaglessText(s: string)
    ensures Tagless(Escape(s))
  {
    EscapeHasNoTags(s);
    WellFormedText(s);
  }

  ghost predicate AllTagless(lines: seq<string>) {
    forall line :: line in lines ==> Tagless(line)
  }

  lemma {:induction false} TaglessJoin(lines: seq<string>)
    requires AllTagless(lines)
    ensures Tagless(Join(lines))
  {
    if lines == [] {
      WellFormedText("");
    } else if |lines| > 1 {
      TaglessJoin(lines[1..]);
      TaglessPlain("\n");
      TaglessConcat(lines[0], "\n");
      TaglessConcat(lines[0] + "\n", Join(lines[1..]));
    }
  }

  lemma TaglessContext(context: seq<(string, string)>)
    ensures Tagless(Join(ContextLines(context)))
  {
    forall i | 0 <= i < |context|
      ensures Tagless(ContextLines(context)[i])
    {
      var (key, value) := context[i];
      TaglessPlain(": ");
      TaglessText(key);
      TaglessText(value);
      TaglessConcat(Escape(key), ": ");
      TaglessConcat(Escape(key) + ": ", Escape(value));
    }
    TaglessJoin(ContextLines(context));
  }

  lemma CleanLine(name: string, text: string)
    requires HasNoMarkup(name) && Tagless(text)
    ensures Clean(Span(name, (" " + text) + "\n"))
  {
    TaglessPlain(" ");
    TaglessPlain("\n");
    TaglessPlain(name);
    TaglessConcat(" ", text);
    TaglessConcat(" " + text, "\n");
  }

  lemma CleanBelow(name: string, text: string)
    requires HasNoMarkup(name) && Tagless(text)
    ensures Clean(Span(name, "\n" + text)) && Clean(Span(name, "\n" + (text + "\n")))
  {
    TaglessPlain("\n");
    TaglessPlain(name);
    TaglessConcat("\n", text);
    TaglessConcat(text, "\n");
    TaglessConcat("\n", text + "\n");
  }

  lemma CleanTitle(severity: string, title: string)
    requires Tagless(severity)
    ensures Clean(Span(("[" + severity + "] ") + Escape(title), "\n"))
  {
    TaglessPlain("\n");
    TaglessPlain("[");
    TaglessPlain("] ");
    TaglessText(title);
    TaglessConcat("[", severity);
    TaglessConcat("[" + severity, "] ");
    TaglessConcat("[" + severity + "] ", Escape(title));
  }

  lemma CleanBody(body: string, context: string)
    requires Tagless(body) && Tagless(context)
    ensures AllClean(BodySpans(body, context))
  {
    LabelsAreText();
    CleanBelow("Body:", body);
    CleanBelow("Context:", context);
  }

  lemma CleanHead(title: string, source: string, time: string)
    requires Clean(Span(title, "\n")) && Tagless(source) && Tagless(time)
    ensures AllClean([Span(title, "\n"), Span("Module:", (" " + source) + "\n"), Span("Time:", (" " + time) + "\n")])
  {
    LabelsAreText();
    CleanLine("Module:", source);
    CleanLine("Time:", time);
  }

  lemma AllCleanConcat(ps: seq<Span>, qs: seq<Span>)
    requires AllClean(ps) && AllClean(qs)
    ensures AllClean(ps + qs)
  {
  }

  lemma CleanSpans(a: Alert, time: string, body: string)
    requires Tagless(a.severity) && Tagless(time) && Tagless(body)
    ensures AllClean(Spans(a, time, body))
  {
    var title, context := ("[" + a.severity + "] ") + Escape(a.title), Join(ContextLines(a.context));
    CleanTitle(a.severity, a.title);
    TaglessText(a.source);
    CleanHead(title, Escape(a.source), time);
    TaglessContext(a.context);
    CleanBody(body, context);
    AllCleanConcat([Span(title, "\n"), Span("Module:", (" " + Escape(a.source)) + "\n"), Span("Time:", (" " + time) + "\n")],
                   BodySpans(body, context));
  }

  lemma LayoutIsClosed(a: Alert, time: string, body: string)
    requires Tagless(a.severity) && Tagless(time) && Tagless(body)
    ensures Bolds(Layout(a, time, body)) == 0
  {
    LayoutIsFlat(a, time, body);
    CleanSpans(a, time, body);
    FlatIsClosed(Spans(a, time, body));
  }

  lemma ShorterIsClosed(a: Alert, time: string, body: string)
    requires Tagless(a.severity) && Tagless(time)
    ensures Bolds(Layout(a, time, Escape(body) + TRUNCATION_MARKER)) == 0
  {
    TaglessText(body);
    TaglessPlain(TRUNCATION_MARKER);
    TaglessConcat(Escape(body), TRUNCATION_MARKER);
    LayoutIsClosed(a, time, Escape(body) + TRUNCATION_MARKER);
  }

  lemma FollowedByText(cut: string, text: string)
    requires WellFormed(cut) && '<' !in text
    ensures Bolds(cut + text) == Bolds(cut)
  {
    WellFormedFinished(cut);
    BoldsConcat(cut, text);
    NoTags(text);
  }

  lemma CappedFlat(ps: seq<Span>, limit: nat, text: string)
    requires AllClean(ps) && '<' !in text
    ensures Bolds(Truncate(Flat(ps), limit) + text) == if AnyOpen(ps, limit) then 1 else 0
  {
    FlatIsClosed(ps);
    WellFormedCut(Flat(ps), limit);
    CutFlat(ps, limit);
    FollowedByText(Truncate(Flat(ps), limit), text);
  }

  lemma CappedBolds(a: Alert, time: string)
    requires Tagless(a.severity) && Tagless(time)
    ensures Bolds(Truncate(Layout(a, time, TRUNCATION_MARKER), CAP) + TRUNCATION_MARKER)
         == if AnyOpen(Spans(a, time, TRUNCATION_MARKER), CAP) then 1 else 0
  {
    TaglessPlain(TRUNCATION_MARKER);
    LayoutIsFlat(a, time, TRUNCATION_MARKER);
    CleanSpans(a, time, TRUNCATION_MARKER);
    CappedFlat(Spans(a, time, TRUNCATION_MARKER), CAP, TRUNCATION_MARKER);
  }

  /**
   * A sent message leaves a bold tag open exactly when everything but the body is beyond the
   * cap and the cap falls behind the opening tag of a label and before the end of its closing
   * one, whichever label that is.
   */
  lemma BoldClosedIff(a: Alert, time: string)
    requires Tagless(a.severity) && Tagless(time)
    ensures Bolds(FormatMessage(a, time)) == 0 || Bolds(FormatMessage(a, time)) == 1
    ensures Bolds(FormatMessage(a, time)) == 1 <==>
      && Overhead(a, time) + |Escape(a.body)| > MSG_MAX && Overhead(a, time) > CAP
      && AnyOpen(Spans(a, time, TRUNCATION_MARKER), CAP)
  {
    MessageShape(a, time);
    if Overhead(a, time) + |Escape(a.body)| <= MSG_MAX {
      TaglessText(a.body);
      LayoutIsClosed(a, time, Escape(a.body));
    } else if Overhead(a, time) <= CAP {
      ShorterIsClosed(a, time, a.body[..FitText(a.body, CAP - Overhead(a, time))]);
    } else {
      CappedBolds(a, time);
    }
  }
}
