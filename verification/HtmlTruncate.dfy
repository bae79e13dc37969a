/**
 * alerts/telegram_notifier.py: cutting an HTML message to Telegram's limit. `Truncate` looks
 * only at characters; the lemmas say what it does to the tags and entities those spell.
 */
module HtmlTruncation {
  const MSG_MAX := 4096
  const TRUNCATION_MARKER := "\n...[truncated]"
  const CAP := MSG_MAX - |TRUNCATION_MARKER|

  function Init<T>(s: seq<T>): seq<T>
    requires s != []
  {
    s[..|s| - 1]
  }

  function Last<T>(s: seq<T>): T
    requires s != []
  {
    s[|s| - 1]
  }

  /** str.rfind of one character. */
  function RFind(s: string, c: char): (i: int)
    ensures -1 <= i < |s|
    ensures i >= 0 <==> c in s
    ensures i >= 0 ==> s[i] == c && c !in s[i + 1..]
  {
    if s == "" then -1
    else if Last(s) == c then |s| - 1
    else RFind(Init(s), c)
  }

  lemma Associates<T>(a: seq<T>, b: seq<T>, c: seq<T>)
    ensures (a + b) + c == a + (b + c)
  {
  }

  /** _safe_html_truncate. */
  function Truncate(s: string, limit: int): string {
    if limit <= 0 then ""
    else if |s| <= limit then s
    else DropOpenEntity(DropOpenTag(s[..limit]))
  }

  function DropOpenTag(cut: string): string {
    var lt := RFind(cut, '<');
    if lt > RFind(cut, '>') then cut[..lt] else cut
  }

  function DropOpenEntity(cut: string): string {
    var amp := RFind(cut, '&');
    if amp > RFind(cut, ';') && |cut| - amp <= 12 then cut[..amp] else cut
  }

  lemma TruncateFits(s: string, limit: int)
    ensures |Truncate(s, limit)| <= if limit > 0 then limit else 0
  {
  }

  /** str.replace of one character. */
  function Replace(s: string, c: char, replacement: string): string {
    if s == "" then "" else Replace(Init(s), c, replacement) + if Last(s) == c then replacement else [Last(s)]
  }

  /** The five replacements html.escape makes with its default quote=True, the ampersand first. */
  const PASSES: seq<(char, string)> :=
    [('&', "&amp;"), ('<', "&lt;"), ('>', "&gt;"), ('"', "&quot;"), ('\'', "&#x27;")]

  function EscapeFrom(s: string, pass: nat): string
    requires pass <= |PASSES|
    decreases |PASSES| - pass
  {
    if pass == |PASSES| then s else EscapeFrom(Replace(s, PASSES[pass].0, PASSES[pass].1), pass + 1)
  }

  /** html.escape. */
  function Escape(s: string): string {
    EscapeFrom(s, 0)
  }

  lemma {:induction false} ReplaceConcat(a: string, b: string, c: char, replacement: string)
    ensures Replace(a + b, c, replacement) == Replace(a, c, replacement) + Replace(b, c, replacement)
  {
    if b == "" {
      assert a + b == a;
    } else {
      assert Init(a + b) == a + Init(b) && Last(a + b) == Last(b);
      ReplaceConcat(a, Init(b), c, replacement);
      Associates(Replace(a, c, replacement), Replace(Init(b), c, replacement),
                 if Last(b) == c then replacement else [Last(b)]);
    }
  }

  lemma {:induction false} ReplaceAbsent(s: string, c: char, replacement: string)
    requires c !in s
    ensures Replace(s, c, replacement) == s
  {
    if s != "" {
      assert s == Init(s) + [Last(s)] && Last(s) in s;
      ReplaceAbsent(Init(s), c, replacement);
    }
  }

  /** What the passes from one on make of a character. */
  function EntityFrom(c: char, pass: nat): string
    requires pass <= |PASSES|
    decreases |PASSES| - pass
  {
    if pass == |PASSES| then [c]
    else if PASSES[pass].0 == c then PASSES[pass].1
    else EntityFrom(c, pass + 1)
  }

  function Entity(c: char): string {
    EntityFrom(c, 0)
  }

  lemma ReplaceOne(x: char, c: char, replacement: string)
    ensures Replace([x], c, replacement) == if x == c then replacement else [x]
  {
    assert Init([x]) == "";
  }

  /** No pass touches what an earlier one wrote. */
  lemma LaterPassesMiss(earlier: nat)
    requires earlier < |PASSES|
    ensures forall later :: earlier < later < |PASSES| ==> PASSES[later].0 !in PASSES[earlier].1
  {
  }

  lemma {:induction false} EscapeLeaves(s: string, pass: nat)
    requires pass <= |PASSES| && forall later :: pass <= later < |PASSES| ==> PASSES[later].0 !in s
    ensures EscapeFrom(s, pass) == s
    decreases |PASSES| - pass
  {
    if pass < |PASSES| {
      var (c, r) := PASSES[pass];
      ReplaceAbsent(s, c, r);
      EscapeLeaves(s, pass + 1);
    }
  }

  lemma {:induction false} EscapeChar(c: char, pass: nat)
    requires pass <= |PASSES|
    ensures EscapeFrom([c], pass) == EntityFrom(c, pass)
    decreases |PASSES| - pass
  {
    if pass < |PASSES| {
      ReplaceOne(c, PASSES[pass].0, PASSES[pass].1);
      if PASSES[pass].0 == c {
        LaterPassesMiss(pass);
        EscapeLeaves(PASSES[pass].1, pass + 1);
      } else {
        EscapeChar(c, pass + 1);
      }
    }
  }

  lemma {:induction false} EscapeConcatFrom(a: string, b: string, pass: nat)
    requires pass <= |PASSES|
    ensures EscapeFrom(a + b, pass) == EscapeFrom(a, pass) + EscapeFrom(b, pass)
    decreases |PASSES| - pass
  {
    if pass < |PASSES| {
      var (c, r) := PASSES[pass];
      ReplaceConcat(a, b, c, r);
      EscapeConcatFrom(Replace(a, c, r), Replace(b, c, r), pass + 1);
    }
  }

  /** html.escape works character by character. */
  lemma EscapeConcat(a: string, b: string)
    ensures Escape(a + b) == Escape(a) + Escape(b)
  {
    EscapeConcatFrom(a, b, 0);
  }

  /** What html.escape makes of one character. */
  lemma EscapedChar(c: char)
    ensures Escape([c])
         == if c == '&' then "&amp;" else if c == '<' then "&lt;" else if c == '>' then "&gt;"
            else if c == '"' then "&quot;" else if c == '\'' then "&#x27;" else [c]
  {
    EscapeChar(c, 0);
  }

  /** A piece of HTML that must not be split: a tag, or a character as html.escape writes it. */
  datatype Token = Tag(name: string) | Text(c: char)

  predicate TagName(name: string) {
    '<' !in name && '>' !in name && '&' !in name && ';' !in name
  }

  predicate Whole(ts: seq<Token>) {
    forall i :: 0 <= i < |ts| && ts[i].Tag? ==> TagName(ts[i].name)
  }

  function Spell(t: Token): string {
    match t
    case Tag(name) => "<" + name + ">"
    case Text(c) => Entity(c)
  }

  function Render(ts: seq<Token>): string {
    if ts == [] then "" else Render(Init(ts)) + Spell(Last(ts))
  }

  function Texts(s: string): seq<Token> {
    seq(|s|, i requires 0 <= i < |s| => Text(s[i]))
  }

  lemma EscapeSnoc(s: string)
    requires s != ""
    ensures Escape(s) == Escape(Init(s)) + Entity(Last(s))
  {
    assert Init(s) + [Last(s)] == s;
    EscapeConcat(Init(s), [Last(s)]);
    EscapeChar(Last(s), 0);
  }

  lemma {:induction false} RenderTexts(s: string)
    ensures Render(Texts(s)) == Escape(s)
  {
    if s != "" {
      assert Init(Texts(s)) == Texts(Init(s)) && Last(Texts(s)) == Text(Last(s));
      RenderTexts(Init(s));
      EscapeSnoc(s);
    }
  }

  lemma {:induction false} RenderConcat(a: seq<Token>, b: seq<Token>)
    ensures Render(a + b) == Render(a) + Render(b)
  {
    if b == [] {
      assert a + b == a;
    } else {
      assert Init(a + b) == a + Init(b) && Last(a + b) == Last(b);
      RenderConcat(a, Init(b));
      Associates(Render(a), Render(Init(b)), Spell(Last(b)));
    }
  }

  /** How many leading tokens fit in `limit` characters: the longest such prefix. */
  function Fit(ts: seq<Token>, limit: int): (k: nat)
    ensures k <= |ts|
  {
    if ts == [] then 0
    else if |Render(ts)| <= limit then |ts|
    else Fit(Init(ts), limit)
  }

  lemma {:induction false} FitIsLongest(ts: seq<Token>, limit: nat, k: nat)
    requires k <= |ts|
    ensures k <= Fit(ts, limit) <==> |Render(ts[..k])| <= limit
  {
    if ts == [] {
    } else if k == |ts| {
      assert ts[..k] == ts;
    } else {
      assert Init(ts)[..k] == ts[..k];
      FitIsLongest(Init(ts), limit, k);
      if |Render(ts)| <= limit {
        assert Init(ts)[..|ts| - 1] == Init(ts);
        PrefixIsShorter(ts, k);
      }
    }
  }

  lemma {:induction false} PrefixIsShorter(ts: seq<Token>, k: nat)
    requires k <= |ts|
    ensures Render(ts) == Render(ts[..k]) + Render(ts[k..])
  {
    assert ts[..k] + ts[k..] == ts;
    RenderConcat(ts[..k], ts[k..]);
  }

  lemma {:induction false} RFindConcat(a: string, b: string, c: char)
    ensures RFind(a + b, c) == if c in b then |a| + RFind(b, c) else RFind(a, c)
  {
    if b == "" {
      assert a + b == a;
    } else {
      assert Init(a + b) == a + Init(b);
      assert b == Init(b) + [Last(b)];
      RFindConcat(a, Init(b), c);
    }
  }

  /** Whole tokens leave neither a tag nor an entity open. */
  lemma {:induction false} RenderIsClosed(ts: seq<Token>)
    requires Whole(ts)
    ensures RFind(Render(ts), '<') <= RFind(Render(ts), '>')
    ensures RFind(Render(ts), '&') <= RFind(Render(ts), ';')
  {
    if ts != [] {
      RenderIsClosed(Init(ts));
      var s, t := Render(Init(ts)), Spell(Last(ts));
      RFindConcat(s, t, '<');
      RFindConcat(s, t, '>');
      RFindConcat(s, t, '&');
      RFindConcat(s, t, ';');
      SpellIsClosed(Last(ts));
    }
  }

  lemma TagIsClosed(name: string)
    requires TagName(name)
    ensures RFind("<" + name + ">", '<') < RFind("<" + name + ">", '>') && '&' !in "<" + name + ">"
  {
    var tag := "<" + name + ">";
    assert Last(tag) == '>';
    assert RFind(tag, '<') != |tag| - 1;
  }

  /** An entity opens with its only ampersand and ends with its only semicolon. */
  lemma PassShape(k: nat)
    requires k < |PASSES|
    ensures var r := PASSES[k].1; 2 < |r| <= 12 && r[0] == '&' && Last(r) == ';' && '<' !in r && '>' !in r
    ensures var r := PASSES[k].1; '&' !in r[1..] && ';' !in Init(r)
  {
  }

  lemma {:induction false} EntityIsWritten(c: char, pass: nat)
    requires pass <= |PASSES|
    ensures
      || (EntityFrom(c, pass) == [c] && forall k :: pass <= k < |PASSES| ==> PASSES[k].0 != c)
      || exists k :: pass <= k < |PASSES| && EntityFrom(c, pass) == PASSES[k].1
    decreases |PASSES| - pass
  {
    if pass < |PASSES| && PASSES[pass].0 != c {
      EntityIsWritten(c, pass + 1);
    }
  }

  lemma EntityShape(c: char)
    ensures var r := Entity(c);
      || (r == [c] && c != '<' && c != '>' && c != '&')
      || (2 < |r| <= 12 && r[0] == '&' && Last(r) == ';' && '<' !in r && '>' !in r && '&' !in r[1..] && ';' !in Init(r))
  {
    EntityIsWritten(c, 0);
    if k :| 0 <= k < |PASSES| && Entity(c) == PASSES[k].1 {
      PassShape(k);
    } else {
      assert PASSES[0].0 != c && PASSES[1].0 != c && PASSES[2].0 != c;
    }
  }

  lemma SpellIsClosed(t: Token)
    requires t.Tag? ==> TagName(t.name)
    ensures Spell(t) != ""
    ensures '<' in Spell(t) || '>' in Spell(t) ==> RFind(Spell(t), '<') < RFind(Spell(t), '>')
    ensures '&' in Spell(t) ==> RFind(Spell(t), '&') < RFind(Spell(t), ';')
  {
    match t
    case Tag(name) => TagIsClosed(name);
    case Text(c) =>
      EntityShape(c);
      EntityIsClosed(Entity(c));
  }

  lemma EntityIsClosed(r: string)
    requires r != "" && (Last(r) == ';' || '&' !in r)
    ensures '&' in r ==> RFind(r, '&') < RFind(r, ';')
  {
  }

  /** A part-written tag is dropped by the first check ... */
  lemma PartTagIsDropped(s: string, part: string)
    requires part == "" || (part[0] == '<' && '<' !in part[1..])
    requires '>' !in part && '&' !in part && ';' !in part
    requires RFind(s, '<') <= RFind(s, '>') && RFind(s, '&') <= RFind(s, ';')
    ensures DropOpenEntity(DropOpenTag(s + part)) == s
  {
    if part == "" {
      assert s + part == s;
    } else {
      RFindConcat(s, part, '<');
      RFindConcat(s, part, '>');
      OnlyFirst(part, '<');
      assert DropOpenTag(s + part) == s;
    }
  }

  /** ... and a part-written entity by the second. */
  lemma PartEntityIsDropped(s: string, part: string)
    requires part == "" || (part[0] == '&' && '&' !in part[1..])
    requires '<' !in part && '>' !in part && ';' !in part && |part| <= 12
    requires RFind(s, '<') <= RFind(s, '>') && RFind(s, '&') <= RFind(s, ';')
    ensures DropOpenEntity(DropOpenTag(s + part)) == s
  {
    if part == "" {
      assert s + part == s;
    } else {
      RFindConcat(s, part, '<');
      RFindConcat(s, part, '>');
      assert DropOpenTag(s + part) == s + part;
      RFindConcat(s, part, '&');
      RFindConcat(s, part, ';');
      OnlyFirst(part, '&');
    }
  }

  lemma PartEntity(c: char, n: nat)
    requires n < |Entity(c)|
    ensures var part := Entity(c)[..n];
      && (part == "" || (part[0] == '&' && '&' !in part[1..]))
      && '<' !in part && '>' !in part && ';' !in part && |part| <= 12
  {
    EntityShape(c);
    var r := Entity(c);
    if n > 0 {
      assert r[..n][1..] == r[1..][..n - 1];
      assert r[..n] == Init(r)[..n];
    }
  }

  /** The two checks undo any part-written token. */
  lemma PartIsDropped(s: string, t: Token, n: nat)
    requires t.Tag? ==> TagName(t.name)
    requires n < |Spell(t)|
    requires RFind(s, '<') <= RFind(s, '>') && RFind(s, '&') <= RFind(s, ';')
    ensures DropOpenEntity(DropOpenTag(s + Spell(t)[..n])) == s
  {
    match t
    case Tag(name) =>
      if n > 0 { assert Spell(t)[..n] == "<" + name[..n - 1]; }
      PartTagIsDropped(s, Spell(t)[..n]);
    case Text(c) =>
      PartEntity(c, n);
      PartEntityIsDropped(s, Entity(c)[..n]);
  }

  lemma OnlyFirst(s: string, c: char)
    requires s != "" && s[0] == c && c !in s[1..]
    ensures RFind(s, c) == 0
  {
    var i := RFind(s, c);
    assert forall k :: 1 <= k < |s| ==> s[k] == s[1..][k - 1];
  }

  lemma CutEarlier(s: string, t: string, limit: int)
    requires |s| > limit
    ensures Truncate(s + t, limit) == Truncate(s, limit)
  {
    if limit > 0 { assert (s + t)[..limit] == s[..limit]; }
  }

  lemma CutAt(s: string, spelled: string, n: nat)
    requires n < |spelled| && 0 < |s| + n && DropOpenEntity(DropOpenTag(s + spelled[..n])) == s
    ensures Truncate(s + spelled, |s| + n) == s
  {
    assert (s + spelled)[..|s| + n] == s + spelled[..n];
  }

  lemma CutInside(s: string, t: Token, limit: int)
    requires t.Tag? ==> TagName(t.name)
    requires 0 < limit && |s| <= limit < |s| + |Spell(t)|
    requires RFind(s, '<') <= RFind(s, '>') && RFind(s, '&') <= RFind(s, ';')
    ensures Truncate(s + Spell(t), limit) == s
  {
    PartIsDropped(s, t, limit - |s|);
    CutAt(s, Spell(t), limit - |s|);
  }

  lemma {:induction false} FitInit(ts: seq<Token>, limit: int)
    requires ts != [] && |Render(ts)| > limit
    ensures ts[..Fit(ts, limit)] == Init(ts)[..Fit(Init(ts), limit)]
  {
  }

  lemma {:induction false} FitAll(ts: seq<Token>, limit: int)
    requires |Render(ts)| <= limit
    ensures ts[..Fit(ts, limit)] == ts
  {
  }

  /**
   * Truncation cuts between tokens. Whatever the tags and texts and whatever the limit, the
   * result is the rendering of the longest prefix that fits: the cut never splits a tag or
   * an entity, and never drops more than it must.
   */
  lemma {:induction false} TruncateCutsBetweenTokens(ts: seq<Token>, limit: int)
    requires Whole(ts)
    ensures Truncate(Render(ts), limit) == Render(ts[..Fit(ts, limit)])
  {
    if limit <= 0 {
      NothingFits(ts, limit);
    } else if |Render(ts)| <= limit {
      FitAll(ts, limit);
    } else {
      FitInit(ts, limit);
      if |Render(Init(ts))| > limit {
        CutEarlier(Render(Init(ts)), Spell(Last(ts)), limit);
        TruncateCutsBetweenTokens(Init(ts), limit);
      } else {
        FitAll(Init(ts), limit);
        RenderIsClosed(Init(ts));
        CutInside(Render(Init(ts)), Last(ts), limit);
      }
    }
  }

  lemma {:induction false} NothingFits(ts: seq<Token>, limit: int)
    requires limit <= 0
    ensures Fit(ts, limit) == 0
  {
    if ts != [] {
      assert |Spell(Last(ts))| > 0;
      NothingFits(Init(ts), limit);
    }
  }

  /** How much of a plain text survives. */
  function FitText(t: string, limit: int): (n: nat)
    ensures n <= |t|
  {
    Fit(Texts(t), limit)
  }

  /** Truncating the escaped text is escaping the truncated text, cut at the longest prefix whose escape fits. */
  lemma TruncateCommutesWithEscape(t: string, limit: int)
    ensures Truncate(Escape(t), limit) == Escape(t[..FitText(t, limit)])
    ensures limit >= 0 ==> forall n :: 0 <= n <= |t| ==> (n <= FitText(t, limit) <==> |Escape(t[..n])| <= limit)
  {
    RenderTexts(t);
    TruncateCutsBetweenTokens(Texts(t), limit);
    TextsPrefix(t, FitText(t, limit));
    if limit >= 0 {
      forall n | 0 <= n <= |t|
        ensures n <= FitText(t, limit) <==> |Escape(t[..n])| <= limit
      {
        FitIsLongest(Texts(t), limit, n);
        TextsPrefix(t, n);
      }
    }
  }

  lemma TextsPrefix(t: string, n: nat)
    requires n <= |t|
    ensures Render(Texts(t)[..n]) == Escape(t[..n])
  {
    assert Texts(t)[..n] == Texts(t[..n]);
    RenderTexts(t[..n]);
  }

  // ----- _format_message ----------------------------------------------------------------

  datatype Alert = Alert(severity: string, title: string, body: string, source: string, context: seq<(string, string)>)

  /** "\n".join */
  function Join(lines: seq<string>): string {
    if lines == [] then ""
    else if |lines| == 1 then lines[0]
    else lines[0] + "\n" + Join(lines[1..])
  }

  function ContextLines(context: seq<(string, string)>): seq<string> {
    seq(|context|, i requires 0 <= i < |context| => Escape(context[i].0) + ": " + Escape(context[i].1))
  }

  lemma EscapeTwo(c: char, d: char)
    requires Escape([c]) == [c] && Escape([d]) == [d]
    ensures Escape([c, d]) == [c, d]
  {
    EscapeConcat([c], [d]);
    assert [c] + [d] == [c, d];
  }

  lemma EscapeSeparator()
    ensures Escape(": ") == ": "
  {
    EscapedChar(':');
    EscapedChar(' ');
    EscapeTwo(':', ' ');
  }

  lemma EscapeAround(key: string, separator: string, value: string)
    requires Escape(separator) == separator
    ensures Escape(key + (separator + value)) == Escape(key) + separator + Escape(value)
  {
    EscapeConcat(key, separator + value);
    EscapeConcat(separator, value);
    Associates(Escape(key), separator, Escape(value));
  }

  /** A context pair is its key, a colon and its value, escaped. */
  lemma ContextLineIs(context: seq<(string, string)>, i: nat)
    requires i < |context|
    ensures ContextLines(context)[i] == Escape(context[i].0 + (": " + context[i].1))
  {
    EscapeSeparator();
    EscapeAround(context[i].0, ": ", context[i].1);
  }

  function Bold(s: string): string {
    "<b>" + s + "</b>"
  }

  function TitleLine(a: Alert): string {
    Bold(("[" + a.severity + "] ") + Escape(a.title))
  }

  function Lines(a: Alert, time: string, body: string): seq<string> {
    var context := Join(ContextLines(a.context));
    [TitleLine(a), Bold("Module:") + (" " + Escape(a.source)), Bold("Time:") + (" " + time), Bold("Body:"), body]
    + if context == "" then [] else [Bold("Context:"), context]
  }

  function Layout(a: Alert, time: string, body: string): string {
    Join(Lines(a, time, body))
  }

  function AllowedBody(a: Alert, time: string): int {
    var overhead := |Layout(a, time, Escape(a.body))| - |Escape(a.body)|;
    if MSG_MAX - overhead - |TRUNCATION_MARKER| < 0 then 0 else MSG_MAX - overhead - |TRUNCATION_MARKER|
  }

  /** Every message fits Telegram's limit. */
  function FormatMessage(a: Alert, time: string): (message: string)
    ensures |message| <= MSG_MAX
  {
    var message := Layout(a, time, Escape(a.body));
    if |message| <= MSG_MAX then message
    else
      var shorter := Layout(a, time, Truncate(Escape(a.body), AllowedBody(a, time)) + TRUNCATION_MARKER);
      if |shorter| <= MSG_MAX then shorter
      else
        TruncateFits(shorter, CAP);
        Truncate(shorter, CAP) + TRUNCATION_MARKER
  }

  lemma {:induction false} JoinChange(lines: seq<string>, i: nat, line: string)
    requires i < |lines|
    ensures |Join(lines[i := line])| - |line| == |Join(lines)| - |lines[i]|
  {
    if |lines| > 1 {
      if i == 0 {
        assert lines[i := line][1..] == lines[1..];
      } else {
        assert lines[i := line][1..] == lines[1..][i - 1 := line];
        JoinChange(lines[1..], i - 1, line);
      }
    }
  }

  /** The length of everything but the body. */
  function Overhead(a: Alert, time: string): int {
    |Layout(a, time, "")|
  }

  lemma LayoutLength(a: Alert, time: string, body: string)
    ensures |Layout(a, time, body)| == Overhead(a, time) + |body|
  {
    JoinChange(Lines(a, time, ""), 4, body);
    assert Lines(a, time, "")[4 := body] == Lines(a, time, body);
  }

  /**
   * What is sent: the whole message exactly when it fits; otherwise, exactly when the rest
   * leaves room for the marker, the message with the longest prefix of the body whose escape
   * fits; and only beyond that is the message itself cut.
   */
  lemma MessageShape(a: Alert, time: string)
    ensures Overhead(a, time) + |Escape(a.body)| <= MSG_MAX ==>
      FormatMessage(a, time) == Layout(a, time, Escape(a.body))
    ensures Overhead(a, time) + |Escape(a.body)| > MSG_MAX && Overhead(a, time) <= CAP ==>
      FormatMessage(a, time)
      == Layout(a, time, Escape(a.body[..FitText(a.body, CAP - Overhead(a, time))]) + TRUNCATION_MARKER)
    ensures Overhead(a, time) + |Escape(a.body)| > MSG_MAX && Overhead(a, time) > CAP ==>
      FormatMessage(a, time) == Truncate(Layout(a, time, TRUNCATION_MARKER), CAP) + TRUNCATION_MARKER
  {
    LayoutLength(a, time, Escape(a.body));
    var allowed := AllowedBody(a, time);
    var body := Truncate(Escape(a.body), allowed);
    TruncateFits(Escape(a.body), allowed);
    TruncateCommutesWithEscape(a.body, allowed);
    LayoutLength(a, time, body + TRUNCATION_MARKER);
    if allowed == 0 { assert body + TRUNCATION_MARKER == TRUNCATION_MARKER; }
  }

  /** Spelled by whole tags and whole escaped characters. */
  ghost predicate WellFormed(s: string) {
    exists ts :: Whole(ts) && Render(ts) == s
  }

  /** Nothing html.escape would change. */
  predicate Plain(s: string) {
    Escape(s) == s
  }

  lemma WellFormedConcat(a: string, b: string)
    requires WellFormed(a) && WellFormed(b)
    ensures WellFormed(a + b)
  {
    var s :| Whole(s) && Render(s) == a;
    var t :| Whole(t) && Render(t) == b;
    RenderConcat(s, t);
    assert Whole(s + t);
  }

  lemma WellFormedText(s: string)
    ensures WellFormed(Escape(s))
  {
    RenderTexts(s);
    assert Whole(Texts(s));
  }

  lemma WellFormedTag(name: string)
    requires TagName(name)
    ensures WellFormed("<" + name + ">")
  {
    assert Init([Tag(name)]) == [];
    assert Render([Tag(name)]) == "<" + name + ">";
    assert Whole([Tag(name)]);
  }

  lemma WellFormedCut(s: string, limit: int)
    requires WellFormed(s)
    ensures WellFormed(Truncate(s, limit))
  {
    var ts :| Whole(ts) && Render(ts) == s;
    TruncateCutsBetweenTokens(ts, limit);
    assert Whole(ts[..Fit(ts, limit)]);
  }

  ghost predicate AllWellFormed(lines: seq<string>) {
    forall line :: line in lines ==> WellFormed(line)
  }

  lemma {:induction false} WellFormedJoin(lines: seq<string>)
    requires AllWellFormed(lines)
    ensures WellFormed(Join(lines))
  {
    if lines == [] {
      WellFormedText("");
    } else if |lines| > 1 {
      WellFormedJoin(lines[1..]);
      PlainNewline();
      WellFormedText("\n");
      WellFormedConcat(lines[0], "\n");
      WellFormedConcat(lines[0] + "\n", Join(lines[1..]));
    }
  }

  lemma PlainNewline()
    ensures Plain("\n")
  {
    EscapeChar('\n', 0);
  }

  predicate HasNoMarkup(s: string) {
    '&' !in s && '<' !in s && '>' !in s && '"' !in s && '\'' !in s
  }

  lemma PlainChar(c: char)
    requires c != '&' && c != '<' && c != '>' && c != '"' && c != '\''
    ensures Escape([c]) == [c]
  {
    EscapeChar(c, 0);
  }

  lemma {:induction false} NoMarkupIsPlain(s: string)
    requires HasNoMarkup(s)
    ensures Plain(s) && WellFormed(s)
  {
    if s != "" {
      assert s == Init(s) + [Last(s)];
      assert Last(s) in s;
      NoMarkupIsPlain(Init(s));
      PlainChar(Last(s));
      EscapeConcat(Init(s), [Last(s)]);
    }
    WellFormedText(s);
  }

  lemma OpeningTag()
    ensures WellFormed("<b>")
  {
    WellFormedTag("b");
    assert "<" + "b" + ">" == "<b>";
  }

  lemma ClosingTag()
    ensures WellFormed("</b>")
  {
    WellFormedTag("/b");
    assert "<" + "/b" + ">" == "</b>";
  }

  lemma WellFormedBold(s: string)
    requires WellFormed(s)
    ensures WellFormed(Bold(s))
  {
    OpeningTag();
    ClosingTag();
    WellFormedConcat("<b>", s);
    WellFormedConcat("<b>" + s, "</b>");
  }

  lemma WellFormedSeverity(severity: string)
    requires WellFormed(severity)
    ensures WellFormed("[" + severity + "] ")
  {
    NoMarkupIsPlain("[");
    NoMarkupIsPlain("] ");
    WellFormedConcat("[", severity);
    WellFormedConcat("[" + severity, "] ");
  }

  lemma WellFormedTitle(a: Alert)
    requires WellFormed(a.severity)
    ensures WellFormed(TitleLine(a))
  {
    WellFormedSeverity(a.severity);
    WellFormedText(a.title);
    WellFormedConcat("[" + a.severity + "] ", Escape(a.title));
    WellFormedBold(("[" + a.severity + "] ") + Escape(a.title));
  }

  lemma WellFormedContext(a: Alert)
    ensures WellFormed(Join(ContextLines(a.context)))
  {
    forall i | 0 <= i < |a.context|
      ensures WellFormed(ContextLines(a.context)[i])
    {
      var (key, value) := a.context[i];
      WellFormedText(key);
      WellFormedText(value);
      NoMarkupIsPlain(": ");
      WellFormedConcat(Escape(key), ": ");
      WellFormedConcat(Escape(key) + ": ", Escape(value));
    }
    WellFormedJoin(ContextLines(a.context));
  }

  lemma LabelsAreText()
    ensures HasNoMarkup("Module:") && HasNoMarkup("Time:") && HasNoMarkup("Body:") && HasNoMarkup("Context:")
  {
  }

  lemma WellFormedLabel(name: string)
    requires HasNoMarkup(name)
    ensures WellFormed(Bold(name))
  {
    NoMarkupIsPlain(name);
    WellFormedBold(name);
  }

  lemma WellFormedLine(name: string, s: string)
    requires HasNoMarkup(name) && WellFormed(s)
    ensures WellFormed(Bold(name) + (" " + s))
  {
    WellFormedLabel(name);
    NoMarkupIsPlain(" ");
    WellFormedConcat(" ", s);
    WellFormedConcat(Bold(name), " " + s);
  }

  lemma FiveWellFormed(a: string, b: string, c: string, d: string, e: string)
    requires WellFormed(a) && WellFormed(b) && WellFormed(c) && WellFormed(d) && WellFormed(e)
    ensures AllWellFormed([a, b, c, d, e])
  {
  }

  lemma MoreWellFormed(lines: seq<string>, heading: string, text: string, more: bool)
    requires AllWellFormed(lines) && WellFormed(heading) && WellFormed(text)
    ensures AllWellFormed(lines + if more then [] else [heading, text])
  {
  }

  lemma WellFormedLines(a: Alert, time: string, body: string)
    requires WellFormed(a.severity) && WellFormed(time) && WellFormed(body)
    ensures AllWellFormed(Lines(a, time, body))
  {
    WellFormedTitle(a);
    LabelsAreText();
    WellFormedText(a.source);
    WellFormedLine("Module:", Escape(a.source));
    WellFormedLine("Time:", time);
    WellFormedLabel("Body:");
    WellFormedLabel("Context:");
    WellFormedContext(a);
    var source := Bold("Module:") + (" " + Escape(a.source));
    var stamp := Bold("Time:") + (" " + time);
    FiveWellFormed(TitleLine(a), source, stamp, Bold("Body:"), body);
    var context := Join(ContextLines(a.context));
    MoreWellFormed([TitleLine(a), source, stamp, Bold("Body:"), body], Bold("Context:"), context, context == "");
  }

  lemma WellFormedLayout(a: Alert, time: string, body: string)
    requires WellFormed(a.severity) && WellFormed(time) && WellFormed(body)
    ensures WellFormed(Layout(a, time, body))
  {
    WellFormedLines(a, time, body);
    WellFormedJoin(Lines(a, time, body));
  }

  lemma MarkerIsPlain()
    ensures WellFormed(TRUNCATION_MARKER)
  {
    NoMarkupIsPlain(TRUNCATION_MARKER);
  }

  lemma WellFormedShorter(a: Alert, time: string, body: string)
    requires WellFormed(a.severity) && WellFormed(time)
    ensures WellFormed(Layout(a, time, Escape(body) + TRUNCATION_MARKER))
  {
    MarkerIsPlain();
    WellFormedText(body);
    WellFormedConcat(Escape(body), TRUNCATION_MARKER);
    WellFormedLayout(a, time, Escape(body) + TRUNCATION_MARKER);
  }

  lemma WellFormedCapped(a: Alert, time: string)
    requires WellFormed(a.severity) && WellFormed(time)
    ensures WellFormed(Truncate(Layout(a, time, TRUNCATION_MARKER), CAP) + TRUNCATION_MARKER)
  {
    MarkerIsPlain();
    WellFormedLayout(a, time, TRUNCATION_MARKER);
    WellFormedCut(Layout(a, time, TRUNCATION_MARKER), CAP);
    WellFormedConcat(Truncate(Layout(a, time, TRUNCATION_MARKER), CAP), TRUNCATION_MARKER);
  }

  /** No message, cut or not, ends or breaks inside a tag or an entity. */
  lemma MessageIsWellFormed(a: Alert, time: string)
    requires WellFormed(a.severity) && WellFormed(time)
    ensures WellFormed(FormatMessage(a, time))
  {
    MessageShape(a, time);
    if Overhead(a, time) + |Escape(a.body)| <= MSG_MAX {
      WellFormedText(a.body);
      WellFormedLayout(a, time, Escape(a.body));
    } else if Overhead(a, time) <= CAP {
      WellFormedShorter(a, time, a.body[..FitText(a.body, CAP - Overhead(a, time))]);
    } else {
      WellFormedCapped(a, time);
    }
  }

  /** Cutting a text keeps a leading piece whole exactly when that piece fits. */
  lemma CutKeepsHead(head: string, rest: string, limit: nat)
    requires WellFormed(head) && WellFormed(rest)
    ensures |head| <= limit ==> head <= Truncate(head + rest, limit)
    ensures |head| > limit ==> Truncate(head + rest, limit) <= head && |Truncate(head + rest, limit)| <= limit
  {
    var h :| Whole(h) && Render(h) == head;
    var r :| Whole(r) && Render(r) == rest;
    var ts := h + r;
    RenderConcat(h, r);
    TruncateCutsBetweenTokens(ts, limit);
    FitIsLongest(ts, limit, |h|);
    assert ts[..|h|] == h;
    TruncateFits(head + rest, limit);
    KeptPrefix(ts, h, Fit(ts, limit));
  }

  lemma {:induction false} KeptPrefix(ts: seq<Token>, h: seq<Token>, k: nat)
    requires h <= ts && k <= |ts|
    ensures |h| <= k ==> Render(h) <= Render(ts[..k])
    ensures k <= |h| ==> Render(ts[..k]) <= Render(h)
  {
    if |h| <= k {
      assert ts[..k][..|h|] == h;
      PrefixIsShorter(ts[..k], |h|);
    } else {
      assert h[..k] == ts[..k];
      PrefixIsShorter(h, k);
    }
  }

  /** A message opens with its title line, and much more follows. */
  lemma LayoutStarts(a: Alert, time: string, body: string) returns (rest: string)
    requires WellFormed(a.severity) && WellFormed(time) && WellFormed(body)
    ensures Layout(a, time, body) == TitleLine(a) + rest && WellFormed(rest)
    ensures |rest| >= |TRUNCATION_MARKER|
  {
    WellFormedLines(a, time, body);
    var lines := Lines(a, time, body);
    rest := "\n" + Join(lines[1..]);
    RestIsWellFormed(lines);
    JoinCons(lines);
    ModuleIsLong(Escape(a.source));
  }

  lemma JoinCons(lines: seq<string>)
    requires |lines| > 2
    ensures Join(lines) == lines[0] + ("\n" + Join(lines[1..]))
    ensures |Join(lines[1..])| >= |lines[1]|
  {
    Associates(lines[0], "\n", Join(lines[1..]));
  }

  lemma RestIsWellFormed(lines: seq<string>)
    requires lines != [] && AllWellFormed(lines)
    ensures WellFormed("\n" + Join(lines[1..]))
  {
    WellFormedJoin(lines[1..]);
    NoMarkupIsPlain("\n");
    WellFormedConcat("\n", Join(lines[1..]));
  }

  lemma ModuleIsLong(s: string)
    ensures |Bold("Module:") + (" " + s)| >= |TRUNCATION_MARKER|
  {
  }

  /**
   * The bold title is closed again in the message exactly when the title line leaves room
   * for the marker. A longer title is cut, and its tag is left open.
   */
  lemma TitleClosedIff(a: Alert, time: string)
    requires WellFormed(a.severity) && WellFormed(time)
    ensures TitleLine(a) <= FormatMessage(a, time) <==> |TitleLine(a)| <= CAP
  {
    MessageShape(a, time);
    WellFormedText(a.body);
    WellFormedText(a.body[..FitText(a.body, CAP - Overhead(a, time))]);
    if Overhead(a, time) + |Escape(a.body)| <= MSG_MAX {
      var rest := LayoutStarts(a, time, Escape(a.body));
    } else if Overhead(a, time) <= CAP {
      var body := Escape(a.body[..FitText(a.body, CAP - Overhead(a, time))]);
      MarkerIsPlain();
      WellFormedConcat(body, TRUNCATION_MARKER);
      var rest := LayoutStarts(a, time, body + TRUNCATION_MARKER);
    } else {
      MarkerIsPlain();
      var rest := LayoutStarts(a, time, TRUNCATION_MARKER);
      WellFormedTitle(a);
      CutKeepsHead(TitleLine(a), rest, CAP);
      CutTitleStaysOpen(TitleLine(a), Truncate(TitleLine(a) + rest, CAP));
    }
  }

  lemma CutTitleStaysOpen(title: string, cut: string)
    requires title != "" && Last(title) == '>'
    ensures |cut| < |title| ==> !(title <= cut + TRUNCATION_MARKER)
    ensures title <= cut ==> title <= cut + TRUNCATION_MARKER
  {
    assert '>' !in TRUNCATION_MARKER;
    var i := |title| - 1;
    assert |cut| <= i < |cut + TRUNCATION_MARKER| ==> (cut + TRUNCATION_MARKER)[i] in TRUNCATION_MARKER;
  }
}
