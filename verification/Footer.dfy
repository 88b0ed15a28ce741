/** The origin footer stamped on backend replies, and the parser that reads it back from a quote. */
module Footer {
  import opened Base
  import opened Text

  const DOT: string := " \U{B7} "
  const RULE: string := "\n---\n"
  const DASH: string := "\U{2014} "
  const OLD_RULE: string := "\n" + DASH

  // ---------- Printing ----------

  /** An optional text, trimmed; blank counts as absent. */
  function NonBlank(s: Option<string>): Option<string> {
    if s.Some? && Trim(s.value) != [] then Some(Trim(s.value)) else None
  }

  function ShownLabel(name: string, lbl: Option<string>): Option<string> {
    var l := NonBlank(lbl);
    if l.Some? && l.value != name then l else None
  }

  function ShownSession(session: Option<string>): Option<string> {
    var s := NonBlank(session);
    if s.Some? && s.value != "default" then s else None
  }

  function FormatOriginLine(name: string, lbl: Option<string>): string {
    match ShownLabel(name, lbl)
    case Some(l) => name + DOT + l
    case None => name
  }

  function FormatFooter(name: string, lbl: Option<string>, session: Option<string>): string {
    var workspace := FormatOriginLine(name, lbl);
    match ShownSession(session)
    case Some(s) => workspace + DOT + s
    case None => workspace
  }

  function PersonaHeader(persona: Option<string>, emoji: Option<string>): Option<string> {
    match NonBlank(persona)
    case None => None
    case Some(name) =>
      var e := NonBlank(emoji);
      Some((if e.Some? then e.value + " **" + name + "**" else "**" + name + "**") + "\n\n")
  }

  function Stamp(body: string, line: string): string {
    body + "\n" + RULE + line
  }

  /** The text a reply goes out with. A persona header replaces the backend's name in the footer. */
  function Stamped(body: string, persona: Option<string>, emoji: Option<string>, name: string,
                   lbl: Option<string>, session: Option<string>): string
  {
    match PersonaHeader(persona, emoji)
    case Some(header) =>
      (match ShownSession(session)
       case Some(s) => Stamp(header + body, s)
       case None => header + body)
    case None => Stamp(body, FormatFooter(name, lbl, session))
  }

  // ---------- The message, rewritten in place ----------

  datatype TextItem = TextItem(text: Option<string>)

  datatype MessageItem = MessageItem(textItem: Option<TextItem>, extra: string)

  class WeixinMessage {
    var itemList: Option<seq<MessageItem>>

    constructor (itemList: Option<seq<MessageItem>>)
      ensures this.itemList == itemList
    {
      this.itemList := itemList;
    }
  }

  function FirstText(items: Option<seq<MessageItem>>): Option<string> {
    if items.Some? && items.value != [] && items.value[0].textItem.Some? then items.value[0].textItem.value.text
    else None
  }

  function WithFirstText(items: Option<seq<MessageItem>>, text: string): Option<seq<MessageItem>>
    requires FirstText(items).Some?
  {
    Some(items.value[0 := items.value[0].(textItem := Some(TextItem(Some(text))))])
  }

  method ApplyPersonaAndFooter(msg: WeixinMessage, persona: Option<string>, emoji: Option<string>,
                               name: string, lbl: Option<string>, session: Option<string>)
    modifies msg
    ensures msg.itemList ==
            match FirstText(old(msg.itemList))
            case None => old(msg.itemList)
            case Some(t) => WithFirstText(old(msg.itemList), Stamped(t, persona, emoji, name, lbl, session))
  {
    if msg.itemList.None? || msg.itemList.value == [] {
      return;
    }
    var items := msg.itemList.value;
    var first := items[0];
    if first.textItem.None? || first.textItem.value.text.None? {
      return;
    }
    var text := first.textItem.value.text.value;
    var hasPersona := persona.Some? && Trim(persona.value) != [];
    if hasPersona {
      var header := PersonaHeader(persona, emoji);
      text := header.value + text;
      var s := ShownSession(session);
      if s.Some? {
        text := Stamp(text, s.value);
      }
    } else {
      text := Stamp(text, FormatFooter(name, lbl, session));
    }
    msg.itemList := Some(items[0 := first.(textItem := Some(TextItem(Some(text))))]);
  }

  // ---------- Parsing ----------

  /** What follows the last rule, in the current style if there is one, else in the old style. */
  function RuleLine(text: string): Option<string> {
    match RFind(text, RULE)
    case Some(pos) => Some(Trim(text[pos + |RULE|..]))
    case None =>
      match RFind(text, OLD_RULE)
      case Some(pos) => Some(Trim(text[pos + 2..]))
      case None => None
  }

  function FooterLine(text: string): Option<string> {
    var line := RuleLine(text);
    var t := Trim(text);
    if line.Some? then line else if DASH <= t then Some(Trim(t[2..])) else None
  }

  predicate SessionShaped(s: string) {
    "at-" <= s || "session-" <= s
  }

  /** The last part that looks like a session. */
  function LastSession(parts: seq<string>): Option<string> {
    if parts == [] then None else
      var p := Trim(parts[|parts| - 1]);
      if SessionShaped(p) then Some(p) else LastSession(parts[..|parts| - 1])
  }

  function ParseFooter(text: string): Option<(string, Option<string>)> {
    ReadLine(FooterLine(text))
  }

  function ReadLine(line: Option<string>): Option<(string, Option<string>)> {
    if line.None? || line.value == [] then None
    else
      var parts := Split(line.value, DOT);
      var name := Trim(parts[0]);
      if name == [] then None else Some((name, LastSession(parts)))
  }

  // ---------- Round trip ----------

  /** A footer component that cannot be mistaken for structure. */
  ghost predicate Plain(s: string) {
    '\n' !in s && '\U{B7}' !in s
  }

  ghost predicate Components(parts: seq<string>) {
    parts != [] && forall i | 0 <= i < |parts| :: parts[i] != [] && Plain(parts[i]) && Trimmed(parts[i])
  }

  /** Whatever the body holds, the last rule is the one that was stamped. */
  lemma {:induction false} LastRuleIsStamped(body: string, line: string)
    requires '\n' !in line
    ensures RFind(Stamp(body, line), RULE) == Some(|body| + 1)
    ensures Stamp(body, line)[|body| + 1 + |RULE|..] == line
  {
    var text := Stamp(body, line);
    var k := |body| + 1;
    assert text == (body + "\n") + RULE + line;
    assert OccursAt(text, RULE, k);
    assert text[k + 1] == text[k + 2] == text[k + 3] == '-';
    assert forall q | k + 5 <= q < |text| :: text[q] == line[q - (k + 5)] && text[q] != '\n';
    forall p | p > k
      ensures !OccursAt(text, RULE, p)
    {
      OccursChar(text, RULE, p, 0);
      OccursChar(text, RULE, p, 4);
    }
  }

  lemma {:induction false} JoinFacts(parts: seq<string>)
    requires Components(parts)
    ensures JoinWith(parts, DOT) != [] && '\n' !in JoinWith(parts, DOT) && Trimmed(JoinWith(parts, DOT))
    ensures JoinWith(parts, DOT)[0] == parts[0][0]
  {
    if |parts| > 1 {
      JoinFacts(parts[1..]);
      var rest := JoinWith(parts[1..], DOT);
      assert JoinWith(parts, DOT)[|JoinWith(parts, DOT)| - 1] == rest[|rest| - 1];
    }
  }

  /** Stamping components under any body and parsing recovers the first and the last session. */
  lemma {:induction false} ParseStamp(body: string, parts: seq<string>)
    requires Components(parts)
    ensures ParseFooter(Stamp(body, JoinWith(parts, DOT))) == Some((parts[0], LastSession(parts)))
  {
    JoinFacts(parts);
    LastRuleIsStamped(body, JoinWith(parts, DOT));
    TrimIsTrimmed(JoinWith(parts, DOT));
    ReadComponents(parts);
  }

  lemma {:induction false} ReadComponents(parts: seq<string>)
    requires Components(parts)
    ensures ReadLine(Some(JoinWith(parts, DOT))) == Some((parts[0], LastSession(parts)))
  {
    JoinFacts(parts);
    SplitJoined(parts, DOT, 1);
    TrimIsTrimmed(parts[0]);
  }

  lemma {:induction false} LastOldRule(body: string, line: string)
    requires '\n' !in line
    ensures RFind(body + OLD_RULE + line, OLD_RULE) == Some(|body|)
    ensures (body + OLD_RULE + line)[|body| + 2..] == " " + line
  {
    var text := body + OLD_RULE + line;
    assert OccursAt(text, OLD_RULE, |body|);
    assert forall q | |body| < q < |text| :: text[q] != '\n';
    forall p | p > |body| ensures !OccursAt(text, OLD_RULE, p) {
      OccursChar(text, OLD_RULE, p, 0);
    }
  }

  /** A footer in the old style, a dash before its line, is read alike where there is no rule of the
      current style. */
  lemma {:induction false} ParseOldStyle(body: string, parts: seq<string>)
    requires Components(parts) && RFind(body + OLD_RULE + JoinWith(parts, DOT), RULE).None?
    ensures ParseFooter(body + OLD_RULE + JoinWith(parts, DOT)) == Some((parts[0], LastSession(parts)))
  {
    var line := JoinWith(parts, DOT);
    JoinFacts(parts);
    LastOldRule(body, line);
    assert " " + line + [] == " " + line;
    TrimPadded(" ", line, []);
    ReadComponents(parts);
  }

  lemma {:induction false} NoRuleInLine(line: string, rule: string)
    requires '\n' !in line && |rule| > 0 && rule[0] == '\n'
    ensures RFind(line, rule).None?
  {
    forall p ensures !OccursAt(line, rule, p) {
      OccursChar(line, rule, p, 0);
    }
  }

  /** So is a dash and a line that are the whole text. */
  lemma {:induction false} ParseBareLine(parts: seq<string>)
    requires Components(parts)
    ensures ParseFooter(DASH + JoinWith(parts, DOT)) == Some((parts[0], LastSession(parts)))
  {
    var line := JoinWith(parts, DOT);
    JoinFacts(parts);
    NoRuleInLine(DASH + line, RULE);
    NoRuleInLine(DASH + line, OLD_RULE);
    TrimIsTrimmed(DASH + line);
    TrimIsTrimmed(line);
    assert (DASH + line)[2..] == line;
    ReadComponents(parts);
  }

  /** What a footer shows, as components. */
  function Shown(name: string, lbl: Option<string>, session: Option<string>): seq<string> {
    var l, s := ShownLabel(name, lbl), ShownSession(session);
    [name] + (if l.Some? then [l.value] else []) + (if s.Some? then [s.value] else [])
  }

  /** The caller's side of the bargain: a trimmed name, and components free of structure. */
  ghost predicate Printable(name: string, lbl: Option<string>, session: Option<string>) {
    && name != [] && Trimmed(name) && Plain(name)
    && (lbl.Some? ==> Plain(lbl.value))
    && (session.Some? ==> Plain(session.value))
  }

  lemma {:induction false} NonBlankFacts(s: Option<string>)
    ensures NonBlank(s).Some? ==> NonBlank(s).value != [] && Trimmed(NonBlank(s).value)
    ensures NonBlank(s).Some? && Plain(s.value) ==> Plain(NonBlank(s).value)
  {
    if s.Some? {
      TrimIsTrimmed(s.value);
    }
  }

  lemma {:induction false} FooterIsJoin(name: string, lbl: Option<string>, session: Option<string>)
    requires Printable(name, lbl, session)
    ensures Components(Shown(name, lbl, session))
    ensures FormatFooter(name, lbl, session) == JoinWith(Shown(name, lbl, session), DOT)
  {
    NonBlankFacts(lbl);
    NonBlankFacts(session);
    var parts := Shown(name, lbl, session);
    if |parts| == 2 {
      assert parts[1..] == [parts[1]];
    } else if |parts| == 3 {
      assert parts[1..] == [parts[1], parts[2]] && [parts[1], parts[2]][1..] == [parts[2]];
      assert JoinWith(parts[1..], DOT) == parts[1] + DOT + parts[2];
      assert parts[0] + DOT + (parts[1] + DOT + parts[2]) == parts[0] + DOT + parts[1] + DOT + parts[2];
    }
  }

  /** What a footer shows, read back part by part: the name; the label, unless it is blank or the name
      again; the session, unless it is blank or the default one. */
  lemma {:induction false} FooterShows(name: string, lbl: Option<string>, session: Option<string>)
    requires Printable(name, lbl, session)
    ensures Split(FormatFooter(name, lbl, session), DOT) ==
            [name]
            + (if lbl.Some? && Trim(lbl.value) != "" && Trim(lbl.value) != name then [Trim(lbl.value)] else [])
            + (if session.Some? && Trim(session.value) != "" && Trim(session.value) != "default"
               then [Trim(session.value)] else [])
  {
    FooterIsJoin(name, lbl, session);
    SplitJoined(Shown(name, lbl, session), DOT, 1);
  }

  /** The session a quote should lead back to: the shown one, if it has the recognisable shape. */
  function Expected(session: Option<string>): Option<string> {
    var s := ShownSession(session);
    if s.Some? && SessionShaped(s.value) then s else None
  }

  lemma {:induction false} LastSessionOf(parts: seq<string>, last: string)
    requires Trimmed(last)
    ensures LastSession(parts + [last]) == if SessionShaped(last) then Some(last) else LastSession(parts)
  {
    TrimIsTrimmed(last);
    assert (parts + [last])[..|parts|] == parts;
  }

  /** The later of two candidates wins. */
  function OrElse(s: Option<string>, otherwise: Option<string>): Option<string> {
    if s.Some? && SessionShaped(s.value) then s else otherwise
  }

  lemma {:induction false} LastSessionOfOptional(parts: seq<string>, last: Option<string>)
    requires last.Some? ==> Trimmed(last.value)
    ensures LastSession(parts + (if last.Some? then [last.value] else [])) == OrElse(last, LastSession(parts))
  {
    if last.Some? {
      LastSessionOf(parts, last.value);
    } else {
      assert parts + [] == parts;
    }
  }

  lemma {:induction false} LastOfShown(name: string, lbl: Option<string>, session: Option<string>)
    requires Printable(name, lbl, session)
    ensures LastSession(Shown(name, lbl, session)) ==
            OrElse(ShownSession(session), OrElse(ShownLabel(name, lbl), OrElse(Some(name), None)))
  {
    NonBlankFacts(lbl);
    NonBlankFacts(session);
    var l := ShownLabel(name, lbl);
    LastOfWorkspace(name, l);
    LastSessionOfOptional([name] + (if l.Some? then [l.value] else []), ShownSession(session));
  }

  lemma {:induction false} LastOfWorkspace(name: string, l: Option<string>)
    requires Trimmed(name) && (l.Some? ==> Trimmed(l.value))
    ensures LastSession([name] + (if l.Some? then [l.value] else [])) == OrElse(l, OrElse(Some(name), None))
  {
    LastSessionOfOptional([], Some(name));
    assert [] + [name] == [name];
    LastSessionOfOptional([name], l);
  }

  /** Footer round trip, for every body, older footers included: the name always comes back, and the
      session comes back as it should exactly when it is session-shaped itself or nothing else in the
      footer is. */
  lemma {:induction false} FooterRoundTrip(body: string, name: string, lbl: Option<string>, session: Option<string>)
    requires Printable(name, lbl, session)
    ensures var parsed := ParseFooter(Stamp(body, FormatFooter(name, lbl, session)));
            var l := ShownLabel(name, lbl);
            && parsed.Some? && parsed.value.0 == name
            && (parsed.value.1 == Expected(session) <==>
                  Expected(session).Some? || !(SessionShaped(name) || (l.Some? && SessionShaped(l.value))))
  {
    FooterIsJoin(name, lbl, session);
    ParseStamp(body, Shown(name, lbl, session));
    LastOfShown(name, lbl, session);
  }

  ghost predicate Solid(s: string) {
    s != [] && Trimmed(s)
  }

  /** What goes out, to the character: a rule between blank line and footer, dots between its parts. */
  lemma {:induction false} StampedText(body: string, name: string, lbl: string, session: string)
    requires Solid(name) && Solid(lbl) && Solid(session) && lbl != name && session != "default"
    ensures Stamped(body, None, None, name, Some(lbl), Some(session)) ==
            body + "\n\n---\n" + (name + " \U{B7} " + lbl + " \U{B7} " + session)
  {
    TrimIsTrimmed(lbl);
    TrimIsTrimmed(session);
    RuleText(body, name + DOT + lbl + DOT + session);
  }

  lemma {:induction false} RuleText(body: string, line: string)
    ensures Stamp(body, line) == body + "\n\n---\n" + line
  {
    assert "\n" + RULE == "\n\n---\n";
    assert body + "\n" + RULE == body + ("\n" + RULE);
  }

  /** With a persona: its name in asterisks after the emoji, a blank line, the body, and the session. */
  lemma {:induction false} PersonaText(body: string, persona: string, emoji: string, name: string,
                                       lbl: Option<string>, session: string)
    requires Solid(persona) && Solid(emoji) && Solid(session) && session != "default"
    ensures Stamped(body, Some(persona), Some(emoji), name, lbl, Some(session)) ==
            (emoji + " **" + persona + "**" + "\n\n" + body) + "\n\n---\n" + session
    ensures Stamped(body, Some(persona), None, name, lbl, None) == "**" + persona + "**" + "\n\n" + body
  {
    TrimIsTrimmed(persona);
    TrimIsTrimmed(emoji);
    TrimIsTrimmed(session);
    RuleText(emoji + " **" + persona + "**" + "\n\n" + body, session);
  }

  // ---------- Personas ----------

  /** A header is a text that begins without white space and ends in an asterisk, and a blank line. */
  ghost predicate IsDisplay(display: string) {
    |display| >= 2 && !IsWhitespace(display[0]) && display[|display| - 1] == '*'
  }

  lemma {:induction false} HeaderShape(persona: Option<string>, emoji: Option<string>) returns (display: string)
    requires NonBlank(persona).Some?
    ensures PersonaHeader(persona, emoji) == Some(display + "\n\n") && IsDisplay(display)
  {
    var name, e := NonBlank(persona).value, NonBlank(emoji);
    if emoji.Some? {
      TrimIsTrimmed(emoji.value);
    }
    display := if e.Some? then e.value + " **" + name + "**" else "**" + name + "**";
  }

  /** Both rules open with one newline and hold no asterisk. */
  ghost predicate IsRule(rule: string) {
    |rule| >= 2 && rule[0] == '\n' && rule[1] != '\n' && '*' !in rule
  }

  /** A rule in a headed text lies in the header's own text, or in the body with the newline before it:
      it cannot straddle the two. */
  lemma {:induction false} RuleInHeaded(display: string, body: string, rule: string, p: int)
    requires IsDisplay(display) && IsRule(rule)
    ensures OccursAt(display + "\n\n" + body, rule, p) <==>
            || (p > |display| && OccursAt("\n" + body, rule, p - |display| - 1))
            || OccursAt(display, rule, p)
  {
    var text, tail := display + "\n\n" + body, "\n" + body;
    var k := |display| + 1;
    assert text[k..] == tail;
    assert forall q | 0 <= q < |display| :: text[q] == display[q];
    assert text[|display|] == '\n' && text[k] == '\n';
    if p >= k {
      assert p + |rule| <= |text| ==> text[p..p + |rule|] == tail[p - k..p - k + |rule|];
    } else if 0 <= p && p + |rule| <= |display| {
      assert text[p..p + |rule|] == display[p..p + |rule|];
    } else if p == |display| {
      OccursChar(text, rule, p, 1);
    } else if 0 <= p {
      OccursChar(text, rule, p, |display| - 1 - p);
      assert rule[|display| - 1 - p] in rule;
    }
  }

  lemma {:induction false} LastInHeaded(display: string, body: string, rule: string)
    requires IsDisplay(display) && IsRule(rule)
    ensures var r := RFind("\n" + body, rule);
            RFind(display + "\n\n" + body, rule) ==
            if r.Some? then Some(|display| + 1 + r.value) else RFind(display, rule)
  {
    var text, tail := display + "\n\n" + body, "\n" + body;
    var r, own := RFind(tail, rule), RFind(display, rule);
    var last := if r.Some? then Some(|display| + 1 + r.value) else own;
    forall p ensures OccursAt(text, rule, p) ==> last.Some? && p <= last.value {
      RuleInHeaded(display, body, rule, p);
    }
    if last.Some? {
      RuleInHeaded(display, body, rule, last.value);
      LastIs(text, rule, last.value);
    }
  }

  lemma {:induction false} LastIs(text: string, rule: string, p: nat)
    requires OccursAt(text, rule, p) && forall q | OccursAt(text, rule, q) :: q <= p
    ensures RFind(text, rule) == Some(p)
  {}

  /** What follows the last rule of a text that has a persona header: the last of the current style, else
      the last of the old style, each looked for in the body, with the newline before it, and then in
      the header. */
  function HeadedRuleLine(display: string, body: string): Option<string> {
    var text, tail := display + "\n\n" + body, "\n" + body;
    if RFind(tail, RULE).Some? then Some(Trim(tail[RFind(tail, RULE).value + |RULE|..]))
    else if RFind(display, RULE).Some? then Some(Trim(text[RFind(display, RULE).value + |RULE|..]))
    else if RFind(tail, OLD_RULE).Some? then Some(Trim(tail[RFind(tail, OLD_RULE).value + 2..]))
    else if RFind(display, OLD_RULE).Some? then Some(Trim(text[RFind(display, OLD_RULE).value + 2..]))
    else None
  }

  /** The footer line of such a text, if it has no footer of its own: without a rule, it is the text
      after a dash that the header opens with. */
  function HeadedLine(display: string, body: string): Option<string> {
    var line, trimmed := HeadedRuleLine(display, body), Trim(display + "\n\n" + body);
    if line.Some? then line
    else if DASH <= display && DASH <= trimmed then Some(Trim(trimmed[2..]))
    else None
  }

  lemma {:induction false} HeadedRest(display: string, body: string, n: nat)
    requires n <= |body| + 1
    ensures (display + "\n\n" + body)[|display| + 1 + n..] == ("\n" + body)[n..]
  {}

  lemma {:induction false} RuleLineOfHeaded(display: string, body: string)
    requires IsDisplay(display)
    ensures RuleLine(display + "\n\n" + body) == HeadedRuleLine(display, body)
  {
    var tail := "\n" + body;
    LastInHeaded(display, body, RULE);
    LastInHeaded(display, body, OLD_RULE);
    if RFind(tail, RULE).Some? {
      HeadedRest(display, body, RFind(tail, RULE).value + |RULE|);
    } else if RFind(tail, OLD_RULE).Some? {
      HeadedRest(display, body, RFind(tail, OLD_RULE).value + 2);
    }
  }

  lemma {:induction false} TrimEndKeepsSolid(solid: string, rest: string)
    requires solid != [] && !IsWhitespace(solid[|solid| - 1])
    ensures solid <= TrimEnd(solid + rest)
  {
    var s := solid + rest;
    if rest != [] && IsWhitespace(s[|s| - 1]) {
      assert s[..|s| - 1] == solid + rest[..|rest| - 1];
      TrimEndKeepsSolid(solid, rest[..|rest| - 1]);
    } else if rest == [] {
      assert s == solid;
    }
  }

  lemma {:induction false} TrimHeaded(display: string, body: string)
    requires IsDisplay(display)
    ensures DASH <= display <==> DASH <= Trim(display + "\n\n" + body)
  {
    var text := display + "\n\n" + body;
    assert text == display + ("\n\n" + body);
    TrimEndKeepsSolid(display, "\n\n" + body);
    assert TrimStart(text) == text;
    assert display[..2] == Trim(text)[..2];
  }

  lemma {:induction false} HeadedFooterLine(display: string, body: string)
    requires IsDisplay(display)
    ensures FooterLine(display + "\n\n" + body) == HeadedLine(display, body)
  {
    RuleLineOfHeaded(display, body);
    TrimHeaded(display, body);
  }

  /** The header's own text, without the blank line after it. */
  function Display(persona: Option<string>, emoji: Option<string>): string
    requires NonBlank(persona).Some?
  {
    var header := PersonaHeader(persona, emoji).value;
    header[..|header| - 2]
  }

  /** What is read back under any persona. The footer holds at most the session, which the parser takes
      for the backend; without a session nothing is stamped, and an older footer in the text is read. */
  lemma {:induction false} PersonaReadBack(body: string, persona: Option<string>, emoji: Option<string>,
                                           name: string, lbl: Option<string>, session: Option<string>)
    requires NonBlank(persona).Some? && (session.Some? ==> Plain(session.value))
    ensures ParseFooter(Stamped(body, persona, emoji, name, lbl, session)) ==
            match ShownSession(session)
            case Some(s) => Some((s, if SessionShaped(s) then Some(s) else None))
            case None => ReadLine(HeadedLine(Display(persona, emoji), body))
  {
    var display := HeaderShape(persona, emoji);
    assert Display(persona, emoji) == display;
    NonBlankFacts(session);
    match ShownSession(session)
    case Some(s) =>
      ParseStamp(PersonaHeader(persona, emoji).value + body, [s]);
      TrimIsTrimmed(s);
    case None =>
      HeadedFooterLine(display, body);
  }

  /** `line` is read as coming from `name`: that is its trimmed text before the first dot. */
  predicate Names(line: Option<string>, name: string) {
    line.Some? && name != [] && Trim(Split(line.value, DOT)[0]) == name
  }

  lemma {:induction false} ReadLineNames(line: Option<string>, name: string)
    ensures (ReadLine(line).Some? && ReadLine(line).value.0 == name) <==> Names(line, name)
  {
    if line == Some([]) {
      assert Find([], DOT).None?;
      assert Split([], DOT) == [[]];
    }
  }

  /** Under a persona the name read back is the backend's if and only if a session is shown and is
      called the same, or none is shown and the line under the text's own last rule names the backend. */
  lemma {:induction false} PersonaNameIff(body: string, persona: Option<string>, emoji: Option<string>,
                                          name: string, lbl: Option<string>, session: Option<string>)
    requires NonBlank(persona).Some? && (session.Some? ==> Plain(session.value))
    ensures var parsed := ParseFooter(Stamped(body, persona, emoji, name, lbl, session));
            parsed.Some? && parsed.value.0 == name <==>
            match ShownSession(session)
            case Some(s) => s == name
            case None => Names(HeadedLine(Display(persona, emoji), body), name)
  {
    PersonaReadBack(body, persona, emoji, name, lbl, session);
    if ShownSession(session).None? {
      ReadLineNames(HeadedLine(Display(persona, emoji), body), name);
    }
  }

  /** `text` holds a rule of either style. */
  ghost predicate HasRule(text: string) {
    exists p :: OccursAt(text, RULE, p) || OccursAt(text, OLD_RULE, p)
  }

  lemma {:induction false} RuleIsFound(text: string)
    ensures HasRule(text) <==> RFind(text, RULE).Some? || RFind(text, OLD_RULE).Some?
  {
    assert forall p | OccursAt(text, RULE, p) :: p < |text| + 1;
    assert forall p | OccursAt(text, OLD_RULE, p) :: p < |text| + 1;
  }

  /** There is a line to read in a headed text exactly when the body, with the newline before it, holds
      a rule of either style, or the header does, or the header opens with a dash. */
  lemma {:induction false} HeadedLineIff(persona: Option<string>, emoji: Option<string>, body: string)
    requires NonBlank(persona).Some?
    ensures var display := Display(persona, emoji);
            HeadedLine(display, body).Some? <==> HasRule("\n" + body) || HasRule(display) || DASH <= display
  {
    var display := HeaderShape(persona, emoji);
    assert Display(persona, emoji) == display;
    TrimHeaded(display, body);
    RuleIsFound("\n" + body);
    RuleIsFound(display);
  }

  /** With a persona and no session, a text without a rule in it cannot be traced back at all. */
  lemma {:induction false} PersonaReadsNothing(body: string, persona: Option<string>, emoji: Option<string>,
                                               name: string, lbl: Option<string>)
    requires NonBlank(persona).Some?
    ensures var display := Display(persona, emoji);
            !HasRule("\n" + body) && !HasRule(display) && !(DASH <= display) ==>
              ParseFooter(Stamped(body, persona, emoji, name, lbl, None)).None?
  {
    HeadedLineIff(persona, emoji, body);
    PersonaReadBack(body, persona, emoji, name, lbl, None);
  }

  /** With a persona and no session, a reply that ends in an older footer is traced to whoever that
      footer names. */
  lemma {:induction false} OlderFooterIsRead(body: string, older: seq<string>, persona: Option<string>,
                                             emoji: Option<string>, name: string, lbl: Option<string>)
    requires NonBlank(persona).Some? && Components(older)
    ensures ParseFooter(Stamped(Stamp(body, JoinWith(older, DOT)), persona, emoji, name, lbl, None)) ==
            Some((older[0], LastSession(older)))
  {
    PersonaReadBack(Stamp(body, JoinWith(older, DOT)), persona, emoji, name, lbl, None);
    ReadOlder(Display(persona, emoji), body, older);
  }

  lemma {:induction false} ReadOlder(display: string, body: string, older: seq<string>)
    requires Components(older)
    ensures ReadLine(HeadedLine(display, Stamp(body, JoinWith(older, DOT)))) == Some((older[0], LastSession(older)))
  {
    var line := JoinWith(older, DOT);
    JoinFacts(older);
    assert "\n" + Stamp(body, line) == Stamp("\n" + body, line);
    LastRuleIsStamped("\n" + body, line);
    ParseStamp("\n" + body, older);
  }

  lemma {:induction false} StarredOccurs(s: string, rule: string, p: int)
    requires IsRule(rule)
    ensures OccursAt("**" + s + "**", rule, p) <==> OccursAt(s, rule, p - 2)
  {
    var t := "**" + s + "**";
    if 2 <= p && p + |rule| <= |s| + 2 {
      assert t[p..p + |rule|] == s[p - 2..p - 2 + |rule|];
    } else if 0 <= p < 2 {
      OccursChar(t, rule, p, 0);
    } else if 2 <= p <= |s| + 2 {
      OccursChar(t, rule, p, |s| + 2 - p);
      assert |s| + 2 - p < |rule| ==> rule[|s| + 2 - p] in rule;
    }
  }

  lemma {:induction false} LastInStarred(s: string, rule: string)
    requires IsRule(rule)
    ensures RFind("**" + s + "**", rule) ==
            if RFind(s, rule).Some? then Some(RFind(s, rule).value + 2) else None
  {
    var own, all := RFind(s, rule), RFind("**" + s + "**", rule);
    if own.Some? {
      StarredOccurs(s, rule, own.value + 2);
    }
    if all.Some? {
      StarredOccurs(s, rule, all.value);
    }
  }

  /** A rule inside the persona is read like any other: with no session shown and none in the body, what
      follows it, the body included, makes up the footer line. */
  lemma {:induction false} RuleInPersonaIsRead(body: string, persona: string, pos: nat, name: string)
    requires Trimmed(persona) && RFind(persona, RULE) == Some(pos) && !HasRule("\n" + body)
    ensures pos + |RULE| <= |persona|
    ensures ParseFooter(Stamped(body, Some(persona), None, name, None, None)) ==
            ReadLine(Some(Trim(persona[pos + |RULE|..] + "**\n\n" + body)))
  {
    DisplayOfTrimmed(persona);
    PersonaReadBack(body, Some(persona), None, name, None, None);
    LineInPersona(body, persona, pos);
  }

  lemma {:induction false} DisplayOfTrimmed(persona: string)
    requires Trimmed(persona) && persona != []
    ensures NonBlank(Some(persona)).Some? && Display(Some(persona), None) == "**" + persona + "**"
  {
    TrimIsTrimmed(persona);
  }

  lemma {:induction false} LineInPersona(body: string, persona: string, pos: nat)
    requires RFind(persona, RULE) == Some(pos) && !HasRule("\n" + body)
    ensures HeadedLine("**" + persona + "**", body) == Some(Trim(persona[pos + |RULE|..] + "**\n\n" + body))
  {
    var display := "**" + persona + "**";
    LastInStarred(persona, RULE);
    RuleIsFound("\n" + body);
    assert (display + "\n\n" + body)[pos + 2 + |RULE|..] == persona[pos + |RULE|..] + "**\n\n" + body;
  }
}
