/**
 * The status handler: every `[[team]]` or `[[team@event]]` tag in a
 * message gets one reply, naming the team's current or latest event and
 * its status there, with HTML bold tags rewritten to Markdown.
 */
module TeamStatus {
  import opened Options
  import opened Text
  import opened Events

  /** A tag: the team number and the `@` suffix, which is empty when absent. */
  datatype Tag = Tag(team: string, event: string)

  /** Tags the grammar `\[\[(\d+)(?:@(\w+))?\]\]` can produce. */
  predicate WellFormedTag(tag: Tag)
  {
    |tag.team| > 0 && AllDigits(tag.team) && AllWord(tag.event)
  }

  /** The `@event` part of a tag's text, empty when there is no suffix. */
  function Suffix(event: string): string
  {
    if event == "" then "" else "@" + event
  }

  /** The text of a tag. */
  function RenderTag(tag: Tag): string
  {
    "[[" + (tag.team + (Suffix(tag.event) + "]]"))
  }

  /** The length of the digit run `t` starts with. */
  function DigitRun(t: string): (n: nat)
    ensures n <= |t| && AllDigits(t[..n])
    ensures n < |t| ==> !IsDigit(t[n])
  {
    if t != [] && IsDigit(t[0]) then 1 + DigitRun(t[1..]) else 0
  }

  /** The length of the word-character run `t` starts with. */
  function WordRun(t: string): (n: nat)
    ensures n <= |t| && AllWord(t[..n])
    ensures n < |t| ==> !IsWordChar(t[n])
  {
    if t != [] && IsWordChar(t[0]) then 1 + WordRun(t[1..]) else 0
  }

  /** `t` starts with two copies of `c`. */
  predicate Twice(t: string, c: char)
  {
    |t| >= 2 && t[0] == c && t[1] == c
  }

  /** The text after the digit run: the suffix, if any, then the closing brackets. */
  function TailAt(v: string): (r: Option<(string, string)>)
    ensures r.Some? ==> |r.value.1| < |v|
  {
    if Twice(v, ']') then Some(("", v[2..]))
    else if v != [] && v[0] == '@' then
      var x := v[1..];
      var w := WordRun(x);
      if w > 0 && Twice(x[w..], ']') then Some((x[..w], x[w..][2..])) else None
    else None
  }

  /**
   * A tag at the start of `t` and the text after it. `\d+` and `\w+`
   * cannot give back characters to let the rest match, since neither `@`
   * nor `]` is a digit or a word character, so each run is taken whole.
   */
  function TagAt(t: string): (r: Option<(Tag, string)>)
    ensures r.Some? ==> |r.value.1| < |t|
  {
    if !Twice(t, '[') then None
    else
      var u := t[2..];
      var d := DigitRun(u);
      if d == 0 then None
      else
        match TailAt(u[d..])
        case None => None
        case Some((event, rest)) => Some((Tag(u[..d], event), rest))
  }

  /** `FindAllStringSubmatch`: the tags of `s`, leftmost first, none overlapping. */
  function Tags(s: string): seq<Tag>
    decreases |s|
  {
    if s == [] then []
    else
      match TagAt(s)
      case Some((tag, rest)) => [tag] + Tags(rest)
      case None => Tags(s[1..])
  }

  /** Two copies of `c` followed by `u`. */
  lemma TwiceOf(c: char, u: string)
    ensures Twice([c, c] + u, c) && ([c, c] + u)[2..] == u
  {
  }

  /** Taking two copies of `c` off the front and putting them back gives `t`. */
  lemma TwiceSplit(t: string, c: char)
    requires Twice(t, c)
    ensures t == [c, c] + t[2..]
  {
  }

  /** A run is exactly the characters before the first one outside the class. */
  lemma {:induction false} DigitRunOf(a: string, b: string)
    requires AllDigits(a) && (b == [] || !IsDigit(b[0]))
    ensures DigitRun(a + b) == |a|
  {
    if a != [] {
      assert (a + b)[1..] == a[1..] + b;
      DigitRunOf(a[1..], b);
    } else {
      assert a + b == b;
    }
  }

  lemma {:induction false} WordRunOf(a: string, b: string)
    requires AllWord(a) && (b == [] || !IsWordChar(b[0]))
    ensures WordRun(a + b) == |a|
  {
    if a != [] {
      assert (a + b)[1..] == a[1..] + b;
      WordRunOf(a[1..], b);
    } else {
      assert a + b == b;
    }
  }

  /** A tag's text followed by `rest`, grouped the way the scanner reads it. */
  lemma RenderShape(tag: Tag, rest: string)
    ensures RenderTag(tag) + rest == "[[" + (tag.team + (Suffix(tag.event) + ("]]" + rest)))
  {
  }

  lemma TailAtSound(v: string)
    requires TailAt(v).Some?
    ensures AllWord(TailAt(v).value.0)
    ensures v == Suffix(TailAt(v).value.0) + ("]]" + TailAt(v).value.1)
  {
    if Twice(v, ']') {
      TwiceSplit(v, ']');
    } else {
      var x := v[1..];
      var w := WordRun(x);
      var y := x[w..];
      TwiceSplit(y, ']');
      assert x == x[..w] + ("]]" + y[2..]);
      assert v == "@" + x;
    }
  }

  lemma TailAtComplete(event: string, rest: string)
    requires AllWord(event)
    ensures TailAt(Suffix(event) + ("]]" + rest)) == Some((event, rest))
  {
    if event == "" {
      TwiceOf(']', rest);
      assert Suffix(event) + ("]]" + rest) == [']', ']'] + rest;
    } else {
      var x := event + ("]]" + rest);
      assert Suffix(event) + ("]]" + rest) == "@" + x;
      TailAtSuffix(event, x, rest);
    }
  }

  lemma TailAtSuffix(event: string, x: string, rest: string)
    requires event != "" && AllWord(event) && x == event + ("]]" + rest)
    ensures TailAt("@" + x) == Some((event, rest))
  {
    var v := "@" + x;
    assert v[1..] == x;
    assert !Twice(v, ']');
    WordRunOf(event, "]]" + rest);
    assert x[..|event|] == event && x[|event|..] == "]]" + rest;
    TwiceOf(']', rest);
  }

  /** A tag the scanner finds is well formed, and the text is its rendering followed by the rest. */
  lemma TagAtSound(t: string)
    requires TagAt(t).Some?
    ensures WellFormedTag(TagAt(t).value.0)
    ensures t == RenderTag(TagAt(t).value.0) + TagAt(t).value.1
  {
    var u := t[2..];
    var d := DigitRun(u);
    var v := u[d..];
    var (event, rest) := TailAt(v).value;
    assert TagAt(t) == Some((Tag(u[..d], event), rest));
    TagOfParts(t, d, event, rest);
  }

  /** Two `[`, a digit run and a tail the tail scanner accepts are a rendered tag. */
  lemma TagOfParts(t: string, d: nat, event: string, rest: string)
    requires Twice(t, '[') && d == DigitRun(t[2..]) && d > 0
    requires TailAt(t[2..][d..]) == Some((event, rest))
    ensures WellFormedTag(Tag(t[2..][..d], event))
    ensures t == RenderTag(Tag(t[2..][..d], event)) + rest
  {
    var u := t[2..];
    TailAtSound(u[d..]);
    TwiceSplit(t, '[');
    assert u == u[..d] + u[d..];
    RenderShape(Tag(u[..d], event), rest);
  }

  /** The scanner reads back every well-formed tag, whatever follows it. */
  lemma TagAtComplete(tag: Tag, rest: string)
    requires WellFormedTag(tag)
    ensures TagAt(RenderTag(tag) + rest) == Some((tag, rest))
  {
    var v := Suffix(tag.event) + ("]]" + rest);
    var t := RenderTag(tag) + rest;
    RenderShape(tag, rest);
    TwiceOf('[', tag.team + v);
    DigitRunOf(tag.team, v);
    var u := tag.team + v;
    assert u[..|tag.team|] == tag.team && u[|tag.team|..] == v;
    TailAtComplete(tag.event, rest);
  }

  /** Every tag found is well formed. */
  lemma {:induction false} TagsWellFormed(s: string)
    ensures forall i :: 0 <= i < |Tags(s)| ==> WellFormedTag(Tags(s)[i])
    decreases |s|
  {
    if s != [] {
      match TagAt(s)
      case Some((tag, rest)) =>
        TagAtSound(s);
        TagsWellFormed(rest);
      case None =>
        TagsWellFormed(s[1..]);
    }
  }

  /** A message that opens with a tag yields that tag first, then the tags of the rest. */
  lemma TagsOfRendered(tag: Tag, rest: string)
    requires WellFormedTag(tag)
    ensures Tags(RenderTag(tag) + rest) == [tag] + Tags(rest)
  {
    TagAtComplete(tag, rest);
  }

  /** Text without a `[` holds no tag. */
  lemma {:induction false} TagsOfPlain(s: string)
    requires '[' !in s
    ensures Tags(s) == []
    decreases |s|
  {
    if s != [] {
      assert s[0] != '[';
      TagsOfPlain(s[1..]);
    }
  }

  /** The rendering of `tag` occurs at some index of `s`. */
  predicate Written(s: string, tag: Tag)
  {
    exists i :: 0 <= i <= |s| && RenderTag(tag) <= s[i..]
  }

  /** What is written in a suffix is written in the whole text. */
  lemma WrittenInSuffix(s: string, d: nat, tag: Tag)
    requires d <= |s| && Written(s[d..], tag)
    ensures Written(s, tag)
  {
    var i :| 0 <= i <= |s[d..]| && RenderTag(tag) <= s[d..][i..];
    assert s[d..][i..] == s[d + i..];
  }

  /** Every tag found is written in the message. */
  lemma {:induction false} TagsOccur(s: string)
    ensures forall k :: 0 <= k < |Tags(s)| ==> Written(s, Tags(s)[k])
    decreases |s|
  {
    if s != [] {
      if TagAt(s).Some? {
        var rest := TagAt(s).value.1;
        TagsOccur(rest);
        TagsHead(s);
        WrittenCons(s, |s| - |rest|, TagAt(s).value.0, Tags(rest));
      } else {
        TagsOccur(s[1..]);
        TagsStep(s);
        forall k | 0 <= k < |Tags(s)| ensures Written(s, Tags(s)[k]) {
          WrittenInSuffix(s, 1, Tags(s)[k]);
        }
      }
    }
  }

  /** A tag written at the start, then tags written after index `n`, are all written. */
  lemma WrittenCons(s: string, n: nat, tag: Tag, tags: seq<Tag>)
    requires n <= |s| && RenderTag(tag) <= s[0..]
    requires forall k :: 0 <= k < |tags| ==> Written(s[n..], tags[k])
    ensures forall k :: 0 <= k < |[tag] + tags| ==> Written(s, ([tag] + tags)[k])
  {
    forall k | 0 <= k < |[tag] + tags| ensures Written(s, ([tag] + tags)[k]) {
      if k > 0 {
        assert ([tag] + tags)[k] == tags[k - 1];
        WrittenInSuffix(s, n, tags[k - 1]);
      }
    }
  }

  /** A tag read at the start is the first tag found, and it is written there. */
  lemma TagsHead(s: string)
    requires TagAt(s).Some?
    ensures Tags(s) == [TagAt(s).value.0] + Tags(TagAt(s).value.1)
    ensures |TagAt(s).value.1| <= |s| && s[|s| - |TagAt(s).value.1|..] == TagAt(s).value.1
    ensures RenderTag(TagAt(s).value.0) <= s[0..]
  {
    TagAtSound(s);
    var (tag, rest) := TagAt(s).value;
    assert s[|RenderTag(tag)|..] == rest;
    assert s[0..] == s;
  }

  /**
   * Text in front of a message at none of whose indices a tag starts is
   * skipped: the tags are those of what follows.
   */
  lemma {:induction false} TagsSkip(a: string, s: string)
    requires forall i :: 0 <= i < |a| ==> TagAt((a + s)[i..]).None?
    ensures Tags(a + s) == Tags(s)
    decreases |a|
  {
    if a != [] {
      SkipFirst(a, s);
      TagsSkip(a[1..], s);
    } else {
      assert a + s == s;
    }
  }

  /** One character of text at which no tag starts is skipped, and no tag starts in the rest of it. */
  lemma SkipFirst(a: string, s: string)
    requires a != []
    requires forall i :: 0 <= i < |a| ==> TagAt((a + s)[i..]).None?
    ensures Tags(a + s) == Tags(a[1..] + s)
    ensures forall i :: 0 <= i < |a[1..]| ==> TagAt((a[1..] + s)[i..]).None?
  {
    var t := a + s;
    assert t[0..] == t;
    TagsStep(t);
    assert t[1..] == a[1..] + s;
    forall i | 0 <= i < |a[1..]| ensures TagAt((a[1..] + s)[i..]).None? {
      assert (a[1..] + s)[i..] == t[i + 1..];
    }
  }

  /** A text at whose start no tag is read yields the tags of its tail. */
  lemma TagsStep(t: string)
    requires t != [] && TagAt(t).None?
    ensures Tags(t) == Tags(t[1..])
  {
  }

  /** No tag starts inside text without a `[`, whatever follows it. */
  lemma NoTagWithoutBracket(a: string, s: string)
    requires '[' !in a
    ensures forall i :: 0 <= i < |a| ==> TagAt((a + s)[i..]).None?
  {
    forall i | 0 <= i < |a| ensures TagAt((a + s)[i..]).None? {
      assert (a + s)[i..][0] == a[i] && a[i] in a;
    }
  }

  /**
   * Tags are found anywhere: text at none of whose indices a tag starts,
   * a tag, and then the rest yield that tag first and then the tags of
   * the rest.
   */
  lemma TagsAfterText(a: string, tag: Tag, rest: string)
    requires WellFormedTag(tag)
    requires forall i :: 0 <= i < |a| ==> TagAt((a + RenderTag(tag) + rest)[i..]).None?
    ensures Tags(a + RenderTag(tag) + rest) == [tag] + Tags(rest)
  {
    assert a + RenderTag(tag) + rest == a + (RenderTag(tag) + rest);
    TagsSkip(a, RenderTag(tag) + rest);
    TagsOfRendered(tag, rest);
  }

  /** `status of [[254]]` asks for the status of team 254. */
  lemma TagsExample()
    ensures Tags("status of [[254]]") == [Tag("254", "")]
  {
    var tag := Tag("254", "");
    assert RenderTag(tag) == "[[254]]";
    assert "status of [[254]]" == "status of " + RenderTag(tag) + "";
    NoTagWithoutBracket("status of ", RenderTag(tag) + "");
    TagsAfterText("status of ", tag, "");
    assert Tags("") == [];
  }

  /** A `[` that opens no tag does not hide the tag after it: `[x] [[254]]` asks for team 254. */
  lemma TagsAfterBracketExample()
    ensures Tags("[x] [[254]]") == [Tag("254", "")]
  {
    var tag := Tag("254", "");
    var t := "[x] " + RenderTag(tag) + "";
    assert RenderTag(tag) == "[[254]]";
    assert "[x] [[254]]" == t;
    forall i | 0 <= i < 4 ensures TagAt(t[i..]).None? {
      assert t[i..][1] == t[i + 1];
    }
    TagsAfterText("[x] ", tag, "");
    assert Tags("") == [];
  }

  /** The fixed reply for a tag that has no event to report on. */
  const ComeOnJoe: string := "***Come on Joe, you know better.***"

  /** `<b>` and then `</b>` replaced by `**`. */
  function Bold(s: string): string
  {
    ReplaceAll(ReplaceAll(s, "<b>", "**"), "</b>", "**")
  }

  /** A reply never contains an HTML bold tag. */
  lemma BoldClean(s: string, k: int)
    ensures !OccursAt(Bold(s), "<b>", k) && !OccursAt(Bold(s), "</b>", k)
  {
    var t := ReplaceAll(s, "<b>", "**");
    forall j | 0 <= j <= |t| ensures !OccursAt(t, "<b>", j) {
      ReplaceAllAvoids(s, "<b>", "**", "<b>", j);
    }
    ReplaceAllAvoids(t, "</b>", "**", "<b>", k);
    ReplaceAllAvoids(t, "</b>", "**", "</b>", k);
  }

  /** Text without `<` passes through the rewrite unchanged. */
  lemma BoldPlain(s: string)
    requires '<' !in s
    ensures Bold(s) == s
  {
    forall k | 0 <= k <= |s| ensures !OccursAt(s, "<b>", k) && !OccursAt(s, "</b>", k) {
      if k < |s| {
        assert s[k] != '<';
      }
    }
    ReplaceAllIdentity(s, "<b>", "**");
    ReplaceAllIdentity(s, "</b>", "**");
  }

  /**
   * The reply to one tag. Only a tag without a suffix looks up an event;
   * without an event code the reply is the fixed text, otherwise it names
   * the event and the team's status there.
   */
  function Reply(tag: Tag, eventsOf: string -> seq<Event>, statusOf: (string, string) -> string, now: int): string
  {
    var (code, name) := if tag.event == "" then SelectEvent(eventsOf(tag.team), now) else ("", "");
    Bold(if code == "" then ComeOnJoe else "At " + name + ", " + statusOf(tag.team, code))
  }

  /** The reply as the handler builds it, from the code and name it looked up. */
  lemma ReplyOf(tag: Tag, eventsOf: string -> seq<Event>, statusOf: (string, string) -> string, now: int,
                code: string, name: string)
    requires (code, name) == if tag.event == "" then SelectEvent(eventsOf(tag.team), now) else ("", "")
    ensures Reply(tag, eventsOf, statusOf, now) == Bold(if code == "" then ComeOnJoe else "At " + name + ", " + statusOf(tag.team, code))
  {
  }

  /** A tag with an `@event` suffix always gets the fixed reply: the suffix is never used. */
  lemma SuffixIgnored(tag: Tag, eventsOf: string -> seq<Event>, statusOf: (string, string) -> string, now: int)
    requires tag.event != ""
    ensures Reply(tag, eventsOf, statusOf, now) == ComeOnJoe
  {
    BoldPlain(ComeOnJoe);
  }

  /** With an event to report, the reply names it and carries the status with bold rewritten. */
  lemma ReplyNamesEvent(tag: Tag, eventsOf: string -> seq<Event>, statusOf: (string, string) -> string, now: int)
    requires tag.event == "" && SelectEvent(eventsOf(tag.team), now).0 != ""
    requires '<' !in SelectEvent(eventsOf(tag.team), now).1
    ensures Reply(tag, eventsOf, statusOf, now) ==
      "At " + SelectEvent(eventsOf(tag.team), now).1 + ", " + Bold(statusOf(tag.team, SelectEvent(eventsOf(tag.team), now).0))
  {
    var (code, name) := SelectEvent(eventsOf(tag.team), now);
    var status := statusOf(tag.team, code);
    BoldPrefix("At " + name + ", ", status);
  }

  /** The rewrite leaves a `<`-free prefix alone and works on the rest. */
  lemma BoldPrefix(a: string, b: string)
    requires '<' !in a
    ensures Bold(a + b) == a + Bold(b)
  {
    ReplaceSkip(a, b, "<b>", "**");
    ReplaceSkip(a, ReplaceAll(b, "<b>", "**"), "</b>", "**");
  }

  /** A `<b>` after a `<`-free prefix becomes `**`, and the rewrite goes on after it. */
  lemma BoldOpen(a: string, b: string)
    requires '<' !in a
    ensures Bold(a + "<b>" + b) == a + "**" + Bold(b)
  {
    ReplaceOccurrence(a, b, "<b>", "**");
    var b1 := ReplaceAll(b, "<b>", "**");
    assert a + "**" + b1 == (a + "**") + b1;
    ReplaceSkip(a + "**", b1, "</b>", "**");
  }

  /** A `</b>` after a `<`-free prefix becomes `**`, and the rewrite goes on after it. */
  lemma BoldClose(a: string, b: string)
    requires '<' !in a
    ensures Bold(a + "</b>" + b) == a + "**" + Bold(b)
  {
    OpenSkipsClose(a, b);
    ReplaceOccurrence(a, ReplaceAll(b, "<b>", "**"), "</b>", "**");
  }

  /** Rewriting `<b>` copies a `<`-free prefix and a `</b>` after it. */
  lemma OpenSkipsClose(a: string, b: string)
    requires '<' !in a
    ensures ReplaceAll(a + "</b>" + b, "<b>", "**") == a + "</b>" + ReplaceAll(b, "<b>", "**")
  {
    CloseSurvivesOpen(b);
    ReplaceSkip(a, "</b>" + b, "<b>", "**");
    assert a + "</b>" + b == a + ("</b>" + b);
  }

  /** Rewriting `<b>` leaves a `</b>` in place. */
  lemma CloseSurvivesOpen(b: string)
    ensures ReplaceAll("</b>" + b, "<b>", "**") == "</b>" + ReplaceAll(b, "<b>", "**")
  {
    var s := "</b>" + b;
    assert s[..3][1] == '/';
    assert s[1..] == "/b>" + b;
    ReplaceSkip("/b>", b, "<b>", "**");
    assert ReplaceAll(s, "<b>", "**") == [s[0]] + ReplaceAll(s[1..], "<b>", "**");
    assert [s[0]] + ("/b>" + ReplaceAll(b, "<b>", "**")) == "</b>" + ReplaceAll(b, "<b>", "**");
  }

  /** The reply to one tag, built the way the handler builds it. */
  method ReplyTo(tag: Tag, eventsOf: string -> seq<Event>, statusOf: (string, string) -> string, now: int)
    returns (reply: string)
    ensures reply == Reply(tag, eventsOf, statusOf, now)
  {
    var code, name := "", "";
    if tag.event == "" {
      code, name := DetermineEvent(eventsOf(tag.team), now);
    }
    var status := if code == "" then ComeOnJoe else "At " + name + ", " + statusOf(tag.team, code);
    ReplyOf(tag, eventsOf, statusOf, now, code, name);
    reply := Bold(status);
  }

  /**
   * The handler: no reply to the bot's own messages; otherwise one reply
   * per tag, in order, each as `Reply` gives it.
   */
  method HandleStatus(content: string, author: string, botId: string,
                      eventsOf: string -> seq<Event>, statusOf: (string, string) -> string, now: int)
    returns (replies: seq<string>)
    ensures author == botId ==> replies == []
    ensures author != botId ==> |replies| == |Tags(content)|
    ensures author != botId ==> forall i :: 0 <= i < |replies| ==> replies[i] == Reply(Tags(content)[i], eventsOf, statusOf, now)
  {
    replies := [];
    if author == botId {
      return;
    }
    var tags := Tags(content);
    for i := 0 to |tags|
      invariant |replies| == i
      invariant forall j :: 0 <= j < i ==> replies[j] == Reply(tags[j], eventsOf, statusOf, now)
    {
      var reply := ReplyTo(tags[i], eventsOf, statusOf, now);
      replies := replies + [reply];
    }
  }
}
