/**
 * The draft-proposal grammar: four consecutive lines
 *
 *   Name: <\w+>
 *   Teams: <link>
 *   Rounds: <\d+>
 *   Date: <\d\d/\d\d@\d\d:\d\d>
 *
 * found anywhere in a message (the expression is not anchored), scanned the
 * way Go's `FindStringSubmatch` does: the leftmost start at which the whole
 * block matches wins.
 */
module Proposal {
  import opened Options
  import opened Text
  import opened Dates

  /** The four capture groups of the grammar, as text. */
  datatype Captures = Captures(name: string, teams: string, rounds: string, date: string)

  /** `[-a-zA-Z0-9@:%._\/\+~#=]`: characters of a link before its top-level domain. */
  predicate IsHostChar(c: char)
  {
    IsDigit(c) || IsLower(c) || IsUpper(c) || c in "-@:%._/+~#="
  }

  /** `[-a-zA-Z0-9@:%_\+.~#?&//=]`: characters of a link after its top-level domain. */
  predicate IsPathChar(c: char)
  {
    IsDigit(c) || IsLower(c) || IsUpper(c) || c in "-@:%_+.~#?&/="
  }

  /**
   * `t` read as `[host]{2,256}\.[a-z]{2,6}\b[path]*` with the dot at `i` and a
   * top-level domain of `n` letters. In a match the link is followed by a
   * line feed, so a domain at the very end of `t` ends on a word boundary.
   */
  predicate UrlSplit(t: string, i: int, n: int)
  {
    && 2 <= i <= 256 && 2 <= n <= 6 && i + 1 + n <= |t|
    && (forall k :: 0 <= k < i ==> IsHostChar(t[k]))
    && t[i] == '.'
    && (forall k :: i < k <= i + n ==> IsLower(t[k]))
    && (i + 1 + n == |t| || !IsWordChar(t[i + 1 + n]))
    && (forall k :: i + 1 + n <= k < |t| ==> IsPathChar(t[k]))
  }

  /** The teams link as the grammar's second group admits it: some split fits. */
  ghost predicate IsUrl(t: string)
  {
    exists i, n :: UrlSplit(t, i, n)
  }

  /** The scanner for `IsUrl`: tries each position of the dot from `i` on. */
  predicate UrlFrom(t: string, i: nat)
    decreases |t| - i
  {
    i < |t|
    && (UrlSplit(t, i, 2) || UrlSplit(t, i, 3) || UrlSplit(t, i, 4) || UrlSplit(t, i, 5)
        || UrlSplit(t, i, 6) || UrlFrom(t, i + 1))
  }

  predicate IsUrlToken(t: string)
  {
    UrlFrom(t, 0)
  }

  /** What the scanner accepts has a split that fits. */
  lemma {:induction false} UrlFromSound(t: string, i: nat)
    requires UrlFrom(t, i)
    ensures exists k, n :: i <= k && UrlSplit(t, k, n)
    decreases |t| - i
  {
    if UrlSplit(t, i, 2) || UrlSplit(t, i, 3) || UrlSplit(t, i, 4) || UrlSplit(t, i, 5) || UrlSplit(t, i, 6) {
    } else {
      UrlFromSound(t, i + 1);
      var k, n :| i + 1 <= k && UrlSplit(t, k, n);
      assert i <= k;
    }
  }

  /** A split that fits at or after `i` is found by the scanner. */
  lemma {:induction false} UrlFromComplete(t: string, i: nat, k: nat, n: int)
    requires i <= k && UrlSplit(t, k, n)
    ensures UrlFrom(t, i)
    decreases k - i
  {
    assert i < |t|;
    if k > i {
      UrlFromComplete(t, i + 1, k, n);
    } else {
      assert n == 2 || n == 3 || n == 4 || n == 5 || n == 6;
    }
  }

  /** The scanner accepts a link exactly when some split of it fits the expression. */
  lemma UrlTokenIff(t: string)
    ensures IsUrlToken(t) <==> IsUrl(t)
  {
    if IsUrlToken(t) {
      UrlFromSound(t, 0);
    }
    if IsUrl(t) {
      var k, n :| UrlSplit(t, k, n);
      UrlFromComplete(t, 0, k, n);
    }
  }

  lemma UrlTokenOneLine(t: string)
    requires IsUrlToken(t)
    ensures OneLine(t)
  {
    UrlTokenIff(t);
    var i, n :| UrlSplit(t, i, n);
    forall k | 0 <= k < |t| ensures t[k] != '\n' {
      if k < i {
        assert IsHostChar(t[k]);
      } else if i + 1 + n <= k {
        assert IsPathChar(t[k]);
      }
    }
  }

  /** Captures the grammar can produce. */
  predicate WellFormed(c: Captures)
  {
    && |c.name| > 0 && AllWord(c.name)
    && IsUrlToken(c.teams)
    && |c.rounds| > 0 && AllDigits(c.rounds)
    && IsClockText(c.date)
  }

  /** The `Date:` line of a block. */
  function DateText(date: string): string
  {
    "\nDate: " + date
  }

  /** The block from its `Rounds:` line on. */
  function RoundsText(rounds: string, date: string): string
  {
    "\nRounds: " + (rounds + DateText(date))
  }

  /** The block from its `Teams:` line on. */
  function TeamsText(teams: string, rounds: string, date: string): string
  {
    "\nTeams: " + (teams + RoundsText(rounds, date))
  }

  /** The block of text whose four groups are `c`. */
  function Render(c: Captures): string
  {
    "Name: " + (c.name + TeamsText(c.teams, c.rounds, c.date))
  }

  /** `t` split before its first line feed. */
  function SplitLine(t: string): (r: (string, string))
    ensures r.0 + r.1 == t && OneLine(r.0)
    ensures r.1 == [] || r.1[0] == '\n'
  {
    if t == [] || t[0] == '\n' then ([], t)
    else
      var (line, rest) := SplitLine(t[1..]);
      assert [t[0]] + line + rest == t;
      ([t[0]] + line, rest)
  }

  lemma {:induction false} SplitLineOf(x: string, u: string)
    requires OneLine(x) && u != [] && u[0] == '\n'
    ensures SplitLine(x + u) == (x, u)
  {
    if x != [] {
      assert (x + u)[0] == x[0];
      assert (x + u)[1..] == x[1..] + u;
      SplitLineOf(x[1..], u);
      assert [x[0]] + x[1..] == x;
    } else {
      assert x + u == u;
    }
  }

  /** What follows `word` when `t` starts with it. */
  function After(t: string, word: string): Option<string>
  {
    if word <= t then Some(t[|word|..]) else None
  }

  lemma AfterOf(word: string, u: string)
    ensures After(word + u, word) == Some(u)
  {
    assert (word + u)[..|word|] == word;
  }

  /** A line that starts with `word`: the text after `word` up to the line feed, and what follows. */
  function Labelled(t: string, word: string): Option<(string, string)>
  {
    match After(t, word)
    case None => None
    case Some(u) => Some(SplitLine(u))
  }

  lemma LabelledSound(t: string, word: string)
    requires Labelled(t, word).Some?
    ensures t == word + (Labelled(t, word).value.0 + Labelled(t, word).value.1)
  {
    assert t == word + t[|word|..];
  }

  lemma LabelledOf(word: string, x: string, u: string)
    requires OneLine(x) && u != [] && u[0] == '\n'
    ensures Labelled(word + (x + u), word) == Some((x, u))
  {
    AfterOf(word, x + u);
    SplitLineOf(x, u);
  }

  /** Prefixes survive putting the same text in front. */
  lemma PrefixAfter(x: string, a: string, b: string)
    requires a <= b
    ensures x + a <= x + b
  {
    assert (x + b)[..|x + a|] == x + b[..|a|];
  }

  /** The `Date:` line at the start of `t`. */
  function DateStage(t: string): Option<string>
  {
    match After(t, "\nDate: ")
    case None => None
    case Some(t7) => if |t7| >= 11 && IsClockText(t7[..11]) then Some(t7[..11]) else None
  }

  lemma DateStageSound(t: string)
    requires DateStage(t).Some?
    ensures IsClockText(DateStage(t).value) && DateText(DateStage(t).value) <= t
  {
    var t7 := After(t, "\nDate: ").value;
    assert t == "\nDate: " + t7;
    PrefixAfter("\nDate: ", t7[..11], t7);
  }

  lemma DateStageOf(date: string, rest: string)
    requires IsClockText(date)
    ensures DateStage(DateText(date) + rest) == Some(date)
  {
    assert DateText(date) + rest == "\nDate: " + (date + rest);
    AfterOf("\nDate: ", date + rest);
    assert (date + rest)[..11] == date;
  }

  /** The `Rounds:` and `Date:` lines at the start of `t`. */
  function RoundsStage(t: string): Option<(string, string)>
  {
    match Labelled(t, "\nRounds: ")
    case None => None
    case Some((rounds, t6)) =>
      if !(|rounds| > 0 && AllDigits(rounds)) then None
      else match DateStage(t6)
      case None => None
      case Some(date) => Some((rounds, date))
  }

  lemma RoundsStageSound(t: string)
    requires RoundsStage(t).Some?
    ensures var (rounds, date) := RoundsStage(t).value;
      |rounds| > 0 && AllDigits(rounds) && IsClockText(date) && RoundsText(rounds, date) <= t
  {
    var (rounds, t6) := Labelled(t, "\nRounds: ").value;
    LabelledSound(t, "\nRounds: ");
    DateStageSound(t6);
    PrefixAfter(rounds, DateText(DateStage(t6).value), t6);
    PrefixAfter("\nRounds: ", rounds + DateText(DateStage(t6).value), rounds + t6);
  }

  lemma RoundsStageOf(rounds: string, date: string, rest: string)
    requires |rounds| > 0 && AllDigits(rounds) && IsClockText(date)
    ensures RoundsStage(RoundsText(rounds, date) + rest) == Some((rounds, date))
  {
    var t6 := DateText(date) + rest;
    assert RoundsText(rounds, date) + rest == "\nRounds: " + (rounds + t6);
    forall k | 0 <= k < |rounds| ensures rounds[k] != '\n' {
      assert IsDigit(rounds[k]);
    }
    LabelledOf("\nRounds: ", rounds, t6);
    DateStageOf(date, rest);
  }

  /** The `Teams:`, `Rounds:` and `Date:` lines at the start of `t`. */
  function TeamsStage(t: string): Option<(string, string, string)>
  {
    match Labelled(t, "\nTeams: ")
    case None => None
    case Some((teams, t4)) =>
      if !IsUrlToken(teams) then None
      else match RoundsStage(t4)
      case None => None
      case Some((rounds, date)) => Some((teams, rounds, date))
  }

  lemma TeamsStageSound(t: string)
    requires TeamsStage(t).Some?
    ensures var (teams, rounds, date) := TeamsStage(t).value;
      IsUrlToken(teams) && |rounds| > 0 && AllDigits(rounds) && IsClockText(date)
      && TeamsText(teams, rounds, date) <= t
  {
    var (teams, t4) := Labelled(t, "\nTeams: ").value;
    LabelledSound(t, "\nTeams: ");
    RoundsStageSound(t4);
    var (rounds, date) := RoundsStage(t4).value;
    PrefixAfter(teams, RoundsText(rounds, date), t4);
    PrefixAfter("\nTeams: ", teams + RoundsText(rounds, date), teams + t4);
  }

  lemma TeamsStageOf(teams: string, rounds: string, date: string, rest: string)
    requires IsUrlToken(teams) && |rounds| > 0 && AllDigits(rounds) && IsClockText(date)
    ensures TeamsStage(TeamsText(teams, rounds, date) + rest) == Some((teams, rounds, date))
  {
    var t4 := RoundsText(rounds, date) + rest;
    assert TeamsText(teams, rounds, date) + rest == "\nTeams: " + (teams + t4);
    UrlTokenOneLine(teams);
    LabelledOf("\nTeams: ", teams, t4);
    RoundsStageOf(rounds, date, rest);
  }

  /** The block at the start of `t`, scanned line by line. */
  function MatchBlock(t: string): Option<Captures>
  {
    match Labelled(t, "Name: ")
    case None => None
    case Some((name, t2)) =>
      if !(|name| > 0 && AllWord(name)) then None
      else match TeamsStage(t2)
      case None => None
      case Some((teams, rounds, date)) => Some(Captures(name, teams, rounds, date))
  }

  /** Whether the block matches starting exactly at index `i`, and its groups. */
  function MatchAt(s: string, i: nat): Option<Captures>
    requires i <= |s|
  {
    MatchBlock(s[i..])
  }

  /** A match found by the scanner is a well-formed block at the start of `t`. */
  lemma MatchBlockSound(t: string)
    requires MatchBlock(t).Some?
    ensures WellFormed(MatchBlock(t).value) && Render(MatchBlock(t).value) <= t
  {
    var (name, t2) := Labelled(t, "Name: ").value;
    LabelledSound(t, "Name: ");
    TeamsStageSound(t2);
    var c := MatchBlock(t).value;
    PrefixAfter(name, TeamsText(c.teams, c.rounds, c.date), t2);
    PrefixAfter("Name: ", name + TeamsText(c.teams, c.rounds, c.date), name + t2);
  }

  /** Every well-formed block at the start of `t` is what the scanner finds there. */
  lemma MatchBlockComplete(c: Captures, rest: string)
    requires WellFormed(c)
    ensures MatchBlock(Render(c) + rest) == Some(c)
  {
    var t2 := TeamsText(c.teams, c.rounds, c.date) + rest;
    assert Render(c) + rest == "Name: " + (c.name + t2);
    forall k | 0 <= k < |c.name| ensures c.name[k] != '\n' {
      assert IsWordChar(c.name[k]);
    }
    LabelledOf("Name: ", c.name, t2);
    TeamsStageOf(c.teams, c.rounds, c.date, rest);
  }

  /** A block is matched at the start of `t` exactly when `t` starts with its rendering. */
  lemma MatchBlockIff(t: string, c: Captures)
    ensures MatchBlock(t) == Some(c) <==> WellFormed(c) && Render(c) <= t
  {
    if MatchBlock(t) == Some(c) {
      MatchBlockSound(t);
    }
    if WellFormed(c) && Render(c) <= t {
      assert t == Render(c) + t[|Render(c)|..];
      MatchBlockComplete(c, t[|Render(c)|..]);
    }
  }

  /** The scanner's answer at `i` is exactly the well-formed block starting there. */
  lemma MatchAtIff(s: string, i: nat, c: Captures)
    requires i <= |s|
    ensures MatchAt(s, i) == Some(c) <==> WellFormed(c) && Render(c) <= s[i..]
  {
    MatchBlockIff(s[i..], c);
  }

  /** The scanner's answer at every start index of `s`, in order. */
  function Hits(s: string): (h: seq<Option<Captures>>)
    ensures |h| == |s| + 1 && forall k :: 0 <= k <= |s| ==> h[k] == MatchAt(s, k)
  {
    seq(|s| + 1, k requires 0 <= k <= |s| => MatchAt(s, k))
  }

  /** The first answer from index `i` on that is a match. */
  function FirstSome(xs: seq<Option<Captures>>, i: nat): Option<Captures>
    requires i <= |xs|
    decreases |xs| - i
  {
    if i == |xs| then None else if xs[i].Some? then xs[i] else FirstSome(xs, i + 1)
  }

  /** The first match is one of the answers, and every answer before it is no match. */
  lemma {:induction false} FirstSomeSpec(xs: seq<Option<Captures>>, i: nat)
    requires i <= |xs|
    ensures FirstSome(xs, i).Some? ==>
      exists k :: i <= k < |xs| && xs[k] == FirstSome(xs, i) && forall j :: i <= j < k ==> xs[j].None?
    ensures FirstSome(xs, i).None? ==> forall k :: i <= k < |xs| ==> xs[k].None?
    decreases |xs| - i
  {
    if i < |xs| && xs[i].None? {
      FirstSomeSpec(xs, i + 1);
    }
  }

  lemma FoundIsWellFormed(s: string)
    ensures FirstSome(Hits(s), 0).Some? ==> WellFormed(FirstSome(Hits(s), 0).value)
  {
    var h := Hits(s);
    FirstSomeSpec(h, 0);
    if FirstSome(h, 0).Some? {
      var k :| 0 <= k < |h| && h[k] == FirstSome(h, 0);
      MatchBlockSound(s[k..]);
    }
  }

  /** `draftRegex.FindStringSubmatch(s)`: the groups of the leftmost block, if any. */
  function Find(s: string): (r: Option<Captures>)
    ensures r.Some? ==> WellFormed(r.value)
  {
    FoundIsWellFormed(s);
    FirstSome(Hits(s), 0)
  }

  /** A well-formed block `c` starts at index `i` of `s`. */
  ghost predicate BlockAt(s: string, i: int, c: Captures)
  {
    0 <= i <= |s| && WellFormed(c) && Render(c) <= s[i..]
  }

  /**
   * A message yields groups exactly when it contains a well-formed block,
   * and then they are those of the leftmost one.
   */
  lemma FindSpec(s: string)
    ensures Find(s).None? <==> forall i, c :: !BlockAt(s, i, c)
    ensures Find(s).Some? ==>
      exists i :: BlockAt(s, i, Find(s).value) && forall j, c :: 0 <= j < i ==> !BlockAt(s, j, c)
  {
    var h := Hits(s);
    FirstSomeSpec(h, 0);
    if Find(s).None? {
      forall i, c | BlockAt(s, i, c) ensures false {
        MatchAtIff(s, i, c);
      }
    } else {
      var k :| 0 <= k < |h| && h[k] == Find(s) && forall j :: 0 <= j < k ==> h[j].None?;
      MatchAtIff(s, k, Find(s).value);
      forall j, c | 0 <= j < k && BlockAt(s, j, c) ensures false {
        MatchAtIff(s, j, c);
      }
      assert BlockAt(s, k, Find(s).value);
    }
  }

  /** A well-formed block at the start of a message is the one found. */
  lemma FindRendered(c: Captures, rest: string)
    requires WellFormed(c)
    ensures Find(Render(c) + rest) == Some(c)
  {
    var s := Render(c) + rest;
    assert s[0..] == s;
    MatchBlockComplete(c, rest);
  }
}
